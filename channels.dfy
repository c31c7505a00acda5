/** Message routing and the chat commands shared by every channel (src/channels/mod.rs):
    what to do with an incoming message, the built-in commands and the `/cron`
    subcommands, resolving a job by ID prefix, image references, and the per-user queue
    of messages waiting for the model.

    Everything the source reads from disk or the system (the cron table, the installed
    skills, whether onboarding is complete, the generated job ID, the clock, the random
    seeds, whether a save fails) is an input here; the stores are the in-memory objects. */
module Channels {
  import opened Wrappers
  import opened Strings
  import opened Schedule
  import opened Store
  import opened Cron
  import opened Pairing
  import opened Skills

  /** What to do with a message. */
  datatype MessageAction =
    | SendResponse(response: string)
    | ExecuteCronJob(jobId: string)
    | Onboarding(message: string)
    | QueryClaude(text: string)
    | NeedsPairing(code: string)
    | Ignore

  /** Outcome of the command step. */
  datatype CommandResult = NotACommand | Response(text: string) | CronRun(jobId: string)

  /** The inputs the source takes from its surroundings: the date-time collaborators, the
      clock in milliseconds (cron) and in seconds (pairing), the ID a new job would get,
      the installed skills, the seeds of the pairing-code generator, and the error a
      save reports, if any. */
  datatype World = World(
    env: TimeEnv,
    nowMs: nat,
    nowSecs: nat,
    newJobId: string,
    skills: seq<Skill>,
    seeds: seq<bv64>,
    saveError: Option<string>)

  // ---------------------------------------------------------------- message routing

  /** The (trimmed) texts the command step answers. */
  predicate IsCommand(t: string) {
    t == "/commands" || t == "/new" || t == "/skills" || StartsWith(t, "/cron")
  }

  /** The rest of `determine_action`, for an approved user once the command step has
      run on the trimmed text `t`. */
  function ActionFor(cmd: CommandResult, t: string, onboardingComplete: bool): (a: MessageAction)
    ensures a.QueryClaude? <==> cmd.NotACommand? && onboardingComplete && t != "/start" && t != []
    ensures a.QueryClaude? ==> a.text == t
    ensures a.Onboarding? <==> cmd.NotACommand? && !onboardingComplete
    ensures cmd.Response? ==> a == SendResponse(cmd.text)
    ensures cmd.CronRun? ==> a == ExecuteCronJob(cmd.jobId)
    ensures a.Onboarding? ==> a.message == (if t == "/start" then "hi" else t)
    ensures a == Ignore <==> cmd.NotACommand? && onboardingComplete && (t == "/start" || t == [])
    ensures !a.NeedsPairing?
  {
    match cmd
    case Response(response) => SendResponse(response)
    case CronRun(id) => ExecuteCronJob(id)
    case NotACommand =>
      if !onboardingComplete then Onboarding(if t == "/start" then "hi" else t)
      else if t == "/start" then Ignore
      else if t == [] then Ignore
      else QueryClaude(t)
  }

  // ---------------------------------------------------------------- images

  /** One step of `build_text_with_images`: a path that is not valid UTF-8 is skipped
      (its index still counts); the first reference replaces an empty text, follows a
      text after a blank line when it is path 0, and follows a space otherwise. */
  function WithImage(result: string, i: nat, path: Option<string>): string {
    match path
    case None => result
    case Some(p) =>
      if result == [] then "@" + p
      else if i == 0 then result + "\n\n@" + p
      else result + " @" + p
  }

  /** The text after the first `n` paths. */
  function WithImages(text: string, paths: seq<Option<string>>, n: nat): string
    requires n <= |paths|
    decreases n
  {
    if n == 0 then text else WithImage(WithImages(text, paths, n - 1), n - 1, paths[n - 1])
  }

  /** `build_text_with_images`. */
  method BuildTextWithImages(text: string, paths: seq<Option<string>>) returns (result: string)
    ensures result == WithImages(text, paths, |paths|)
  {
    result := text;
    var i := 0;
    while i < |paths|
      invariant 0 <= i <= |paths|
      invariant result == WithImages(text, paths, i)
    {
      var path := paths[i];
      if path.Some? {
        if result == [] {
          result := "@" + path.value;
        } else if i == 0 {
          result := result + "\n\n@" + path.value;
        } else {
          result := result + " @" + path.value;
        }
      }
      i := i + 1;
    }
  }

  /** Every path valid UTF-8. */
  function AllPaths(ps: seq<string>): (r: seq<Option<string>>)
    ensures |r| == |ps| && forall i :: 0 <= i < |r| ==> r[i] == Some(ps[i])
  {
    seq(|ps|, i requires 0 <= i < |ps| => Some(ps[i]))
  }

  /** " @p" for each path, in order. */
  function SpacedRefs(ps: seq<string>): string
    decreases |ps|
  {
    if ps == [] then "" else SpacedRefs(ps[..|ps| - 1]) + " @" + ps[|ps| - 1]
  }

  /** No paths leave the text as it is. */
  lemma NoImages(text: string, paths: seq<Option<string>>)
    requires forall i :: 0 <= i < |paths| ==> paths[i].None?
    ensures WithImages(text, paths, |paths|) == text
  {
    NoneSkipped(text, paths, |paths|);
  }

  lemma {:induction false} NoneSkipped(text: string, paths: seq<Option<string>>, n: nat)
    requires n <= |paths|
    requires forall i :: 0 <= i < |paths| ==> paths[i].None?
    ensures WithImages(text, paths, n) == text
    decreases n
  {
    if n > 0 {
      NoneSkipped(text, paths, n - 1);
    }
  }

  /** With every path valid: a text, a blank line, then "@p0" and " @p1" … ; an empty
      text gives "@p0 @p1 …". */
  lemma {:induction false} ImagesAfterText(text: string, ps: seq<string>, n: nat)
    requires 1 <= n <= |ps|
    ensures text != [] ==> WithImages(text, AllPaths(ps), n) == text + "\n\n@" + ps[0] + SpacedRefs(ps[1..n])
    ensures text == [] ==> WithImages(text, AllPaths(ps), n) == "@" + ps[0] + SpacedRefs(ps[1..n])
    decreases n
  {
    var paths := AllPaths(ps);
    if n == 1 {
      assert ps[1..1] == [];
      assert WithImages(text, paths, 0) == text;
    } else {
      ImagesAfterText(text, ps, n - 1);
      var before := WithImages(text, paths, n - 1);
      assert before != [];
      assert WithImages(text, paths, n) == before + " @" + ps[n - 1];
      assert ps[1..n][..n - 2] == ps[1..n - 1];
      assert SpacedRefs(ps[1..n]) == SpacedRefs(ps[1..n - 1]) + " @" + ps[n - 1];
    }
  }

  // ---------------------------------------------------------------- jobs by ID or prefix

  /** The caller owns the job filed under exactly this ID. */
  predicate ExactOwned(jobs: map<string, CronJob>, channel: string, userId: string, id: string) {
    id in jobs && jobs[id].OwnedBy(channel, userId)
  }

  /** The entries of the caller's jobs whose IDs start with `id`. */
  function Matches(jobs: map<string, CronJob>, channel: string, userId: string, id: string): (m: set<string>)
    ensures forall k :: k in m <==> k in jobs && jobs[k].OwnedBy(channel, userId) && StartsWith(jobs[k].id, id)
  {
    set k | k in jobs && jobs[k].OwnedBy(channel, userId) && StartsWith(jobs[k].id, id)
  }

  /** Helper: a set of one element has no other. */
  lemma SingletonUnique<T>(s: set<T>, a: T, b: T)
    requires |s| == 1 && a in s && b in s
    ensures a == b
  {
    var rest := s - {a};
    assert |rest| == 0;
    assert b !in rest;
  }

  /** The job `find_job_id` settles on: the exact ID if the caller owns a job under it,
      else the only one of the caller's jobs whose ID starts with it, else none. */
  ghost function Target(jobs: map<string, CronJob>, channel: string, userId: string, id: string): (t: Option<string>)
    ensures ExactOwned(jobs, channel, userId, id) ==> t == Some(id)
    ensures !ExactOwned(jobs, channel, userId, id) ==> (t.Some? <==> |Matches(jobs, channel, userId, id)| == 1)
    ensures t.Some? ==> StartsWith(t.value, id)
    ensures t.Some? && !ExactOwned(jobs, channel, userId, id) ==>
              exists k :: k in Matches(jobs, channel, userId, id) && jobs[k].id == t.value
  {
    if ExactOwned(jobs, channel, userId, id) then
      assert id[..|id|] == id;
      Some(id)
    else if |Matches(jobs, channel, userId, id)| == 1 then
      var k :| k in Matches(jobs, channel, userId, id);
      Some(jobs[k].id)
    else None
  }

  /** Jobs filed under their own IDs (the cron table's invariant, on a bare map). */
  predicate FiledById(jobs: map<string, CronJob>) {
    forall k :: k in jobs ==> jobs[k].id == k
  }

  /** In a table where every job is filed under its ID, the job settled on is the
      caller's and is there under that ID. */
  lemma TargetIsOwned(jobs: map<string, CronJob>, channel: string, userId: string, id: string)
    requires FiledById(jobs)
    ensures var t := Target(jobs, channel, userId, id);
            t.Some? ==> t.value in jobs && jobs[t.value].OwnedBy(channel, userId)
  {
    var t := Target(jobs, channel, userId, id);
    if t.Some? && !ExactOwned(jobs, channel, userId, id) {
      var k :| k in Matches(jobs, channel, userId, id) && jobs[k].id == t.value;
    }
  }

  /** The error for an ambiguous prefix, listing the candidates' short IDs. */
  function AmbiguousError(id: string, shortIds: seq<string>): string {
    "Ambiguous job ID '" + id + "'. Matches: " + Join(shortIds, ", ")
  }

  /** `ks` lists every element of `m`, each once. */
  predicate Enumerates<T>(ks: seq<T>, m: set<T>) {
    (forall i :: 0 <= i < |ks| ==> ks[i] in m)
    && (forall k :: k in m ==> k in ks)
    && (forall i, j :: 0 <= i < j < |ks| ==> ks[i] != ks[j])
  }

  /** The short IDs of the jobs filed under `ks`, in that order. */
  function ShortIds(jobs: map<string, CronJob>, ks: seq<string>): (r: seq<string>)
    requires forall i :: 0 <= i < |ks| ==> ks[i] in jobs
    ensures |r| == |ks|
    ensures forall i :: 0 <= i < |ks| ==> r[i] == jobs[ks[i]].ShortId()
  {
    seq(|ks|, i requires 0 <= i < |ks| => jobs[ks[i]].ShortId())
  }

  /** `msg` is the ambiguity error for `id` listing the short ID of every job under a key
      in `m`, each once. */
  ghost predicate AmbiguityListing(jobs: map<string, CronJob>, id: string, m: set<string>, msg: string) {
    exists ks :: Enumerates(ks, m) && (forall i :: 0 <= i < |ks| ==> ks[i] in jobs)
                 && msg == AmbiguousError(id, ShortIds(jobs, ks))
  }

  /** Goes through the entries under `m` in some order, collecting their short IDs. */
  method CollectShortIds(jobs: map<string, CronJob>, m: set<string>) returns (ks: seq<string>, shortIds: seq<string>)
    requires m <= jobs.Keys
    ensures Enumerates(ks, m)
    ensures forall i :: 0 <= i < |ks| ==> ks[i] in jobs
    ensures shortIds == ShortIds(jobs, ks)
  {
    var remaining := m;
    ks, shortIds := [], [];
    while remaining != {}
      invariant remaining <= m
      invariant forall i :: 0 <= i < |ks| ==> ks[i] in m && ks[i] !in remaining
      invariant forall k :: k in m ==> k in remaining || k in ks
      invariant forall i, j :: 0 <= i < j < |ks| ==> ks[i] != ks[j]
      invariant forall i :: 0 <= i < |ks| ==> ks[i] in jobs
      invariant shortIds == ShortIds(jobs, ks)
      decreases |remaining|
    {
      var k :| k in remaining;
      shortIds := shortIds + [jobs[k].ShortId()];
      ks := ks + [k];
      remaining := remaining - {k};
    }
  }

  /** `find_job_id`: the job settled on, else "not found" when no job matches and
      "ambiguous" when several do, listing the short ID of every candidate once, in the
      table's iteration order. */
  method FindJobId(cron: CronStore, channel: string, userId: string, idOrPrefix: string)
    returns (r: Result<string>)
    ensures var id := Trim(idOrPrefix);
            var t := Target(cron.jobs, channel, userId, id);
            (t.Some? ==> r == Ok(t.value))
            && (t.None? && |Matches(cron.jobs, channel, userId, id)| == 0 ==> r == Err("Job not found: " + id))
            && (t.None? && |Matches(cron.jobs, channel, userId, id)| > 1 ==>
                  r.Err? && AmbiguityListing(cron.jobs, id, Matches(cron.jobs, channel, userId, id), r.msg))
  {
    var id := Trim(idOrPrefix);
    if cron.Get(id, channel, userId).Some? {
      return Ok(id);
    }
    var matches := Matches(cron.jobs, channel, userId, id);
    if |matches| == 0 {
      return Err("Job not found: " + id);
    }
    if |matches| == 1 {
      var k :| k in matches;
      ghost var t := Target(cron.jobs, channel, userId, id);
      ghost var k' :| k' in matches && cron.jobs[k'].id == t.value;
      SingletonUnique(matches, k, k');
      return Ok(cron.jobs[k].id);
    }
    var ks, shortIds := CollectShortIds(cron.jobs, matches);
    r := Err(AmbiguousError(id, shortIds));
    assert AmbiguityListing(cron.jobs, id, matches, r.msg);
  }

  // ---------------------------------------------------------------- listings

  /** One line of a listing: the prefix, then "name - description". */
  function ListingLine(prefix: string, item: (string, string)): string {
    prefix + item.0 + " - " + item.1
  }

  /** The lines of a listing, one per item, in order. */
  function ListingLines(prefix: string, items: seq<(string, string)>): (r: seq<string>)
    ensures |r| == |items|
    ensures forall i :: 0 <= i < |items| ==> r[i] == ListingLine(prefix, items[i])
  {
    seq(|items|, i requires 0 <= i < |items| => ListingLine(prefix, items[i]))
  }

  /** A header followed by one line per item. */
  function ListingText(header: string, prefix: string, items: seq<(string, string)>): string {
    header + Concat(ListingLines(prefix, items))
  }

  /** Helper: every part of a concatenation occurs in it, between what comes before and
      what comes after. */
  lemma ConcatHasPart(parts: seq<string>, i: nat)
    requires i < |parts|
    ensures Concat(parts) == Concat(parts[..i]) + parts[i] + Concat(parts[i + 1..])
  {
    assert parts == parts[..i + 1] + parts[i + 1..];
    ConcatAppend(parts[..i + 1], parts[i + 1..]);
    ConcatPrefix(parts, i);
  }

  /** Every item is shown, on its own line, after the items before it. */
  lemma ListingShowsItem(header: string, prefix: string, items: seq<(string, string)>, i: nat)
    requires i < |items|
    ensures var lines := ListingLines(prefix, items);
            ListingText(header, prefix, items)
            == header + Concat(lines[..i]) + ListingLine(prefix, items[i]) + Concat(lines[i + 1..])
  {
    var lines := ListingLines(prefix, items);
    ConcatHasPart(lines, i);
  }

  /** Every item's name and description appear in the listing, after the prefix. */
  lemma ListingNamesItem(header: string, prefix: string, items: seq<(string, string)>, i: nat)
    requires i < |items|
    ensures exists before, after :: ListingText(header, prefix, items)
              == before + prefix + items[i].0 + " - " + items[i].1 + after
  {
    var lines := ListingLines(prefix, items);
    ListingShowsItem(header, prefix, items, i);
    var before := header + Concat(lines[..i]);
    var after := Concat(lines[i + 1..]);
    var line := ListingLine(prefix, items[i]);
    AppendAssoc(before, line, after);
    assert ListingText(header, prefix, items) == before + prefix + items[i].0 + " - " + items[i].1 + after;
  }

  /** The loop that builds a listing: the header, then each item's line appended. */
  method Listing(header: string, prefix: string, items: seq<(string, string)>) returns (text: string)
    ensures text == ListingText(header, prefix, items)
  {
    text := header;
    ghost var lines := ListingLines(prefix, items);
    var i := 0;
    while i < |items|
      invariant 0 <= i <= |items|
      invariant text == header + Concat(lines[..i])
    {
      ghost var done := Concat(lines[..i]);
      ConcatPrefix(lines, i);
      AppendAssoc(header, done, lines[i]);
      text := text + ListingLine(prefix, items[i]);
      i := i + 1;
    }
    assert lines[..|items|] == lines;
  }

  /** `COMMANDS`: the built-in commands and what they do. */
  const COMMANDS: seq<(string, string)> := [
    ("/commands", "Show available commands"),
    ("/new", "Start a new conversation"),
    ("/skills", "List available skills"),
    ("/cron", "Manage scheduled jobs")]

  /** The reply to `/commands`. */
  function CommandsText(): string {
    ListingText("Available commands:\n", "\n", COMMANDS)
  }

  /** Name and description of each skill. */
  function SkillItems(skills: seq<Skill>): (r: seq<(string, string)>)
    ensures |r| == |skills|
    ensures forall i :: 0 <= i < |skills| ==> r[i] == (skills[i].name, skills[i].description)
  {
    seq(|skills|, i requires 0 <= i < |skills| => (skills[i].name, skills[i].description))
  }

  const NO_SKILLS := "No skills installed."

  /** The reply to `/skills`: one bulleted line per installed skill. */
  function SkillsText(skills: seq<Skill>): string {
    if skills == [] then NO_SKILLS else ListingText("Available skills:\n", "\n\U{2022} ", SkillItems(skills))
  }

  /** `/skills` names every installed skill with its description. */
  lemma SkillsTextShowsSkill(skills: seq<Skill>, i: nat)
    requires i < |skills|
    ensures exists before, after :: SkillsText(skills)
              == before + "\n\U{2022} " + skills[i].name + " - " + skills[i].description + after
  {
    ListingNamesItem("Available skills:\n", "\n\U{2022} ", SkillItems(skills), i);
  }

  // ---------------------------------------------------------------- /cron replies

  const NO_JOBS := "No scheduled jobs.\n\nUse /cron add to create one. Try /cron help for usage."

  const ADD_HELP := "Usage: /cron add <schedule> <prompt>\n\n"
    + "Examples:\n"
    + "/cron add every 1h Check my emails\n"
    + "/cron add every 10s Say hello\n"
    + "/cron add 0 9 * * * Good morning!"

  const CRON_HELP := "Cron job commands:\n\n"
    + "/cron list - List your scheduled jobs\n"
    + "/cron add <schedule> <prompt> - Create a new job\n"
    + "/cron remove <job-id> - Delete a job\n"
    + "/cron run <job-id> - Run immediately (for testing)\n"
    + "/cron pause <job-id> - Pause a job\n"
    + "/cron resume <job-id> - Resume a paused job\n\n"
    + "Schedule formats:\n"
    + "\U{2022} every 10s / every 5m / every 1h - Recurring interval\n"
    + "\U{2022} at 2024-01-28 14:00 - One-time execution\n"
    + "\U{2022} 0 9 * * * - Cron expression (9 AM daily)\n\n"
    + "Examples:\n"
    + "/cron add every 1h Check my inbox\n"
    + "/cron add every 10s Say hello\n"
    + "/cron add 0 9 * * * Good morning!"

  /** A next-run time in local time, or the fallback when there is none. */
  function NextText(env: TimeEnv, next: Option<nat>, fallback: string): (s: string)
    ensures next.None? ==> s == fallback
    ensures next.Some? ==> s == FormatTimestamp(env, next.value)
  {
    match next
    case None => fallback
    case Some(t) => FormatTimestamp(env, t)
  }

  /** One job of `/cron list`. */
  function ListEntry(env: TimeEnv, job: CronJob): string {
    "\n[" + job.ShortId() + "] " + job.name + (if job.enabled then "" else " (paused)")
    + "\n  Schedule: " + Description(env, job.schedule)
    + "\n  Status: " + job.state.lastStatus.AsStr()
    + " | Next: " + NextText(env, job.state.nextRunAt, "\U{2014}") + "\n"
  }

  /** The entries of the caller's jobs. */
  function OwnedKeys(jobs: map<string, CronJob>, channel: string, userId: string): (s: set<string>)
    ensures forall k :: k in s <==> k in jobs && jobs[k].OwnedBy(channel, userId)
  {
    set k | k in jobs && jobs[k].OwnedBy(channel, userId)
  }

  /** An order in which to show the caller's jobs: each of them exactly once. */
  predicate IsListingOrder(jobs: map<string, CronJob>, channel: string, userId: string, order: seq<string>) {
    (forall i :: 0 <= i < |order| ==> order[i] in OwnedKeys(jobs, channel, userId))
    && (forall k :: k in OwnedKeys(jobs, channel, userId) ==> k in order)
    && (forall i, j :: 0 <= i < j < |order| ==> order[i] != order[j])
  }

  /** The entries of the jobs under the given keys, in that order. */
  function JobEntries(env: TimeEnv, jobs: map<string, CronJob>, order: seq<string>): (r: seq<string>)
    requires forall k :: k in order ==> k in jobs
    ensures |r| == |order|
    ensures forall i :: 0 <= i < |order| ==> r[i] == ListEntry(env, jobs[order[i]])
  {
    seq(|order|, i requires 0 <= i < |order| => ListEntry(env, jobs[order[i]]))
  }

  /** `/cron list` with jobs to show. */
  function JobsText(env: TimeEnv, jobs: map<string, CronJob>, order: seq<string>): string
    requires forall k :: k in order ==> k in jobs
  {
    "Your scheduled jobs:\n" + Concat(JobEntries(env, jobs, order))
  }

  /** Helper: one more entry at the end of the listing. */
  lemma JobsTextSnoc(env: TimeEnv, jobs: map<string, CronJob>, order: seq<string>, k: string)
    requires (forall k' :: k' in order ==> k' in jobs) && k in jobs
    ensures JobsText(env, jobs, order + [k]) == JobsText(env, jobs, order) + ListEntry(env, jobs[k])
  {
    var entries := JobEntries(env, jobs, order);
    var entry := ListEntry(env, jobs[k]);
    assert JobEntries(env, jobs, order + [k]) == entries + [entry];
    ConcatAppend(entries, [entry]);
    assert Concat([entry]) == entry by {
      assert [entry][..0] == [];
    }
    AppendAssoc("Your scheduled jobs:\n", Concat(entries), entry);
  }

  /** The reply to `/cron list`: every one of the caller's jobs once, in some order (the
      table's iteration order), or a hint when there are none. */
  ghost predicate ListReply(env: TimeEnv, jobs: map<string, CronJob>, channel: string, userId: string,
                            r: Result<CommandResult>) {
    if OwnedKeys(jobs, channel, userId) == {} then r == Ok(Response(NO_JOBS))
    else exists order :: IsListingOrder(jobs, channel, userId, order)
                         && |order| == |OwnedKeys(jobs, channel, userId)|
                         && r == Ok(Response(JobsText(env, jobs, order)))
  }

  /** Progress through a set: `order` lists, once each, what has been taken out of
      `remaining`. */
  ghost predicate OrderSoFar(owned: set<string>, remaining: set<string>, order: seq<string>) {
    remaining <= owned
    && (forall k :: k in order <==> k in owned && k !in remaining)
    && (forall i, j :: 0 <= i < j < |order| ==> order[i] != order[j])
    && |order| + |remaining| == |owned|
  }

  /** Helper: taking one more element out of the set. */
  lemma OrderStep(owned: set<string>, remaining: set<string>, order: seq<string>, k: string)
    requires OrderSoFar(owned, remaining, order) && k in remaining
    ensures OrderSoFar(owned, remaining - {k}, order + [k])
  {
  }

  /** The `/cron list` loop. */
  method ListJobs(cron: CronStore, channel: string, userId: string, env: TimeEnv)
    returns (response: string, order: seq<string>)
    ensures OwnedKeys(cron.jobs, channel, userId) == {} ==> response == NO_JOBS
    ensures OwnedKeys(cron.jobs, channel, userId) != {} ==>
              IsListingOrder(cron.jobs, channel, userId, order)
              && |order| == |OwnedKeys(cron.jobs, channel, userId)|
              && response == JobsText(env, cron.jobs, order)
  {
    var owned := OwnedKeys(cron.jobs, channel, userId);
    if owned == {} {
      return NO_JOBS, [];
    }
    var remaining := owned;
    response := "Your scheduled jobs:\n";
    order := [];
    while remaining != {}
      invariant OrderSoFar(owned, remaining, order)
      invariant forall k :: k in order ==> k in cron.jobs
      invariant response == JobsText(env, cron.jobs, order)
      decreases |remaining|
    {
      var k :| k in remaining;
      JobsTextSnoc(env, cron.jobs, order, k);
      OrderStep(owned, remaining, order, k);
      response := response + ListEntry(env, cron.jobs[k]);
      order := order + [k];
      remaining := remaining - {k};
    }
  }

  /** The job `/cron add` creates: named after the start of its prompt. */
  function AddedJob(w: World, schedule: CronSchedule, prompt: string, channel: string, userId: string): (j: CronJob)
    ensures j.id == w.newJobId && j.OwnedBy(channel, userId) && j.enabled
    ensures j.prompt == prompt && j.schedule == schedule && j.name == TruncateForName(prompt, 30)
  {
    NewJob(w.env, w.newJobId, TruncateForName(prompt, 30), prompt, schedule, channel, userId, w.nowMs)
  }

  /** The "Next run" of a new job: the one-shot's own time, else its computed next run. */
  function AddedNext(env: TimeEnv, job: CronJob): string {
    match job.schedule
    case At(ts) => FormatTimestamp(env, ts)
    case _ => NextText(env, job.state.nextRunAt, "soon")
  }

  /** The reply to a successful `/cron add`; the short ID is the first eight characters. */
  function CreatedText(env: TimeEnv, job: CronJob): string
    requires |job.id| >= 8
  {
    "Created job [" + job.id[..8] + "] \"" + job.name + "\"\nSchedule: " + Description(env, job.schedule)
    + "\nNext run: " + AddedNext(env, job) + "\n\nUse /cron run " + job.id[..8] + " to test it now!"
  }

  /** A reply after a write to disk, which may fail. */
  function Saved(w: World, text: string): (r: Result<CommandResult>)
    ensures w.saveError.Some? ==> r == Err(w.saveError.value)
    ensures w.saveError.None? ==> r == Ok(Response(text))
  {
    if w.saveError.Some? then Err(w.saveError.value) else Ok(Response(text))
  }

  /** The table after `/cron add` with these parsed arguments: the new job is filed once
      they parse (even when the write to disk then fails). */
  function AddJobs(w: World, jobs: map<string, CronJob>, channel: string, userId: string,
                   parsed: Result<(CronSchedule, string)>): map<string, CronJob> {
    match parsed
    case Err(_) => jobs
    case Ok((schedule, prompt)) => jobs[w.newJobId := AddedJob(w, schedule, prompt, channel, userId)]
  }

  /** The table after `/cron add <rest>`. */
  function AddEffect(w: World, jobs: map<string, CronJob>, channel: string, userId: string, rest: string)
    : map<string, CronJob> {
    if rest == [] then jobs else AddJobs(w, jobs, channel, userId, ParseAddCommand(w.env, rest))
  }

  /** The reply to `/cron add <rest>`. */
  predicate AddReply(w: World, channel: string, userId: string, rest: string, r: Result<CommandResult>)
    requires |w.newJobId| >= 8
  {
    if rest == [] then r == Ok(Response(ADD_HELP))
    else match ParseAddCommand(w.env, rest)
      case Err(e) => r == Ok(Response("Error: " + e))
      case Ok((schedule, prompt)) => r == Saved(w, CreatedText(w.env, AddedJob(w, schedule, prompt, channel, userId)))
  }

  /** `/cron add`. */
  method CronAdd(cron: CronStore, channel: string, userId: string, rest: string, w: World)
    returns (r: Result<CommandResult>)
    requires |w.newJobId| >= 8
    modifies cron
    ensures cron.jobs == AddEffect(w, old(cron.jobs), channel, userId, rest)
    ensures AddReply(w, channel, userId, rest, r)
    ensures old(cron.Valid()) ==> cron.Valid()
  {
    if rest == [] {
      return Ok(Response(ADD_HELP));
    }
    var parsed := ParseAddCommand(w.env, rest);
    if parsed.Err? {
      return Ok(Response("Error: " + parsed.msg));
    }
    var (schedule, prompt) := parsed.value;
    var job := AddedJob(w, schedule, prompt, channel, userId);
    var added := cron.Add(job, w.saveError);
    if added.Err? {
      return Err(added.msg);
    }
    return Ok(Response(CreatedText(w.env, job)));
  }

  /** The `/cron` subcommands that take a job ID or prefix. */
  datatype IdVerb = RemoveJob | RunJob | PauseJob | ResumeJob

  /** The usage hint when the ID is missing. */
  function IdUsage(v: IdVerb): string {
    match v
    case RemoveJob => "Usage: /cron remove <job-id>"
    case RunJob => "Usage: /cron run <job-id>"
    case PauseJob => "Usage: /cron pause <job-id>"
    case ResumeJob => "Usage: /cron resume <job-id>"
  }

  function RemovedText(job: CronJob): string {
    "Removed job [" + job.ShortId() + "] \"" + job.name + "\""
  }

  function PausedText(job: CronJob): string {
    "Paused job [" + job.ShortId() + "] \"" + job.name + "\""
  }

  function ResumedText(env: TimeEnv, job: CronJob): string {
    "Resumed job [" + job.ShortId() + "] \"" + job.name + "\"\nNext run: " + NextText(env, job.state.nextRunAt, "soon")
  }

  /** The table after a subcommand on the job filed under `k`: removed, unchanged (run
      hands the job to the channel), paused, or resumed from now. */
  function IdJobs(v: IdVerb, w: World, jobs: map<string, CronJob>, k: string): (r: map<string, CronJob>)
    requires k in jobs
    ensures r.Keys == if v == RemoveJob then jobs.Keys - {k} else jobs.Keys
    ensures forall k' :: k' in jobs && k' != k ==> k' in r && r[k'] == jobs[k']
  {
    match v
    case RemoveJob => jobs - {k}
    case RunJob => jobs
    case PauseJob => jobs[k := Paused(jobs[k])]
    case ResumeJob => jobs[k := Resumed(w.env, jobs[k], w.nowMs)]
  }

  /** The reply to a subcommand on the job filed under `k`. */
  function IdOutcome(v: IdVerb, w: World, jobs: map<string, CronJob>, k: string): Result<CommandResult>
    requires k in jobs
  {
    match v
    case RemoveJob => Saved(w, RemovedText(jobs[k]))
    case RunJob => Ok(CronRun(k))
    case PauseJob => Saved(w, PausedText(jobs[k]))
    case ResumeJob => Saved(w, ResumedText(w.env, Resumed(w.env, jobs[k], w.nowMs)))
  }

  /** The table after `/cron <v> <id>`: changed only when a job of the caller is settled
      on. */
  ghost function TargetJobs(v: IdVerb, w: World, jobs: map<string, CronJob>, channel: string, userId: string,
                            id: string): map<string, CronJob> {
    if id == [] then jobs
    else match Target(jobs, channel, userId, id)
      case None => jobs
      case Some(k) => if k in jobs && jobs[k].OwnedBy(channel, userId) then IdJobs(v, w, jobs, k) else jobs
  }

  /** What `find_job_id` answers when it settles on no job. */
  ghost predicate LookupFailed(jobs: map<string, CronJob>, channel: string, userId: string, id: string,
                               r: Result<CommandResult>) {
    r.Err?
    && (|Matches(jobs, channel, userId, id)| == 0 ==> r.msg == "Job not found: " + id)
    && (|Matches(jobs, channel, userId, id)| > 1 ==>
          AmbiguityListing(jobs, id, Matches(jobs, channel, userId, id), r.msg))
  }

  /** The reply to `/cron <v> <id>`. */
  ghost predicate TargetReply(v: IdVerb, w: World, jobs: map<string, CronJob>, channel: string, userId: string,
                              id: string, r: Result<CommandResult>) {
    if id == [] then r == Ok(Response(IdUsage(v)))
    else match Target(jobs, channel, userId, id)
      case None => LookupFailed(jobs, channel, userId, id, r)
      case Some(k) => k in jobs && r == IdOutcome(v, w, jobs, k)
  }

  /** `/cron remove`, `run`, `pause` and `resume`, on a well-formed table. */
  method CronById(v: IdVerb, cron: CronStore, channel: string, userId: string, rest: string, w: World)
    returns (r: Result<CommandResult>)
    requires cron.Valid()
    modifies cron
    ensures cron.jobs == TargetJobs(v, w, old(cron.jobs), channel, userId, Trim(rest))
    ensures TargetReply(v, w, old(cron.jobs), channel, userId, Trim(rest), r)
    ensures cron.Valid()
  {
    var id := Trim(rest);
    if id == [] {
      return Ok(Response(IdUsage(v)));
    }
    TrimOfTrimmed(id);
    ghost var jobs := cron.jobs;
    var found := FindJobId(cron, channel, userId, id);
    if found.Err? {
      r := Err(found.msg);
      FindFailed(v, w, jobs, channel, userId, id, found, r);
      return;
    }
    FindSucceeded(jobs, channel, userId, id, found);
    r := ApplyToJob(v, cron, channel, userId, found.value, w);
    AppliedToTarget(v, w, jobs, channel, userId, id, found.value, r, cron.jobs);
  }

  /** Helper: a lookup that failed settled on no job, and its error is the one
      `LookupFailed` describes. */
  lemma FindFailed(v: IdVerb, w: World, jobs: map<string, CronJob>, channel: string, userId: string, id: string,
                   found: Result<string>, r: Result<CommandResult>)
    requires Target(jobs, channel, userId, id).Some? ==> found == Ok(Target(jobs, channel, userId, id).value)
    requires Target(jobs, channel, userId, id).None? && |Matches(jobs, channel, userId, id)| == 0 ==>
               found == Err("Job not found: " + id)
    requires Target(jobs, channel, userId, id).None? && |Matches(jobs, channel, userId, id)| > 1 ==>
               found.Err? && AmbiguityListing(jobs, id, Matches(jobs, channel, userId, id), found.msg)
    requires id != [] && found.Err? && r == Err(found.msg)
    ensures Target(jobs, channel, userId, id).None? && LookupFailed(jobs, channel, userId, id, r)
    ensures TargetReply(v, w, jobs, channel, userId, id, r) && jobs == TargetJobs(v, w, jobs, channel, userId, id)
  {
  }

  /** Helper: the subcommand applied to the job settled on is what `/cron <v> <id>` does. */
  lemma AppliedToTarget(v: IdVerb, w: World, jobs: map<string, CronJob>, channel: string, userId: string,
                        id: string, k: string, r: Result<CommandResult>, after: map<string, CronJob>)
    requires id != [] && Target(jobs, channel, userId, id) == Some(k)
    requires k in jobs && jobs[k].OwnedBy(channel, userId)
    requires r == IdOutcome(v, w, jobs, k) && after == IdJobs(v, w, jobs, k)
    ensures TargetReply(v, w, jobs, channel, userId, id, r) && after == TargetJobs(v, w, jobs, channel, userId, id)
  {
  }

  /** Helper: a lookup that succeeded settled on a job of the caller's, filed under the
      ID it answers. */
  lemma FindSucceeded(jobs: map<string, CronJob>, channel: string, userId: string, id: string,
                      found: Result<string>)
    requires FiledById(jobs)
    requires Target(jobs, channel, userId, id).Some? ==> found == Ok(Target(jobs, channel, userId, id).value)
    requires Target(jobs, channel, userId, id).None? && |Matches(jobs, channel, userId, id)| == 0 ==>
               found == Err("Job not found: " + id)
    requires Target(jobs, channel, userId, id).None? && |Matches(jobs, channel, userId, id)| > 1 ==> found.Err?
    requires found.Ok?
    ensures Target(jobs, channel, userId, id) == Some(found.value)
    ensures found.value in jobs && jobs[found.value].OwnedBy(channel, userId)
  {
    TargetIsOwned(jobs, channel, userId, id);
  }

  /** A subcommand on the caller's job filed under `k`. */
  method ApplyToJob(v: IdVerb, cron: CronStore, channel: string, userId: string, k: string, w: World)
    returns (r: Result<CommandResult>)
    requires cron.Valid() && k in cron.jobs && cron.jobs[k].OwnedBy(channel, userId)
    modifies cron
    ensures cron.jobs == IdJobs(v, w, old(cron.jobs), k)
    ensures r == IdOutcome(v, w, old(cron.jobs), k)
    ensures cron.Valid()
  {
    var job := cron.jobs[k];
    match v {
      case RemoveJob =>
        var removed := cron.Remove(k, channel, userId, w.saveError);
        if removed.Err? {
          return Err(removed.msg);
        }
        return Ok(Response(RemovedText(job)));
      case RunJob =>
        return Ok(CronRun(k));
      case PauseJob =>
        cron.jobs := cron.jobs[k := Paused(job)];
        return Saved(w, PausedText(job));
      case ResumeJob =>
        var resumed := Resumed(w.env, job, w.nowMs);
        cron.jobs := cron.jobs[k := resumed];
        return Saved(w, ResumedText(w.env, resumed));
    }
  }

  /** The `/cron` subcommands, by their first word (with aliases). */
  datatype CronVerb = List | Add | ById(verb: IdVerb) | Help

  function VerbOf(sub: string): CronVerb {
    if sub == "list" || sub == "ls" then List
    else if sub == "add" then Add
    else if sub == "remove" || sub == "rm" || sub == "delete" then ById(RemoveJob)
    else if sub == "run" then ById(RunJob)
    else if sub == "pause" || sub == "disable" then ById(PauseJob)
    else if sub == "resume" || sub == "enable" then ById(ResumeJob)
    else Help
  }

  /** `splitn(2, ' ')`: the subcommand (the text before the first space) and the rest
      (after it, or empty). */
  function SubAndRest(args: string): (r: (string, string))
    ensures ' ' !in r.0
    ensures ' ' in args ==> args == r.0 + " " + r.1
    ensures ' ' !in args ==> r == (args, "")
  {
    var parts := SplitN(args, 2, ' ');
    if |parts| == 1 then
      (parts[0], "")
    else
      assert parts[1..] == [parts[1]];
      (parts[0], parts[1])
  }

  /** A first word without spaces, one space, and the rest split apart again. */
  lemma SubAndRestOfWords(sub: string, rest: string)
    requires ' ' !in sub
    ensures SubAndRest(sub + " " + rest) == (sub, rest)
  {
    var args := sub + " " + rest;
    assert args[|sub|] == ' ';
    var i := IndexOfChar(args, ' ').value;
    forall k | 0 <= k < |sub| ensures args[k] != ' ' {
      assert args[k] == sub[k];
    }
    forall k | 0 <= k < i ensures args[k] != ' ' {
      assert args[..i][k] == args[k];
    }
    assert args[..|sub|] == sub && args[|sub| + 1..] == rest;
    assert SplitN(args, 2, ' ') == [sub, rest];
  }

  /** The table after `process_cron_command`. */
  ghost function CronEffect(args: string, jobs: map<string, CronJob>, channel: string, userId: string, w: World)
    : map<string, CronJob> {
    var parts := SubAndRest(args);
    match VerbOf(parts.0)
    case Add => AddEffect(w, jobs, channel, userId, parts.1)
    case ById(v) => TargetJobs(v, w, jobs, channel, userId, Trim(parts.1))
    case _ => jobs
  }

  /** The reply of `process_cron_command`. */
  ghost predicate CronReply(args: string, jobs: map<string, CronJob>, channel: string, userId: string, w: World,
                            r: Result<CommandResult>)
    requires |w.newJobId| >= 8
  {
    var parts := SubAndRest(args);
    match VerbOf(parts.0)
    case List => ListReply(w.env, jobs, channel, userId, r)
    case Add => AddReply(w, channel, userId, parts.1, r)
    case ById(v) => TargetReply(v, w, jobs, channel, userId, Trim(parts.1), r)
    case Help => r == Ok(Response(CRON_HELP))
  }

  /** `process_cron_command`, on the loaded (well-formed) table. */
  method ProcessCronCommand(cron: CronStore, channel: string, userId: string, args: string, w: World)
    returns (r: Result<CommandResult>)
    requires cron.Valid() && |w.newJobId| >= 8
    modifies cron
    ensures cron.jobs == CronEffect(args, old(cron.jobs), channel, userId, w)
    ensures CronReply(args, old(cron.jobs), channel, userId, w, r)
    ensures cron.Valid()
  {
    var parts := SubAndRest(args);
    match VerbOf(parts.0) {
      case List =>
        var response, order := ListJobs(cron, channel, userId, w.env);
        return Ok(Response(response));
      case Add =>
        r := CronAdd(cron, channel, userId, parts.1, w);
      case ById(v) =>
        r := CronById(v, cron, channel, userId, parts.1, w);
      case Help =>
        return Ok(Response(CRON_HELP));
    }
  }

  // ---------------------------------------------------------------- what /cron guarantees

  /** `/cron add` files exactly one new job, the caller's, and `/cron list` then shows
      it along with the caller's other jobs. */
  lemma AddedJobIsListed(w: World, jobs: map<string, CronJob>, channel: string, userId: string,
                          parsed: Result<(CronSchedule, string)>)
    requires parsed.Ok? && w.newJobId !in jobs
    ensures var after := AddJobs(w, jobs, channel, userId, parsed);
            after.Keys == jobs.Keys + {w.newJobId}
            && OwnedKeys(after, channel, userId) == OwnedKeys(jobs, channel, userId) + {w.newJobId}
  {
    var j := AddedJob(w, parsed.value.0, parsed.value.1, channel, userId);
    var after := jobs[w.newJobId := j];
    assert AddJobs(w, jobs, channel, userId, parsed) == after;
    assert OwnedKeys(after, channel, userId) == OwnedKeys(jobs, channel, userId) + {w.newJobId};
  }

  /** Removing a job right after adding it, by its full ID, gives back the table as it
      was. */
  lemma AddThenRemove(w: World, jobs: map<string, CronJob>, channel: string, userId: string,
                       parsed: Result<(CronSchedule, string)>)
    requires parsed.Ok? && w.newJobId !in jobs && w.newJobId != []
    ensures TargetJobs(RemoveJob, w, AddJobs(w, jobs, channel, userId, parsed), channel, userId, w.newJobId) == jobs
  {
    var after := AddJobs(w, jobs, channel, userId, parsed);
    assert ExactOwned(after, channel, userId, w.newJobId);
    assert after - {w.newJobId} == jobs;
  }

  /** What a change to the cron table may do on behalf of a caller: leave every other
      user's job as it was, and add no job but the caller's new one. */
  predicate KeepsOthers(jobs: map<string, CronJob>, after: map<string, CronJob>, channel: string, userId: string,
                        newId: string) {
    (forall k :: k in jobs && !jobs[k].OwnedBy(channel, userId) ==> k in after && after[k] == jobs[k])
    && (forall k :: k in after && k !in jobs ==> k == newId && after[k].OwnedBy(channel, userId))
  }

  /** `/cron add` keeps to the caller. */
  lemma AddKeepsOthers(w: World, jobs: map<string, CronJob>, channel: string, userId: string, rest: string)
    requires w.newJobId !in jobs
    ensures KeepsOthers(jobs, AddEffect(w, jobs, channel, userId, rest), channel, userId, w.newJobId)
  {
  }

  /** `/cron remove`, `run`, `pause` and `resume` keep to the caller. */
  lemma TargetKeepsOthers(v: IdVerb, w: World, jobs: map<string, CronJob>, channel: string, userId: string, id: string)
    ensures KeepsOthers(jobs, TargetJobs(v, w, jobs, channel, userId, id), channel, userId, w.newJobId)
  {
    if id != [] {
      var t := Target(jobs, channel, userId, id);
      if t.Some? && t.value in jobs && jobs[t.value].OwnedBy(channel, userId) {
        var after := IdJobs(v, w, jobs, t.value);
        assert forall k :: k in after ==> k in jobs;
      }
    }
  }

  /** No `/cron` subcommand touches another user's job, and the only job it can add is the
      caller's new one. */
  lemma CronKeepsOtherUsersJobs(args: string, jobs: map<string, CronJob>, channel: string, userId: string, w: World)
    requires w.newJobId !in jobs
    ensures KeepsOthers(jobs, CronEffect(args, jobs, channel, userId, w), channel, userId, w.newJobId)
  {
    var parts := SubAndRest(args);
    match VerbOf(parts.0)
    case Add => AddKeepsOthers(w, jobs, channel, userId, parts.1);
    case ById(v) => TargetKeepsOthers(v, w, jobs, channel, userId, Trim(parts.1));
    case _ =>
  }

  /** `/cron add …` adds. */
  lemma AddWord(w: World, jobs: map<string, CronJob>, channel: string, userId: string, rest: string)
    ensures CronEffect("add " + rest, jobs, channel, userId, w) == AddEffect(w, jobs, channel, userId, rest)
  {
    var args := "add" + " " + rest;
    assert "add" + " " == "add ";
    assert args == "add " + rest;
    SubAndRestOfWords("add", rest);
    AddVerbEffect(args, jobs, channel, userId, w);
  }

  /** Helper: once the subcommand is "add", the table is the one `add` leaves. */
  lemma AddVerbEffect(args: string, jobs: map<string, CronJob>, channel: string, userId: string, w: World)
    requires SubAndRest(args).0 == "add"
    ensures CronEffect(args, jobs, channel, userId, w) == AddEffect(w, jobs, channel, userId, SubAndRest(args).1)
  {
    assert VerbOf("add") == Add;
  }

  /** `/cron rm …` removes. */
  lemma RemoveWord(w: World, jobs: map<string, CronJob>, channel: string, userId: string, rest: string)
    ensures CronEffect("rm " + rest, jobs, channel, userId, w) == TargetJobs(RemoveJob, w, jobs, channel, userId, Trim(rest))
  {
    var args := "rm" + " " + rest;
    assert "rm" + " " == "rm ";
    assert args == "rm " + rest;
    SubAndRestOfWords("rm", rest);
    RemoveVerbEffect(args, jobs, channel, userId, w);
  }

  /** Helper: once the subcommand is "rm", the table is the one removal leaves. */
  lemma RemoveVerbEffect(args: string, jobs: map<string, CronJob>, channel: string, userId: string, w: World)
    requires SubAndRest(args).0 == "rm"
    ensures CronEffect(args, jobs, channel, userId, w) == TargetJobs(RemoveJob, w, jobs, channel, userId, Trim(SubAndRest(args).1))
  {
    assert VerbOf("rm") == ById(RemoveJob);
  }

  // ---------------------------------------------------------------- commands and routing

  const ONBOARDING_FIRST := "Please complete the onboarding first. Say \"hello\" to get started!"
  const FRESH_START := "Starting fresh! Our previous conversation has been cleared."

  /** The built-in commands, as `process_command` tells them apart. */
  datatype Command = ListCommands | NewConversation | ListSkills | CronCommand(args: string) | NotCommand

  /** Which command a trimmed text is. */
  function Classify(t: string): Command {
    if t == "/commands" then ListCommands
    else if t == "/new" then NewConversation
    else if t == "/skills" then ListSkills
    else if StartsWith(t, "/cron") then CronCommand(Trim(t[5..]))
    else NotCommand
  }

  /** The three plain commands are exact matches; `/cron` followed by anything is a cron
      command, whose arguments are the trimmed rest; everything else is no command. */
  lemma ClassifyCases(t: string)
    ensures Classify(t) == ListCommands <==> t == "/commands"
    ensures Classify(t) == NewConversation <==> t == "/new"
    ensures Classify(t) == ListSkills <==> t == "/skills"
    ensures Classify(t).CronCommand? <==> StartsWith(t, "/cron")
    ensures Classify(t).CronCommand? ==> Classify(t).args == Trim(t[5..])
    ensures Classify(t) == NotCommand <==> !IsCommand(t)
  {
    if t == "/commands" || t == "/skills" {
      NotCron(t);
    }
  }

  /** Helper: a text whose third character is not 'r' is no `/cron` command. */
  lemma NotCron(t: string)
    requires |t| >= 3 && t[2] != 'r'
    ensures !StartsWith(t, "/cron")
  {
    assert |t| < 5 || t[..5][2] == t[2];
  }

  /** The reply of `process_command` to a command. */
  ghost predicate CommandReply(c: Command, onboardingComplete: bool, w: World, jobs: map<string, CronJob>,
                               channel: string, userId: string, r: Result<CommandResult>)
    requires |w.newJobId| >= 8
  {
    match c
    case ListCommands => r == Ok(Response(CommandsText()))
    case NewConversation => r == (if onboardingComplete then Saved(w, FRESH_START) else Ok(Response(ONBOARDING_FIRST)))
    case ListSkills => r == Ok(Response(SkillsText(w.skills)))
    case CronCommand(args) => CronReply(args, jobs, channel, userId, w, r)
    case NotCommand => r == Ok(NotACommand)
  }

  /** `process_command`. The session map changes only on `/new` once onboarding is done,
      and the cron table only on `/cron`. */
  method ProcessCommand(pairing: PairingStore, cron: CronStore, channel: string, userId: string, text: string,
                        onboardingComplete: bool, w: World)
    returns (r: Result<CommandResult>)
    requires cron.Valid() && |w.newJobId| >= 8
    modifies pairing, cron
    ensures CommandReply(Classify(Trim(text)), onboardingComplete, w, old(cron.jobs), channel, userId, r)
    ensures pairing.pending == old(pairing.pending) && pairing.approved == old(pairing.approved)
    ensures pairing.sessions == if Classify(Trim(text)) == NewConversation && onboardingComplete
                                then old(pairing.sessions) - {SessionKey(channel, userId)}
                                else old(pairing.sessions)
    ensures cron.jobs == if Classify(Trim(text)).CronCommand?
                         then CronEffect(Classify(Trim(text)).args, old(cron.jobs), channel, userId, w)
                         else old(cron.jobs)
    ensures cron.Valid()
  {
    var c := Classify(Trim(text));
    if c.CronCommand? {
      r := ProcessCronCommand(cron, channel, userId, c.args, w);
    } else {
      r := OtherCommand(pairing, c, channel, userId, onboardingComplete, w, old(cron.jobs));
    }
  }

  /** The commands other than `/cron`: listings, and `/new`, which resets the session. */
  method OtherCommand(pairing: PairingStore, c: Command, channel: string, userId: string,
                      onboardingComplete: bool, w: World, ghost jobs: map<string, CronJob>)
    returns (r: Result<CommandResult>)
    requires !c.CronCommand? && |w.newJobId| >= 8
    modifies pairing
    ensures CommandReply(c, onboardingComplete, w, jobs, channel, userId, r)
    ensures pairing.pending == old(pairing.pending) && pairing.approved == old(pairing.approved)
    ensures pairing.sessions == if c == NewConversation && onboardingComplete
                                then old(pairing.sessions) - {SessionKey(channel, userId)}
                                else old(pairing.sessions)
  {
    match c {
      case ListCommands =>
        var response := Listing("Available commands:\n", "\n", COMMANDS);
        return Ok(Response(response));
      case NewConversation =>
        if !onboardingComplete {
          return Ok(Response(ONBOARDING_FIRST));
        }
        var reset := pairing.ResetSession(channel, userId, w.saveError);
        if reset.Err? {
          return Err(reset.msg);
        }
        return Ok(Response(FRESH_START));
      case ListSkills =>
        if w.skills == [] {
          return Ok(Response(NO_SKILLS));
        }
        var response := Listing("Available skills:\n", "\n\U{2022} ", SkillItems(w.skills));
        return Ok(Response(response));
      case NotCommand =>
        return Ok(NotACommand);
    }
  }

  /** The action for a command outcome (an error passes through). */
  function ToAction(c: Result<CommandResult>, t: string, onboardingComplete: bool): (a: Result<MessageAction>)
    ensures c.Err? ==> a == Err(c.msg)
    ensures c.Ok? ==> a == Ok(ActionFor(c.value, t, onboardingComplete))
  {
    match c
    case Err(e) => Err(e)
    case Ok(cmd) => Ok(ActionFor(cmd, t, onboardingComplete))
  }

  /** The user has a pending request with this code. */
  predicate HasPendingCode(reqs: seq<PendingRequest>, channel: string, userId: string, code: string) {
    exists i :: 0 <= i < |reqs| && reqs[i].code == code && reqs[i].channel == channel && reqs[i].userId == userId
  }

  /** What `get_or_create_pending` makes of the pending requests `before` and the reply
      to an unapproved user, with the clock, the seeds and a save failure from `w`: after
      pruning, the user's live request is reused; otherwise a request under the first
      free code is added (the reply is the save error when saving fails); when no free
      code turns up the store is only pruned and the reply is that error. */
  predicate PairingReply(before: seq<PendingRequest>, after: seq<PendingRequest>, channel: string,
                         userId: string, username: Option<string>, displayName: Option<string>, w: World,
                         r: Result<MessageAction>)
    requires |w.seeds| == MAX_CODE_ATTEMPTS
  {
    var live := LiveRequests(before, w.nowSecs);
    var found := FindRequestFor(live, channel, userId);
    var free := FirstFreeCode(Codes(live), w.seeds, 0);
    if found.Some? then after == live && r == Ok(NeedsPairing(live[found.value].code))
    else if free.Err? then after == live && r == Err(free.msg)
    else after == live + [PendingRequest(free.value, channel, userId, username, displayName, w.nowSecs)]
         && r == (if w.saveError.Some? then Err(w.saveError.value) else Ok(NeedsPairing(free.value)))
  }

  /** The first branch of `determine_action`, for a user who is not approved: the reply
      and the pruned (and perhaps extended) pending requests of `PairingReply`; approvals
      and sessions stay as they were. */
  method RequestPairing(pairing: PairingStore, channel: string, userId: string, username: Option<string>,
                        displayName: Option<string>, w: World)
    returns (r: Result<MessageAction>)
    requires |w.seeds| == MAX_CODE_ATTEMPTS
    modifies pairing
    ensures PairingReply(old(pairing.pending), pairing.pending, channel, userId, username, displayName, w, r)
    ensures pairing.approved == old(pairing.approved) && pairing.sessions == old(pairing.sessions)
    ensures r.Ok? ==> r.value.NeedsPairing? && HasPendingCode(pairing.pending, channel, userId, r.value.code)
    ensures old(pairing.Valid()) ==> pairing.Valid()
  {
    ghost var live := LiveRequests(pairing.pending, w.nowSecs);
    var pending := pairing.GetOrCreatePending(channel, userId, username, displayName, w.nowSecs, w.seeds, w.saveError);
    if pending.Err? {
      return Err(pending.msg);
    }
    ghost var found := FindRequestFor(live, channel, userId);
    if found.Some? {
      assert pairing.pending[found.value].code == pending.value.0;
    } else {
      assert pairing.pending[|live|].code == pending.value.0;
    }
    return Ok(NeedsPairing(pending.value.0));
  }

  /** The rest of `determine_action`, for an approved user: the command step on the
      trimmed text, whose outcome decides the action; pairing requests and approvals stay
      as they were. */
  method CommandStep(pairing: PairingStore, cron: CronStore, channel: string, userId: string, text: string,
                     onboardingComplete: bool, w: World)
    returns (r: Result<MessageAction>, command: Result<CommandResult>)
    requires |w.newJobId| >= 8 && cron.Valid()
    modifies pairing, cron
    ensures CommandReply(Classify(Trim(text)), onboardingComplete, w, old(cron.jobs), channel, userId, command)
    ensures r == ToAction(command, Trim(text), onboardingComplete)
    ensures pairing.pending == old(pairing.pending) && pairing.approved == old(pairing.approved)
    ensures Classify(Trim(text)) == NotCommand ==>
              r == Ok(ActionFor(NotACommand, Trim(text), onboardingComplete))
              && cron.jobs == old(cron.jobs) && pairing.sessions == old(pairing.sessions)
    ensures cron.Valid()
  {
    // `process_command` trims its input again, so the untrimmed text gives the same command.
    command := ProcessCommand(pairing, cron, channel, userId, text, onboardingComplete, w);
    r := ToAction(command, Trim(text), onboardingComplete);
  }

  /** `determine_action`. A user who is not approved is asked to pair. An approved user's
      message goes through the command step, whose outcome decides the action; a message
      that is no command changes nothing. */
  method DetermineAction(pairing: PairingStore, cron: CronStore, channel: string, userId: string, text: string,
                         username: Option<string>, displayName: Option<string>, onboardingComplete: bool, w: World)
    returns (r: Result<MessageAction>, command: Result<CommandResult>)
    requires |w.seeds| == MAX_CODE_ATTEMPTS && |w.newJobId| >= 8 && cron.Valid()
    modifies pairing, cron
    ensures cron.Valid()
    ensures !old(pairing.IsApproved(channel, userId)) ==>
              cron.jobs == old(cron.jobs)
              && PairingReply(old(pairing.pending), pairing.pending, channel, userId, username, displayName, w, r)
              && pairing.approved == old(pairing.approved) && pairing.sessions == old(pairing.sessions)
              && (r.Ok? ==> r.value.NeedsPairing? && HasPendingCode(pairing.pending, channel, userId, r.value.code))
    ensures old(pairing.IsApproved(channel, userId)) ==>
              CommandReply(Classify(Trim(text)), onboardingComplete, w, old(cron.jobs), channel, userId, command)
              && r == ToAction(command, Trim(text), onboardingComplete)
              && pairing.pending == old(pairing.pending) && pairing.approved == old(pairing.approved)
    ensures old(pairing.IsApproved(channel, userId)) && Classify(Trim(text)) == NotCommand ==>
              r == Ok(ActionFor(NotACommand, Trim(text), onboardingComplete))
              && cron.jobs == old(cron.jobs) && pairing.sessions == old(pairing.sessions)
    ensures old(pairing.Valid()) ==> pairing.Valid()
  {
    if !pairing.IsApproved(channel, userId) {
      command := Ok(NotACommand);
      r := RequestPairing(pairing, channel, userId, username, displayName, w);
    } else {
      r, command := CommandStep(pairing, cron, channel, userId, text, onboardingComplete, w);
    }
  }

  // ---------------------------------------------------------------- per-user message queue

  /** `UserTaskManager`, as a state machine: the messages waiting for each user key, the
      task each key has (by a handle number), and the handles aborted so far. The debounce
      delay and the scheduling of tasks are left to the caller, who runs a task's step
      with `RunTask`. */
  class UserTaskManager {
    var pending: map<string, seq<string>>
    var tasks: map<string, nat>
    var aborted: set<nat>
    var nextHandle: nat

    /** Handles are issued in order and never shared, and no key's current task has been
        aborted. */
    predicate Valid()
      reads this
    {
      (forall k :: k in tasks ==> tasks[k] < nextHandle && tasks[k] !in aborted)
      && (forall k, k' :: k in tasks && k' in tasks && k != k' ==> tasks[k] != tasks[k'])
      && (forall h :: h in aborted ==> h < nextHandle)
    }

    /** `UserTaskManager::new`. */
    constructor ()
      ensures pending == map[] && tasks == map[] && aborted == {} && nextHandle == 0
      ensures Valid()
    {
      pending := map[];
      tasks := map[];
      aborted := {};
      nextHandle := 0;
    }

    /** The messages waiting for a key. */
    function Waiting(key: string): seq<string>
      reads this
    {
      if key in pending then pending[key] else []
    }

    /** `process_message`: the message joins the end of the key's list; the key's old
        task, if any, is aborted and replaced by a new one; other keys are untouched. */
    method ProcessMessage(key: string, message: string) returns (handle: nat)
      modifies this
      ensures pending == old(pending)[key := old(Waiting(key)) + [message]]
      ensures Waiting(key) == old(Waiting(key)) + [message]
      ensures handle == old(nextHandle) && nextHandle == handle + 1
      ensures tasks == old(tasks)[key := handle]
      ensures aborted == if key in old(tasks) then old(aborted) + {old(tasks)[key]} else old(aborted)
      ensures old(Valid()) ==> Valid()
    {
      pending := pending[key := Waiting(key) + [message]];
      if key in tasks {
        aborted := aborted + {tasks[key]};
        tasks := tasks - {key};
      }
      handle := nextHandle;
      nextHandle := nextHandle + 1;
      tasks := tasks[key := handle];
    }

    /** The spawned task after its delay: an aborted task does nothing. Otherwise the
        key's whole list is taken, and handed on (in order) unless it is empty; once the
        handler has run, the key's task entry is removed. */
    method RunTask(key: string, handle: nat) returns (batch: seq<string>)
      modifies this
      ensures handle in old(aborted) ==>
                batch == [] && pending == old(pending) && tasks == old(tasks)
      ensures handle !in old(aborted) ==>
                batch == old(Waiting(key)) && pending == old(pending) - {key}
                && tasks == (if batch == [] then old(tasks) else old(tasks) - {key})
      ensures aborted == old(aborted) && nextHandle == old(nextHandle)
      ensures old(Valid()) ==> Valid()
    {
      if handle in aborted {
        return [];
      }
      batch := Waiting(key);
      pending := pending - {key};
      if batch == [] {
        return;
      }
      tasks := tasks - {key};
    }
  }

  /** Messages that arrive for a key while its tasks wait are handed on together, in
      arrival order, by the last one's task; the earlier ones are aborted. */
  method Burst(m: UserTaskManager, key: string, messages: seq<string>) returns (batch: seq<string>)
    requires m.Valid() && key !in m.pending && key !in m.tasks && messages != []
    modifies m
    ensures batch == messages
    ensures key !in m.pending && key !in m.tasks
  {
    var i := 0;
    var last := 0;
    while i < |messages|
      invariant 0 <= i <= |messages|
      invariant m.Valid()
      invariant m.Waiting(key) == messages[..i]
      invariant i > 0 ==> key in m.tasks && m.tasks[key] == last
      invariant i == 0 ==> key !in m.tasks
    {
      last := m.ProcessMessage(key, messages[i]);
      assert messages[..i + 1] == messages[..i] + [messages[i]];
      i := i + 1;
    }
    assert messages[..|messages|] == messages;
    batch := m.RunTask(key, last);
  }

  // ---------------------------------------------------------------- channel table

  /** An entry of `SUPPORTED_CHANNELS`. */
  datatype ChannelInfo = ChannelInfo(name: string, displayName: string)

  /** `get_channel_info`: Telegram and Signal are the known channels. */
  function GetChannelInfo(name: string): (r: Option<ChannelInfo>)
    ensures r.Some? <==> name == "telegram" || name == "signal"
    ensures r.Some? ==> r.value.name == name
    ensures name == "telegram" ==> r == Some(ChannelInfo("telegram", "Telegram"))
    ensures name == "signal" ==> r == Some(ChannelInfo("signal", "Signal"))
  {
    if name == "telegram" then Some(ChannelInfo("telegram", "Telegram"))
    else if name == "signal" then Some(ChannelInfo("signal", "Signal"))
    else None
  }
}
