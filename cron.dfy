/** The cron service (src/cron/mod.rs): the `/cron add` splitter, name truncation, the
    state a job goes through when it runs, pausing and resuming, and the notification
    text. The backend call in the middle of a run is an input (its outcome), and so
    are the clock readings before and after it. */
module Cron {
  import opened Wrappers
  import opened Strings
  import opened Schedule
  import opened Store

  const ADD_USAGE := "Usage: /cron add <schedule> <prompt>"
  const EVERY_USAGE := "Usage: /cron add every <interval> <prompt>"
  const AT_USAGE := "Usage: /cron add at <date> <time> <prompt>"
  const UNPARSABLE_SCHEDULE :=
    "Could not parse schedule. Use:\n- every <interval> (e.g., every 1h, every 10s)\n"
    + "- at <datetime> (e.g., at 2024-01-28 14:00)\n- <cron expression> (e.g., 0 9 * * *)"

  /** How many space-separated words of an `/cron add` argument form the schedule:
      "every" and an interval, "at" with a date and a time, or five cron fields. */
  function ScheduleWordCount(t: string): (k: nat)
    ensures k == 2 || k == 3 || k == 5
    ensures k == 2 <==> StartsWith(t, "every ")
    ensures k == 3 <==> !StartsWith(t, "every ") && StartsWith(t, "at ")
  {
    if StartsWith(t, "every ") then 2 else if StartsWith(t, "at ") then 3 else 5
  }

  /** The first `k` space-separated words of `t` and the rest after the next space, when
      `t` has that many spaces. */
  function SplitSchedule(t: string, k: nat): (r: Option<(string, string)>)
    requires k >= 1
    ensures r.Some? <==> |SplitN(t, k + 1, ' ')| == k + 1
    ensures r.Some? ==> t == r.value.0 + " " + r.value.1
    ensures r.Some? ==> r.value.0 == Join(SplitN(t, k + 1, ' ')[..k], " ") && r.value.1 == SplitN(t, k + 1, ' ')[k]
  {
    var parts := SplitN(t, k + 1, ' ');
    if |parts| < k + 1 then None
    else
      assert [' '] == " ";
      JoinLast(parts, " ");
      assert parts[..|parts| - 1] == parts[..k];
      Some((Join(parts[..k], " "), parts[k]))
  }

  /** `parse_add_command`: the trimmed argument is a schedule of so many words, one
      space, and the prompt (the untouched rest). Too few words, or a schedule that does
      not parse, is an error; a cron-style schedule is always reported with the generic
      message. */
  function ParseAddCommand(env: TimeEnv, input: string): (r: Result<(CronSchedule, string)>)
    ensures Trim(input) == [] ==> r == Err(ADD_USAGE)
    ensures Trim(input) != [] && SplitSchedule(Trim(input), ScheduleWordCount(Trim(input))).None? ==> r.Err?
    ensures r.Ok? ==>
      var t := Trim(input);
      var split := SplitSchedule(t, ScheduleWordCount(t));
      split.Some? && r.value.1 == split.value.1 && t == split.value.0 + " " + r.value.1
      && Parse(env, split.value.0) == Ok(r.value.0)
    ensures Trim(input) != [] && ScheduleWordCount(Trim(input)) == 5 && r.Err? ==> r.msg == UNPARSABLE_SCHEDULE
    ensures Trim(input) != [] ==>
      var t := Trim(input);
      var k := ScheduleWordCount(t);
      var split := SplitSchedule(t, k);
      (split.None? ==> r == Err(if k == 2 then EVERY_USAGE else if k == 3 then AT_USAGE else UNPARSABLE_SCHEDULE))
      && (split.Some? && Parse(env, split.value.0).Ok? ==>
            r == Ok((Parse(env, split.value.0).value, split.value.1)))
      && (split.Some? && Parse(env, split.value.0).Err? ==>
            r == Err(if k == 5 then UNPARSABLE_SCHEDULE else Parse(env, split.value.0).msg))
  {
    var t := Trim(input);
    if t == [] then Err(ADD_USAGE)
    else if StartsWith(t, "every ") then
      match SplitSchedule(t, 2)
      case None => Err(EVERY_USAGE)
      case Some((scheduleText, prompt)) =>
        match Parse(env, scheduleText)
        case Err(e) => Err(e)
        case Ok(schedule) => Ok((schedule, prompt))
    else if StartsWith(t, "at ") then
      match SplitSchedule(t, 3)
      case None => Err(AT_USAGE)
      case Some((scheduleText, prompt)) =>
        match Parse(env, scheduleText)
        case Err(e) => Err(e)
        case Ok(schedule) => Ok((schedule, prompt))
    else
      match SplitSchedule(t, 5)
      case None => Err(UNPARSABLE_SCHEDULE)
      case Some((scheduleText, prompt)) =>
        match Parse(env, scheduleText)
        case Err(_) => Err(UNPARSABLE_SCHEDULE)
        case Ok(schedule) => Ok((schedule, prompt))
  }

  /** An argument that starts with neither "every " nor "at " can only ever yield a
      cron-expression schedule. */
  lemma AddCommandCronStyle(env: TimeEnv, input: string)
    requires !StartsWith(Trim(input), "every ") && !StartsWith(Trim(input), "at ")
    ensures ParseAddCommand(env, input).Ok? ==> ParseAddCommand(env, input).value.0.Cron?
  {
    var r := ParseAddCommand(env, input);
    if r.Ok? {
      var t := Trim(input);
      var split := SplitSchedule(t, ScheduleWordCount(t));
      ScheduleHead(t, split.value.0, r.value.1);
    }
  }

  /** Helper: the schedule part of such an argument, trimmed, starts with neither keyword. */
  lemma ScheduleHead(t: string, text: string, prompt: string)
    requires t == text + " " + prompt && (t == [] || !IsSpace(t[0]))
    requires !StartsWith(t, "every ") && !StartsWith(t, "at ")
    ensures !StartsWith(Trim(text), "every ") && !StartsWith(Trim(text), "at ")
  {
    assert text == t[..|text|];
    NotAnotherSyntax(text, t);
  }

  /** Helper: a leading part of text that is neither "every …" nor "at …" is neither when
      trimmed. */
  lemma NotAnotherSyntax(text: string, t: string)
    requires |text| <= |t| && text == t[..|text|]
    requires t == [] || !IsSpace(t[0])
    requires !StartsWith(t, "every ") && !StartsWith(t, "at ")
    ensures !StartsWith(Trim(text), "every ") && !StartsWith(Trim(text), "at ")
  {
    TrimIsPrefix(text);
    var tt := Trim(text);
    assert tt == t[..|tt|];
    if StartsWith(tt, "at ") {
      StartsWithOfPrefix(tt, t, "at ");
    }
    if StartsWith(tt, "every ") {
      StartsWithOfPrefix(tt, t, "every ");
    }
  }

  /** `format_timestamp`: the local date and time, or "unknown" for a timestamp outside
      the calendar's range. */
  function FormatTimestamp(env: TimeEnv, ms: nat): (s: string)
    ensures env.formatLocal(ms).Some? ==> s == env.formatLocal(ms).value
    ensures env.formatLocal(ms).None? ==> s == "unknown"
  {
    match env.formatLocal(ms)
    case Some(f) => f
    case None => "unknown"
  }

  /** `truncate_for_name`: the trimmed text if it fits, else its head and "...", so
      the result never exceeds the limit. (The source underflows when it must cut to a
      limit below 3.) */
  function TruncateForName(s: string, maxLen: nat): (r: string)
    requires |Trim(s)| <= maxLen || maxLen >= 3
    ensures |r| <= maxLen
    ensures |Trim(s)| <= maxLen ==> r == Trim(s)
    ensures |Trim(s)| > maxLen ==> |r| == maxLen && StartsWith(Trim(s), r[..maxLen - 3]) && EndsWith(r, "...")
  {
    var t := Trim(s);
    if |t| <= maxLen then t else t[..maxLen - 3] + "..."
  }

  /** The chat message that reports a run: the response under "[Cron: name]", or the
      error under "[Cron: name FAILED]". */
  function NotifyText(name: string, outcome: Result<string>): (m: string)
    ensures StartsWith(m, "[Cron: " + name)
    ensures outcome.Ok? ==> EndsWith(m, outcome.value)
    ensures outcome.Err? ==> EndsWith(m, "Error: " + outcome.msg)
    ensures outcome.Ok? ==> m == "[Cron: " + name + "]\n\n" + outcome.value
    ensures outcome.Err? ==> m == "[Cron: " + name + " FAILED]\n\nError: " + outcome.msg
  {
    match outcome
    case Ok(response) => "[Cron: " + name + "]\n\n" + response
    case Err(e) => "[Cron: " + name + " FAILED]\n\nError: " + e
  }

  /** A success report and a failure report for the same job never coincide. */
  lemma NotifyTextsDiffer(name: string, response: string, error: string)
    ensures NotifyText(name, Ok(response)) != NotifyText(name, Err(error))
  {
    var prefix := "[Cron: " + name;
    var ok := NotifyText(name, Ok(response));
    var failed := NotifyText(name, Err(error));
    assert ok[|prefix|] == ']';
    assert failed[|prefix|] == ' ';
  }

  /** A message for a user of a channel. */
  datatype Notification = Notification(channel: string, userId: string, text: string)

  /** The run has begun: marked running, and nothing scheduled while it runs. */
  function Started(job: CronJob): (j: CronJob)
    ensures j.state.lastStatus == Running && j.state.nextRunAt.None?
    ensures forall now :: !j.IsDue(now)
    ensures j.(state := job.state) == job
    ensures j.state.(lastStatus := job.state.lastStatus, nextRunAt := job.state.nextRunAt) == job.state
  {
    job.(state := job.state.(lastStatus := Running, nextRunAt := None))
  }

  /** `end_time - start_time` on two u64 clock readings, as a release build computes it:
      the difference wraps around at 2^64 when the clock has stepped back. */
  function ElapsedMs(start: nat, end: nat): (d: nat)
    ensures d < U64_LIMIT
    ensures start <= end < start + U64_LIMIT ==> d == end - start
    ensures end < start < end + U64_LIMIT ==> d == U64_LIMIT - (start - end)
  {
    (end - start) % U64_LIMIT
  }

  /** The run has ended at `end` after beginning at `start`: its time and duration are
      recorded, a success clears the failure count and a failure adds one, the next run
      is computed from `end`, and a one-shot that succeeded is switched off. */
  function Completed(env: TimeEnv, job: CronJob, start: nat, end: nat, outcome: Result<string>): (j: CronJob)
    ensures j.state.lastRunAt == Some(end) && j.state.lastDurationMs == Some(ElapsedMs(start, end))
    ensures outcome.Ok? ==> j.state.lastStatus == Success && j.state.failureCount == 0
    ensures outcome.Err? ==> j.state.lastStatus == Failed(outcome.msg) && j.state.failureCount == job.state.failureCount + 1
    ensures job.schedule.At? && outcome.Ok? ==> !j.enabled && j.state.nextRunAt.None?
    ensures !(job.schedule.At? && outcome.Ok?) ==>
              j.enabled == job.enabled && j.state.nextRunAt == NextRunAfter(env, job.schedule, end)
    ensures j.(enabled := job.enabled, state := job.state) == job
  {
    var recorded := job.state.(lastRunAt := Some(end), lastDurationMs := Some(ElapsedMs(start, end)));
    var judged := match outcome
      case Ok(_) => recorded.(lastStatus := Success, failureCount := 0)
      case Err(e) => recorded.(lastStatus := Failed(e), failureCount := recorded.failureCount + 1);
    var rescheduled := job.(state := judged).WithNextRun(env, end);
    if job.schedule.At? && outcome.Ok? then
      rescheduled.(enabled := false, state := rescheduled.state.(nextRunAt := None))
    else rescheduled
  }

  /** A one-shot job that succeeded is never due again. One that failed at or after its
      time stays enabled but is never due again either: nothing reschedules it. */
  lemma OneShotAfterRun(env: TimeEnv, job: CronJob, start: nat, end: nat, outcome: Result<string>, now: nat)
    requires job.schedule.At?
    requires outcome.Err? ==> job.schedule.timestamp <= end
    ensures !Completed(env, job, start, end, outcome).IsDue(now)
    ensures outcome.Err? ==> Completed(env, job, start, end, outcome).enabled == job.enabled
  {
  }

  /** An interval job is next due exactly one interval after a run ends. */
  lemma IntervalAfterRun(env: TimeEnv, job: CronJob, start: nat, end: nat, outcome: Result<string>)
    requires job.schedule.Every?
    ensures Completed(env, job, start, end, outcome).state.nextRunAt == Some(end + job.schedule.interval)
  {
  }

  /** Number of failures at the end of a sequence of outcomes. */
  function TrailingFailures(outcomes: seq<Result<string>>): (n: nat)
    ensures n <= |outcomes|
    ensures forall i :: |outcomes| - n <= i < |outcomes| ==> outcomes[i].Err?
    ensures n < |outcomes| ==> outcomes[|outcomes| - 1 - n].Ok?
    decreases |outcomes|
  {
    if outcomes == [] || outcomes[|outcomes| - 1].Ok? then 0
    else TrailingFailures(outcomes[..|outcomes| - 1]) + 1
  }

  /** A job run once per outcome, all at time `t`. */
  function RunSeries(env: TimeEnv, job: CronJob, t: nat, outcomes: seq<Result<string>>): CronJob
    decreases |outcomes|
  {
    if outcomes == [] then job
    else Completed(env, Started(RunSeries(env, job, t, outcomes[..|outcomes| - 1])), t, t, outcomes[|outcomes| - 1])
  }

  /** The failure count counts consecutive failures: after a series of runs it is the
      number of failures since the last success (on top of the old count if there was
      no success at all). */
  lemma {:induction false} FailureCountIsConsecutiveFailures(env: TimeEnv, job: CronJob, t: nat, outcomes: seq<Result<string>>)
    ensures RunSeries(env, job, t, outcomes).state.failureCount ==
            if TrailingFailures(outcomes) == |outcomes| then job.state.failureCount + |outcomes|
            else TrailingFailures(outcomes)
    decreases |outcomes|
  {
    if outcomes != [] {
      FailureCountIsConsecutiveFailures(env, job, t, outcomes[..|outcomes| - 1]);
    }
  }

  /** Pausing (`/cron pause`, and `toggle` of an enabled job): disabled with nothing
      scheduled. */
  function Paused(job: CronJob): (j: CronJob)
    ensures !j.enabled && j.state.nextRunAt.None?
    ensures forall now :: !j.IsDue(now)
    ensures j.(enabled := job.enabled, state := job.state) == job
    ensures j.state.(nextRunAt := job.state.nextRunAt) == job.state
  {
    job.(enabled := false, state := job.state.(nextRunAt := None))
  }

  /** Resuming (`/cron resume`, and `toggle` of a paused job): enabled and scheduled from
      `now`. */
  function Resumed(env: TimeEnv, job: CronJob, now: nat): (j: CronJob)
    ensures j.enabled && j.state.nextRunAt == NextRunAfter(env, job.schedule, now)
    ensures j.(enabled := job.enabled, state := job.state) == job
    ensures j.state.(nextRunAt := job.state.nextRunAt) == job.state
  {
    job.(enabled := true).WithNextRun(env, now)
  }

  /** Resuming a paused interval job schedules it one interval from the resume time,
      whatever it was before the pause. */
  lemma PauseThenResume(env: TimeEnv, job: CronJob, now: nat)
    requires job.schedule.Every?
    ensures Resumed(env, Paused(job), now).enabled
    ensures Resumed(env, Paused(job), now).state.nextRunAt == Some(now + job.schedule.interval)
    ensures Resumed(env, Paused(job), now).(state := job.state, enabled := job.enabled) == job
  {
  }

  /** The first half of `execute_job`: the stored job, if still there, is marked running. */
  method MarkRunning(store: CronStore, id: string)
    modifies store
    ensures id in old(store.jobs) ==> store.jobs == old(store.jobs)[id := Started(old(store.jobs)[id])]
    ensures id !in old(store.jobs) ==> store.jobs == old(store.jobs)
    ensures old(store.Valid()) ==> store.Valid()
  {
    if id in store.jobs {
      store.jobs := store.jobs[id := Started(store.jobs[id])];
    }
  }

  /** The second half of `execute_job`: the stored job, if still there, records the
      outcome. A job deleted while it ran stays deleted and nothing else changes. */
  method RecordCompletion(env: TimeEnv, store: CronStore, id: string, start: nat, end: nat, outcome: Result<string>)
    modifies store
    ensures id in old(store.jobs) ==>
              store.jobs == old(store.jobs)[id := Completed(env, old(store.jobs)[id], start, end, outcome)]
    ensures id !in old(store.jobs) ==> store.jobs == old(store.jobs)
    ensures old(store.Valid()) ==> store.Valid()
  {
    if id in store.jobs {
      store.jobs := store.jobs[id := Completed(env, store.jobs[id], start, end, outcome)];
    }
  }

  /** `execute_job` for a snapshot of a job taken when it was found due: the stored copy
      passes through running to completed, and the owner is told of the outcome when the
      snapshot asks for notification. */
  method ExecuteJob(env: TimeEnv, store: CronStore, job: CronJob, start: nat, outcome: Result<string>, end: nat)
    returns (sent: Option<Notification>)
    modifies store
    ensures job.id in old(store.jobs) ==>
              store.jobs == old(store.jobs)[job.id := Completed(env, Started(old(store.jobs)[job.id]), start, end, outcome)]
    ensures job.id !in old(store.jobs) ==> store.jobs == old(store.jobs)
    ensures old(store.Valid()) ==> store.Valid()
    ensures sent == if job.notify then Some(Notification(job.channel, job.userId, NotifyText(job.name, outcome))) else None
  {
    MarkRunning(store, job.id);
    RecordCompletion(env, store, job.id, start, end, outcome);
    if job.notify {
      sent := Some(Notification(job.channel, job.userId, NotifyText(job.name, outcome)));
    } else {
      sent := None;
    }
  }

  /** `run_now`: runs an owned job at once; anyone else's or a missing job is not found. */
  method RunNow(env: TimeEnv, store: CronStore, id: string, channel: string, userId: string,
                start: nat, outcome: Result<string>, end: nat)
    returns (r: Result<Option<Notification>>)
    requires store.Valid()
    modifies store
    ensures old(store.Get(id, channel, userId)).None? ==> r == Err("Job not found: " + id) && store.jobs == old(store.jobs)
    ensures old(store.Get(id, channel, userId)).Some? ==>
              var job := old(store.jobs)[id];
              store.jobs == old(store.jobs)[id := Completed(env, Started(job), start, end, outcome)]
              && r == Ok(if job.notify then Some(Notification(channel, userId, NotifyText(job.name, outcome))) else None)
  {
    var found := store.Get(id, channel, userId);
    if found.None? {
      return Err("Job not found: " + id);
    }
    var sent := ExecuteJob(env, store, found.value, start, outcome, end);
    return Ok(sent);
  }

  /** `toggle`: an owned job flips between paused and resumed (from `now`) and the new
      enabled flag is returned; a job the caller does not own is not found and nothing
      changes. */
  method Toggle(env: TimeEnv, store: CronStore, id: string, channel: string, userId: string, now: nat,
                saveError: Option<string>)
    returns (r: Result<bool>)
    modifies store
    ensures old(store.Get(id, channel, userId)).None? ==> r == Err("Job not found: " + id) && store.jobs == old(store.jobs)
    ensures old(store.Get(id, channel, userId)).Some? ==>
              var job := old(store.jobs)[id];
              store.jobs == old(store.jobs)[id := if job.enabled then Paused(job) else Resumed(env, job, now)]
              && r == (if saveError.Some? then Err(saveError.value) else Ok(!job.enabled))
    ensures old(store.Valid()) ==> store.Valid()
  {
    var found := store.Get(id, channel, userId);
    if found.None? {
      return Err("Job not found: " + id);
    }
    var newState := !found.value.enabled;
    var job := store.jobs[id];
    if newState {
      store.jobs := store.jobs[id := Resumed(env, job, now)];
    } else {
      store.jobs := store.jobs[id := Paused(job)];
    }
    if saveError.Some? {
      return Err(saveError.value);
    }
    return Ok(newState);
  }
}
