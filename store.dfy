/** The cron job table (src/cron/store.rs): job records, their run state, and the
    in-memory map from job ID to job. Reads are scoped to an owner, a (channel, user)
    pair; removal checks ownership. Writing the table to disk is an effect whose only
    visible outcome is the error it may report. */
module Store {
  import opened Wrappers
  import opened Strings
  import opened Schedule

  /** Outcome of the last execution. */
  datatype JobStatus = Pending | Running | Success | Failed(error: string) {
    /** `JobStatus::as_str`: one distinct lower-case word per kind of status. */
    function AsStr(): (s: string)
      ensures s == "pending" <==> Pending?
      ensures s == "running" <==> Running?
      ensures s == "success" <==> Success?
      ensures s == "failed" <==> Failed?
    {
      match this
      case Pending => "pending"
      case Running => "running"
      case Success => "success"
      case Failed(_) => "failed"
    }
  }

  /** `CronJobState`: what changes between runs. Times are Unix milliseconds. */
  datatype JobState = JobState(
    nextRunAt: Option<nat>,
    lastRunAt: Option<nat>,
    lastStatus: JobStatus,
    lastDurationMs: Option<nat>,
    failureCount: nat)

  /** `CronJobState::default()`. */
  const InitialState := JobState(None, None, Pending, None, 0)

  datatype CronJob = CronJob(
    id: string,
    name: string,
    prompt: string,
    schedule: CronSchedule,
    channel: string,
    userId: string,
    notify: bool,
    enabled: bool,
    createdAt: nat,
    state: JobState)
  {
    predicate OwnedBy(channel': string, userId': string) {
      channel == channel' && userId == userId'
    }

    /** `user_key`: channel and user joined by a colon. */
    function UserKey(): (k: string)
      ensures StartsWith(k, channel) && EndsWith(k, userId) && |k| == |channel| + 1 + |userId|
      ensures k[|channel|] == ':'
    {
      channel + ":" + userId
    }

    /** `update_next_run`: the schedule's next run after `now`; no other field moves. */
    function WithNextRun(env: TimeEnv, now: nat): (j: CronJob)
      ensures j.state.nextRunAt == NextRunAfter(env, schedule, now)
      ensures j.(state := state) == this
      ensures j.state.(nextRunAt := state.nextRunAt) == state
    {
      this.(state := state.(nextRunAt := NextRunAfter(env, schedule, now)))
    }

    /** `is_due`: enabled, and a next run that is not in the future. */
    predicate IsDue(now: nat) {
      enabled && state.nextRunAt.Some? && state.nextRunAt.value <= now
    }

    /** `short_id`: at most the first eight characters of the ID. */
    function ShortId(): (s: string)
      ensures |id| > 8 ==> |s| == 8
      ensures |id| <= 8 ==> s == id
      ensures StartsWith(id, s)
    {
      if |id| > 8 then id[..8] else id
    }
  }

  /** `CronJob::new`, with the generated ID and the current time given: notifying,
      enabled, never run, and scheduled from its creation time. */
  function NewJob(env: TimeEnv, id: string, name: string, prompt: string, schedule: CronSchedule,
                  channel: string, userId: string, now: nat): (j: CronJob)
    ensures j.id == id && j.name == name && j.prompt == prompt && j.schedule == schedule
    ensures j.OwnedBy(channel, userId) && j.createdAt == now
    ensures j.enabled && j.notify
    ensures j.state.lastStatus == Pending && j.state.failureCount == 0
    ensures j.state.lastRunAt.None? && j.state.lastDurationMs.None?
    ensures j.state.nextRunAt == NextRunAfter(env, schedule, now)
  {
    CronJob(id, name, prompt, schedule, channel, userId, true, true, now, InitialState).WithNextRun(env, now)
  }

  /** A job is due exactly from its next run time on, and never while disabled. */
  lemma DueFromNextRunOn(job: CronJob, now: nat, later: nat)
    requires job.IsDue(now) && now <= later
    ensures job.IsDue(later) && job.enabled && job.state.nextRunAt.value <= now
  {
  }

  /** A new interval job becomes due exactly one interval after its creation. */
  lemma NewIntervalJobDue(env: TimeEnv, id: string, name: string, prompt: string, interval: nat,
                          channel: string, userId: string, created: nat, now: nat)
    ensures NewJob(env, id, name, prompt, Every(interval), channel, userId, created).IsDue(now)
            <==> created + interval <= now
  {
  }

  /** A new one-shot job is due at its time if that time was ahead at creation, and
      never otherwise. */
  lemma NewOneShotJobDue(env: TimeEnv, id: string, name: string, prompt: string, ts: nat,
                         channel: string, userId: string, created: nat, now: nat)
    ensures NewJob(env, id, name, prompt, At(ts), channel, userId, created).IsDue(now)
            <==> created < ts <= now
  {
  }

  class CronStore {
    /** All jobs, by ID. */
    var jobs: map<string, CronJob>

    /** Every job is filed under its own ID. */
    predicate Valid()
      reads this
    {
      forall k :: k in jobs ==> jobs[k].id == k
    }

    /** `CronStore::default()`. */
    constructor ()
      ensures jobs == map[] && Valid()
    {
      jobs := map[];
    }

    /** `add`: files the job under its ID, replacing any job with that ID. The map is
        updated before the write to disk that may fail. */
    method Add(job: CronJob, saveError: Option<string>) returns (r: Result<string>)
      modifies this
      ensures jobs == old(jobs)[job.id := job]
      ensures old(Valid()) ==> Valid()
      ensures saveError.None? ==> r == Ok(job.id)
      ensures saveError.Some? ==> r == Err(saveError.value)
    {
      jobs := jobs[job.id := job];
      if saveError.Some? {
        return Err(saveError.value);
      }
      return Ok(job.id);
    }

    /** `remove`: refuses a job of another owner, leaving the map alone; otherwise deletes
        the job if present and returns it, touching no other entry. */
    method Remove(id: string, channel: string, userId: string, saveError: Option<string>)
      returns (r: Result<Option<CronJob>>)
      modifies this
      ensures id in old(jobs) && !old(jobs)[id].OwnedBy(channel, userId) ==>
                r == Err("You don't own this job") && jobs == old(jobs)
      ensures id !in old(jobs) ==> r == Ok(None) && jobs == old(jobs)
      ensures id in old(jobs) && old(jobs)[id].OwnedBy(channel, userId) ==>
                jobs == old(jobs) - {id} &&
                r == (if saveError.Some? then Err(saveError.value) else Ok(Some(old(jobs)[id])))
      ensures old(Valid()) ==> Valid()
    {
      if id in jobs && !jobs[id].OwnedBy(channel, userId) {
        return Err("You don't own this job");
      }
      if id !in jobs {
        return Ok(None);
      }
      var removed := jobs[id];
      jobs := jobs - {id};
      if saveError.Some? {
        return Err(saveError.value);
      }
      return Ok(Some(removed));
    }

    /** `list_for_user`: exactly the jobs of one owner. */
    function ListForUser(channel: string, userId: string): (r: set<CronJob>)
      reads this
      ensures forall j :: j in r <==> j in jobs.Values && j.OwnedBy(channel, userId)
    {
      set j | j in jobs.Values && j.OwnedBy(channel, userId)
    }

    /** `get`: the job with this ID, but only for its owner. */
    function Get(id: string, channel: string, userId: string): (r: Option<CronJob>)
      reads this
      ensures r.Some? <==> id in jobs && jobs[id].OwnedBy(channel, userId)
      ensures r.Some? ==> r.value == jobs[id] && r.value.OwnedBy(channel, userId)
    {
      if id in jobs && jobs[id].OwnedBy(channel, userId) then Some(jobs[id]) else None
    }

    /** `get_mut`'s lookup: the job with this ID, whoever owns it. */
    function GetAny(id: string): (r: Option<CronJob>)
      reads this
      ensures r.Some? <==> id in jobs
      ensures r.Some? ==> r.value == jobs[id]
    {
      if id in jobs then Some(jobs[id]) else None
    }

    /** `get_due_jobs`: exactly the due jobs. */
    function GetDueJobs(now: nat): (r: set<CronJob>)
      reads this
      ensures forall j :: j in r <==> j in jobs.Values && j.IsDue(now)
    {
      set j | j in jobs.Values && j.IsDue(now)
    }

    /** `get_enabled_jobs`: exactly the enabled jobs. */
    function GetEnabledJobs(): (r: set<CronJob>)
      reads this
      ensures forall j :: j in r <==> j in jobs.Values && j.enabled
    {
      set j | j in jobs.Values && j.enabled
    }
  }

  /** A due job is enabled and has a next run time: `get_due_jobs` never returns a paused
      job or one with nothing scheduled, and what is due stays due as time goes on. */
  lemma DueJobsAreEnabled(store: CronStore, now: nat, later: nat)
    requires now <= later
    ensures store.GetDueJobs(now) <= store.GetEnabledJobs()
    ensures store.GetDueJobs(now) <= store.GetDueJobs(later)
    ensures forall j :: j in store.GetDueJobs(now) ==> j.state.nextRunAt.Some?
  {
  }

  /** In a well-formed table, a listed job is exactly what `get` returns for its ID and
      owner, and `get` only ever returns listed jobs. */
  lemma ListAgreesWithGet(store: CronStore, channel: string, userId: string, id: string)
    requires store.Valid()
    ensures forall j :: j in store.ListForUser(channel, userId) ==> store.Get(j.id, channel, userId) == Some(j)
    ensures store.Get(id, channel, userId).Some? ==> store.Get(id, channel, userId).value in store.ListForUser(channel, userId)
  {
  }
}
