# Cica: cron engine, per-user bookkeeping and small parsers, in Dafny

Cica is a personal AI assistant that users talk to through chat channels (Telegram, Signal,
Slack). The assistant answers through a backend: Claude Code or the Cursor CLI. This project
models the parts of Cica that decide things and keep state. Each source file has its own
module.

- **Schedule** (`src/cron/schedule.rs`). The three schedule kinds (`At`, `Every`, `Cron`), the
  interval parser and formatter, the parser that dispatches between the three syntaxes, and
  the next-run computation. Datetime parsing, cron evaluation and local-time formatting come
  from chrono and croner; they are a `TimeEnv` value of functions passed in.
- **Store** (`src/cron/store.rs`). Job records, due-ness, short IDs, and the job table as a
  class over a `map`. Reads are owner-scoped and removal checks ownership.
- **Cron** (`src/cron/mod.rs`). The `/cron add` splitter, name truncation, the job updates
  `execute_job` makes before and after the backend call (the backend's result is an input),
  `toggle`, and the notification texts.
- **Clock** (`src/cron/clock.rs`). The fake clock: a shared 64-bit counter that clones share,
  with wrapping `advance` and `set`.
- **Channels** (`src/channels/mod.rs`). The message-routing decision (`determine_action`), the
  command and `/cron` subcommand handlers, job-ID prefix resolution, image-reference text, the
  channel table, and `UserTaskManager`'s bookkeeping of pending messages and debounce tasks.
- **Pairing** (`src/pairing.rs`). Pending pairing requests with a one-hour lifetime,
  case-insensitive approval, sessions, the xorshift64 generator on `bv64`, pairing-code
  generation with retries, and the UUID-shaped session IDs. The current time and the
  generator seeds are parameters.
- **Skills** (`src/skills.rs`). Frontmatter parsing of SKILL.md, XML escaping, the
  `<available_skills>` listing, and the sort by name.
- **Config** (`src/config.rs`). Per-channel settings with the global onboarding-prompt
  fallback, the list of configured channels, and the backend readiness predicates.
- **Setup** (`src/setup.rs`). Credential-type detection, setup-token validation, the
  API-key probe's outcome handling, and the Bun download table.
- **Cursor** (`src/backends/cursor.rs`). The model-list line parser and its fallback, prompt
  wrapping, model precedence, and the fold over the CLI's stream events.
- **Onboarding** (`src/onboarding.rs`). Per-user directory naming and phase selection. Which
  onboarding files exist, and their contents, are inputs. Also the assistant-name extraction
  and the channel formatting guidance.
- **Signal** (`src/channels/signal.rs`). Classification of `signal-cli register` output, the
  receive-failure counter that restarts the daemon, sender selection, and the image filter for
  incoming messages.

Two support modules hold shared definitions: `Wrappers` (`Option` and `Result`) and `Strings`.
`Strings` follows Rust's `str` methods (`trim`, `starts_with`, `find`, `split_once`, `splitn`,
`lines`, and ASCII case mapping) together with decimal numerals.

Objects whose fields the source updates in place are classes:
- `CronStore`, `PairingStore`, `UserTaskManager`;
- `FakeClock` and its shared counter;
- `SimpleRng`.

Their methods are proved against the functions that specify them. Loops in the source are
`while` loops with invariants, for example:
- the receive loop;
- the code-retry loop;
- the event fold;
- the XML builder;
- the frontmatter scan;
- the text-with-images builder.

## Model

| member | source | states |
|---|---|---|
| Schedule.UnitMultiplier | src/cron/schedule.rs:105-111 | every accepted unit spelling stands for a positive whole number of seconds |
| Schedule.ParseDuration | src/cron/schedule.rs:83-114 | blank input and input without a leading digit are errors; every accepted interval is a whole number of seconds |
| Schedule.ParseDurationOfNumberAndUnit | src/cron/schedule.rs:90-113 | a run of digits (leading zeros allowed) whose value is below 2^64, then optional white space, then a unit word, parses to the value times that unit's multiplier; a word that is no unit gives the "Invalid unit: <word>. Use s/m/h/d" error |
| Schedule.ParseDurationOfNatAndUnit | src/cron/schedule.rs:90-113 | a number below 2^64 in its decimal rendering directly followed by a unit word parses to the number times the multiplier, and an unknown word is an error |
| Schedule.MillisecondsRejected | src/cron/schedule.rs:105-110 | "<n>ms" is never an interval |
| Schedule.FormatDuration | src/cron/schedule.rs:117-129 | the rendering starts with "every " |
| Schedule.FormatDurationChoosesLargestUnit | src/cron/schedule.rs:117-129 | the unit shown is the largest of day, hour, minute and second that the interval is a whole, non-zero number of, followed by that count; when none fits, the interval is shown as "every <n>ms" |
| Schedule.ParseDatetime | src/cron/schedule.rs:133-157 | succeeds exactly when the date-time collaborator accepts the trimmed text, with its value |
| Schedule.Parse | src/cron/schedule.rs:31-49 | "at " gives exactly the one-shot at the time the datetime parser finds in the trimmed rest, and otherwise the "Invalid datetime" error; "every " gives exactly the interval `parse_duration` finds in the trimmed rest, and otherwise its error; anything else is a cron schedule of the trimmed text exactly when croner accepts it, and otherwise "Invalid cron expression" with croner's message |
| Schedule.NextCron | src/cron/schedule.rs:168-173 | an expression croner rejects has no next run |
| Schedule.NextRunAfter | src/cron/schedule.rs:53-65 | a one-shot fires only while strictly ahead, and at its own time; an interval runs exactly one interval later |
| Schedule.EveryIterates | src/cron/schedule.rs:62 | k steps of an interval schedule from t land at t + k * interval |
| Schedule.AtFiresOnce | src/cron/schedule.rs:55-61 | from the time a one-shot fires there is no further run |
| Schedule.Description | src/cron/schedule.rs:68-79 | a cron schedule is described by its expression, an interval by `format_duration`, a one-shot by text starting with "at " |
| Schedule.ParseEveryText | src/cron/schedule.rs:40-44 | "every " and a trimmed body parse exactly as `parse_duration` reads the body |
| Schedule.EveryUnitRoundTrip | src/cron/schedule.rs:117-125 | a whole number of one unit, written with that unit's letter, parses back to the interval |
| Schedule.EveryDescriptionRoundTrip | src/cron/schedule.rs:31-49 | an interval's description parses back to it exactly when it is a positive whole number of seconds |
| Schedule.SubSecondRejected | src/cron/schedule.rs:127 | an interval rendered in milliseconds does not parse back |
| Schedule.CronDescriptionRoundTrip | src/cron/schedule.rs:46-77 | a trimmed, croner-accepted expression that starts with neither keyword parses back from its description |
| Store.JobStatus.AsStr | src/cron/store.rs:27-35 | each status kind has its own word, and each word names exactly one kind |
| Store.CronJob.UserKey | src/cron/store.rs:128-130 | the key is the channel, a colon, then the user ID |
| Store.CronJob.WithNextRun | src/cron/store.rs:133-135 | the next run becomes the schedule's next run after `now`; no other field of the job or its state changes |
| Store.CronJob.ShortId | src/cron/store.rs:143-149 | an ID longer than eight characters shows its first eight; a shorter one is shown whole |
| Store.NewJob | src/cron/store.rs:102-124 | a new job carries the given fields, is enabled and notifying, pending with no failures and no runs, and its next run is the schedule's next run after its creation |
| Store.DueFromNextRunOn | src/cron/store.rs:138-140 | a due job is enabled with a next run not after now, and stays due at every later time |
| Store.NewIntervalJobDue | src/cron/store.rs:102-140 | a new interval job is due exactly from one interval after its creation |
| Store.NewOneShotJobDue | src/cron/store.rs:102-140 | a new one-shot job is due exactly when its time was ahead at creation and has come |
| Store.CronStore.constructor | src/cron/store.rs:154-158 | the default table is empty |
| Store.CronStore.Add | src/cron/store.rs:191-197 | the job is filed under its ID, replacing any job with that ID; the ID is returned unless saving fails |
| Store.CronStore.Remove | src/cron/store.rs:200-214 | another owner's job is refused and the table is unchanged; an absent ID gives nothing and changes nothing; an owned job is deleted and returned and every other job stays |
| Store.CronStore.ListForUser | src/cron/store.rs:217-222 | exactly the jobs whose channel and user both match |
| Store.CronStore.Get | src/cron/store.rs:225-229 | the job with this ID exactly when the caller owns it |
| Store.CronStore.GetAny | src/cron/store.rs:232-234 | the job with this ID, whoever owns it |
| Store.CronStore.GetDueJobs | src/cron/store.rs:237-239 | exactly the jobs that are due at `now` |
| Store.CronStore.GetEnabledJobs | src/cron/store.rs:243-245 | exactly the enabled jobs |
| Store.DueJobsAreEnabled | src/cron/store.rs:237-245 | due jobs are enabled and have a next run, and the due set only grows with time |
| Store.ListAgreesWithGet | src/cron/store.rs:217-229 | the listed jobs are exactly what `get` returns to their owner |
| Clock.WrappingAdd | src/cron/clock.rs:52-54 | the sum when it fits in 64 bits, otherwise the sum minus 2^64 |
| Clock.TruncateToU64 | src/cron/clock.rs:57-59 | keeps a value that fits in 64 bits and otherwise agrees with it modulo 2^64 |
| Clock.SharedCounter.constructor | src/cron/clock.rs:45-49 | the counter starts at the given value |
| Clock.FakeClock.constructor | src/cron/clock.rs:45-49 | a new clock has its own counter and reads the initial time |
| Clock.FakeClock.Share | src/cron/clock.rs:35-40 | a clone uses the same counter and reads the same time |
| Clock.FakeClock.AdvanceMs | src/cron/clock.rs:52-54 | the time grows by exactly the duration, wrapping at 2^64 |
| Clock.FakeClock.Advance | src/cron/clock.rs:57-59 | the duration's milliseconds, truncated to 64 bits, are added |
| Clock.FakeClock.Set | src/cron/clock.rs:62-64 | the time becomes the given value whatever it was |
| Clock.FakeClock.Sleep | src/cron/clock.rs:72-75 | sleeping leaves the time unchanged |
| Clock.ClonesShareTime | src/cron/clock.rs:36-64 | time advanced or set through one clone is the time the other clone reads |
| Cron.ScheduleWordCount | src/cron/mod.rs:350-378 | "every " takes two schedule words, "at " three, anything else five |
| Cron.SplitSchedule | src/cron/mod.rs:352-384 | the split exists exactly when `splitn` yields one part more than the schedule words; the schedule words and the prompt rebuild the trimmed command |
| Cron.ParseAddCommand | src/cron/mod.rs:340-395 | blank input gives the usage text; too few parts gives the "every" usage, the "at" usage or the "Could not parse schedule" text, by schedule style; when the schedule words parse, the result is exactly that schedule and the rest as the prompt; when they do not, the parse error is passed on for "every" and "at", and a five-field schedule gives the "Could not parse schedule" text |
| Cron.AddCommandCronStyle | src/cron/mod.rs:376-387 | a command starting with neither keyword can only give a cron schedule |
| Cron.FormatTimestamp | src/cron/mod.rs:333-337 | the local rendering when chrono has one, else "unknown" |
| Cron.TruncateForName | src/cron/mod.rs:398-405 | a short trimmed string is returned as is; a long one becomes exactly `max` characters: its start and "..." |
| Cron.NotifyText | src/cron/mod.rs:314-322 | a success is exactly "[Cron: name]", a blank line and the response; a failure is exactly "[Cron: name FAILED]", a blank line, "Error: " and the error |
| Cron.NotifyTextsDiffer | src/cron/mod.rs:315-321 | a success and a failure message for the same job never coincide |
| Cron.Started | src/cron/mod.rs:246-253 | a running job has no next run, so it is never due; nothing else changes |
| Cron.ElapsedMs | src/cron/mod.rs:280-281 | the duration is end minus start while the clock moved forward, and wraps around 2^64 when it stepped back, as u64 subtraction does in a release build |
| Cron.Completed | src/cron/mod.rs:284-309 | records the end time and the (wrapping) duration; success resets the failure count, failure stores the error and adds one; the next run is recomputed from the end time, except that a successful one-shot is disabled with no next run; nothing else changes |
| Cron.OneShotAfterRun | src/cron/mod.rs:301-308 | a finished one-shot is never due again; a failed one keeps its enabled flag |
| Cron.IntervalAfterRun | src/cron/mod.rs:301-302 | an interval job runs again one interval after the end of its run |
| Cron.TrailingFailures | src/cron/mod.rs:290-299 | the length of the run of failures that ends the history |
| Cron.FailureCountIsConsecutiveFailures | src/cron/mod.rs:290-299 | after a series of runs the failure count is the number of failures since the last success |
| Cron.Paused | src/channels/mod.rs:608-614 | a paused job is disabled with no next run and never due; nothing else changes |
| Cron.Resumed | src/channels/mod.rs:641-646 | a resumed job is enabled with its next run computed from now; nothing else changes |
| Cron.PauseThenResume | src/channels/mod.rs:599-665 | pausing then resuming gives back the job with a fresh next run |
| Cron.MarkRunning | src/cron/mod.rs:246-253 | the stored job, if present, is replaced by its running form; the table is otherwise unchanged |
| Cron.RecordCompletion | src/cron/mod.rs:284-311 | the stored job, if still present, is replaced by its completed form; a job deleted while running changes nothing |
| Cron.ExecuteJob | src/cron/mod.rs:234-330 | the store ends with the job started then completed; a notification with the formatted text goes to the owner exactly when the job notifies |
| Cron.RunNow | src/cron/mod.rs:177-197 | someone else's or a missing job gives "Job not found" and changes nothing; otherwise the job is executed |
| Cron.Toggle | src/cron/mod.rs:208-230 | someone else's or a missing job gives "Job not found" and changes nothing; otherwise the job is paused if enabled and resumed if not, and the new flag is returned |
| Channels.ActionFor | src/channels/mod.rs:130-162 | a command's reply is sent as it is and a `/cron run` executes exactly that job; otherwise incomplete onboarding gets the text, with "/start" turned into "hi"; afterwards "/start" and empty text are ignored and everything else is asked of the model, never a pairing |
| Channels.BuildTextWithImages | src/channels/mod.rs:168-184 | the loop's result is the text with each usable path appended in turn |
| Channels.AllPaths | src/channels/mod.rs:171-172 | every path converts to text, in order |
| Channels.NoImages | src/channels/mod.rs:168-184 | without a usable path the text comes back unchanged |
| Channels.ImagesAfterText | src/channels/mod.rs:171-181 | non-empty text gets a blank line and "@p0", then " @p" for each later path; empty text starts straight with "@p0" |
| Channels.Matches | src/channels/mod.rs:724-728 | exactly the caller's jobs whose ID starts with the input |
| Channels.Target | src/channels/mod.rs:710-743 | an exact owned ID wins; otherwise a single prefix match is the answer, and only then |
| Channels.TargetIsOwned | src/channels/mod.rs:710-743 | a resolved ID always names a job of the caller |
| Channels.FindJobId | src/channels/mod.rs:710-743 | the resolved ID, "Job not found" for no match, and for several an ambiguity error listing the short ID of every match, each once |
| Channels.CollectShortIds | src/channels/mod.rs:736-740 | goes through every key of the set once, and the short IDs come in the same order as the keys |
| Channels.ListingLines | src/channels/mod.rs:425-428 | one line per entry, in order |
| Channels.ListingShowsItem | src/channels/mod.rs:425-428 | the reply is the header followed by every entry's line in order |
| Channels.ListingNamesItem | src/channels/mod.rs:425-428 | every entry's name and description appear in the reply |
| Channels.Listing | src/channels/mod.rs:424-429 | the loop builds the header followed by each entry's line |
| Channels.SkillItems | src/channels/mod.rs:451-454 | one name and description pair per installed skill, in order |
| Channels.SkillsTextShowsSkill | src/channels/mod.rs:446-456 | every installed skill appears as a bullet with its name and description |
| Channels.NextText | src/channels/mod.rs:488-492 | a job's next run in local time, or the fallback word when there is none |
| Channels.OwnedKeys | src/channels/mod.rs:474-477 | exactly the IDs of the caller's jobs |
| Channels.JobEntries | src/channels/mod.rs:482-503 | one entry per listed job, in listing order |
| Channels.JobsTextSnoc | src/channels/mod.rs:482-503 | listing one job more appends exactly its entry |
| Channels.OrderStep | src/channels/mod.rs:482-503 | each visited job extends the listing order without repeats |
| Channels.ListJobs | src/channels/mod.rs:474-506 | no owned job gives the "no scheduled jobs" text; otherwise every owned job is listed exactly once |
| Channels.AddedJob | src/channels/mod.rs:519-536 | the new job has the generated ID, the caller as owner, the prompt, the schedule and the prompt cut to 30 characters as its name |
| Channels.Saved | src/channels/mod.rs:540-555 | a failing save is the error, otherwise the reply is sent |
| Channels.CronAdd | src/channels/mod.rs:508-556 | the table gains the new job exactly when the command parses; the reply is the usage, the parse error, the save error or the confirmation |
| Channels.IdJobs | src/channels/mod.rs:558-665 | remove deletes only the target; run, pause and resume keep every ID; other jobs are untouched |
| Channels.CronById | src/channels/mod.rs:558-665 | an ID-taking subcommand resolves the ID, and only a resolved job of the caller is removed, run, paused or resumed |
| Channels.ApplyToJob | src/channels/mod.rs:566-661 | the table and the reply are the subcommand's effect on the resolved job |
| Channels.SubAndRest | src/channels/mod.rs:469-471 | the subcommand is the text before the first space and the rest follows it |
| Channels.SubAndRestOfWords | src/channels/mod.rs:469-471 | a word, a space and a rest split back into that word and that rest |
| Channels.ProcessCronCommand | src/channels/mod.rs:468-687 | dispatch on the subcommand and its aliases, unknown or empty giving the help text; the table changes only as the chosen subcommand's effect |
| Channels.AddedJobIsListed | src/channels/mod.rs:508-556 | after a successful add the caller owns exactly the old jobs plus the new one |
| Channels.AddThenRemove | src/channels/mod.rs:508-582 | removing a job by the ID it was just added under gives the old table back |
| Channels.AddKeepsOthers | src/channels/mod.rs:508-556 | adding never changes another user's jobs |
| Channels.TargetKeepsOthers | src/channels/mod.rs:558-665 | remove, pause and resume never change another user's jobs |
| Channels.CronKeepsOtherUsersJobs | src/channels/mod.rs:468-687 | no `/cron` subcommand changes another user's jobs |
| Channels.AddWord | src/channels/mod.rs:508 | "add" followed by arguments acts as the add subcommand |
| Channels.RemoveWord | src/channels/mod.rs:558 | "rm" acts as remove |
| Channels.ClassifyCases | src/channels/mod.rs:424-464 | "/commands", "/new" and "/skills" are exact matches, anything starting with "/cron" is a cron command with the trimmed rest as arguments, and everything else is not a command |
| Channels.ProcessCommand | src/channels/mod.rs:415-466 | the reply for the classified command; "/new" after onboarding forgets only the caller's session; only `/cron` changes the job table |
| Channels.OtherCommand | src/channels/mod.rs:424-456 | the commands listing, the skills listing or "No skills installed.", the onboarding refusal of "/new", and after onboarding "/new" removes exactly the caller's session key; pending and approved users are untouched |
| Channels.ToAction | src/channels/mod.rs:130-138 | a command error is the error, otherwise the routing decision |
| Channels.RequestPairing | src/channels/mod.rs:120-124 | `PairingReply`: after pruning, an unapproved user with a live request gets its code back and the store is only pruned; otherwise a request under the first free code is appended and its code is the reply, unless saving fails (then the save error); when no free code is found the store is only pruned and the reply is that error. Any code returned is pending for the user; approvals and sessions are unchanged |
| Channels.CommandStep | src/channels/mod.rs:126-162 | for an approved user, the command step runs on the trimmed text and its outcome decides the action; pairing requests and approvals stay as they were, and a text that is no command leaves the job table and sessions alone |
| Channels.DetermineAction | src/channels/mod.rs:108-163 | an unapproved user gets the `PairingReply` outcome and the cron table, approvals and sessions are untouched; otherwise the command step runs and its reply or the routing decision on the trimmed text is returned |
| Channels.UserTaskManager.constructor | src/channels/mod.rs:323-328 | no pending messages and no tasks |
| Channels.UserTaskManager.ProcessMessage | src/channels/mod.rs:333-393 | the message joins the end of its key's queue, the key's previous task is aborted and replaced by the new one, and other keys are untouched |
| Channels.UserTaskManager.RunTask | src/channels/mod.rs:365-390 | an aborted task does nothing; otherwise it takes the key's whole queue in order, and it clears its task entry only when the queue was not empty |
| Channels.Burst | src/channels/mod.rs:333-393 | messages arriving in a burst reach the handler together, in order, and leave nothing behind |
| Channels.GetChannelInfo | src/channels/mod.rs:852-866 | Telegram and Signal are known, under their own names; nothing else is |
| Pairing.SaturatingSub | src/pairing.rs:87 | `saturating_sub`: the difference, or 0 when it would be negative |
| Pairing.LiveRequests | src/pairing.rs:82-88 | exactly the requests younger than the one-hour lifetime survive (their order: `LiveRequestsAppend`) |
| Pairing.LiveRequestsAppend | src/pairing.rs:82-88 | pruning a concatenation is pruning each part and concatenating, so the survivors keep their order |
| Pairing.LiveRequestsSingle | src/pairing.rs:82-88 | a single request survives exactly when it is live |
| Pairing.PruneIdempotent | src/pairing.rs:82-88 | pruning twice at the same time is pruning once |
| Pairing.PrunePreservesDistinct | src/pairing.rs:82-88 | pruning keeps the codes distinct and at most one request per user |
| Pairing.Codes | src/pairing.rs:250 | the set of the pending codes |
| Pairing.FindRequestFor | src/pairing.rs:110-114 | the first request of the given user on the given channel, or none when there is none |
| Pairing.FindCode | src/pairing.rs:144-148 | the first request carrying the code, or none when no request carries it |
| Pairing.XorShiftZero | src/pairing.rs:291-297 | the xorshift64 step maps 0, and only 0, to 0 |
| Pairing.SimpleRng.constructor | src/pairing.rs:287-289 | the state is the seed |
| Pairing.SimpleRng.Next | src/pairing.rs:291-297 | one xorshift64 step on 64 bits, returning the new state |
| Pairing.AlphabetIsCodeChars | src/pairing.rs:12 | the alphabet has 32 characters, all capitals without I and O or digits without 0 and 1 |
| Pairing.AlphabetChar | src/pairing.rs:277-278 | a generator output picks an alphabet character |
| Pairing.CodeChars | src/pairing.rs:275-280 | n draws give n alphabet characters |
| Pairing.CodeFromAlphabet | src/pairing.rs:263-281 | every generated code has 8 characters, all from the alphabet |
| Pairing.ZeroSeedCode | src/pairing.rs:291-297 | a zero seed stays zero, so every character is the alphabet's first |
| Pairing.GenerateCode | src/pairing.rs:263-281 | the loop produces the code the seed determines |
| Pairing.FirstFreeCode | src/pairing.rs:247-260 | the first seed's code that is not taken; an error only when every attempt is taken |
| Pairing.GenerateUniqueCode | src/pairing.rs:247-260 | up to 100 attempts, returning the first code no pending request uses |
| Pairing.HexDigit | src/pairing.rs:321-322 | the lower-case hexadecimal digit of a value below 16 |
| Pairing.Hex2 | src/pairing.rs:321-322 | `{:02x}`: two hexadecimal digits |
| Pairing.HexMin | src/pairing.rs:321-322 | `{:01x}`: one digit below 16, two digits otherwise |
| Pairing.VariantDigits | src/pairing.rs:331 | the variant byte always takes two digits and starts with 8, 9, a or b |
| Pairing.ConcatMapPair | src/pairing.rs:321-338 | when every element gives two characters, element i's text sits at positions 2i and 2i + 1 of the concatenation |
| Pairing.HexBytes | src/pairing.rs:321-338 | two hexadecimal digits per byte |
| Pairing.Masked | src/pairing.rs:329-331 | only the version and variant bytes are masked |
| Pairing.UuidTextIsFormat | src/pairing.rs:321-339 | the text is the formatted groups of the sixteen bytes, separated by hyphens, with "4" before the third group |
| Pairing.UuidTextLayout | src/pairing.rs:310-340 | 36 characters, hyphens at 8, 13, 18 and 23, '4' at 14, one of 8, 9, a and b at 19, hexadecimal elsewhere |
| Pairing.OutputBytes | src/pairing.rs:318 | n bytes, one per generator step |
| Pairing.FillBytes | src/pairing.rs:318 | the buffer holds the low byte of each of n successive draws, in draw order |
| Pairing.GenerateUuid | src/pairing.rs:310-340 | the loop produces the text the seed determines |
| Pairing.WithApproved | src/pairing.rs:153-156 | the user joins the channel's approved list and other channels keep theirs |
| Pairing.PairingStore.constructor | src/pairing.rs:39-46 | no pending requests, approvals or sessions |
| Pairing.PairingStore.PruneExpired | src/pairing.rs:82-88 | only the live requests remain; approvals and sessions are unchanged |
| Pairing.PairingStore.GetOrCreatePending | src/pairing.rs:100-134 | a live request of the same user gives its code and no new entry; otherwise a request with a code no live request uses is appended and reported as new |
| Pairing.PairingStore.Approve | src/pairing.rs:138-161 | the upper-cased code removes exactly its request and approves its user; an unknown code is an error and approves nobody |
| Pairing.PairingStore.ApproveAt | src/pairing.rs:150-156 | the request at the index is removed, the rest keep their order, its user joins its channel's approved list, and the store stays well-formed |
| Pairing.PairingStore.AutoApprove | src/pairing.rs:164-176 | the user is approved with no pending request involved |
| Pairing.PairingStore.ListPending | src/pairing.rs:180-183 | prunes, then lists exactly the live requests |
| Pairing.PairingStore.GetOrCreateSession | src/pairing.rs:187-200 | an existing session ID is returned unchanged; otherwise a new one is stored under "channel:user" |
| Pairing.PairingStore.ResetSession | src/pairing.rs:204-208 | exactly the caller's session is forgotten |
| Pairing.AppendKeepsValid | src/pairing.rs:119-130 | appending a request with a fresh code for a user without one keeps codes distinct and one request per user |
| Pairing.RemoveKeepsValid | src/pairing.rs:150 | removing a request keeps codes distinct and one request per user |
| Pairing.ApprovalIsPermanent | src/pairing.rs:153-174 | approving anyone never unapproves anyone |
| Skills.ReplaceChar | src/skills.rs:130-134 | `str::replace` of one character: text without it is unchanged, and it is gone when the replacement lacks it |
| Skills.ReplaceAppend | src/skills.rs:130-134 | replacing a character distributes over concatenation |
| Skills.ReplaceKeepsAbsent | src/skills.rs:130-134 | a replacement chain introduces no character that neither the text nor the replacement has |
| Skills.EscapeChar | src/skills.rs:129-135 | a single escaped character is free of '<', '>', '"' and '\'' |
| Skills.EscapeXmlAppend | src/skills.rs:129-135 | escaping distributes over concatenation |
| Skills.EscapeXmlOfChar | src/skills.rs:129-135 | the replace chain escapes one character exactly as the per-character table says, so '&' is escaped first and the entities are not escaped again |
| Skills.EscapeXmlIsPerChar | src/skills.rs:129-135 | the replace chain equals escaping each character on its own |
| Skills.EscapeXmlNoRawSpecials | src/skills.rs:129-135 | escaped text contains no raw '<', '>', '"' or '\'' |
| Skills.EscapeXmlOfPlain | src/skills.rs:141-146 | text without special characters, such as "hello", is unchanged |
| Skills.EscapeXmlAround | src/skills.rs:141-146 | one special character between plain text is replaced by its entity and nothing else changes, so "a < b" becomes "a &lt; b" and "a & b" becomes "a &amp; b" |
| Skills.FrontmatterBounds | src/skills.rs:60-62 | the frontmatter exists exactly when the content starts with "---" and a later "---" follows; it is the text up to the first such marker |
| Skills.LastFieldIsLast | src/skills.rs:64-83 | a value found comes from the last frontmatter line that sets the key |
| Skills.LastFieldAbsent | src/skills.rs:64-83 | no value is found exactly when no line sets the key |
| Skills.LastFieldStep | src/skills.rs:64-83 | each line either sets the value or keeps the earlier one |
| Skills.TrimAll | src/skills.rs:64-65 | each frontmatter line is trimmed before it is read |
| Skills.ParseSkill | src/skills.rs:53-100 | the loop gives the last name and description the frontmatter sets, falling back to the directory name and "Skill: {dir}" |
| Skills.NoFrontmatterFallback | src/skills.rs:60-98 | content without frontmatter gets the directory name and "Skill: {dir}" |
| Skills.Blocks | src/skills.rs:110-122 | one block per skill, in order |
| Skills.SkillsXmlShape | src/skills.rs:103-126 | no skills give ""; otherwise the blocks in input order sit inside `<available_skills>` |
| Skills.FormatSkillsXml | src/skills.rs:103-126 | the loop builds the document the shape lemma describes |
| Skills.LessIrreflexive | src/skills.rs:47 | the name order is irreflexive |
| Skills.LessTransitive | src/skills.rs:47 | the name order is transitive |
| Skills.LessTotal | src/skills.rs:47 | any two distinct names are ordered |
| Skills.InsertByName | src/skills.rs:47 | inserting adds exactly the one skill |
| Skills.InsertKeepsSorted | src/skills.rs:47 | inserting into a sorted list keeps it sorted |
| Skills.SortByNamePermutes | src/skills.rs:47 | sorting neither loses nor adds a skill |
| Skills.SortByNameSorted | src/skills.rs:47 | the sorted skills are in name order |
| Config.DefaultConfig | src/config.rs:108-136 | a fresh configuration selects the Claude backend, sets up no channel and has no global onboarding prompt |
| Config.ConfiguredChannels | src/config.rs:321-335 | lists exactly the channels that have a section, each once, in the order telegram, signal, slack |
| Config.ChannelSettingsFor | src/config.rs:221-257 | an unknown or unconfigured channel gets the default settings; a configured one keeps its own auto-approve and shared-identity switches and has a prompt when it or the global section sets one |
| Config.ChannelPromptPrecedence | src/config.rs:221-254 | the channel's own onboarding prompt wins over the global one, which applies only when the channel sets none |
| Config.SettingsOnlyForListed | src/config.rs:221-335 | a channel that gets anything but the defaults is one of the configured channels |
| Config.ClaudeConfigured | src/config.rs:338-347 | with Vertex AI, ready exactly when a non-empty project ID is set; otherwise exactly when an API key is present, empty or not |
| Config.ClaudeModesIndependent | src/config.rs:338-347 | the credential of the mode not in use never changes whether Claude counts as configured |
| Config.CursorConfigured | src/config.rs:350-352 | ready exactly when a Cursor API key is present |
| Config.BackendConfigured | src/config.rs:355-360 | the selected backend's own readiness check decides, and the other backend's settings do not matter |
| Config.DefaultConfigIsEmpty | src/config.rs:108-136 | a fresh configuration lists no channel, gives every channel the default settings and is not ready to answer |
| Setup.DetectCredentialType | src/setup.rs:151-158 | a credential is an OAuth token exactly when it starts with sk-ant-oat as given, untrimmed |
| Setup.ValidateOAuthToken | src/setup.rs:201-217 | accepted exactly when the trimmed token has the prefix and at least 80 characters; a missing prefix is reported before a short length, and the length error names the trimmed length |
| Setup.EnvOAuthToken | src/setup.rs:160-165 | the first environment variable wins, the second is used only when the first is unset, and a token is found when either is set |
| Setup.ValidateApiKey | src/setup.rs:178-197 | accepted exactly on a 2xx status; 401 is an invalid key, a failed connection has its own error, and every other status is an "API error: " naming it |
| Setup.ValidateCredential | src/setup.rs:170-176 | an OAuth token gets the format check alone and every other credential the API probe |
| Setup.PrefixSurvivesTrim | src/setup.rs:152-207 | a credential detected as an OAuth token keeps its prefix once trimmed, so the format check never rejects it for the prefix |
| Setup.OAuthAcceptedByLength | src/setup.rs:170-217 | an OAuth token is accepted, whatever the network says, exactly when its trimmed form has at least 80 characters |
| Setup.LeadingSpaceDetectsApiKey | src/setup.rs:152-217 | a valid setup token with a leading space is sent to the API probe as an API key, although its own format check would accept it |
| Setup.BunDownloadUrl | src/setup.rs:9-25 | a URL exactly for macOS or Linux on aarch64 or x86_64, and otherwise an error naming the platform |
| Setup.BunUrlsFollowReleaseNaming | src/setup.rs:9-25 | every URL in the table is the pinned release directory plus bun-{os}-{arch}.zip in Bun's naming (darwin, x64) |
| Onboarding.UserDir | src/onboarding.rs:36-42 | a user's files live in users/{channel}_{user_id} |
| Onboarding.UserDirInjective | src/onboarding.rs:36-42 | for channel names without an underscore, different (channel, user) pairs never share a directory |
| Onboarding.UnderscoreChannelsCollide | src/onboarding.rs:36-42 | without that condition the naming collides: channel a_b with user c and channel a with user b_c get the same directory |
| Onboarding.CurrentPhase | src/onboarding.rs:65-77 | the identity phase exactly while IDENTITY.md is missing, the user phase exactly when only USER.md is missing, and complete exactly when both exist |
| Onboarding.IsComplete | src/onboarding.rs:80-82 | onboarding is complete exactly when the phase is Complete |
| Onboarding.IdentityGatesOnboarding | src/onboarding.rs:65-82 | without IDENTITY.md a user is in the identity phase and never complete, whatever USER.md says |
| Onboarding.SystemPromptFor | src/onboarding.rs:85-91 | the onboarding prompt is empty exactly when onboarding is complete; otherwise it is the identity prompt naming IDENTITY.md's path or the profile prompt naming USER.md's path |
| Onboarding.FirstLineWith | src/onboarding.rs:222-225 | the index of the first line with the prefix, or none when no line has it |
| Onboarding.AssistantName | src/onboarding.rs:220-228 | the trimmed text after "- Name:" on the first line that starts with it, and Cica when there is no identity or no such line |
| Onboarding.IdentityNameRoundTrip | src/onboarding.rs:120-127 | reading the assistant name back from an identity file written in the prescribed format yields the name written, for any trimmed one-line name |
| Onboarding.FormattingLines | src/onboarding.rs:271-295 | the Signal plain-text rules exactly when the channel name is signal in any case, the Telegram markdown rules exactly when it is telegram, and the plain-text hint otherwise |
| Onboarding.IntroLine | src/onboarding.rs:238-244 | the line introduces the assistant by its name as a personal AI assistant chatting via a messaging app, and ends with a full stop; without a channel nothing else is said |
| Onboarding.IntroLineWithChannel | src/onboarding.rs:238-244 | naming the channel only inserts " (via <channel>)" before the full stop of the line without one |
| Onboarding.ChannelGuidance | src/onboarding.rs:257-297 | no channel section without a channel; with one, the section header, the channel name, the no-streaming rule and the formatting heading, then the formatting lines and a blank line |
| Onboarding.DisplayNamesSelectFormatting | src/onboarding.rs:272-291 | the display names Telegram and Signal, as the channel table gives them, select their own formatting rules |
| Onboarding.FormattingIgnoresCase | src/onboarding.rs:272 | names that differ only in letter case get the same formatting rules |
| Signal.FailedRegistration | src/channels/signal.rs:701-729 | a failed registration is never a success; it asks for a CAPTCHA exactly when the output mentions one and none was given, and otherwise takes the first of these that the output mentions: an already-registered number, then a refused authorization ("authorization failed" or 403), then a rate limit ("rate limit" or 429); it is an error exactly when a supplied CAPTCHA failed or the output matches none of these, with the CAPTCHA or generic message around the trimmed output |
| Signal.ClassifyRegistration | src/channels/signal.rs:685-729 | success exactly when signal-cli exited successfully; otherwise the classification of stdout followed by stderr |
| Signal.RegistrationChecksInOrder | src/channels/signal.rs:701-719 | the CAPTCHA test comes first: output that mentions both a CAPTCHA and an already-registered number still asks for a CAPTCHA, and already-registered output without a CAPTCHA is reported as such whether or not a token was supplied |
| Signal.RegistrationIgnoresCase | src/channels/signal.rs:688-724 | outputs that differ only in letter case get the same classification |
| Signal.FailuresAreTrailingRun | src/channels/signal.rs:437-468 | the failure counter is the length of the run of failed receives since the last success |
| Signal.RunMessageLoop | src/channels/signal.rs:437-473 | the loop asks for a daemon restart exactly after 10 consecutive failed receives, never earlier, and otherwise consumes every receive |
| Signal.FailuresSinceSuccess | src/channels/signal.rs:441-456 | a successful receive resets the counter, so only the failures after it count |
| Signal.IsImageContentType | src/channels/signal.rs:508-513 | exactly JPEG, PNG, GIF and WebP are images |
| Signal.Sender | src/channels/signal.rs:526-531 | the phone number when present, else the UUID, else the legacy source, else empty |
| Signal.EmptyNumberHidesUuid | src/channels/signal.rs:526-535 | a present but empty phone number is chosen over the UUID, so the message is dropped |
| Signal.ImagePaths | src/channels/signal.rs:545-554 | at most one path per attachment |
| Signal.ImagePathsExact | src/channels/signal.rs:494-554 | a path is collected exactly when some attachment has an image content type and an id whose file exists under attachments/ |
| Signal.Intake | src/channels/signal.rs:521-563 | a message is delivered exactly when it has an envelope, a non-empty sender and a data message with text or at least one image, and it carries that sender, text, image paths and display name |
| Signal.CaptionlessImageIsDelivered | src/channels/signal.rs:545-563 | an image without a caption is still delivered, with empty text and the image's path |
| Cursor.ParseModelLine | src/backends/cursor.rs:63-74 | a model line is skipped exactly when, once trimmed, it is empty, starts with Available or Tip:, or has no " - " separator; otherwise the id is the trimmed text before the first separator and the name is the rest without its (current)/(default) marker |
| Cursor.FilterMap | src/backends/cursor.rs:60-75 | `filter_map` keeps at most one value per element |
| Cursor.FilterMapExact | src/backends/cursor.rs:60-75 | `filter_map` keeps a value exactly when some element maps to it |
| Cursor.ParseModelsExact | src/backends/cursor.rs:60-75 | a model is listed exactly when some output line parses to it |
| Cursor.ModelsFromOutput | src/backends/cursor.rs:77-89 | never empty: the parsed models when there are any, and the fallback list when none parse |
| Cursor.ModelLineRoundTrip | src/backends/cursor.rs:60-75 | a line written as "{id} - {name}" with or without a (current) or (default) marker parses back to that id and name |
| Cursor.FullPrompt | src/backends/cursor.rs:127-130 | without context the prompt is sent as is; with it, the prompt follows a context block that opens with the <context> tag and adds 23 characters of framing (the exact layout: `FullPromptRecoversContext`) |
| Cursor.FullPromptRecoversContext | src/backends/cursor.rs:127-130 | the framed prompt is exactly "<context>\n", the context, "\n</context>\n\n" and the prompt, each at its position |
| Cursor.SelectModel | src/backends/cursor.rs:147-150 | the requested model wins, then the configured one, then the default model |
| Cursor.LastSession | src/backends/cursor.rs:200-202 | the session id of the last event that carries one, and none exactly when no event carries one |
| Cursor.LastAnswer | src/backends/cursor.rs:204-215 | the text of the last result event that carries one, and none exactly when no result event carries text |
| Cursor.FoldStep | src/backends/cursor.rs:188-221 | one more line moves the last answer and last session forward only when that event carries one, and sets the error flag exactly on an error result |
| Cursor.FoldEvents | src/backends/cursor.rs:188-221 | the loop over the stream yields the query outcome: an error on any error result, else the last answer with the last session id, else the no-result error |
| Cursor.LaterAnswerWins | src/backends/cursor.rs:208-214 | without errors, an answer and a session id arriving last are the ones returned |
| Cursor.ErrorFailsQuery | src/backends/cursor.rs:205-207 | an error result anywhere in the stream fails the query, whatever comes before or after |

## Left out

- Persistence is not modelled. This covers the JSON and TOML `load`/`save` of the cron store, the pairing store and the configuration, `paths()` and `ensure_dirs`. A failing `save` is a `saveError` parameter that turns into the operation's error after the in-memory update, as in the source. The model makes no claim that writes are atomic.
- Concurrency and timing are not modelled: the tokio tick loop, the shutdown channel, the debounce sleeps, the `JoinHandle::abort` timing and the typing indicators. `UserTaskManager` is modelled as its sequential map updates, with aborts recorded as a set of task handles.
- chrono and croner (datetime parsing, cron evaluation, local-time formatting, `At` descriptions) are the functions of a `TimeEnv` parameter. `SystemTime`, `Uuid::new_v4` and the time-and-PID seed of `generate_code` are parameters too: a time, a new job ID and one seed per code attempt.
- Pairing.PairingStore.GetOrCreatePending: takes exactly 100 seeds, one per attempt of `generate_unique_code`, because the source draws a fresh time-based seed on each attempt.
- Channels.ProcessCronCommand: requires the new job ID to have at least 8 characters, as every `Uuid::new_v4` string does; the short ID in the reply is its first eight.
- HashMap iteration order is an explicit `order` parameter listing the owned jobs once each. The `/cron list` output is proved for every such order, not for one fixed order.
- Cron.ElapsedMs: models the release build, where `end_time - start_time` wraps around 2^64 when the clock steps back. A debug build panics on that overflow instead; the panic is not modelled.
- Integer width: `parse_duration`'s `num * multiplier` and `next_run_after`'s `after_ms + interval` are unchecked u64 arithmetic. The model computes them on unbounded `nat`, and its lemmas keep the inputs below 2^64. The fake clock's `fetch_add` does wrap modulo 2^64, as `AtomicU64` does.
- Cron.TruncateForName: requires a limit of at least 3 when the text must be cut, because the source's `max-3` underflows and panics there; the only caller uses 30.
- Lengths are counted in characters, while the source counts UTF-8 bytes. This matters for `truncate_for_name` and the 80-character setup-token minimum, and only for non-ASCII text.
- Case mapping (`to_lowercase`, `to_uppercase`) is ASCII only.
- `validate_api_key`'s HTTP request is not modelled. Its outcome (a status code, or a failed connection) is a `ProbeOutcome` parameter.
- `find_bun`, `ensure_bun`, the archive download and extraction, and the Claude Code installer are process and network work, and are not modelled.
- Cursor is modelled as its pure logic only. Not modelled:
  - the process parts: spawning the CLI, `ensure_keychain`, and the API-key and CLI-not-found errors;
  - serde: events arrive already decoded, and a line that fails to decode is a `None` that the fold skips.
- Onboarding reads which files exist, and their contents, as inputs. Not modelled:
  - the wording of the identity and profile prompts, represented by constructors naming the file to write;
  - the rest of `build_context_prompt_for_user`: the capabilities text, the skills and memory sections, PERSONA.md, the memory search and its floating-point relevance threshold.
- From the Signal channel, the daemon, its PID file, the JSON-RPC client and the attachment download are not modelled. `receive_messages`' `unwrap_or_default` is covered by modelling each receive as success or failure.
- Signal.RunMessageLoop: the source's loop only ever returns true; its clean-exit `false` is unreachable. The model returns `restart = false` only when its finite input of receive outcomes runs out first.
- `handle_message`'s hand-off to `UserTaskManager`, `execute_cron_job`, `query_claude_with_session`, `handle_onboarding` and `reindex_user_memories` call the backends. They are not modelled; the backend's result is an input to the job-completion step.
- The image paths that `determine_action` receives but does not use are not modelled.
- The pairing store's user-profile functions are not part of this model.
- The Telegram and Slack transports are not modelled. This includes `markdown_to_mrkdwn`, which depends on regex semantics.
- Environment-variable lookups are parameters (`get_env_oauth_token`).
- One-shot jobs: `src/cron/mod.rs:305-308` switches an `At` job off only after a successful run, and the model follows that code.
