/** Cron schedules (src/cron/schedule.rs): a one-shot timestamp, a fixed interval or a
    cron expression; the parser for their three surface syntaxes, the next-run
    calculation and the human-readable description.

    Date-time parsing, local-time formatting and cron evaluation come from foreign
    libraries (chrono, croner). They enter the model as the function values of a
    `TimeEnv`, about which nothing is assumed. */
module Schedule {
  import opened Wrappers
  import opened Strings

  /** Times and intervals are Unix milliseconds. */
  datatype CronSchedule = At(timestamp: nat) | Every(interval: nat) | Cron(expr: string)

  /** The foreign date-time and cron collaborators. */
  datatype TimeEnv = TimeEnv(
    /** A successful parse of one of the four accepted date-time layouts, in local time. */
    parseDatetime: string -> Option<nat>,
    /** croner's complaint about an expression; None when it accepts it. */
    cronError: string -> Option<string>,
    /** croner's next occurrence after a reference time; None when there is none. */
    nextCron: (string, nat) -> Option<nat>,
    /** "%Y-%m-%d %H:%M" in local time; None when the timestamp is out of chrono's range. */
    formatLocal: nat -> Option<string>)

  const SECOND_MS: nat := 1_000
  const MINUTE_MS: nat := 60_000
  const HOUR_MS: nat := 3_600_000
  const DAY_MS: nat := 86_400_000

  /** One more than the largest u64: the bound `str::parse::<u64>` enforces. */
  const U64_LIMIT: nat := 0x1_0000_0000_0000_0000

  /** The unit spellings `parse_duration` accepts and their size in milliseconds. */
  function UnitMultiplier(unit: string): (m: Option<nat>)
    ensures m.Some? ==> m.value % SECOND_MS == 0 && m.value > 0
  {
    match unit
    case "s" | "sec" | "secs" | "second" | "seconds" => Some(SECOND_MS)
    case "m" | "min" | "mins" | "minute" | "minutes" => Some(MINUTE_MS)
    case "h" | "hr" | "hrs" | "hour" | "hours" => Some(HOUR_MS)
    case "d" | "day" | "days" => Some(DAY_MS)
    case _ => None
  }

  /** `parse_duration`: a run of ASCII digits, then a unit, white space allowed around
      both. Every accepted duration is a whole number of seconds. */
  function ParseDuration(input: string): (r: Result<nat>)
    ensures Trim(input) == [] ==> r.Err?
    ensures Trim(input) != [] && !IsDigit(Trim(input)[0]) ==> r.Err?
    ensures r.Ok? ==> r.value % SECOND_MS == 0
  {
    var s := Trim(input);
    if s == [] then Err("Empty duration string")
    else
      var numEnd := LeadingDigits(s);
      if numEnd == 0 then Err("Invalid duration: " + s)
      else
        var numStr := s[..numEnd];
        var num := DigitsValue(numStr);
        if num >= U64_LIMIT then Err("Invalid number: " + numStr)
        else
          var unit := Trim(s[numEnd..]);
          match UnitMultiplier(unit)
          case None => Err("Invalid unit: " + unit + ". Use s/m/h/d")
          case Some(m) =>
            WholeSeconds(num, m);
            Ok(Times(num, m))
  }

  /** Helper: a multiple of a whole number of seconds is a whole number of seconds. */
  lemma WholeSeconds(n: nat, m: nat)
    requires m % SECOND_MS == 0
    ensures Times(n, m) % SECOND_MS == 0
  {
    var k := m / SECOND_MS;
    assert m == k * SECOND_MS;
    assert n * m == (n * k) * SECOND_MS;
  }

  /** Helper: the product of two naturals, kept apart so that its non-negativity is
      checked in a small context. */
  function Times(a: nat, b: nat): nat {
    a * b
  }

  /** A run of decimal digits (leading zeros allowed) denoting a number below 2^64, then
      optional white space, then a unit word: the number times the unit's size, and the
      "Invalid unit" error naming the word when it is not a unit. */
  lemma ParseDurationOfNumberAndUnit(d: string, gap: string, unit: string)
    requires d != [] && AllDigits(d) && DigitsValue(d) < U64_LIMIT
    requires AllSpace(gap)
    requires unit != [] && !IsDigit(unit[0]) && !IsSpace(unit[0]) && !IsSpace(unit[|unit| - 1])
    ensures UnitMultiplier(unit).Some? ==>
              ParseDuration(d + gap + unit) == Ok(Times(DigitsValue(d), UnitMultiplier(unit).value))
    ensures UnitMultiplier(unit).None? ==> ParseDuration(d + gap + unit) == Err("Invalid unit: " + unit + ". Use s/m/h/d")
  {
    NumberAndUnitShape(d, gap, unit);
  }

  /** The case `format_duration` writes: a number in its own decimal rendering directly
      followed by the unit word. */
  lemma ParseDurationOfNatAndUnit(n: nat, unit: string)
    requires n < U64_LIMIT
    requires unit != [] && !IsDigit(unit[0]) && !IsSpace(unit[0]) && !IsSpace(unit[|unit| - 1])
    ensures UnitMultiplier(unit).Some? ==> ParseDuration(NatToString(n) + unit) == Ok(Times(n, UnitMultiplier(unit).value))
    ensures UnitMultiplier(unit).None? ==> ParseDuration(NatToString(n) + unit).Err?
  {
    DigitsOfNatToString(n);
    var noGap: string := [];
    assert NatToString(n) + noGap == NatToString(n);
    ParseDurationOfNumberAndUnit(NatToString(n), noGap, unit);
  }

  /** Helper: how `parse_duration` takes a number, a gap and a unit word apart. */
  lemma NumberAndUnitShape(d: string, gap: string, unit: string)
    requires d != [] && AllDigits(d)
    requires AllSpace(gap)
    requires unit != [] && !IsDigit(unit[0]) && !IsSpace(unit[0]) && !IsSpace(unit[|unit| - 1])
    ensures Trim(d + gap + unit) == d + gap + unit
    ensures LeadingDigits(d + gap + unit) == |d|
    ensures (d + gap + unit)[..|d|] == d && Trim((d + gap + unit)[|d|..]) == unit
  {
    var tail := gap + unit;
    var s := d + tail;
    assert d + gap + unit == s;
    assert s[0] == d[0] && s[|s| - 1] == unit[|unit| - 1];
    TrimOfTrimmed(s);
    assert tail[0] == (if gap == [] then unit[0] else gap[0]);
    LeadingDigitsOfRun(d, tail);
    assert s[..|d|] == d && s[|d|..] == tail;
    TrimStartOfSpace(gap, unit);
    TrimOfTrimmed(unit);
  }

  /** Milliseconds are not a unit: "10ms" and every other "<n>ms" is rejected. */
  lemma MillisecondsRejected(n: nat)
    requires n < U64_LIMIT
    ensures ParseDuration(NatToString(n) + "ms").Err?
  {
    var ms := "ms";
    assert ms[0] == 'm' && ms[|ms| - 1] == 's';
    assert UnitMultiplier(ms).None?;
    ParseDurationOfNatAndUnit(n, ms);
  }

  /** `format_duration`: the largest of day, hour, minute and second that divides the
      interval, falling back to a millisecond count. */
  function FormatDuration(ms: nat): (s: string)
    ensures StartsWith(s, "every ")
  {
    if ms >= DAY_MS && ms % DAY_MS == 0 then "every " + NatToString(ms / DAY_MS) + "d"
    else if ms >= HOUR_MS && ms % HOUR_MS == 0 then "every " + NatToString(ms / HOUR_MS) + "h"
    else if ms >= MINUTE_MS && ms % MINUTE_MS == 0 then "every " + NatToString(ms / MINUTE_MS) + "m"
    else if ms >= SECOND_MS && ms % SECOND_MS == 0 then "every " + NatToString(ms / SECOND_MS) + "s"
    else "every " + NatToString(ms) + "ms"
  }

  /** The units `format_duration` tries, largest first, with their suffixes. */
  const DISPLAY_UNITS: seq<(nat, string)> := [(DAY_MS, "d"), (HOUR_MS, "h"), (MINUTE_MS, "m"), (SECOND_MS, "s")]

  /** `ms` is a whole, non-zero number of `unit`s. */
  predicate Fits(ms: nat, unit: nat) {
    unit > 0 && ms >= unit && ms % unit == 0
  }

  /** The unit shown is the first (so the largest) of the table that `ms` is a whole,
      non-zero number of, with the count of that unit; when none fits, the interval is
      shown in milliseconds. */
  lemma FormatDurationChoosesLargestUnit(ms: nat)
    ensures forall i :: 0 <= i < |DISPLAY_UNITS| && Fits(ms, DISPLAY_UNITS[i].0)
                        && (forall j :: 0 <= j < i ==> !Fits(ms, DISPLAY_UNITS[j].0)) ==>
              FormatDuration(ms) == "every " + NatToString(ms / DISPLAY_UNITS[i].0) + DISPLAY_UNITS[i].1
    ensures (forall i :: 0 <= i < |DISPLAY_UNITS| ==> !Fits(ms, DISPLAY_UNITS[i].0)) ==>
              FormatDuration(ms) == "every " + NatToString(ms) + "ms"
  {
    forall i | 0 <= i < |DISPLAY_UNITS| && Fits(ms, DISPLAY_UNITS[i].0)
               && (forall j :: 0 <= j < i ==> !Fits(ms, DISPLAY_UNITS[j].0))
      ensures FormatDuration(ms) == "every " + NatToString(ms / DISPLAY_UNITS[i].0) + DISPLAY_UNITS[i].1
    {
      if i > 0 { assert !Fits(ms, DISPLAY_UNITS[0].0); }
      if i > 1 { assert !Fits(ms, DISPLAY_UNITS[1].0); }
      if i > 2 { assert !Fits(ms, DISPLAY_UNITS[2].0); }
    }
    if forall i :: 0 <= i < |DISPLAY_UNITS| ==> !Fits(ms, DISPLAY_UNITS[i].0) {
      assert !Fits(ms, DISPLAY_UNITS[0].0) && !Fits(ms, DISPLAY_UNITS[1].0);
      assert !Fits(ms, DISPLAY_UNITS[2].0) && !Fits(ms, DISPLAY_UNITS[3].0);
    }
  }

  /** `parse_datetime`: the collaborator sees the trimmed text. */
  function ParseDatetime(env: TimeEnv, input: string): (r: Result<nat>)
    ensures r.Ok? <==> env.parseDatetime(Trim(input)).Some?
    ensures r.Ok? ==> r.value == env.parseDatetime(Trim(input)).value
  {
    var s := Trim(input);
    match env.parseDatetime(s)
    case Some(ts) => Ok(ts)
    case None => Err("Invalid datetime: " + s + ". Use format: YYYY-MM-DD HH:MM")
  }

  /** `CronSchedule::parse`: trims, then "at " gives a one-shot, "every " an interval,
      and anything else is kept verbatim as a cron expression when croner accepts it. */
  function Parse(env: TimeEnv, input: string): (r: Result<CronSchedule>)
    ensures StartsWith(Trim(input), "at ") ==> r.Err? || r.value.At?
    ensures !StartsWith(Trim(input), "at ") && StartsWith(Trim(input), "every ") ==> r.Err? || r.value.Every?
    ensures r.Ok? && r.value.At? ==> StartsWith(Trim(input), "at ")
    ensures r.Ok? && r.value.Every? ==> StartsWith(Trim(input), "every ") && r.value.interval % SECOND_MS == 0
    ensures r.Ok? && r.value.Cron? <==>
      !StartsWith(Trim(input), "at ") && !StartsWith(Trim(input), "every ") && env.cronError(Trim(input)).None?
    ensures r.Ok? && r.value.Cron? ==> r.value.expr == Trim(input)
    ensures StartsWith(Trim(input), "at ") ==>
              var when := Trim(Trim(input)[3..]);
              (r.Ok? <==> env.parseDatetime(Trim(when)).Some?)
              && (r.Ok? ==> r.value == At(env.parseDatetime(Trim(when)).value))
              && (r.Err? ==> r.msg == "Invalid datetime: " + Trim(when) + ". Use format: YYYY-MM-DD HH:MM")
    ensures !StartsWith(Trim(input), "at ") && StartsWith(Trim(input), "every ") ==>
              var d := ParseDuration(Trim(Trim(input)[6..]));
              (r.Ok? <==> d.Ok?) && (r.Ok? ==> r.value == Every(d.value)) && (r.Err? ==> r.msg == d.msg)
    ensures !StartsWith(Trim(input), "at ") && !StartsWith(Trim(input), "every ") && r.Err? ==>
              env.cronError(Trim(input)).Some? && r.msg == "Invalid cron expression: " + env.cronError(Trim(input)).value
  {
    var s := Trim(input);
    if StartsWith(s, "at ") then
      match ParseDatetime(env, Trim(s[3..]))
      case Err(e) => Err(e)
      case Ok(ts) => Ok(At(ts))
    else if StartsWith(s, "every ") then
      match ParseDuration(Trim(s[6..]))
      case Err(e) => Err(e)
      case Ok(ms) => Ok(Every(ms))
    else
      match env.cronError(s)
      case Some(e) => Err("Invalid cron expression: " + e)
      case None => Ok(Cron(s))
  }

  /** `calculate_next_cron`: nothing when croner rejects the expression. */
  function NextCron(env: TimeEnv, expr: string, after: nat): (r: Option<nat>)
    ensures env.cronError(expr).Some? ==> r.None?
  {
    if env.cronError(expr).Some? then None else env.nextCron(expr, after)
  }

  /** `next_run_after`: a one-shot fires only while its time is strictly ahead, an
      interval always fires exactly one interval later. */
  function NextRunAfter(env: TimeEnv, s: CronSchedule, after: nat): (r: Option<nat>)
    ensures s.At? ==> (r.Some? <==> s.timestamp > after)
    ensures s.At? && r.Some? ==> r.value == s.timestamp
    ensures s.Every? ==> r.Some? && r.value - after == s.interval
    ensures !s.Cron? && r.Some? ==> r.value >= after
  {
    match s
    case At(ts) => if ts > after then Some(ts) else None
    case Every(interval) => Some(after + interval)
    case Cron(expr) => NextCron(env, expr, after)
  }

  /** Follows the schedule `k` times from `t`, each step from the previous result. */
  function Iterate(env: TimeEnv, s: CronSchedule, t: nat, k: nat): Option<nat>
    decreases k
  {
    if k == 0 then Some(t)
    else
      match NextRunAfter(env, s, t)
      case None => None
      case Some(t') => Iterate(env, s, t', k - 1)
  }

  /** An interval never drifts: k steps from t land exactly at t + k * interval. */
  lemma {:induction false} EveryIterates(env: TimeEnv, interval: nat, t: nat, k: nat)
    ensures Iterate(env, Every(interval), t, k) == Some(t + k * interval)
    decreases k
  {
    if k > 0 {
      EveryIterates(env, interval, t + interval, k - 1);
      assert t + interval + (k - 1) * interval == t + k * interval;
    }
  }

  /** A one-shot fires at most once: from the time it fires there is no next run. */
  lemma AtFiresOnce(env: TimeEnv, ts: nat, t: nat)
    requires NextRunAfter(env, At(ts), t).Some?
    ensures NextRunAfter(env, At(ts), NextRunAfter(env, At(ts), t).value).None?
    ensures Iterate(env, At(ts), t, 2).None?
  {
  }

  /** `description`: the local date for a one-shot (its raw number when out of range),
      the interval in its largest whole unit, a cron expression verbatim. */
  function Description(env: TimeEnv, s: CronSchedule): (d: string)
    ensures s.Cron? ==> d == s.expr
    ensures s.Every? ==> d == FormatDuration(s.interval)
    ensures s.At? ==> StartsWith(d, "at ")
  {
    match s
    case At(ts) =>
      var dt := match env.formatLocal(ts) case Some(f) => f case None => NatToString(ts);
      "at " + dt
    case Every(ms) => FormatDuration(ms)
    case Cron(expr) => expr
  }

  /** Helper: "every " followed by a trimmed body is an interval whenever the body is a
      duration. */
  lemma ParseEveryText(env: TimeEnv, body: string)
    requires body != [] && !IsSpace(body[0]) && !IsSpace(body[|body| - 1])
    ensures ParseDuration(body).Ok? ==> Parse(env, "every " + body) == Ok(Every(ParseDuration(body).value))
    ensures ParseDuration(body).Err? ==> Parse(env, "every " + body).Err?
  {
    var text := "every " + body;
    assert text[0] == 'e' && text[|text| - 1] == body[|body| - 1];
    TrimOfTrimmed(text);
    assert !StartsWith(text, "at ") by { assert text[0] != "at "[0]; }
    assert text[..6] == "every " && text[6..] == body;
    TrimOfTrimmed(body);
  }

  /** Helper: the description of a whole number of units parses back to the interval. */
  lemma EveryUnitRoundTrip(env: TimeEnv, ms: nat, q: nat, unitMs: nat, unit: char)
    requires q < U64_LIMIT && Times(q, unitMs) == ms
    requires 'a' <= unit <= 'z' && UnitMultiplier([unit]) == Some(unitMs)
    ensures Parse(env, "every " + NatToString(q) + [unit]) == Ok(Every(ms))
  {
    var d := NatToString(q);
    var body := d + [unit];
    assert body[0] == d[0] && body[|body| - 1] == unit;
    assert !IsDigit(unit) && !IsSpace(unit) && !IsSpace(body[0]);
    assert "every " + d + [unit] == "every " + body;
    ParseEveryText(env, body);
    ParseDurationOfNatAndUnit(q, [unit]);
  }

  /** Helper: dividing out an exact unit. */
  lemma ExactQuotient(ms: nat, unitMs: nat)
    requires unitMs > 0 && ms % unitMs == 0
    ensures Times(ms / unitMs, unitMs) == ms && ms / unitMs <= ms
  {
    var q := ms / unitMs;
    assert q * unitMs == ms;
    AtLeastOnce(q, unitMs);
  }

  lemma AtLeastOnce(q: nat, k: nat)
    requires k >= 1
    ensures q * k >= q
  {
  }

  /** Round trip of an interval through its description: exact precisely for positive
      whole seconds below 2^64; sub-second intervals render as "ms", which `parse`
      rejects. */
  lemma EveryDescriptionRoundTrip(env: TimeEnv, ms: nat)
    requires ms < U64_LIMIT
    ensures Parse(env, Description(env, Every(ms))) == Ok(Every(ms)) <==> ms > 0 && ms % SECOND_MS == 0
  {
    if ms >= DAY_MS && ms % DAY_MS == 0 {
      MultipleOfUnit(ms, DAY_MS);
      ExactQuotient(ms, DAY_MS);
      EveryUnitRoundTrip(env, ms, ms / DAY_MS, DAY_MS, 'd');
    } else if ms >= HOUR_MS && ms % HOUR_MS == 0 {
      MultipleOfUnit(ms, HOUR_MS);
      ExactQuotient(ms, HOUR_MS);
      EveryUnitRoundTrip(env, ms, ms / HOUR_MS, HOUR_MS, 'h');
    } else if ms >= MINUTE_MS && ms % MINUTE_MS == 0 {
      MultipleOfUnit(ms, MINUTE_MS);
      ExactQuotient(ms, MINUTE_MS);
      EveryUnitRoundTrip(env, ms, ms / MINUTE_MS, MINUTE_MS, 'm');
    } else if ms >= SECOND_MS && ms % SECOND_MS == 0 {
      ExactQuotient(ms, SECOND_MS);
      EveryUnitRoundTrip(env, ms, ms / SECOND_MS, SECOND_MS, 's');
    } else {
      assert ms % SECOND_MS != 0 || ms == 0;
      assert Description(env, Every(ms)) == "every " + NatToString(ms) + "ms";
      SubSecondRejected(env, ms);
    }
  }

  /** Helper: an interval rendered in milliseconds does not parse back. */
  lemma SubSecondRejected(env: TimeEnv, ms: nat)
    requires ms < U64_LIMIT
    ensures Parse(env, "every " + NatToString(ms) + "ms").Err?
  {
    var d := NatToString(ms);
    var rest := d + "ms";
    assert "every " + d + "ms" == "every " + rest;
    assert rest[0] == d[0] && IsDigit(d[0]) && rest[|rest| - 1] == 's';
    ParseEveryText(env, rest);
    MillisecondsRejected(ms);
  }

  /** Helper: a multiple of a unit that is a whole number of seconds is one too. */
  lemma MultipleOfUnit(ms: nat, unitMs: nat)
    requires unitMs > 0 && unitMs % SECOND_MS == 0 && ms % unitMs == 0
    ensures ms % SECOND_MS == 0
  {
    var k := ms / unitMs;
    var j := unitMs / SECOND_MS;
    assert ms == k * unitMs;
    assert unitMs == j * SECOND_MS;
    assert ms == (k * j) * SECOND_MS;
  }

  /** A cron expression that is already trimmed, accepted by croner and not mistaken for
      the other two syntaxes is its own description and parses back to itself. */
  lemma CronDescriptionRoundTrip(env: TimeEnv, expr: string)
    requires Trim(expr) == expr && env.cronError(expr).None?
    requires !StartsWith(expr, "at ") && !StartsWith(expr, "every ")
    ensures Parse(env, Description(env, Cron(expr))) == Ok(Cron(expr))
  {
  }
}
