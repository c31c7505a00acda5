/** The Cursor backend (src/backends/cursor.rs): reading the model list the Cursor CLI
    prints, wrapping a prompt with its context, choosing the model, and folding the CLI's
    stream of JSON events into one answer and a session ID. Running the CLI is not part of
    this model: its standard output is given as text (the model list) or as the events
    that its lines decode to (`None` for a blank or undecodable line). */
module Cursor {
  import opened Wrappers
  import opened Strings

  const DEFAULT_MODEL: string := "opus-4.5"

  /** Offered when the CLI is missing, fails, or lists nothing usable. */
  const FALLBACK_MODELS: seq<(string, string)> := [
    ("claude-sonnet-4-5", "Claude Sonnet 4.5"),
    ("claude-opus-4-5", "Claude Opus 4.5"),
    ("gpt-4o", "OpenAI GPT-4o"),
    ("auto", "Auto (let Cursor choose)")
  ]

  const SEPARATOR: string := " - "
  const CURRENT_MARK: string := "(current)"
  const DEFAULT_MARK: string := "(default)"

  /** A model's display name without the CLI's trailing "(current)" and then "(default)". */
  function CleanName(rest: string): string {
    Trim(TrimEndMatches(TrimEndMatches(rest, CURRENT_MARK), DEFAULT_MARK))
  }

  /** One line of `--list-models` output: banner, tip and blank lines are skipped, and so is
      any line without " - "; otherwise the ID is the text before the first " - ". */
  function ParseModelLine(raw: string): (r: Option<(string, string)>)
    ensures r.None? <==>
      Trim(raw) == [] || StartsWith(Trim(raw), "Available") || StartsWith(Trim(raw), "Tip:")
      || !Contains(Trim(raw), SEPARATOR)
    ensures r.Some? ==> exists id, rest ::
      Trim(raw) == id + SEPARATOR + rest && Find(Trim(raw), SEPARATOR) == Some(|id|)
      && r.value == (Trim(id), CleanName(rest))
  {
    var line := Trim(raw);
    if line == [] || StartsWith(line, "Available") || StartsWith(line, "Tip:") then None
    else
      match SplitOnce(line, SEPARATOR)
      case None => None
      case Some((id, rest)) =>
        Some((Trim(id), CleanName(rest)))
  }

  /** `filter_map`: the values `f` gives, in order, skipping the `None`s. */
  function FilterMap<T, U>(f: T -> Option<U>, xs: seq<T>): (r: seq<U>)
    ensures |r| <= |xs|
    decreases |xs|
  {
    if xs == [] then []
    else
      match f(xs[0])
      case Some(y) => [y] + FilterMap(f, xs[1..])
      case None => FilterMap(f, xs[1..])
  }

  /** A value is kept exactly when some element maps to it. */
  lemma {:induction false} FilterMapExact<T, U>(f: T -> Option<U>, xs: seq<T>, y: U)
    ensures y in FilterMap(f, xs) <==> exists x :: x in xs && f(x) == Some(y)
    decreases |xs|
  {
    if xs != [] {
      FilterMapExact(f, xs[1..], y);
      assert forall x :: x in xs <==> x == xs[0] || x in xs[1..];
    }
  }

  /** The models the CLI's lines list, in order. */
  function ParseModels(lines: seq<string>): seq<(string, string)> {
    FilterMap(ParseModelLine, lines)
  }

  /** The parsed models are exactly what the parsable lines give: nothing is lost, and
      nothing comes from anywhere else. */
  lemma ParseModelsExact(lines: seq<string>, m: (string, string))
    ensures m in ParseModels(lines) <==> exists l :: l in lines && ParseModelLine(l) == Some(m)
  {
    FilterMapExact(ParseModelLine, lines, m);
  }

  /** `list_models` once the CLI has succeeded: the parsed models, or the fallback list when
      no line parses. Never empty. */
  function ModelsFromOutput(stdout: string): (r: seq<(string, string)>)
    ensures |r| > 0
    ensures r == FALLBACK_MODELS <==> ParseModels(Lines(stdout)) == [] || ParseModels(Lines(stdout)) == FALLBACK_MODELS
    ensures r != FALLBACK_MODELS ==> r == ParseModels(Lines(stdout))
  {
    var models := ParseModels(Lines(stdout));
    if models == [] then FALLBACK_MODELS else models
  }

  /** Which marker, if any, the CLI prints after a model's name. */
  datatype Marker = Plain | Current | Default

  function MarkerText(m: Marker): string {
    match m
    case Plain => ""
    case Current => "  " + CURRENT_MARK
    case Default => "  " + DEFAULT_MARK
  }

  /** A model line as the CLI prints it. */
  function ModelLine(id: string, name: string, m: Marker): string {
    id + SEPARATOR + name + MarkerText(m)
  }

  predicate NoSpace(s: string) {
    forall i :: 0 <= i < |s| ==> !IsSpace(s[i])
  }

  /** Helper: trailing blanks are what `TrimEnd` removes. */
  lemma TrimEndBlanks(s: string)
    requires |s| > 0 && !IsSpace(s[|s| - 1])
    ensures TrimEnd(s + "  ") == s
  {
    assert (s + "  ")[..|s| + 1] == s + " ";
    assert (s + " ")[..|s|] == s;
  }

  /** Helper: stripping the printed marker leaves the name with two trailing blanks. */
  lemma StripMarker(name: string, m: Marker)
    requires |name| > 0 && !IsSpace(name[|name| - 1])
    requires !EndsWith(name, CURRENT_MARK) && !EndsWith(name, DEFAULT_MARK)
    ensures m != Plain ==> TrimEndMatches(TrimEndMatches(name + MarkerText(m), CURRENT_MARK), DEFAULT_MARK) == name + "  "
    ensures m == Plain ==> TrimEndMatches(TrimEndMatches(name, CURRENT_MARK), DEFAULT_MARK) == name
  {
    if m == Current {
      StripCurrent(name);
    } else if m == Default {
      StripDefault(name);
    }
  }

  lemma StripCurrent(name: string)
    ensures TrimEndMatches(TrimEndMatches(name + MarkerText(Current), CURRENT_MARK), DEFAULT_MARK) == name + "  "
  {
    var blank := name + "  ";
    BlankEndsNoMarker(blank);
    AppendAssoc(name, "  ", CURRENT_MARK);
    StripOnce(blank, CURRENT_MARK);
  }

  lemma StripDefault(name: string)
    ensures TrimEndMatches(TrimEndMatches(name + MarkerText(Default), CURRENT_MARK), DEFAULT_MARK) == name + "  "
  {
    var blank := name + "  ";
    BlankEndsNoMarker(blank);
    AppendAssoc(name, "  ", DEFAULT_MARK);
    DefaultIsNotCurrent(blank);
    StripOnce(blank, DEFAULT_MARK);
  }

  /** Helper: one trailing copy of the pattern is removed, and no more. */
  lemma StripOnce(b: string, pat: string)
    requires |pat| > 0 && !EndsWith(b, pat)
    ensures TrimEndMatches(b + pat, pat) == b
  {
    var s := b + pat;
    assert s[|s| - |pat|..] == pat;
    assert s[..|s| - |pat|] == b;
  }

  /** Helper: text ending in a blank ends in neither marker. */
  lemma BlankEndsNoMarker(b: string)
    requires |b| > 0 && b[|b| - 1] == ' '
    ensures !EndsWith(b, CURRENT_MARK) && !EndsWith(b, DEFAULT_MARK)
  {
    assert |b| < 9 || b[|b| - 9..][8] == ' ';
  }

  /** Helper: "(default)" at the end is not "(current)". */
  lemma DefaultIsNotCurrent(b: string)
    ensures TrimEndMatches(b + DEFAULT_MARK, CURRENT_MARK) == b + DEFAULT_MARK
  {
    var s := b + DEFAULT_MARK;
    assert s[|s| - 9..][1] == 'd';
  }

  /** Helper: a name with no blank at either end is its own cleaned form after the marker. */
  lemma CleanNameOfLine(name: string, m: Marker)
    requires |name| > 0 && !IsSpace(name[0]) && !IsSpace(name[|name| - 1])
    requires !EndsWith(name, CURRENT_MARK) && !EndsWith(name, DEFAULT_MARK)
    ensures CleanName(name + MarkerText(m)) == name
  {
    StripMarker(name, m);
    if m != Plain {
      TrimEndBlanks(name);
      assert TrimStart(name + "  ") == name + "  ";
      assert MarkerText(m) != [];
    } else {
      assert name + MarkerText(m) == name;
    }
    TrimOfTrimmed(name);
  }

  /** Helper: the first " - " of a line that starts with a blank-free ID follows the ID. */
  lemma SplitAfterId(id: string, rest: string)
    requires NoSpace(id)
    ensures SplitOnce(id + SEPARATOR + rest, SEPARATOR) == Some((id, rest))
  {
    var s := id + SEPARATOR + rest;
    assert s[|id|..][..3] == SEPARATOR;
    assert StartsWith(s[|id|..], SEPARATOR);
    forall j | 0 <= j < |id|
      ensures !StartsWith(s[j..], SEPARATOR)
    {
      assert s[j..][0] == id[j];
    }
    var f := Find(s, SEPARATOR);
    assert f.Some?;
    assert s[f.value..][..3] == s[f.value..f.value + 3];
    assert s[..|id|] == id;
    assert s[|id| + 3..] == rest;
  }

  /** Helper: a printed model line has no blank at either end. */
  lemma LineIsTrimmed(id: string, name: string, m: Marker)
    requires |id| > 0 && !IsSpace(id[0])
    requires |name| > 0 && !IsSpace(name[|name| - 1])
    ensures Trim(ModelLine(id, name, m)) == ModelLine(id, name, m)
  {
    var line := ModelLine(id, name, m);
    var mark := MarkerText(m);
    assert line[0] == id[0];
    assert mark == [] || mark[|mark| - 1] == ')';
    assert line[|line| - 1] == (if mark == [] then name[|name| - 1] else mark[|mark| - 1]);
    TrimOfTrimmed(line);
  }

  /** Listing a model and reading the listing back gives the model: a blank-free ID and a
      name without blanks at its ends come back whichever marker follows the name. */
  lemma ModelLineRoundTrip(id: string, name: string, m: Marker)
    requires |id| > 0 && NoSpace(id)
    requires |name| > 0 && !IsSpace(name[0]) && !IsSpace(name[|name| - 1])
    requires !EndsWith(name, CURRENT_MARK) && !EndsWith(name, DEFAULT_MARK)
    requires !StartsWith(ModelLine(id, name, m), "Available") && !StartsWith(ModelLine(id, name, m), "Tip:")
    ensures ParseModelLine(ModelLine(id, name, m)) == Some((id, name))
  {
    var line := ModelLine(id, name, m);
    var rest := name + MarkerText(m);
    AppendAssoc(id + SEPARATOR, name, MarkerText(m));
    LineIsTrimmed(id, name, m);
    SplitAfterId(id, rest);
    TrimOfTrimmed(id);
    CleanNameOfLine(name, m);
  }

  /** `full_prompt`: the context, when there is one, goes first inside a <context> block,
      a blank line before the prompt. */
  function FullPrompt(context: Option<string>, prompt: string): (r: string)
    ensures context.None? ==> r == prompt
    ensures EndsWith(r, prompt)
    ensures context.Some? ==> StartsWith(r, "<context>\n") && |r| == |context.value| + |prompt| + 23
  {
    match context
    case None => prompt
    case Some(c) => "<context>\n" + c + "\n</context>\n\n" + prompt
  }

  /** The wrapped prompt splits into the opening tag, the context, the closing tag with
      the blank line, and the prompt. */
  lemma FullPromptRecoversContext(c: string, prompt: string)
    ensures var r := FullPrompt(Some(c), prompt);
      r[..10] == "<context>\n" && r[10..10 + |c|] == c && r[10 + |c|..23 + |c|] == "\n</context>\n\n"
      && r[23 + |c|..] == prompt
  {
  }

  /** The model for a query: the caller's choice, else the configured one, else the default. */
  function SelectModel(requested: Option<string>, configured: Option<string>): (m: string)
    ensures requested.Some? ==> m == requested.value
    ensures requested.None? && configured.Some? ==> m == configured.value
    ensures requested.None? && configured.None? ==> m == DEFAULT_MODEL
  {
    requested.Or(configured).GetOr(DEFAULT_MODEL)
  }

  /** A decoded line of `--output-format stream-json` (only the fields the fold reads). */
  datatype CursorEvent = CursorEvent(
    eventType: string,
    result: Option<string>,
    sessionId: Option<string>,
    isError: Option<bool>)

  predicate IsResult(e: Option<CursorEvent>) {
    e.Some? && e.value.eventType == "result"
  }

  predicate IsErrorResult(e: Option<CursorEvent>) {
    IsResult(e) && e.value.isError == Some(true)
  }

  predicate HasSession(e: Option<CursorEvent>) {
    e.Some? && e.value.sessionId.Some?
  }

  predicate HasAnswer(e: Option<CursorEvent>) {
    IsResult(e) && e.value.result.Some?
  }

  /** The session ID of the last event that carries one. */
  function LastSession(events: seq<Option<CursorEvent>>): (r: Option<string>)
    ensures r.None? <==> forall i :: 0 <= i < |events| ==> !HasSession(events[i])
    ensures r.Some? ==> exists i :: (0 <= i < |events| && HasSession(events[i]) && events[i].value.sessionId == r
      && forall j :: i < j < |events| ==> !HasSession(events[j]))
    decreases |events|
  {
    if events == [] then None
    else
      var last := events[|events| - 1];
      if HasSession(last) then last.value.sessionId
      else
        var earlier := events[..|events| - 1];
        assert forall i :: 0 <= i < |earlier| ==> earlier[i] == events[i];
        LastSession(earlier)
  }

  /** The result text of the last result event that has one. */
  function LastAnswer(events: seq<Option<CursorEvent>>): (r: Option<string>)
    ensures r.None? <==> forall i :: 0 <= i < |events| ==> !HasAnswer(events[i])
    ensures r.Some? ==> exists i :: (0 <= i < |events| && HasAnswer(events[i]) && events[i].value.result == r
      && forall j :: i < j < |events| ==> !HasAnswer(events[j]))
    decreases |events|
  {
    if events == [] then None
    else
      var last := events[|events| - 1];
      if HasAnswer(last) then last.value.result
      else
        var earlier := events[..|events| - 1];
        assert forall i :: 0 <= i < |earlier| ==> earlier[i] == events[i];
        LastAnswer(earlier)
  }

  /** Some result event reports `is_error: true`. */
  predicate AnyError(events: seq<Option<CursorEvent>>) {
    exists i :: 0 <= i < |events| && IsErrorResult(events[i])
  }

  const CURSOR_ERROR := "Cursor returned an error"
  const NO_RESULT := "No result found in Cursor output"

  /** What a query yields for the CLI's events: an error result anywhere fails it; otherwise
      the last answer, with the last session ID seen or "" when there was none. */
  function QueryOutcome(events: seq<Option<CursorEvent>>): Result<(string, string)> {
    if AnyError(events) then Err(CURSOR_ERROR)
    else
      match LastAnswer(events)
      case None => Err(NO_RESULT)
      case Some(text) => Ok((text, LastSession(events).GetOr("")))
  }

  /** One more event: how the last answer, the last session and the error flag move on. */
  lemma FoldStep(events: seq<Option<CursorEvent>>, i: nat)
    requires i < |events|
    ensures LastAnswer(events[..i + 1]) == if HasAnswer(events[i]) then events[i].value.result else LastAnswer(events[..i])
    ensures LastSession(events[..i + 1]) == if HasSession(events[i]) then events[i].value.sessionId else LastSession(events[..i])
    ensures AnyError(events[..i + 1]) <==> AnyError(events[..i]) || IsErrorResult(events[i])
  {
    var p := events[..i + 1];
    assert p[i] == events[i];
    assert p[..i] == events[..i];
    if IsErrorResult(events[i]) {
      assert IsErrorResult(p[i]);
    }
    if AnyError(p) && !IsErrorResult(events[i]) {
      var k :| 0 <= k < |p| && IsErrorResult(p[k]);
      assert p[k] == events[..i][k];
    }
    if AnyError(events[..i]) {
      var k :| 0 <= k < i && IsErrorResult(events[..i][k]);
      assert p[k] == events[..i][k];
    }
  }

  /** The fold over the output lines in `query_with_options`, stopping at an error result. */
  method FoldEvents(events: seq<Option<CursorEvent>>) returns (r: Result<(string, string)>)
    ensures r == QueryOutcome(events)
  {
    var finalResult: Option<string> := None;
    var finalSession: Option<string> := None;
    var i := 0;
    while i < |events|
      invariant 0 <= i <= |events|
      invariant finalResult == LastAnswer(events[..i])
      invariant finalSession == LastSession(events[..i])
      invariant !AnyError(events[..i])
    {
      FoldStep(events, i);
      var e := events[i];
      if e.Some? {
        var ev := e.value;
        if ev.sessionId.Some? {
          finalSession := ev.sessionId;
        }
        if ev.eventType == "result" {
          if ev.isError == Some(true) {
            return Err(CURSOR_ERROR);
          }
          if ev.result.Some? {
            finalResult := ev.result;
          }
        }
      }
      i := i + 1;
    }
    assert events[..i] == events;
    match finalResult
    case Some(text) =>
      r := Ok((text, finalSession.GetOr("")));
    case None =>
      r := Err(NO_RESULT);
  }

  /** A later answer replaces an earlier one, and a session ID seen after the answer still
      counts. */
  lemma LaterAnswerWins(events: seq<Option<CursorEvent>>, text: string, session: string)
    requires !AnyError(events)
    ensures var more := events + [Some(CursorEvent("result", Some(text), None, None)),
                                  Some(CursorEvent("system", None, Some(session), None))];
      QueryOutcome(more) == Ok((text, session))
  {
    var answer := Some(CursorEvent("result", Some(text), None, None));
    var tail := Some(CursorEvent("system", None, Some(session), None));
    var more := events + [answer, tail];
    assert more[|more| - 1] == tail;
    assert more[..|more| - 1] == events + [answer];
    assert LastAnswer(events + [answer]) == Some(text);
    assert LastAnswer(more) == Some(text);
    assert LastSession(more) == Some(session);
    assert (events + [answer])[..|events|] == events;
    assert !AnyError(more) by {
      forall i | 0 <= i < |more|
        ensures !IsErrorResult(more[i])
      {
        assert i < |events| ==> more[i] == events[i];
      }
    }
  }

  /** An error result fails the query whatever follows it. */
  lemma ErrorFailsQuery(before: seq<Option<CursorEvent>>, after: seq<Option<CursorEvent>>, text: Option<string>)
    ensures QueryOutcome(before + [Some(CursorEvent("result", text, None, Some(true)))] + after) == Err(CURSOR_ERROR)
  {
    var all := before + [Some(CursorEvent("result", text, None, Some(true)))] + after;
    assert IsErrorResult(all[|before|]);
  }
}
