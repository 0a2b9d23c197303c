/**
 The result stream of a cron run (`cron.rs`): a forward reader that stops at the terminal
 result, and the backward scans that later look for that result among the lines it kept.
*/
module CronStream {
  import opened Basics

  datatype Json = Null | Value(text: string)

  // One line as the parsers see it; None stands for an absent field.
  datatype Line =
    | NotJson
    | Event(isResult: bool, parentToolUseId: Option<Json>, isError: Option<bool>,
            structuredOutput: Option<Json>, result: Option<Json>)

  datatype Outcome = Success(collected: seq<Line>) | Failed(collected: seq<Line>)

  datatype ParseError = NoResultLine | NoPayload | BadPayload
  datatype Parsed<T> = Ok(output: T) | Err(error: ParseError)

  predicate IsResultLine(l: Line) {
    l.Event? && l.isResult
  }

  predicate TopLevel(l: Line) {
    l.Event? && (l.parentToolUseId.None? || l.parentToolUseId.value.Null?)
  }

  // Some(is_error) for the terminal top-level result, None for any other line.
  function TerminalResultIsError(l: Line): Option<bool> {
    if !IsResultLine(l) || !TopLevel(l) then None else Some(l.isError.GetOr(false))
  }

  // `lines.iter().rev().find_map(..)`: the last result line, nested or not.
  function FindLastResultLine(lines: seq<Line>): Option<nat> {
    if lines == [] then None
    else if IsResultLine(lines[|lines| - 1]) then Some(|lines| - 1)
    else FindLastResultLine(lines[..|lines| - 1])
  }

  // The failed result to explain, if the scan finds one.
  function ClassifyFailedResult(lines: seq<Line>): Option<Line> {
    match FindLastResultLine(lines)
    case None => None
    case Some(k) =>
      FindLastInside(lines);
      if lines[k].isError == Some(true) then Some(lines[k]) else None
  }

  function Payload(l: Line): Option<Json>
    requires l.Event?
  {
    match l.structuredOutput
    case Some(Value(v)) => Some(Value(v))
    case Some(Null) => Some(l.result.GetOr(Null))
    case None => l.result
  }

  function ParseCronOutput<T>(lines: seq<Line>, decode: Json -> Option<T>): Parsed<T> {
    match FindLastResultLine(lines)
    case None => Err(NoResultLine)
    case Some(k) =>
      FindLastInside(lines);
      match Payload(lines[k])
      case None => Err(NoPayload)
      case Some(payload) =>
        match decode(payload)
        case Some(output) => Ok(output)
        case None => Err(BadPayload)
  }

  lemma {:induction false} FindLastInside(lines: seq<Line>)
    ensures match FindLastResultLine(lines)
            case Some(k) =>
              k < |lines| && IsResultLine(lines[k]) && forall j :: k < j < |lines| ==> !IsResultLine(lines[j])
            case None => forall j :: 0 <= j < |lines| ==> !IsResultLine(lines[j])
  {
    if lines != [] && !IsResultLine(lines[|lines| - 1]) {
      var before := lines[..|lines| - 1];
      FindLastInside(before);
      assert forall j :: 0 <= j < |before| ==> before[j] == lines[j];
    }
  }

  // ---- the forward reader ----

  // The end of the shortest prefix that ends in a terminal result.
  ghost predicate StopsAt(stream: seq<Line>, k: nat) {
    && k < |stream| && TerminalResultIsError(stream[k]).Some?
    && forall j :: 0 <= j < k ==> TerminalResultIsError(stream[j]).None?
  }

  function StopFrom(stream: seq<Line>, i: nat): (stop: Option<nat>)
    requires i <= |stream|
    ensures stop.Some? ==> i <= stop.value < |stream| && TerminalResultIsError(stream[stop.value]).Some?
    decreases |stream| - i
  {
    if i == |stream| then None
    else if TerminalResultIsError(stream[i]).Some? then Some(i)
    else StopFrom(stream, i + 1)
  }

  // What reading `stream` comes to; a read error counts as its end.
  function OutcomeOf(stream: seq<Line>): Outcome {
    match StopFrom(stream, 0)
    case None => Failed(stream)
    case Some(k) =>
      if TerminalResultIsError(stream[k]).value then Failed(stream[..k + 1]) else Success(stream[..k + 1])
  }

  lemma {:induction false} StopIsFirst(stream: seq<Line>, i: nat, k: nat)
    requires i <= |stream| && forall j :: 0 <= j < i ==> TerminalResultIsError(stream[j]).None?
    ensures StopFrom(stream, i) == Some(k) <==> StopsAt(stream, k)
    ensures StopFrom(stream, i).None? ==> forall j :: 0 <= j < |stream| ==> TerminalResultIsError(stream[j]).None?
    decreases |stream| - i
  {
    if i < |stream| && TerminalResultIsError(stream[i]).None? {
      StopIsFirst(stream, i + 1, k);
    }
  }

  /** `consume_cron_lines`: keeps every line up to the first terminal result, and no later one. */
  method ConsumeCronLines(stream: seq<Line>) returns (o: Outcome)
    ensures o == OutcomeOf(stream)
  {
    var collected: seq<Line> := [];
    var terminalIsError: Option<bool> := None;
    while |collected| < |stream|
      invariant |collected| <= |stream| && collected == stream[..|collected|] && terminalIsError.None?
      invariant StopFrom(stream, |collected|) == StopFrom(stream, 0)
    {
      var line := stream[|collected|];
      terminalIsError := TerminalResultIsError(line);
      collected := collected + [line];
      if terminalIsError.Some? {
        return if terminalIsError.value then Failed(collected) else Success(collected);
      }
    }
    assert collected == stream;
    return Failed(collected);
  }

  // ---- both readers see the same line ----

  /**
   The backward scan over the kept lines finds the very line the reader stopped at; without
   one it finds at most a sub-agent's result.
  */
  lemma ScanFindsTerminal(stream: seq<Line>, k: nat)
    ensures var kept := OutcomeOf(stream).collected;
            StopsAt(stream, k) ==> kept == stream[..k + 1] && FindLastResultLine(kept) == Some(k)
    ensures var kept := OutcomeOf(stream).collected;
            StopFrom(stream, 0).None? ==>
              kept == stream && (FindLastResultLine(kept) == Some(k) ==> k < |stream| && !TopLevel(stream[k]))
  {
    var kept := OutcomeOf(stream).collected;
    StopIsFirst(stream, 0, k);
    FindLastInside(kept);
    if StopsAt(stream, k) {
      assert IsResultLine(kept[k]);
    }
  }

  /** A success is never explained as a failure, and its output is the terminal line's payload. */
  lemma SuccessIsNoFailure<T>(stream: seq<Line>, k: nat, decode: Json -> Option<T>)
    requires OutcomeOf(stream).Success? && StopsAt(stream, k)
    ensures var kept := OutcomeOf(stream).collected;
            && ClassifyFailedResult(kept).None?
            && ParseCronOutput(kept, decode) == ParseCronOutput([stream[k]], decode)
  {
    ScanFindsTerminal(stream, k);
    StopIsFirst(stream, 0, k);
    assert [stream[k]][0] == stream[k];
  }

  /** A run succeeds exactly when it has a terminal result that is no error. */
  lemma SucceedsIff(stream: seq<Line>)
    ensures OutcomeOf(stream).Success? <==> exists k: nat :: StopsAt(stream, k) && stream[k].isError != Some(true)
  {
    if StopFrom(stream, 0).Some? {
      StopIsFirst(stream, 0, StopFrom(stream, 0).value);
    }
    forall k: nat | StopsAt(stream, k) ensures StopFrom(stream, 0) == Some(k) {
      StopIsFirst(stream, 0, k);
    }
  }

  /** A terminal error always fails the run and is always the one explained. */
  lemma TerminalErrorIsExplained(stream: seq<Line>, k: nat)
    requires StopsAt(stream, k) && stream[k].isError == Some(true)
    ensures OutcomeOf(stream).Failed? && ClassifyFailedResult(OutcomeOf(stream).collected) == Some(stream[k])
  {
    ScanFindsTerminal(stream, k);
    StopIsFirst(stream, 0, k);
  }

  /**
   Without a terminal result the run fails, but the scan still finds a result exactly when
   some sub-agent's result was kept, and may read an output or an error from it.
  */
  lemma NestedResultIff(stream: seq<Line>)
    requires StopFrom(stream, 0).None?
    ensures OutcomeOf(stream).Failed?
    ensures FindLastResultLine(OutcomeOf(stream).collected).Some? <==>
            exists k :: 0 <= k < |stream| && IsResultLine(stream[k]) && !TopLevel(stream[k])
  {
    FindLastInside(stream);
    if FindLastResultLine(stream).Some? {
      ScanFindsTerminal(stream, FindLastResultLine(stream).value);
    }
  }

  /** A terminal result is an event of type "result" outside any sub-agent, an error only if it says so. */
  lemma TerminalIff(l: Line)
    ensures TerminalResultIsError(l).Some? <==>
            l.Event? && l.isResult && (l.parentToolUseId.None? || l.parentToolUseId == Some(Null))
    ensures TerminalResultIsError(l).Some? ==> TerminalResultIsError(l) == Some(l.isError == Some(true))
  {
    if l.Event? {
      assert l.isError.GetOr(false) <==> l.isError == Some(true);
    }
  }

  // `p` is what decoding `payload` comes to.
  ghost predicate Decodes<T>(p: Parsed<T>, payload: Json, decode: Json -> Option<T>) {
    match decode(payload)
    case Some(output) => p == Ok(output)
    case None => p == Err(BadPayload)
  }

  /**
   The output of a successful run. A structured output that is not null is preferred; a null one
   falls back to the result text, or to null; without either there is no payload.
  */
  lemma SuccessOutput<T>(stream: seq<Line>, k: nat, decode: Json -> Option<T>)
    requires OutcomeOf(stream).Success? && StopsAt(stream, k)
    ensures var p, l := ParseCronOutput(OutcomeOf(stream).collected, decode), stream[k];
            && l.Event?
            && (l.structuredOutput.Some? && l.structuredOutput != Some(Null) ==>
                Decodes(p, l.structuredOutput.value, decode))
            && (l.structuredOutput == Some(Null) && l.result.Some? ==> Decodes(p, l.result.value, decode))
            && (l.structuredOutput == Some(Null) && l.result.None? ==> Decodes(p, Null, decode))
            && (l.structuredOutput.None? && l.result.Some? ==> Decodes(p, l.result.value, decode))
            && (l.structuredOutput.None? && l.result.None? ==> p == Err(NoPayload))
  {
    ScanFindsTerminal(stream, k);
    StopIsFirst(stream, 0, k);
  }
}
