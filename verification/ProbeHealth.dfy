/** The health probe's reading loop over its output lines (`read_health_probe_stdout`). */
module ProbeHealth {
  import opened Basics
  import opened ProbeStreams

  datatype Init = NoInit | Healthy | NeedsRepair(status: Option<string>)

  datatype Event = Other | Terminal(isError: bool)

  // What the parsers see in one decoded line.
  datatype Line = Line(text: string, init: Option<Init>, rateLimited: bool, event: Event)

  // Decoding and parsing of a line; None when it is not UTF-8.
  type Look = seq<Byte> -> Option<Line>

  datatype Completion = TerminalResult | RepairNeeded | Eof

  datatype Observed = Observed(init: Init, tail: seq<string>, rateLimited: bool, completion: Completion)

  // The line without its line ending, `\n` or `\r\n`.
  function TrimEol(piece: seq<Byte>): seq<Byte> {
    var p := if piece != [] && piece[|piece| - 1] == NEWLINE then piece[..|piece| - 1] else piece;
    if p != [] && p[|p| - 1] == RETURN then p[..|p| - 1] else p
  }

  // The latest init status reported by the lines read.
  function InitOf(seen: seq<Line>): Init {
    if seen == [] then NoInit
    else
      var last := seen[|seen| - 1];
      match last.init
      case Some(init) => init
      case None => InitOf(seen[..|seen| - 1])
  }

  predicate RateLimited(seen: seq<Line>) {
    exists i :: 0 <= i < |seen| && seen[i].rateLimited
  }

  function Texts(seen: seq<Line>): seq<string> {
    seq(|seen|, i requires 0 <= i < |seen| => seen[i].text)
  }

  function Summary(seen: seq<Line>, completion: Completion): Observed {
    Observed(InitOf(seen), Kept(Texts(seen)), RateLimited(seen), completion)
  }

  // The verdict the last line read forces, if it forces one.
  function Stop(seen: seq<Line>): Option<Result<Observed>>
    requires seen != []
  {
    var event := seen[|seen| - 1].event;
    if InitOf(seen).NeedsRepair? then Some(Ok(Summary(seen, RepairNeeded)))
    else if event == Terminal(true) && !RateLimited(seen) then Some(Err(ResultError))
    else if event.Terminal? then Some(Ok(Summary(seen, TerminalResult)))
    else None
  }

  /** The probe's verdict as a function of the rest of the stream and the lines already seen. */
  function Observe(look: Look, rest: seq<Byte>, broken: bool, seen: seq<Line>): Result<Observed>
    decreases |rest|
  {
    match LineOf(rest, broken)
    case Err(e) => Err(e)
    case Ok(piece) =>
      if piece == [] then Ok(Summary(seen, Eof))
      else match look(TrimEol(piece))
        case None => Err(NotUtf8)
        case Some(line) =>
          match Stop(seen + [line])
          case Some(verdict) => verdict
          case None => Observe(look, rest[|piece|..], broken, seen + [line])
  }

  lemma SeenOneMore(seen: seq<Line>, line: Line)
    ensures InitOf(seen + [line]) == (match line.init case Some(init) => init case None => InitOf(seen))
    ensures RateLimited(seen + [line]) <==> RateLimited(seen) || line.rateLimited
    ensures Texts(seen + [line]) == Texts(seen) + [line.text]
  {
    var all := seen + [line];
    assert all[..|all| - 1] == seen && all[|seen|] == line;
    if RateLimited(seen) {
      var i :| 0 <= i < |seen| && seen[i].rateLimited;
      assert all[i].rateLimited;
    }
  }

  /** `read_health_probe_stdout`: the verdict depends on the bytes only, not on their chunks. */
  method ReadHealthProbeStdout(look: Look, reader: Reader) returns (verdict: Result<Observed>)
    requires reader.Valid()
    modifies reader
    ensures verdict == Observe(look, old(reader.Rest()), reader.broken, [])
  {
    var init, rateLimited := NoInit, false;
    var tail := new ProbeStdoutTail();
    ghost var seen: seq<Line> := [];
    while true
      invariant reader.Valid() && tail.Valid() && fresh(tail) && tail.pushed == Texts(seen)
      invariant init == InitOf(seen) && rateLimited == RateLimited(seen)
      invariant Observe(look, reader.Rest(), reader.broken, seen) ==
                Observe(look, old(reader.Rest()), reader.broken, [])
      decreases |reader.Rest()|
    {
      var piece := ReadProbeLine(reader);
      if piece.Err? {
        return Err(piece.error);
      }
      if piece.value == [] {
        return Ok(Observed(init, tail.lines, rateLimited, Eof));
      }
      var decoded := look(TrimEol(piece.value));
      if decoded.None? {
        return Err(NotUtf8);
      }
      var line := decoded.value;
      SeenOneMore(seen, line);
      seen := seen + [line];
      if line.init.Some? {
        init := line.init.value;
      }
      rateLimited := rateLimited || line.rateLimited;
      tail.Push(line.text);
      if init.NeedsRepair? {
        return Ok(Observed(init, tail.lines, rateLimited, RepairNeeded));
      }
      if line.event == Terminal(true) && !rateLimited {
        return Err(ResultError);
      }
      if line.event.Terminal? {
        return Ok(Observed(init, tail.lines, rateLimited, TerminalResult));
      }
    }
  }

  // `lines` are what the parsers see in the first pieces of `rest`, each within the bound.
  ghost predicate Reads(look: Look, rest: seq<Byte>, broken: bool, lines: seq<Line>)
    decreases |lines|
  {
    lines == [] ||
    (NextLine(look, rest, broken) == Some(lines[0]) && Reads(look, rest[PieceLength(rest)..], broken, lines[1..]))
  }

  // The next piece, if there is one and it is a line.
  function NextLine(look: Look, rest: seq<Byte>, broken: bool): Option<Line> {
    match LineOf(rest, broken)
    case Err(_) => None
    case Ok(piece) => if piece == [] then None else look(TrimEol(piece))
  }

  function DropPieces(rest: seq<Byte>, n: nat): seq<Byte> {
    if n == 0 then rest else DropPieces(rest[PieceLength(rest)..], n - 1)
  }

  // The line reports a broken server or ends the turn.
  predicate Decisive(line: Line) {
    line.event.Terminal? || (line.init.Some? && line.init.value.NeedsRepair?)
  }

  ghost predicate Quiet(lines: seq<Line>) {
    forall i :: 0 <= i < |lines| ==> !Decisive(lines[i])
  }

  // Of all the lines only the last may decide.
  ghost predicate QuietBut1(lines: seq<Line>) {
    lines != [] && Quiet(lines[..|lines| - 1])
  }

  // What the last of all lines read decides: repair first, then the turn's end.
  predicate LastDecides(all: seq<Line>, r: Result<Observed>)
    requires all != []
  {
    var event := all[|all| - 1].event;
    match r
    case Ok(o) =>
      if InitOf(all).NeedsRepair? then o == Summary(all, RepairNeeded)
      else o == Summary(all, TerminalResult) && event.Terminal? && (event.isError ==> RateLimited(all))
    case Err(e) => e == ResultError && !InitOf(all).NeedsRepair? && event == Terminal(true) && !RateLimited(all)
  }

  // What the bytes behind quiet lines decide: the stream's end, or no further line.
  ghost predicate RestDecides(look: Look, left: seq<Byte>, broken: bool, all: seq<Line>, r: Result<Observed>) {
    match r
    case Ok(o) => left == [] && !broken && o == Summary(all, Eof)
    case Err(LineTooLong) => PieceLength(left) > STDOUT_TAIL_BYTES
    case Err(ReadFailed) => broken && NoNewline(left) && |left| <= STDOUT_TAIL_BYTES
    case Err(NotUtf8) => LineOf(left, broken).Ok? && left != [] && NextLine(look, left, broken).None?
    case Err(ResultError) => false
  }

  // `lines` are read after `seen`, and then `r` is the verdict.
  ghost predicate Concludes(look: Look, rest: seq<Byte>, broken: bool, seen: seq<Line>, lines: seq<Line>,
                            r: Result<Observed>)
  {
    || (QuietBut1(lines) && LastDecides(seen + lines, r))
    || (Quiet(lines) && RestDecides(look, DropPieces(rest, |lines|), broken, seen + lines, r))
  }

  /**
   Exactly when each verdict is reached. The lines of the stream are read up to the first one
   that shows a broken server or ends the turn. Repair is asked for by the latest status; a
   turn that ended in an error passes only on a rate limit seen in some line, kept or evicted.
   Otherwise it is the end of the stream, an over-long piece, a failed read before a line
   break, or a line that is not UTF-8.
  */
  lemma VerdictIff(look: Look, rest: seq<Byte>, broken: bool, seen: seq<Line>, r: Result<Observed>)
    requires !InitOf(seen).NeedsRepair?
    ensures Observe(look, rest, broken, seen) == r <==>
            exists lines :: Reads(look, rest, broken, lines) && Concludes(look, rest, broken, seen, lines, r)
  {
    if Observe(look, rest, broken, seen) == r {
      var lines := VerdictLines(look, rest, broken, seen);
      VerdictReached(look, rest, broken, seen);
      assert Reads(look, rest, broken, lines) && Concludes(look, rest, broken, seen, lines, r);
    }
    forall lines | Reads(look, rest, broken, lines) && Concludes(look, rest, broken, seen, lines, r)
      ensures Observe(look, rest, broken, seen) == r
    {
      VerdictForced(look, rest, broken, seen, lines, r);
    }
  }

  // The lines the verdict rests on.
  function VerdictLines(look: Look, rest: seq<Byte>, broken: bool, seen: seq<Line>): seq<Line>
    decreases |rest|
  {
    match NextLine(look, rest, broken)
    case None => []
    case Some(line) =>
      if Stop(seen + [line]).Some? then [line]
      else [line] + VerdictLines(look, rest[PieceLength(rest)..], broken, seen + [line])
  }

  lemma {:induction false} VerdictReached(look: Look, rest: seq<Byte>, broken: bool, seen: seq<Line>)
    requires !InitOf(seen).NeedsRepair?
    ensures var lines := VerdictLines(look, rest, broken, seen);
            && Reads(look, rest, broken, lines)
            && Concludes(look, rest, broken, seen, lines, Observe(look, rest, broken, seen))
    decreases |rest|
  {
    match NextLine(look, rest, broken)
    case None =>
      NothingMore(look, rest, broken, seen);
    case Some(line) =>
      StopDecides(seen, line);
      if Stop(seen + [line]).Some? {
        assert Reads(look, rest, broken, [line]);
        assert QuietBut1([line]) && LastDecides(seen + [line], Stop(seen + [line]).value);
      } else {
        var later := rest[PieceLength(rest)..];
        VerdictReached(look, later, broken, seen + [line]);
        var lines := VerdictLines(look, later, broken, seen + [line]);
        OneLineEarlier(look, rest, broken, seen, line, lines, Observe(look, later, broken, seen + [line]));
        assert ([line] + lines)[1..] == lines;
      }
  }

  lemma NothingMore(look: Look, rest: seq<Byte>, broken: bool, seen: seq<Line>)
    requires NextLine(look, rest, broken).None?
    ensures RestDecides(look, rest, broken, seen + [], Observe(look, rest, broken, seen))
  {
    assert seen + [] == seen;
    if NoNewline(rest) {
      PieceWhole(rest);
    }
  }

  // A line stops the loop exactly when it decides, in the order repair, error, result.
  lemma StopDecides(seen: seq<Line>, line: Line)
    requires !InitOf(seen).NeedsRepair?
    ensures Stop(seen + [line]).Some? <==> Decisive(line)
    ensures Stop(seen + [line]).Some? ==> LastDecides(seen + [line], Stop(seen + [line]).value)
    ensures !Decisive(line) ==> !InitOf(seen + [line]).NeedsRepair?
  {
    SeenOneMore(seen, line);
  }

  lemma LastDecidesOnce(all: seq<Line>, r: Result<Observed>)
    requires all != [] && LastDecides(all, r)
    ensures Stop(all) == Some(r)
  {
  }

  lemma RestDecidesOnce(look: Look, rest: seq<Byte>, broken: bool, seen: seq<Line>, r: Result<Observed>)
    requires RestDecides(look, rest, broken, seen + [], r)
    ensures Observe(look, rest, broken, seen) == r
  {
    assert seen + [] == seen;
    if NoNewline(rest) {
      PieceWhole(rest);
    }
  }

  lemma DecisiveIsLast(lines: seq<Line>)
    requires lines != [] && Decisive(lines[0])
    ensures !Quiet(lines)
    ensures QuietBut1(lines) ==> lines == [lines[0]]
  {
    if |lines| > 1 {
      assert lines[..|lines| - 1][0] == lines[0];
    }
  }

  lemma {:induction false} VerdictForced(look: Look, rest: seq<Byte>, broken: bool, seen: seq<Line>, lines: seq<Line>,
                                         r: Result<Observed>)
    requires !InitOf(seen).NeedsRepair?
    requires Reads(look, rest, broken, lines) && Concludes(look, rest, broken, seen, lines, r)
    ensures Observe(look, rest, broken, seen) == r
    decreases |lines|
  {
    if lines == [] {
      RestDecidesOnce(look, rest, broken, seen, r);
    } else {
      var line, later := lines[0], rest[PieceLength(rest)..];
      assert lines == [line] + lines[1..];
      StopDecides(seen, line);
      if Decisive(line) {
        DecisiveIsLast(lines);
        LastDecidesOnce(seen + [line], r);
      } else {
        OneLineEarlier(look, rest, broken, seen, line, lines[1..], r);
        VerdictForced(look, later, broken, seen + [line], lines[1..], r);
      }
    }
  }

  // A line that decides nothing may as well have been seen before.
  lemma OneLineEarlier(look: Look, rest: seq<Byte>, broken: bool, seen: seq<Line>, line: Line, lines: seq<Line>,
                       r: Result<Observed>)
    requires !Decisive(line) && !InitOf(seen).NeedsRepair?
    ensures Concludes(look, rest, broken, seen, [line] + lines, r) <==>
            Concludes(look, rest[PieceLength(rest)..], broken, seen + [line], lines, r)
  {
    assert seen + ([line] + lines) == seen + [line] + lines;
    QuietBehind(line, lines);
    if lines == [] {
      StopDecides(seen, line);
      assert [line] + [] == [line] && seen + [line] + [] == seen + [line];
      QuietEndUndecided(seen, line, r);
    } else {
      QuietBut1Behind(line, lines);
    }
  }

  lemma QuietEndUndecided(seen: seq<Line>, line: Line, r: Result<Observed>)
    requires !Decisive(line) && !InitOf(seen).NeedsRepair?
    ensures !LastDecides(seen + [line], r)
  {
    StopDecides(seen, line);
  }

  lemma QuietBehind(line: Line, lines: seq<Line>)
    requires !Decisive(line)
    ensures Quiet([line] + lines) <==> Quiet(lines)
  {
    if Quiet([line] + lines) {
      assert forall i :: 0 <= i < |lines| ==> lines[i] == ([line] + lines)[i + 1];
    }
  }

  lemma QuietBut1Behind(line: Line, lines: seq<Line>)
    requires !Decisive(line) && lines != []
    ensures QuietBut1([line] + lines) <==> QuietBut1(lines)
  {
    QuietBehind(line, lines[..|lines| - 1]);
    assert ([line] + lines)[..|lines|] == [line] + lines[..|lines| - 1];
  }

  lemma {:induction false} InitIsLatest(seen: seq<Line>, k: nat)
    requires k < |seen| && seen[k].init.Some? && forall j :: k < j < |seen| ==> seen[j].init.None?
    ensures InitOf(seen) == seen[k].init.value
    decreases |seen|
  {
    if k < |seen| - 1 {
      InitIsLatest(seen[..|seen| - 1], k);
    }
  }

  lemma {:induction false} NoInitReported(seen: seq<Line>)
    requires forall j :: 0 <= j < |seen| ==> seen[j].init.None?
    ensures InitOf(seen).NoInit?
    decreases |seen|
  {
    if seen != [] {
      NoInitReported(seen[..|seen| - 1]);
    }
  }

  /**
   What a probe reports of its lines: the latest status, the kept tail of their texts, and whether
   any of them told of a rate limit.
  */
  lemma ReportLaw(seen: seq<Line>, completion: Completion, k: nat)
    requires k < |seen| ==> seen[k].init.Some?
    requires forall j :: (if k < |seen| then k + 1 else 0) <= j < |seen| ==> seen[j].init.None?
    ensures var o := Summary(seen, completion);
            && o.init == (if k < |seen| then seen[k].init.value else NoInit)
            && (o.rateLimited <==> exists i :: 0 <= i < |seen| && seen[i].rateLimited)
            && o.tail == Kept(seq(|seen|, i requires 0 <= i < |seen| => seen[i].text))
            && o.completion == completion
  {
    if k < |seen| {
      InitIsLatest(seen, k);
    } else {
      NoInitReported(seen);
    }
  }

  lemma DropLast(s: seq<Byte>, b: Byte)
    ensures (s + [b])[..|s + [b]| - 1] == s && (s + [b])[|s + [b]| - 1] == b && s + [b] != []
  {
  }

  predicate EndsIn(s: seq<Byte>, b: Byte) {
    s != [] && s[|s| - 1] == b
  }

  /** A line loses its line ending and nothing else: one line feed, and one carriage return before it. */
  lemma TrimEolLaw(body: seq<Byte>)
    ensures !EndsIn(body, 13) ==> TrimEol(body + [10]) == body
    ensures TrimEol((body + [13]) + [10]) == body
    ensures !EndsIn(body, 10) && !EndsIn(body, 13) ==> TrimEol(body) == body
    ensures !EndsIn(body, 10) ==> TrimEol(body + [13]) == body
  {
    DropLast(body, 10);
    DropLast(body, 13);
    DropLast(body + [13], 10);
  }
}
