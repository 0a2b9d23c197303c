/**
 The bounded readers of the health probe (`keepalive.rs`): each works on whatever chunks the
 pipe hands it and holds at most a fixed number of bytes, yet computes a simple function of
 the whole stream.
*/
module ProbeStreams {
  import opened Basics

  const NEWLINE: Byte := 10
  const RETURN: Byte := 13
  const STDERR_EXCERPT_CHARS: nat := 2 * 1024
  const STDOUT_TAIL_BYTES: nat := STDERR_EXCERPT_CHARS * 4

  datatype ProbeError = ReadFailed | LineTooLong | NotUtf8 | ResultError
  datatype Result<T> = Ok(value: T) | Err(error: ProbeError)

  // ---- one line ----

  // The length of the first newline-terminated piece of a stream, or of all of it.
  function PieceLength(s: seq<Byte>): (n: nat)
    ensures n <= |s|
    ensures s != [] ==> n > 0
  {
    if s == [] then 0 else if s[0] == NEWLINE then 1 else 1 + PieceLength(s[1..])
  }

  predicate NoNewline(s: seq<Byte>) {
    forall i :: 0 <= i < |s| ==> s[i] != NEWLINE
  }

  lemma {:induction false} PieceBehind(p: seq<Byte>, s: seq<Byte>)
    requires NoNewline(p)
    ensures PieceLength(p + s) == |p| + PieceLength(s)
    decreases |p|
  {
    if p == [] {
      assert p + s == s;
    } else {
      assert (p + s)[1..] == p[1..] + s;
      PieceBehind(p[1..], s);
    }
  }

  // The first piece ends at the first newline, and a stream without one is one piece.
  lemma PieceAt(s: seq<Byte>, k: nat)
    requires k < |s| && NoNewline(s[..k]) && s[k] == NEWLINE
    ensures PieceLength(s) == k + 1
  {
    assert s == s[..k] + s[k..];
    PieceBehind(s[..k], s[k..]);
  }

  lemma PieceWhole(s: seq<Byte>)
    requires NoNewline(s)
    ensures PieceLength(s) == |s|
  {
    assert s + [] == s;
    PieceBehind(s, []);
  }

  // The next line as a function of what is left of the stream.
  function LineOf(rest: seq<Byte>, broken: bool): Result<seq<Byte>> {
    var n := PieceLength(rest);
    if n > STDOUT_TAIL_BYTES then Err(LineTooLong)
    else if broken && NoNewline(rest) then Err(ReadFailed)
    else Ok(rest[..n])
  }

  /**
   A line comes with its line feed and within the bound; what is left without one is a line unless
   the read fails.
  */
  lemma LineLaw(p: seq<Byte>, behind: seq<Byte>, broken: bool)
    requires NoNewline(p)
    ensures LineOf(p + [10] + behind, broken) == if |p| + 1 > STDOUT_TAIL_BYTES then Err(LineTooLong) else Ok(p + [10])
    ensures LineOf(p, broken) ==
      if |p| > STDOUT_TAIL_BYTES then Err(LineTooLong) else if broken then Err(ReadFailed) else Ok(p)
  {
    var s := p + [10] + behind;
    assert s[..|p|] == p && s[|p|] == 10 && s[..|p| + 1] == p + [10] && p[..|p|] == p;
    PieceAt(s, |p|);
    PieceWhole(p);
  }

  function FirstNewline(s: seq<Byte>): (at: Option<nat>)
    ensures match at
            case Some(k) => k < |s| && s[k] == NEWLINE && NoNewline(s[..k])
            case None => NoNewline(s)
  {
    if s == [] then None
    else if s[0] == NEWLINE then Some(0)
    else
      match FirstNewline(s[1..])
      case Some(k) => assert s[..k + 1] == [s[0]] + s[1..][..k]; Some(k + 1)
      case None => assert s == [s[0]] + s[1..]; None
  }

  // A buffered reader over the chunks the pipe will deliver, then end of file or an error.
  class Reader {
    var chunks: seq<seq<Byte>>
    const broken: bool

    ghost predicate Valid() reads this { forall i :: 0 <= i < |chunks| ==> chunks[i] != [] }

    ghost function Rest(): seq<Byte> reads this { Flatten(chunks) }

    constructor (chunks: seq<seq<Byte>>, broken: bool)
      requires forall i :: 0 <= i < |chunks| ==> chunks[i] != []
      ensures Valid() && this.chunks == chunks && this.broken == broken
    {
      this.chunks, this.broken := chunks, broken;
    }

    // `fill_buf`: what is buffered, empty at the end of the stream.
    method FillBuf() returns (available: Result<seq<Byte>>)
      requires Valid()
      ensures chunks != [] ==> available == Ok(chunks[0])
      ensures chunks == [] ==> available == if broken then Err(ReadFailed) else Ok([])
    {
      if chunks != [] {
        available := Ok(chunks[0]);
      } else if broken {
        available := Err(ReadFailed);
      } else {
        available := Ok([]);
      }
    }

    method Consume(n: nat)
      requires Valid() && chunks != [] && 0 < n <= |chunks[0]|
      modifies this
      ensures Valid() && Rest() == old(Rest())[n..]
    {
      var left := chunks[0][n..];
      assert chunks[0] + Flatten(chunks[1..]) == chunks[0][..n] + (left + Flatten(chunks[1..]));
      if left == [] {
        chunks := chunks[1..];
      } else {
        ghost var later := chunks[1..];
        chunks := [left] + chunks[1..];
        assert chunks[1..] == later;
      }
    }
  }

  lemma JoinAssoc(a: seq<Byte>, b: seq<Byte>, n: nat)
    requires n <= |b|
    ensures (a + b[..n]) + b[n..] == a + b
  {
  }

  // What one turn of the reader's loop concludes from the chunk at hand.
  lemma ChunkDecides(line: seq<Byte>, chunk: seq<Byte>, later: seq<Byte>)
    requires NoNewline(line)
    ensures match FirstNewline(chunk)
            case Some(k) => PieceLength(line + (chunk + later)) == |line| + k + 1 && !NoNewline(line + (chunk + later))
            case None => PieceLength(line + (chunk + later)) >= |line| + |chunk| && NoNewline(line + chunk)
  {
    PieceBehind(line, chunk + later);
    match FirstNewline(chunk) {
      case Some(k) =>
        assert (chunk + later)[..k] == chunk[..k];
        PieceAt(chunk + later, k);
        assert (line + (chunk + later))[|line| + k] == NEWLINE;
      case None =>
        PieceBehind(chunk, later);
    }
  }

  /**
   `read_probe_line`: whatever the chunking, the next newline-terminated piece of the
   stream; an error exactly when that piece is longer than the bound.
  */
  method ReadProbeLine(reader: Reader) returns (line: Result<seq<Byte>>)
    requires reader.Valid()
    modifies reader
    ensures reader.Valid()
    ensures line == LineOf(old(reader.Rest()), reader.broken)
    ensures line.Ok? ==> reader.Rest() == old(reader.Rest())[|line.value|..]
  {
    var read: seq<Byte> := [];
    ghost var stream := reader.Rest();
    while true
      invariant reader.Valid() && |read| <= STDOUT_TAIL_BYTES && NoNewline(read)
      invariant read + reader.Rest() == stream
      decreases |reader.Rest()|
    {
      var available := reader.FillBuf();
      if available.Err? {
        PieceWhole(stream);
        return available;
      }
      if available.value == [] {
        PieceWhole(stream);
        return Ok(read);
      }
      ghost var rest := reader.Rest();
      var newline := FirstNewline(available.value);
      var consumed := match newline case Some(k) => k + 1 case None => |available.value|;
      ChunkDecides(read, available.value, Flatten(reader.chunks[1..]));
      if |read| + consumed > STDOUT_TAIL_BYTES {
        return Err(LineTooLong);
      }
      ghost var before := read;
      read := read + available.value[..consumed];
      assert available.value[..consumed] == rest[..consumed];
      reader.Consume(consumed);
      JoinAssoc(before, rest, consumed);
      if newline.Some? {
        assert stream[..|read|] == read;
        return Ok(read);
      }
      assert available.value[..consumed] == available.value;
    }
  }

  // ---- the kept tail of lines ----

  function Utf8Width(c: char): (n: nat)
    ensures 1 <= n <= 4
  {
    if c as int < 0x80 then 1 else if c as int < 0x800 then 2 else if c as int < 0x1_0000 then 3 else 4
  }

  // `str::len`: bytes, not characters.
  function Size(s: string): nat {
    if s == [] then 0 else Utf8Width(s[0]) + Size(s[1..])
  }

  function Total(lines: seq<string>): nat {
    if lines == [] then 0 else Size(lines[0]) + Total(lines[1..])
  }

  function LongestSuffix(lines: seq<string>): seq<string> {
    if Total(lines) <= STDOUT_TAIL_BYTES then lines else LongestSuffix(lines[1..])
  }

  // The suffix of a line that starts at byte `start`, or at the first boundary behind it.
  function CutAt(line: string, start: nat): (t: string)
  {
    if line == [] || start == 0 then line
    else if start < Utf8Width(line[0]) then line[1..]
    else CutAt(line[1..], start - Utf8Width(line[0]))
  }

  function Cut(line: string): string {
    if Size(line) <= STDOUT_TAIL_BYTES then line else CutAt(line, Size(line) - STDOUT_TAIL_BYTES)
  }

  // The lines since the last over-long one, which is itself cut.
  function Recent(pushed: seq<string>): seq<string> {
    if pushed == [] then []
    else
      var last := pushed[|pushed| - 1];
      if Size(last) > STDOUT_TAIL_BYTES then [Cut(last)] else Recent(pushed[..|pushed| - 1]) + [last]
  }

  function Kept(pushed: seq<string>): seq<string> {
    LongestSuffix(Recent(pushed))
  }

  // Is byte offset `at` a character boundary of `line`, and of which character?
  function BoundaryIndex(line: string, at: nat): (k: Option<nat>)
    ensures k.Some? ==> k.value <= |line|
  {
    if at == 0 then Some(0)
    else if line == [] || at < Utf8Width(line[0]) then None
    else match BoundaryIndex(line[1..], at - Utf8Width(line[0]))
         case Some(k) => Some(k + 1)
         case None => None
  }

  lemma {:induction false} BoundaryCut(line: string, at: nat)
    requires at <= Size(line)
    ensures match BoundaryIndex(line, at)
            case Some(k) => CutAt(line, at) == line[k..]
            case None => at < Size(line) && CutAt(line, at + 1) == CutAt(line, at)
    decreases |line|
  {
    if line != [] && at >= Utf8Width(line[0]) {
      BoundaryCut(line[1..], at - Utf8Width(line[0]));
    }
  }

  /** A cut line is the longest suffix within the bound; less than one character is lost to the boundary. */
  lemma {:induction false} CutIsLongest(line: string, start: nat)
    requires start <= Size(line)
    ensures CutAt(line, start) == line[CutIndex(line, start)..]
    ensures LongestWithin(line, Size(line) - start, CutIndex(line, start))
    decreases |line|
  {
    if start == 0 || line == [] {
      assert line[0..] == line;
    } else if start < Utf8Width(line[0]) {
      assert line[1 - 1..] == line;
    } else {
      CutIsLongest(line[1..], start - Utf8Width(line[0]));
      LongestBehind(line, Size(line) - start, CutIndex(line[1..], start - Utf8Width(line[0])));
    }
  }

  // The suffix from `k` fits into `room`, one character more does not, and at most three bytes
  // of the room are left.
  predicate LongestWithin(line: string, room: nat, k: nat) {
    && k <= |line|
    && Size(line[k..]) <= room < Size(line[k..]) + 4
    && (k > 0 ==> Size(line[k - 1..]) > room)
  }

  function CutIndex(line: string, start: nat): (k: nat)
    ensures k <= |line|
  {
    if line == [] || start == 0 then 0
    else if start < Utf8Width(line[0]) then 1
    else 1 + CutIndex(line[1..], start - Utf8Width(line[0]))
  }

  lemma LongestBehind(line: string, room: nat, k: nat)
    requires line != [] && LongestWithin(line[1..], room, k) && room < Size(line)
    ensures LongestWithin(line, room, k + 1)
  {
    assert line[k + 1..] == line[1..][k..];
    assert line[k..] == if k > 0 then line[1..][k - 1..] else line;
  }

  lemma {:induction false} TotalConcat(a: seq<string>, b: seq<string>)
    ensures Total(a + b) == Total(a) + Total(b)
    decreases |a|
  {
    if a == [] {
      assert a + b == b;
    } else {
      assert (a + b)[1..] == a[1..] + b;
      TotalConcat(a[1..], b);
    }
  }

  lemma TotalOfSuffix(lines: seq<string>, k: nat)
    requires k <= |lines|
    ensures Total(lines[k..]) <= Total(lines)
  {
    assert lines == lines[..k] + lines[k..];
    TotalConcat(lines[..k], lines[k..]);
  }

  lemma {:induction false} LongestSuffixIsSuffix(lines: seq<string>)
    ensures |LongestSuffix(lines)| <= |lines|
    ensures LongestSuffix(lines) == lines[|lines| - |LongestSuffix(lines)|..]
    ensures Total(LongestSuffix(lines)) <= STDOUT_TAIL_BYTES
    decreases |lines|
  {
    if Total(lines) > STDOUT_TAIL_BYTES {
      LongestSuffixIsSuffix(lines[1..]);
    }
  }

  lemma {:induction false} NoLongerSuffixFits(lines: seq<string>, k: nat)
    requires k <= |lines| && Total(lines[k..]) <= STDOUT_TAIL_BYTES
    ensures |lines| - k <= |LongestSuffix(lines)|
    decreases |lines|
  {
    assert lines[0..] == lines;
    if Total(lines) > STDOUT_TAIL_BYTES {
      assert lines[1..][k - 1..] == lines[k..];
      NoLongerSuffixFits(lines[1..], k - 1);
    }
  }

  /** `LongestSuffix` is what its name says: it fits, and a suffix that fits is no longer. */
  lemma LongestSuffixLaw(lines: seq<string>, k: nat)
    requires k <= |lines|
    ensures |LongestSuffix(lines)| <= |lines|
    ensures LongestSuffix(lines) == lines[|lines| - |LongestSuffix(lines)|..]
    ensures Total(LongestSuffix(lines)) <= STDOUT_TAIL_BYTES
    ensures Total(lines[k..]) <= STDOUT_TAIL_BYTES <==> |lines| - k <= |LongestSuffix(lines)|
  {
    LongestSuffixIsSuffix(lines);
    if Total(lines[k..]) <= STDOUT_TAIL_BYTES {
      NoLongerSuffixFits(lines, k);
    } else if |lines| - k <= |LongestSuffix(lines)| {
      var kept := |lines| - |LongestSuffix(lines)|;
      assert lines[k..] == lines[kept..][k - kept..];
      TotalOfSuffix(lines[kept..], k - kept);
    }
  }

  // Keeping, then adding, then keeping again loses nothing.
  lemma {:induction false} KeepAddKeep(lines: seq<string>, line: string)
    ensures LongestSuffix(LongestSuffix(lines) + [line]) == LongestSuffix(lines + [line])
    decreases |lines|
  {
    if Total(lines) > STDOUT_TAIL_BYTES {
      TotalConcat(lines, [line]);
      assert (lines + [line])[1..] == lines[1..] + [line];
      KeepAddKeep(lines[1..], line);
    }
  }

  class ProbeStdoutTail {
    var lines: seq<string>
    var bytes: nat
    ghost var pushed: seq<string>

    // The counter is the sum of the line lengths; the lines are the ones promised.
    ghost predicate Valid() reads this {
      && bytes == Total(lines) && bytes <= STDOUT_TAIL_BYTES
      && lines == Kept(pushed)
    }

    constructor ()
      ensures Valid() && pushed == []
    {
      lines, bytes, pushed := [], 0, [];
    }

    method Push(pushedLine: string)
      requires Valid()
      modifies this
      ensures Valid() && pushed == old(pushed) + [pushedLine]
    {
      var line := pushedLine;
      ghost var recent := Recent(pushed);
      pushed := pushed + [pushedLine];
      assert pushed[..|pushed| - 1] == old(pushed);
      if Size(line) > STDOUT_TAIL_BYTES {
        line := CutToBound(line);
        lines := [];
        bytes := 0;
        recent := [];
      }
      assert Recent(pushed) == recent + [line];
      KeepAddKeep(recent, line);
      assert LongestSuffix(lines + [line]) == Kept(pushed);
      MakeRoom(line);
      bytes := bytes + Size(line);
      lines := lines + [line];
    }

    // Drops the oldest lines until `line` fits.
    method MakeRoom(line: string)
      requires bytes == Total(lines) && Size(line) <= STDOUT_TAIL_BYTES
      modifies this`lines, this`bytes
      ensures lines + [line] == LongestSuffix(old(lines) + [line])
      ensures bytes == Total(lines) && bytes + Size(line) == Total(lines + [line]) <= STDOUT_TAIL_BYTES
    {
      while bytes + Size(line) > STDOUT_TAIL_BYTES
        invariant bytes == Total(lines)
        invariant LongestSuffix(lines + [line]) == LongestSuffix(old(lines) + [line])
        decreases |lines|
      {
        if lines == [] {
          break;
        }
        TotalConcat(lines, [line]);
        assert (lines + [line])[1..] == lines[1..] + [line];
        bytes := bytes - Size(lines[0]);
        lines := lines[1..];
      }
      TotalConcat(lines, [line]);
    }
  }

  lemma CutFits(line: string)
    ensures Size(Cut(line)) <= STDOUT_TAIL_BYTES
  {
    if Size(line) > STDOUT_TAIL_BYTES {
      CutIsLongest(line, Size(line) - STDOUT_TAIL_BYTES);
    }
  }

  // The cut of an over-long line: step to the next character boundary.
  method CutToBound(line: string) returns (tail: string)
    requires Size(line) > STDOUT_TAIL_BYTES
    ensures tail == Cut(line) && Size(tail) <= STDOUT_TAIL_BYTES
  {
    CutFits(line);
    var start := Size(line) - STDOUT_TAIL_BYTES;
    BoundaryCut(line, start);
    while BoundaryIndex(line, start).None?
      invariant start <= Size(line) && CutAt(line, start) == Cut(line)
      decreases Size(line) - start
    {
      BoundaryCut(line, start);
      start := start + 1;
    }
    BoundaryCut(line, start);
    tail := line[BoundaryIndex(line, start).value..];
  }

  /** A line is over-long beyond 8192 bytes, and is then cut to the longest suffix of characters within them. */
  lemma CutLaw(line: string)
    ensures Size(line) <= 8192 ==> Cut(line) == line
    ensures Size(line) > 8192 ==> exists k: nat :: k <= |line| && Cut(line) == line[k..] && LongestWithin(line, 8192, k)
  {
    if Size(line) > 8192 {
      CutIsLongest(line, Size(line) - 8192);
      assert LongestWithin(line, 8192, CutIndex(line, Size(line) - 8192));
    }
  }

  lemma SuffixGrows(before: seq<string>, last: string, j: nat)
    requires j <= |before|
    ensures (before + [last])[j..] == before[j..] + [last]
  {
  }

  lemma {:induction false} RecentIsAll(pushed: seq<string>)
    requires forall i :: 0 <= i < |pushed| ==> Size(pushed[i]) <= 8192
    ensures Recent(pushed) == pushed
    decreases |pushed|
  {
    if pushed != [] {
      RecentIsAll(pushed[..|pushed| - 1]);
      assert pushed == pushed[..|pushed| - 1] + [pushed[|pushed| - 1]];
    }
  }

  lemma {:induction false} RecentIsFrom(pushed: seq<string>, j: nat)
    requires j < |pushed| && Size(pushed[j]) > 8192
    requires forall i :: j < i < |pushed| ==> Size(pushed[i]) <= 8192
    ensures Recent(pushed) == [Cut(pushed[j])] + pushed[j + 1..]
    decreases |pushed|
  {
    var before, last := pushed[..|pushed| - 1], pushed[|pushed| - 1];
    if j < |before| {
      RecentIsFrom(before, j);
      assert pushed == before + [last];
      SuffixGrows(before, last, j + 1);
    }
  }

  /** What counts of the lines pushed: all of them, or from the last over-long one on, which is cut. */
  lemma RecentLaw(pushed: seq<string>, j: nat)
    ensures (forall i :: 0 <= i < |pushed| ==> Size(pushed[i]) <= 8192) ==> Recent(pushed) == pushed
    ensures j < |pushed| && Size(pushed[j]) > 8192 && (forall i :: j < i < |pushed| ==> Size(pushed[i]) <= 8192) ==>
            Recent(pushed) == [Cut(pushed[j])] + pushed[j + 1..]
  {
    if forall i :: 0 <= i < |pushed| ==> Size(pushed[i]) <= 8192 {
      RecentIsAll(pushed);
    }
    if j < |pushed| && Size(pushed[j]) > 8192 && forall i :: j < i < |pushed| ==> Size(pushed[i]) <= 8192 {
      RecentIsFrom(pushed, j);
    }
  }
}
