/**
 The probe's stderr (`drain_probe_stderr`, `stderr_excerpt`): only the last bytes are kept
 while reading, and the excerpt is still the excerpt of all of it.
*/
module ProbeStderr {
  import opened Basics
  import opened ProbeStreams

  const TAIL_BYTES: nat := STDERR_EXCERPT_CHARS * 4
  const READ_BYTES: nat := 8 * 1024

  function Last<T>(s: seq<T>, n: nat): (t: seq<T>)
    ensures |t| == Min(|s|, n)
  {
    if |s| <= n then s else s[|s| - n..]
  }

  // A decoded character, or the replacement for bytes that are none.
  datatype Glyph = Scalar(bytes: seq<Byte>) | Replacement

  predicate Continuation(b: Byte) { 0x80 <= b < 0xC0 }

  // The number of bytes the lead byte asks for; 0 for a byte that cannot lead.
  function Wanted(lead: Byte): (n: nat)
    ensures n <= 4
  {
    if lead < 0x80 then 1
    else if 0xC2 <= lead < 0xE0 then 2
    else if 0xE0 <= lead < 0xF0 then 3
    else if 0xF0 <= lead < 0xF5 then 4
    else 0
  }

  // Second bytes: no overlong forms, no surrogates, nothing above U+10FFFF.
  predicate Second(lead: Byte, b: Byte) {
    && Continuation(b)
    && (lead == 0xE0 ==> b >= 0xA0) && (lead == 0xED ==> b < 0xA0)
    && (lead == 0xF0 ==> b >= 0x90) && (lead == 0xF4 ==> b < 0x90)
  }

  // How many bytes the glyph at `i` takes: a whole character or its longest proper start.
  function GlyphLength(s: seq<Byte>, i: nat): (n: nat)
    requires i < |s|
    ensures 1 <= n <= 4 && i + n <= |s|
  {
    var wanted := Wanted(s[i]);
    if wanted < 2 || i + 1 == |s| || !Second(s[i], s[i + 1]) then 1
    else if wanted == 2 || i + 2 == |s| || !Continuation(s[i + 2]) then 2
    else if wanted == 3 || i + 3 == |s| || !Continuation(s[i + 3]) then 3
    else 4
  }

  function GlyphAt(s: seq<Byte>, i: nat): Glyph
    requires i < |s|
  {
    var n := GlyphLength(s, i);
    if n == Wanted(s[i]) then Scalar(s[i..i + n]) else Replacement
  }

  // Decoding from byte `i` on, as `String::from_utf8_lossy` decodes.
  function Lossy(s: seq<Byte>, i: nat): seq<Glyph>
    requires i <= |s|
    decreases |s| - i
  {
    if i == |s| then [] else [GlyphAt(s, i)] + Lossy(s, i + GlyphLength(s, i))
  }

  // `stderr_excerpt`: the last characters of the decoding.
  function Excerpt(bytes: seq<Byte>): seq<Glyph> {
    Last(Lossy(bytes, 0), STDERR_EXCERPT_CHARS)
  }

  // ---- the tail ----

  lemma LastBehind(a: seq<Byte>, b: seq<Byte>, n: nat)
    ensures Last(Last(a, n) + b, n) == Last(a + b, n)
  {
  }

  // The deque's two ways of taking in a chunk, the whole of it or what still counts.
  lemma LastOneMore(a: seq<Byte>, tail: seq<Byte>, chunk: seq<Byte>, n: nat)
    requires tail == Last(a, n)
    ensures |chunk| >= n ==> Last(a + chunk, n) == chunk[|chunk| - n..]
    ensures |chunk| < n ==> Last(a + chunk, n) == tail[Max(0, |tail| + |chunk| - n)..] + chunk
  {
    LastBehind(a, chunk, n);
  }

  /**
   `drain_probe_stderr`: after every read the tail holds exactly the last bytes of what was
   read, and at the end the excerpt is that of the whole stream.
  */
  method DrainProbeStderr(chunks: seq<seq<Byte>>, broken: bool) returns (excerpt: Result<seq<Glyph>>, tail: seq<Byte>)
    requires forall i :: 0 <= i < |chunks| ==> 0 < |chunks[i]| <= READ_BYTES
    ensures excerpt == if broken then Err(ReadFailed) else Ok(Excerpt(Flatten(chunks)))
    ensures tail == Last(Flatten(chunks), TAIL_BYTES)
  {
    tail := [];
    var i := 0;
    while i < |chunks|
      invariant i <= |chunks| && |tail| <= TAIL_BYTES
      invariant tail == Last(Flatten(chunks[..i]), TAIL_BYTES)
    {
      var chunk := chunks[i];
      FlattenOneMore(chunks, i);
      LastOneMore(Flatten(chunks[..i]), tail, chunk, TAIL_BYTES);
      i := i + 1;
      if |chunk| >= TAIL_BYTES {
        tail := chunk[|chunk| - TAIL_BYTES..];
        continue;
      }
      var overflow := Max(0, |tail| + |chunk| - TAIL_BYTES);
      tail := tail[overflow..] + chunk;
    }
    assert chunks[..i] == chunks;
    if broken {
      return Err(ReadFailed), tail;
    }
    ExcerptOfTail(Flatten(chunks));
    excerpt := Ok(Excerpt(tail));
  }

  lemma ExcerptOfTail(s: seq<Byte>)
    ensures Excerpt(Last(s, TAIL_BYTES)) == Excerpt(s)
  {
    FourBytesSuffice(s, STDERR_EXCERPT_CHARS);
  }

  // ---- four bytes per character suffice ----

  predicate EndsWith(s: seq<Glyph>, t: seq<Glyph>) {
    |t| <= |s| && s[|s| - |t|..] == t
  }

  lemma EndsWithTrans(a: seq<Glyph>, b: seq<Glyph>, c: seq<Glyph>)
    requires EndsWith(a, b) && EndsWith(b, c)
    ensures EndsWith(a, c)
  {
  }

  // Decoding never looks back.
  lemma {:induction false} LossyOfSuffix(s: seq<Byte>, k: nat, i: nat)
    requires k + i <= |s|
    ensures Lossy(s[k..], i) == Lossy(s, k + i)
    decreases |s| - i
  {
    if k + i < |s| {
      GlyphOfSuffix(s, k, i);
      LossyOfSuffix(s, k, i + GlyphLength(s, k + i));
    }
  }

  lemma GlyphOfSuffix(s: seq<Byte>, k: nat, i: nat)
    requires k + i < |s|
    ensures GlyphLength(s[k..], i) == GlyphLength(s, k + i)
    ensures GlyphAt(s[k..], i) == GlyphAt(s, k + i)
  {
    SliceOfSuffix(s, k, i, GlyphLength(s, k + i));
  }

  lemma SliceOfSuffix(s: seq<Byte>, k: nat, i: nat, n: nat)
    requires k + i + n <= |s|
    ensures s[k..][i..i + n] == s[k + i..k + i + n]
  {
  }

  // The first glyph boundary at or behind `k`, in the decoding from `i`.
  function NextBoundary(s: seq<Byte>, i: nat, k: nat): (e: nat)
    requires i <= k <= |s|
    ensures k <= e <= k + 3 && e <= |s|
    decreases k - i
  {
    if i == k then k
    else if k <= i + GlyphLength(s, i) then i + GlyphLength(s, i)
    else NextBoundary(s, i + GlyphLength(s, i), k)
  }

  // The decoding from `i` passes through that boundary.
  lemma {:induction false} PassesBoundary(s: seq<Byte>, i: nat, k: nat)
    requires i <= k <= |s|
    ensures EndsWith(Lossy(s, i), Lossy(s, NextBoundary(s, i, k)))
    decreases k - i
  {
    if i < k && i + GlyphLength(s, i) < k {
      PassesBoundary(s, i + GlyphLength(s, i), k);
      EndsWithRest(s, i);
      EndsWithTrans(Lossy(s, i), Lossy(s, i + GlyphLength(s, i)), Lossy(s, NextBoundary(s, i, k)));
    }
  }

  lemma EndsWithRest(s: seq<Byte>, i: nat)
    requires i < |s|
    ensures EndsWith(Lossy(s, i), Lossy(s, i + GlyphLength(s, i)))
  {
  }

  // So does the decoding from `k`: inside a glyph every byte stands alone.
  lemma {:induction false} FallsIntoStep(s: seq<Byte>, i: nat, k: nat)
    requires i < |s| && i < k <= i + GlyphLength(s, i)
    ensures EndsWith(Lossy(s, k), Lossy(s, i + GlyphLength(s, i)))
    decreases |s| - k
  {
    if k < i + GlyphLength(s, i) {
      var end := i + GlyphLength(s, i);
      InsideEndsWithNext(s, i, k);
      FallsIntoStep(s, i, k + 1);
      EndsWithTrans(Lossy(s, k), Lossy(s, k + 1), Lossy(s, end));
    }
  }

  lemma InsideGlyph(s: seq<Byte>, i: nat, k: nat)
    requires i < |s| && i < k < i + GlyphLength(s, i)
    ensures Continuation(s[k]) && GlyphLength(s, k) == 1
  {
  }

  lemma InsideEndsWithNext(s: seq<Byte>, i: nat, k: nat)
    requires i < |s| && i < k < i + GlyphLength(s, i)
    ensures EndsWith(Lossy(s, k), Lossy(s, k + 1))
  {
    InsideGlyph(s, i, k);
    EndsWithRest(s, k);
  }

  lemma {:induction false} Resync(s: seq<Byte>, i: nat, k: nat)
    requires i <= k <= |s|
    ensures EndsWith(Lossy(s, k), Lossy(s, NextBoundary(s, i, k)))
    decreases k - i
  {
    if i < k {
      if k <= i + GlyphLength(s, i) {
        FallsIntoStep(s, i, k);
      } else {
        Resync(s, i + GlyphLength(s, i), k);
      }
    }
  }

  lemma {:induction false} AtMostFourBytesEach(s: seq<Byte>, i: nat)
    requires i <= |s|
    ensures |s| - i <= 4 * |Lossy(s, i)|
    decreases |s| - i
  {
    if i < |s| {
      AtMostFourBytesEach(s, i + GlyphLength(s, i));
    }
  }

  lemma LastOfSuffix(a: seq<Glyph>, b: seq<Glyph>, n: nat)
    requires EndsWith(a, b) && n <= |b|
    ensures Last(a, n) == Last(b, n)
  {
  }

  /** The last `chars` characters of any byte stream can be read off its last `4 * chars` bytes. */
  lemma FourBytesSuffice(s: seq<Byte>, chars: nat)
    ensures Last(Lossy(Last(s, 4 * chars), 0), chars) == Last(Lossy(s, 0), chars)
  {
    if |s| > 4 * chars {
      LossyOfLast(s, 4 * chars);
      EnoughBehind(s, |s| - 4 * chars, chars);
    }
  }

  lemma LossyOfLast(s: seq<Byte>, n: nat)
    requires n < |s|
    ensures Lossy(Last(s, n), 0) == Lossy(s, |s| - n)
  {
    LossyOfSuffix(s, |s| - n, 0);
  }

  lemma EnoughBehind(s: seq<Byte>, k: nat, chars: nat)
    requires k <= |s| && 4 * chars <= |s| - k
    ensures Last(Lossy(s, k), chars) == Last(Lossy(s, 0), chars)
  {
    var e := NextBoundary(s, 0, k);
    PassesBoundary(s, 0, k);
    Resync(s, 0, k);
    AtMostFourBytesEach(s, e);
    LastOfSuffix(Lossy(s, 0), Lossy(s, e), chars);
    LastOfSuffix(Lossy(s, k), Lossy(s, e), chars);
  }

  // ---- the decoder decodes UTF-8 ----

  predicate IsScalar(cp: int) {
    0 <= cp < 0xD800 || 0xE000 <= cp < 0x11_0000
  }

  function Encode(cp: int): (bytes: seq<Byte>)
    requires IsScalar(cp)
    ensures 1 <= |bytes| <= 4
  {
    if cp < 0x80 then [cp]
    else if cp < 0x800 then [0xC0 + cp / 64, 0x80 + cp % 64]
    else if cp < 0x1_0000 then [0xE0 + cp / 4096, 0x80 + cp / 64 % 64, 0x80 + cp % 64]
    else [0xF0 + cp / 0x4_0000, 0x80 + cp / 4096 % 64, 0x80 + cp / 64 % 64, 0x80 + cp % 64]
  }

  function EncodeAll(text: seq<int>): seq<Byte>
    requires forall i :: 0 <= i < |text| ==> IsScalar(text[i])
  {
    if text == [] then [] else Encode(text[0]) + EncodeAll(text[1..])
  }

  lemma LeadWantsAll(cp: int)
    requires IsScalar(cp)
    ensures Wanted(Encode(cp)[0]) == |Encode(cp)|
  {
  }

  lemma SecondFits(cp: int)
    requires IsScalar(cp) && cp >= 0x80
    ensures Second(Encode(cp)[0], Encode(cp)[1])
  {
    if 0x800 <= cp < 0x1_0000 {
      assert cp / 4096 == cp / 64 / 64;
    } else if cp >= 0x1_0000 {
      assert cp / 0x4_0000 == cp / 4096 / 64;
    }
  }

  lemma FirstGlyphIsEncoded(cp: int, rest: seq<Byte>)
    requires IsScalar(cp)
    ensures GlyphLength(Encode(cp) + rest, 0) == |Encode(cp)|
    ensures GlyphAt(Encode(cp) + rest, 0) == Scalar(Encode(cp))
  {
    var e := Encode(cp);
    LeadWantsAll(cp);
    if cp >= 0x80 {
      SecondFits(cp);
    }
    assert (e + rest)[..|e|] == e;
    assert forall i :: 0 <= i < |e| ==> (e + rest)[i] == e[i];
  }

  /** Well-formed text decodes to its characters, each with its own bytes. */
  lemma {:induction false} TextDecodes(text: seq<int>)
    requires forall i :: 0 <= i < |text| ==> IsScalar(text[i])
    ensures var glyphs := Lossy(EncodeAll(text), 0);
            |glyphs| == |text| && forall i :: 0 <= i < |text| ==> glyphs[i] == Scalar(Encode(text[i]))
    decreases |text|
  {
    if text != [] {
      var e, rest := Encode(text[0]), EncodeAll(text[1..]);
      FirstGlyphIsEncoded(text[0], rest);
      assert (e + rest)[|e|..] == rest;
      LossyOfSuffix(e + rest, |e|, 0);
      TextDecodes(text[1..]);
      assert Lossy(e + rest, 0) == [Scalar(e)] + Lossy(rest, 0);
      forall i | 0 <= i < |text| ensures Lossy(e + rest, 0)[i] == Scalar(Encode(text[i])) {
        assert i > 0 ==> text[i] == text[1..][i - 1];
      }
    }
  }

  /** A byte that cannot begin a character is replaced by itself. */
  lemma StrayByteIsReplaced(s: seq<Byte>)
    requires s != [] && (0x80 <= s[0] < 0xC2 || s[0] >= 0xF5)
    ensures Lossy(s, 0) == [Replacement] + Lossy(s, 1)
  {
  }
}
