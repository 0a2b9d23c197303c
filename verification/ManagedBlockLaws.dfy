/** What the rewrite of `.bashrc` promises, on every input. */
module ManagedBlockLaws {
  import opened Basics
  import opened ManagedBlock

  function Shifted(offset: nat, found: Option<nat>): Option<nat> {
    match found
    case Some(i) => Some(offset + i)
    case None => None
  }

  // ---- positions ----

  lemma AtShift(p: string, s: string, i: nat, pat: string)
    ensures At(p + s, |p| + i, pat) <==> At(s, i, pat)
  {
    if i + |pat| <= |s| {
      forall k | 0 <= k < |pat| ensures (p + s)[|p| + i + k] == pat[k] <==> s[i + k] == pat[k] {
        assert (p + s)[|p| + (i + k)] == s[i + k];
      }
    }
  }

  lemma AtPrefix(s: string, t: string, i: nat, pat: string)
    requires i + |pat| <= |s|
    ensures At(s + t, i, pat) <==> At(s, i, pat)
  {
    forall k | 0 <= k < |pat| ensures (s + t)[i + k] == pat[k] <==> s[i + k] == pat[k] {
      assert (s + t)[i + k] == s[i + k];
    }
  }

  lemma AtCut(s: string, lo: nat, hi: nat, i: nat, pat: string)
    requires lo <= hi <= |s| && At(s[lo..hi], i, pat)
    ensures At(s, lo + i, pat) && lo + i + |pat| <= hi
  {
    forall k | 0 <= k < |pat| ensures s[lo + i + k] == pat[k] {
      assert s[lo..hi][i + k] == pat[k];
    }
  }

  /** `FindFrom` finds the first occurrence, or there is none. */
  lemma {:induction false} FindIsFirst(s: string, from: nat, pat: string, i: nat)
    requires from <= i && from <= |s| && At(s, i, pat)
    ensures FindFrom(s, from, pat).Some? && FindFrom(s, from, pat).value <= i
    decreases |s| - from
  {
    if !At(s, from, pat) {
      FindIsFirst(s, from + 1, pat, i);
    }
  }

  lemma NextIsFirst(m: Markers, s: string, cursor: nat, i: nat)
    requires Distinct(m) && cursor <= i && cursor <= |s| && MarkerAt(m, s, i)
    ensures NextMarker(m, s, cursor).Some? && NextMarker(m, s, cursor).value <= i
  {
    if At(s, i, m.start) {
      FindIsFirst(s, cursor, m.start, i);
    } else {
      FindIsFirst(s, cursor, m.end, i);
    }
  }

  lemma {:induction false} FindShift(p: string, s: string, from: nat, pat: string)
    requires from <= |s|
    ensures FindFrom(p + s, |p| + from, pat) == Shifted(|p|, FindFrom(s, from, pat))
    decreases |s| - from
  {
    AtShift(p, s, from, pat);
    if from < |s| && !At(s, from, pat) {
      FindShift(p, s, from + 1, pat);
    }
  }

  lemma {:induction false} BreakShift(p: string, s: string, i: nat)
    requires i <= |s|
    ensures AfterBreak(p + s, |p| + i) == |p| + AfterBreak(s, i)
    decreases |s| - i
  {
    if i < |s| && s[i] != '\n' {
      BreakShift(p, s, i + 1);
    }
  }

  lemma NextShift(m: Markers, p: string, s: string, cursor: nat)
    requires cursor <= |s| && Distinct(m)
    ensures NextMarker(m, p + s, |p| + cursor) == Shifted(|p|, NextMarker(m, s, cursor))
  {
    FindShift(p, s, cursor, m.start);
    FindShift(p, s, cursor, m.end);
  }

  lemma MarkShift(m: Markers, p: string, s: string, at: nat)
    requires Distinct(m) && MarkerAt(m, s, at)
    ensures MarkerAt(m, p + s, |p| + at) && SpanMark(m, p + s, |p| + at) == |p| + SpanMark(m, s, at)
  {
    AtShift(p, s, at, m.start);
    AtShift(p, s, at, m.end);
    FindShift(p, s, at, m.end);
  }

  lemma SpanShift(m: Markers, p: string, s: string, at: nat)
    requires Distinct(m) && MarkerAt(m, s, at)
    ensures MarkerAt(m, p + s, |p| + at) && SpanEnd(m, p + s, |p| + at) == |p| + SpanEnd(m, s, at)
  {
    MarkShift(m, p, s, at);
    BreakShift(p, s, SpanMark(m, s, at));
  }

  lemma CutShift(p: string, s: string, lo: nat, hi: nat)
    requires lo <= hi <= |s|
    ensures (p + s)[|p| + lo..|p| + hi] == s[lo..hi]
  {
  }

  /** Stripping looks only at what lies ahead. */
  lemma {:induction false} StripShift(m: Markers, p: string, s: string, cursor: nat)
    requires cursor <= |s| && Distinct(m)
    ensures Strip(m, p + s, |p| + cursor) == Strip(m, s, cursor)
    decreases |s| - cursor
  {
    match NextMarker(m, s, cursor) {
      case None =>
        NextShift(m, p, s, cursor);
        LastStrips(m, p, s, cursor);
      case Some(at) =>
        var next := SpanEnd(m, s, at);
        StripShift(m, p, s, next);
        StripStep(m, p, s, cursor, at, next);
    }
  }

  lemma StripStep(m: Markers, p: string, s: string, cursor: nat, at: nat, next: nat)
    requires Distinct(m) && cursor <= |s| && NextMarker(m, s, cursor) == Some(at)
    requires SpanEnd(m, s, at) == next && Strip(m, p + s, |p| + next) == Strip(m, s, next)
    ensures Strip(m, p + s, |p| + cursor) == Strip(m, s, cursor)
  {
    SpanMoves(m, p, s, cursor, at);
    StripsAlike(m, p + s, |p| + cursor, |p| + at, s, cursor, at);
  }

  lemma SpanMoves(m: Markers, p: string, s: string, cursor: nat, at: nat)
    requires Distinct(m) && cursor <= |s| && NextMarker(m, s, cursor) == Some(at)
    ensures NextMarker(m, p + s, |p| + cursor) == Some(|p| + at)
    ensures SpanEnd(m, p + s, |p| + at) == |p| + SpanEnd(m, s, at)
    ensures (p + s)[|p| + cursor..|p| + at] == s[cursor..at]
  {
    NextShift(m, p, s, cursor);
    SpanShift(m, p, s, at);
    CutShift(p, s, cursor, at);
  }

  lemma LastStrips(m: Markers, p: string, s: string, cursor: nat)
    requires cursor <= |s| && Distinct(m)
    requires NextMarker(m, s, cursor).None? && NextMarker(m, p + s, |p| + cursor).None?
    ensures Strip(m, p + s, |p| + cursor) == Strip(m, s, cursor)
  {
    assert (p + s)[|p| + cursor..] == s[cursor..];
  }

  lemma StripsAlike(m: Markers, s: string, i: nat, at: nat, s': string, i': nat, at': nat)
    requires Distinct(m) && i <= |s| && i' <= |s'|
    requires NextMarker(m, s, i) == Some(at) && NextMarker(m, s', i') == Some(at')
    requires s[i..at] == s'[i'..at'] && Strip(m, s, SpanEnd(m, s, at)) == Strip(m, s', SpanEnd(m, s', at'))
    ensures Strip(m, s, i) == Strip(m, s', i')
  {
  }

  // A stretch of the file in front of the next marker holds none.
  lemma CutClean(m: Markers, s: string, lo: nat, hi: nat)
    requires Distinct(m) && lo <= hi <= |s|
    requires match NextMarker(m, s, lo) case Some(at) => hi <= at case None => true
    ensures Clean(m, s[lo..hi])
  {
    forall i: nat ensures !MarkerAt(m, s[lo..hi], i) {
      if MarkerAt(m, s[lo..hi], i) {
        CutMarker(m, s, lo, hi, i);
        NextIsFirst(m, s, lo, lo + i);
      }
    }
  }

  lemma CutMarker(m: Markers, s: string, lo: nat, hi: nat, i: nat)
    requires Distinct(m) && lo <= hi <= |s| && MarkerAt(m, s[lo..hi], i)
    ensures MarkerAt(m, s, lo + i) && lo + i < hi
  {
    if At(s[lo..hi], i, m.start) {
      AtCut(s, lo, hi, i, m.start);
    } else {
      AtCut(s, lo, hi, i, m.end);
    }
  }

  lemma CleanHasNoNext(m: Markers, s: string)
    requires Distinct(m)
    ensures Clean(m, s) <==> NextMarker(m, s, 0).None?
  {
    if NextMarker(m, s, 0).None? {
      CutClean(m, s, 0, |s|);
      assert s[0..|s|] == s;
    }
  }

  lemma {:induction false} StripShrinks(m: Markers, s: string, cursor: nat)
    requires cursor <= |s| && Distinct(m)
    ensures |Strip(m, s, cursor)| <= |s| - cursor
    decreases |s| - cursor
  {
    if NextMarker(m, s, cursor).Some? {
      StripShrinks(m, s, SpanEnd(m, s, NextMarker(m, s, cursor).value));
    }
  }

  lemma StripClean(m: Markers, s: string)
    requires Distinct(m)
    ensures Clean(m, s) ==> Strip(m, s, 0) == s
    ensures !Clean(m, s) ==> |Strip(m, s, 0)| < |s|
  {
    CleanHasNoNext(m, s);
    match NextMarker(m, s, 0) {
      case None => assert s[0..] == s;
      case Some(at) => StripShrinks(m, s, SpanEnd(m, s, at));
    }
  }

  // ---- the shape of the output ----

  // What a marker looks like from its ends: `#` first, no line break last, no `#` inside.
  lemma MarkerChars(m: Markers, s: string, i: nat, k: nat)
    requires WellFormed(m) && MarkerAt(m, s, i) && k < |m.start|
    ensures i + |m.start| <= |s| && s[i] == '#'
    ensures s[i + k] != '\n' && (k > 0 ==> s[i + k] != '#')
  {
    var pat := if At(s, i, m.start) then m.start else m.end;
    assert At(s, i, pat) && s[i + 0] == pat[0] && s[i + k] == pat[k];
  }

  // So it ends before any later `#` and before any line break.
  lemma MarkerEndsBy(m: Markers, s: string, i: nat, cut: nat)
    requires WellFormed(m) && MarkerAt(m, s, i) && i < cut < |s| && s[cut] == '#'
    ensures i + |m.start| <= cut
  {
    if cut - i < |m.start| {
      MarkerChars(m, s, i, cut - i);
    }
  }

  lemma MarkerEndsByBreak(m: Markers, s: string, i: nat, cut: nat)
    requires WellFormed(m) && MarkerAt(m, s, i) && i <= cut < |s| && s[cut] == '\n'
    ensures i + |m.start| <= cut
  {
    if cut - i < |m.start| {
      MarkerChars(m, s, i, cut - i);
    }
  }

  lemma PrefixMarker(m: Markers, s: string, t: string, i: nat)
    requires Distinct(m) && i + |m.start| <= |s|
    ensures MarkerAt(m, s + t, i) <==> MarkerAt(m, s, i)
  {
    AtPrefix(s, t, i, m.start);
    AtPrefix(s, t, i, m.end);
  }

  // Behind the last line break there is no `#` that could begin a marker.
  ghost predicate NoOpenHash(a: string) {
    forall j :: 0 <= j < |a| && a[j] == '#' ==> exists k :: j < k < |a| && a[k] == '\n'
  }

  // Such a piece glues cleanly in front of a clean one.
  lemma CleanConcat(m: Markers, a: string, b: string)
    requires WellFormed(m) && Clean(m, a) && Clean(m, b) && NoOpenHash(a)
    ensures Clean(m, a + b)
  {
    forall i: nat ensures !MarkerAt(m, a + b, i) {
      if i < |a| {
        NoneAcross(m, a, b, i);
      } else {
        AtShift(a, b, i - |a|, m.start);
        AtShift(a, b, i - |a|, m.end);
        assert !MarkerAt(m, b, i - |a|);
      }
    }
  }

  lemma NoneAcross(m: Markers, a: string, b: string, i: nat)
    requires WellFormed(m) && Clean(m, a) && NoOpenHash(a) && i < |a|
    ensures !MarkerAt(m, a + b, i)
  {
    if MarkerAt(m, a + b, i) {
      MarkerChars(m, a + b, i, 0);
      assert a[i] == '#';
      var k :| i < k < |a| && a[k] == '\n';
      MarkerEndsByBreak(m, a + b, i, k);
      PrefixMarker(m, a, b, i);
    }
  }

  lemma BreaksKeepClean(m: Markers, t: string)
    requires WellFormed(m) && Clean(m, t)
    ensures Clean(m, t + "\n\n")
  {
    var s := t + "\n\n";
    forall i: nat ensures !MarkerAt(m, s, i) {
      if MarkerAt(m, s, i) {
        MarkerChars(m, s, i, 0);
        MarkerEndsByBreak(m, s, i, |t|);
        PrefixMarker(m, t, "\n\n", i);
      }
    }
  }

  lemma HeadClean(m: Markers, s: string)
    requires WellFormed(m)
    ensures Clean(m, Head(m, s))
  {
    match NextMarker(m, s, 0) {
      case Some(at) =>
        CutClean(m, s, 0, at);
        assert s[0..at] == s[..at];
      case None =>
        var t := TrimNewlines(s);
        CutClean(m, s, 0, |t|);
        assert s[0..|t|] == t;
        BreaksKeepClean(m, t);
    }
  }

  // The only `#` of the block open its two markers.
  lemma BlockHashes(m: Markers, k: nat)
    requires WellFormed(m) && k < |m.Block()|
    ensures m.Block()[k] == '#' <==> k == 0 || k == |m.start + m.body|
  {
    var b := m.Block();
    if k < |m.start| {
      assert b[k] == m.start[k];
    } else if k < |m.start + m.body| {
      assert b[k] == m.body[k - |m.start|];
    } else if k < |m.start + m.body + m.end| {
      assert b[k] == m.end[k - |m.start + m.body|];
    } else {
      assert b[k] == '\n';
    }
  }

  // The block carries its markers at its two ends, whatever surrounds it.
  lemma BlockMarkers(m: Markers, h: string, t: string)
    requires Distinct(m)
    ensures At(h + m.Block() + t, |h|, m.start)
    ensures At(h + m.Block() + t, |h + m.start + m.body|, m.end)
  {
    var y := h + m.Block() + t;
    assert forall k :: 0 <= k < |m.start| ==> y[|h| + k] == m.start[k];
    assert forall k :: 0 <= k < |m.end| ==> y[|h + m.start + m.body| + k] == m.end[k];
  }

  ghost function DiffersAt(a: string, b: string): (k: nat)
    requires |a| == |b| && a != b
    ensures k < |a| && a[k] != b[k]
  {
    if a[0] != b[0] then 0 else
      assert a == [a[0]] + a[1..] && b == [b[0]] + b[1..];
      1 + DiffersAt(a[1..], b[1..])
  }

  lemma SameMarker(m: Markers, s: string, i: nat)
    requires Distinct(m)
    ensures !(At(s, i, m.start) && At(s, i, m.end))
  {
    var k := DiffersAt(m.start, m.end);
    if At(s, i, m.start) {
      assert s[i + k] == m.start[k];
    }
  }

  // In head + block + tail, a marker before the tail is one of the block's own two.
  lemma MarkersBeforeTail(m: Markers, h: string, t: string, i: nat)
    requires WellFormed(m) && Clean(m, h) && i < |h + m.Block()|
    ensures At(h + m.Block() + t, i, m.start) <==> i == |h|
    ensures At(h + m.Block() + t, i, m.end) <==> i == |h + m.start + m.body|
  {
    var y := h + m.Block() + t;
    BlockMarkers(m, h, t);
    SameMarker(m, y, |h|);
    SameMarker(m, y, |h + m.start + m.body|);
    if i < |h| {
      NoneInHead(m, h, t, i);
    } else if MarkerAt(m, y, i) {
      MarkerChars(m, y, i, 0);
      assert y[i] == m.Block()[i - |h|];
      BlockHashes(m, i - |h|);
    }
  }

  lemma NoneInHead(m: Markers, h: string, t: string, i: nat)
    requires WellFormed(m) && Clean(m, h) && i < |h|
    ensures !MarkerAt(m, h + m.Block() + t, i)
  {
    var rest := m.Block() + t;
    assert h + m.Block() + t == h + rest;
    if MarkerAt(m, h + rest, i) {
      assert rest[0] == m.start[0];
      assert (h + rest)[|h|] == rest[0];
      MarkerEndsBy(m, h + rest, i, |h|);
      PrefixMarker(m, h, rest, i);
    }
  }

  lemma MarkersInTail(m: Markers, h: string, t: string, i: nat)
    ensures At(h + m.Block() + t, |h + m.Block()| + i, m.start) <==> At(t, i, m.start)
    ensures At(h + m.Block() + t, |h + m.Block()| + i, m.end) <==> At(t, i, m.end)
  {
    AtShift(h + m.Block(), t, i, m.start);
    AtShift(h + m.Block(), t, i, m.end);
  }

  lemma FramedNext(m: Markers, h: string, t: string)
    requires WellFormed(m) && Clean(m, h)
    ensures NextMarker(m, h + m.Block() + t, 0) == Some(|h|)
  {
    var y := h + m.Block() + t;
    BlockMarkers(m, h, t);
    NextIsFirst(m, y, 0, |h|);
    MarkersBeforeTail(m, h, t, NextMarker(m, y, 0).value);
  }

  lemma FramedSpan(m: Markers, h: string, t: string)
    requires WellFormed(m) && Clean(m, h)
    ensures var y := h + m.Block() + t; MarkerAt(m, y, |h|) && SpanEnd(m, y, |h|) == |h + m.Block()|
  {
    var y := h + m.Block() + t;
    FramedMark(m, h, t);
    assert y[|h + m.Block()| - 1] == m.Block()[|m.Block()| - 1] == '\n';
  }

  lemma FramedMark(m: Markers, h: string, t: string)
    requires WellFormed(m) && Clean(m, h)
    ensures var y := h + m.Block() + t; MarkerAt(m, y, |h|) && SpanMark(m, y, |h|) == |h + m.Block()| - 1
  {
    var y := h + m.Block() + t;
    BlockMarkers(m, h, t);
    FindIsFirst(y, |h|, m.end, |h + m.start + m.body|);
    MarkersBeforeTail(m, h, t, FindFrom(y, |h|, m.end).value);
  }

  /** Rewriting head + block + tail keeps head and block and strips the tail. */
  lemma RewriteFramed(m: Markers, h: string, t: string)
    requires WellFormed(m) && Clean(m, h)
    ensures Head(m, h + m.Block() + t) == h
    ensures Tail(m, h + m.Block() + t) == Strip(m, t, 0)
  {
    var hb := h + m.Block();
    var y := hb + t;
    FramedNext(m, h, t);
    FramedSpan(m, h, t);
    SplitAt(m, y, |h|);
    StripBehind(m, hb, t);
    assert y[..|h|] == h;
  }

  lemma StripBehind(m: Markers, p: string, s: string)
    requires Distinct(m)
    ensures Strip(m, p + s, |p|) == Strip(m, s, 0)
  {
    StripShift(m, p, s, 0);
  }

  lemma SplitAt(m: Markers, s: string, at: nat)
    requires Distinct(m) && NextMarker(m, s, 0) == Some(at)
    ensures Head(m, s) == s[..at] && Tail(m, s) == Strip(m, s, SpanEnd(m, s, at))
  {
  }

  // ---- the promises ----

  ghost predicate OnlyAt(s: string, pat: string, i: nat) {
    At(s, i, pat) && forall j: nat :: At(s, j, pat) ==> j == i
  }

  ghost predicate Once(s: string, pat: string) {
    exists i: nat :: OnlyAt(s, pat, i)
  }

  /** The output holds exactly one start and one end marker exactly when the kept tail holds none. */
  lemma OneBlockIff(m: Markers, s: string)
    requires WellFormed(m)
    ensures Once(Rewrite(m, s), m.start) && Once(Rewrite(m, s), m.end) <==> Clean(m, Tail(m, s))
  {
    HeadClean(m, s);
    var h, t := Head(m, s), Tail(m, s);
    FramedOnce(m, h, t);
    if Clean(m, t) {
      assert OnlyAt(Rewrite(m, s), m.start, |h|);
      assert OnlyAt(Rewrite(m, s), m.end, |h + m.start + m.body|);
    } else {
      var i: nat :| MarkerAt(m, t, i);
      MarkersInTail(m, h, t, i);
    }
  }

  lemma FramedOnce(m: Markers, h: string, t: string)
    requires WellFormed(m) && Clean(m, h)
    ensures var y := h + m.Block() + t;
            && At(y, |h|, m.start) && At(y, |h + m.start + m.body|, m.end)
            && (Clean(m, t) ==> OnlyAt(y, m.start, |h|) && OnlyAt(y, m.end, |h + m.start + m.body|))
  {
    var y := h + m.Block() + t;
    BlockMarkers(m, h, t);
    if Clean(m, t) {
      forall j: nat ensures (At(y, j, m.start) ==> j == |h|) && (At(y, j, m.end) ==> j == |h + m.start + m.body|) {
        FramedOnlyAt(m, h, t, j);
      }
    }
  }

  lemma FramedOnlyAt(m: Markers, h: string, t: string, j: nat)
    requires WellFormed(m) && Clean(m, h) && Clean(m, t)
    ensures At(h + m.Block() + t, j, m.start) ==> j == |h|
    ensures At(h + m.Block() + t, j, m.end) ==> j == |h + m.start + m.body|
  {
    if j < |h + m.Block()| {
      MarkersBeforeTail(m, h, t, j);
    } else {
      MarkersInTail(m, h, t, j - |h + m.Block()|);
      assert !MarkerAt(m, t, j - |h + m.Block()|);
    }
  }

  /** A second rewrite changes nothing exactly when the kept tail holds no marker. */
  lemma IdempotentIff(m: Markers, s: string)
    requires WellFormed(m)
    ensures Rewrite(m, Rewrite(m, s)) == Rewrite(m, s) <==> Clean(m, Tail(m, s))
  {
    HeadClean(m, s);
    var h, t := Head(m, s), Tail(m, s);
    RewriteFramed(m, h, t);
    StripClean(m, t);
    assert |Rewrite(m, Rewrite(m, s))| == |h| + |m.Block()| + |Strip(m, t, 0)|;
    assert |Rewrite(m, s)| == |h| + |m.Block()| + |t|;
  }

  /**
   Outside the managed spans not a character changes: taking the block out of the output,
   or stripping the output, gives the input without its managed spans.
  */
  lemma UserTextKept(m: Markers, s: string)
    requires WellFormed(m) && !Clean(m, s)
    ensures Head(m, s) + Tail(m, s) == Strip(m, s, 0)
    ensures Clean(m, Tail(m, s)) ==> Strip(m, Rewrite(m, s), 0) == Strip(m, s, 0)
  {
    HeadClean(m, s);
    CleanHasNoNext(m, s);
    var h, t, y := Head(m, s), Tail(m, s), Rewrite(m, s);
    var at := NextMarker(m, s, 0).value;
    assert s[0..at] == h;
    RewriteFramed(m, h, t);
    FramedNext(m, h, t);
    StripClean(m, t);
    assert y[0..|h|] == h;
  }

  // Every marker of the file begins a line.
  ghost predicate MarkersBeginLines(m: Markers, s: string) {
    forall i: nat :: MarkerAt(m, s, i) ==> i == 0 || s[i - 1] == '\n'
  }

  ghost predicate SameLine(s: string, i: nat, j: nat) {
    i <= j <= |s| && forall k :: i <= k < j ==> s[k] != '\n'
  }

  // The first marker of a line has no `#` in front of it on that line.
  ghost predicate NoHashBeforeMarkers(m: Markers, s: string) {
    forall i: nat, j: nat :: MarkerAt(m, s, i) && j < i && s[j] == '#' && SameLine(s, j, i) ==>
      exists k: nat :: k < i && MarkerAt(m, s, k) && SameLine(s, k, i)
  }

  lemma LineMarkersHaveNoHash(m: Markers, s: string)
    requires Distinct(m) && MarkersBeginLines(m, s)
    ensures NoHashBeforeMarkers(m, s)
  {
    forall i: nat, j: nat | MarkerAt(m, s, i) && j < i ensures !SameLine(s, j, i) {
      assert s[i - 1] == '\n';
    }
  }

  // What is kept in front of a span ends a line, or ends in a line without `#`.
  lemma KeptPieceIsPlain(m: Markers, s: string, cursor: nat, at: nat)
    requires cursor <= |s| && WellFormed(m) && NoHashBeforeMarkers(m, s)
    requires cursor == 0 || s[cursor - 1] == '\n'
    requires NextMarker(m, s, cursor) == Some(at)
    ensures NoOpenHash(s[cursor..at])
  {
    var piece := s[cursor..at];
    forall j | 0 <= j < |piece| && piece[j] == '#' ensures exists k :: j < k < |piece| && piece[k] == '\n' {
      if SameLine(s, cursor + j, at) {
        var k: nat :| k < at && MarkerAt(m, s, k) && SameLine(s, k, at);
        if k >= cursor {
          NextIsFirst(m, s, cursor, k);
        }
      } else {
        var k :| cursor + j <= k < at && s[k] == '\n';
        assert piece[k - cursor] == '\n' && k != cursor + j;
      }
    }
  }

  // Every stretch kept in front of a span, from `cursor` on, is such a piece.
  ghost predicate KeptStretchesPlain(m: Markers, s: string, cursor: nat)
    requires cursor <= |s| && Distinct(m)
    decreases |s| - cursor
  {
    match NextMarker(m, s, cursor)
    case None => true
    case Some(at) => NoOpenHash(s[cursor..at]) && KeptStretchesPlain(m, s, SpanEnd(m, s, at))
  }

  // Only the stretches between two spans matter: what stands in front of the first span, or
  // inside a span, is free.
  ghost predicate BetweenSpansPlain(m: Markers, s: string)
    requires Distinct(m)
  {
    match NextMarker(m, s, 0)
    case None => true
    case Some(at) => KeptStretchesPlain(m, s, SpanEnd(m, s, at))
  }

  lemma {:induction false} NoHashKeepsPlain(m: Markers, s: string, cursor: nat)
    requires cursor <= |s| && WellFormed(m) && NoHashBeforeMarkers(m, s)
    requires cursor == 0 || cursor == |s| || s[cursor - 1] == '\n'
    ensures KeptStretchesPlain(m, s, cursor)
    decreases |s| - cursor
  {
    match NextMarker(m, s, cursor) {
      case None =>
      case Some(at) =>
        KeptPieceIsPlain(m, s, cursor, at);
        NoHashKeepsPlain(m, s, SpanEnd(m, s, at));
    }
  }

  lemma {:induction false} StripOfPlainClean(m: Markers, s: string, cursor: nat)
    requires cursor <= |s| && WellFormed(m) && KeptStretchesPlain(m, s, cursor)
    ensures Clean(m, Strip(m, s, cursor))
    decreases |s| - cursor
  {
    match NextMarker(m, s, cursor) {
      case None =>
        CutClean(m, s, cursor, |s|);
        assert s[cursor..|s|] == s[cursor..];
      case Some(at) =>
        var next := SpanEnd(m, s, at);
        CutClean(m, s, cursor, at);
        StripOfPlainClean(m, s, next);
        CleanConcat(m, s[cursor..at], Strip(m, s, next));
    }
  }

  /**
   On every file in which no `#` stands open in a stretch kept between two managed spans -
   complete blocks, duplicates and orphans in any order, at the start of a line or behind other
   text - the rewrite leaves one block, is idempotent, and keeps the user's text.
  */
  lemma PlainLinesNormalise(m: Markers, s: string)
    requires WellFormed(m) && BetweenSpansPlain(m, s)
    ensures Once(Rewrite(m, s), m.start) && Once(Rewrite(m, s), m.end)
    ensures Rewrite(m, Rewrite(m, s)) == Rewrite(m, s)
    ensures !Clean(m, s) ==> Strip(m, Rewrite(m, s), 0) == Strip(m, s, 0)
  {
    match NextMarker(m, s, 0) {
      case None =>
        assert Clean(m, []);
      case Some(at) =>
        StripOfPlainClean(m, s, SpanEnd(m, s, at));
    }
    OneBlockIff(m, s);
    IdempotentIff(m, s);
    if !Clean(m, s) { UserTextKept(m, s); }
  }

  // So is every file in which no line has a `#` in front of its first marker.
  lemma NoHashMeansPlain(m: Markers, s: string)
    requires WellFormed(m) && NoHashBeforeMarkers(m, s)
    ensures BetweenSpansPlain(m, s)
  {
    if NextMarker(m, s, 0).Some? {
      NoHashKeepsPlain(m, s, SpanEnd(m, s, NextMarker(m, s, 0).value));
    }
  }

  /** In particular on every file whose markers begin lines. */
  lemma LineMarkersNormalise(m: Markers, s: string)
    requires WellFormed(m) && MarkersBeginLines(m, s)
    ensures Once(Rewrite(m, s), m.start) && Once(Rewrite(m, s), m.end)
    ensures Rewrite(m, Rewrite(m, s)) == Rewrite(m, s)
    ensures !Clean(m, s) ==> Strip(m, Rewrite(m, s), 0) == Strip(m, s, 0)
  {
    LineMarkersHaveNoHash(m, s);
    NoHashMeansPlain(m, s);
    PlainLinesNormalise(m, s);
  }

  /** The condition is needed: a block in mid-line can glue a new marker together. */
  lemma GluedMarker(m: Markers)
    requires WellFormed(m)
    ensures var s := [] + m.Block() + ("#" + m.Block() + m.start[1..]);
            !(Once(Rewrite(m, s), m.start) && Once(Rewrite(m, s), m.end)) && Rewrite(m, Rewrite(m, s)) != Rewrite(m, s)
  {
    var rest := m.start[1..];
    var inner := "#" + m.Block() + rest;
    var s := [] + m.Block() + inner;
    HashAlone(m);
    RewriteFramed(m, [], inner);
    FramedNext(m, "#", rest);
    RewriteFramed(m, "#", rest);
    StripClean(m, rest);
    assert inner[0..1] == "#";
    assert Tail(m, s) == "#" + rest == m.start;
    assert MarkerAt(m, m.start, 0);
    IdempotentIff(m, s);
    OneBlockIff(m, s);
  }

  lemma HashAlone(m: Markers)
    requires WellFormed(m)
    ensures Clean(m, []) && Clean(m, "#") && Clean(m, m.start[1..])
  {
    var k := DiffersAt(m.start, m.end);
    assert m.start[0] == m.end[0] && k > 0;
    var rest := m.start[1..];
    forall i: nat ensures !MarkerAt(m, rest, i) {
      if MarkerAt(m, rest, i) {
        MarkerChars(m, rest, i, 0);
      }
    }
  }

  // ---- the constants of the program ----

  const START_TEXT := " >>> RIGHT_AGENT managed env >>>"
  const END_TEXT := " <<< RIGHT_AGENT managed env <<<"
  const GUARD := "\nif [ -f /sandbox/.right/env.sh ]; then\n"
  const SOURCING := "  . /sandbox/.right/env.sh\nfi\n"
  const BODY := GUARD + SOURCING
  const RIGHT_AGENT: Markers := Markers("#" + START_TEXT, "#" + END_TEXT, BODY)

  lemma CommentLineOf(text: string)
    requires '#' !in text && '\n' !in text
    ensures CommentLine("#" + text)
  {
  }

  lemma StartIsComment()
    ensures CommentLine("#" + START_TEXT)
  {
    CommentLineOf(START_TEXT);
  }

  lemma EndIsComment()
    ensures CommentLine("#" + END_TEXT)
  {
    CommentLineOf(END_TEXT);
  }

  lemma BodyIsPlain()
    ensures forall i :: 0 <= i < |BODY| ==> BODY[i] != '#'
  {
    assert '#' !in GUARD;
    assert '#' !in SOURCING;
  }

  lemma MarkersDiffer()
    ensures Distinct(RIGHT_AGENT)
  {
    assert RIGHT_AGENT.start[2] == '>' && RIGHT_AGENT.end[2] == '<';
  }

  /** The shipped markers and block meet the assumptions made above. */
  lemma RightAgentWellFormed()
    ensures WellFormed(RIGHT_AGENT)
  {
    StartIsComment();
    EndIsComment();
    BodyIsPlain();
    MarkersDiffer();
  }
}
