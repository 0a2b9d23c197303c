/**
 The managed block of `.bashrc` (`ensure_bashrc_sources_managed_env`): whatever complete,
 duplicated or orphaned marker blocks a file holds, the rewrite leaves exactly one block.
*/
module ManagedBlock {
  import opened Basics

  // The two marker lines and the block that starts with one and ends with the other.
  datatype Markers = Markers(start: string, end: string, body: string) {
    function Block(): string { start + body + end + "\n" }
  }

  // A marker is one comment: `#` only in front, no line break.
  ghost predicate CommentLine(m: string) {
    && |m| > 0 && m[0] == '#'
    && forall i :: 0 < i < |m| ==> m[i] != '#' && m[i] != '\n'
  }

  // Two different markers of one length: all the cursor loop relies on.
  predicate Distinct(m: Markers) {
    0 < |m.start| == |m.end| && m.start != m.end
  }

  ghost predicate WellFormed(m: Markers) {
    && CommentLine(m.start) && CommentLine(m.end) && Distinct(m)
    && forall i :: 0 <= i < |m.body| ==> m.body[i] != '#'
  }

  predicate At(s: string, i: nat, pat: string) {
    i + |pat| <= |s| && forall k :: 0 <= k < |pat| ==> s[i + k] == pat[k]
  }

  predicate MarkerAt(m: Markers, s: string, i: nat) {
    At(s, i, m.start) || At(s, i, m.end)
  }

  ghost predicate Clean(m: Markers, s: string) {
    forall i: nat :: !MarkerAt(m, s, i)
  }

  /** `str::find`: the first position at or after `from`. */
  function FindFrom(s: string, from: nat, pat: string): (found: Option<nat>)
    requires from <= |s|
    ensures found.Some? ==> from <= found.value && At(s, found.value, pat)
    decreases |s| - from
  {
    if At(s, from, pat) then Some(from)
    else if from == |s| then None
    else FindFrom(s, from + 1, pat)
  }

  function EarliestMarker(start: Option<nat>, end: Option<nat>): Option<nat> {
    match (start, end)
    case (Some(s), Some(e)) => Some(Min(s, e))
    case (Some(s), None) => Some(s)
    case (None, Some(e)) => Some(e)
    case (None, None) => None
  }

  // The position just past the line that contains `index`.
  function AfterBreak(s: string, index: nat): (end: nat)
    requires index <= |s|
    ensures index <= end <= |s|
    ensures end == |s| || (end > index && s[end - 1] == '\n')
    decreases |s| - index
  {
    if index == |s| then index
    else if s[index] == '\n' then index + 1
    else AfterBreak(s, index + 1)
  }

  // The same position in the source's three cases.
  function LineEndAfter(s: string, index: nat): (end: nat)
    requires index <= |s|
    ensures end == AfterBreak(s, index)
  {
    LineEndCases(s, index);
    if At(s, index, "\r\n") then index + 2
    else if At(s, index, "\n") then index + 1
    else
      match FindFrom(s, index, "\n")
      case Some(lineEnd) => lineEnd + 1
      case None => |s|
  }

  lemma LineEndCases(s: string, index: nat)
    requires index <= |s|
    ensures At(s, index, "\r\n") ==> AfterBreak(s, index) == index + 2
    ensures match FindFrom(s, index, "\n")
            case Some(lineEnd) => AfterBreak(s, index) == lineEnd + 1
            case None => AfterBreak(s, index) == |s|
    decreases |s| - index
  {
    AtBreak(s, index);
    if At(s, index, "\r\n") {
      assert "\r\n"[0] == '\r' && "\r\n"[1] == '\n';
      assert s[index + 0] == '\r' && s[index + 1] == '\n';
    }
    if index < |s| && s[index] != '\n' {
      LineEndCases(s, index + 1);
    }
  }

  lemma AtBreak(s: string, i: nat)
    requires i <= |s|
    ensures At(s, i, "\n") <==> i < |s| && s[i] == '\n'
  {
    assert "\n"[0] == '\n';
    if At(s, i, "\n") {
      assert s[i + 0] == '\n';
    }
  }

  function NextMarker(m: Markers, s: string, cursor: nat): (found: Option<nat>)
    requires cursor <= |s| && Distinct(m)
    ensures found.Some? ==> cursor <= found.value < |s| && MarkerAt(m, s, found.value)
  {
    EarliestMarker(FindFrom(s, cursor, m.start), FindFrom(s, cursor, m.end))
  }

  // The end of the last marker of the managed span that begins at `at`: the matching end
  // marker, or the orphaned marker itself.
  function SpanMark(m: Markers, s: string, at: nat): (mark: nat)
    requires Distinct(m) && MarkerAt(m, s, at)
    ensures at < mark <= |s|
  {
    if At(s, at, m.start) then
      match FindFrom(s, at, m.end)
      case Some(e) => e + |m.end|
      case None => at + |m.start|
    else at + |m.end|
  }

  // The span covers that marker's whole line.
  function SpanEnd(m: Markers, s: string, at: nat): (end: nat)
    requires Distinct(m) && MarkerAt(m, s, at)
    ensures at < end <= |s|
  {
    AfterBreak(s, SpanMark(m, s, at))
  }

  /** The file without its managed spans, from `cursor` on. */
  function Strip(m: Markers, s: string, cursor: nat): string
    requires cursor <= |s| && Distinct(m)
    decreases |s| - cursor
  {
    match NextMarker(m, s, cursor)
    case None => s[cursor..]
    case Some(at) => s[cursor..at] + Strip(m, s, SpanEnd(m, s, at))
  }

  function TrimNewlines(s: string): (t: string)
    ensures t <= s
    ensures t == [] || t[|t| - 1] != '\n'
  {
    if s != [] && s[|s| - 1] == '\n' then TrimNewlines(s[..|s| - 1]) else s
  }

  // What ends up in front of the block, and behind it.
  function Head(m: Markers, s: string): string
    requires Distinct(m)
  {
    match NextMarker(m, s, 0)
    case Some(at) => s[..at]
    case None => var t := TrimNewlines(s); if t == [] then [] else t + "\n\n"
  }

  function Tail(m: Markers, s: string): string
    requires Distinct(m)
  {
    match NextMarker(m, s, 0)
    case Some(at) => Strip(m, s, SpanEnd(m, s, at))
    case None => []
  }

  function Rewrite(m: Markers, s: string): string
    requires Distinct(m)
  {
    Head(m, s) + m.Block() + Tail(m, s)
  }

  method SkipSpan(m: Markers, existing: string, at: nat, isStart: bool) returns (cursor: nat)
    requires Distinct(m) && MarkerAt(m, existing, at) && (isStart <==> At(existing, at, m.start))
    ensures cursor == SpanEnd(m, existing, at)
  {
    if isStart {
      var end := FindFrom(existing, at, m.end);
      if end.Some? {
        cursor := LineEndAfter(existing, end.value + |m.end|);
      } else {
        cursor := LineEndAfter(existing, at + |m.start|);
      }
    } else {
      cursor := LineEndAfter(existing, at + |m.end|);
    }
  }

  method EnsureSourcesManagedEnv(m: Markers, existing: string) returns (out: string)
    requires Distinct(m)
    ensures out == Rewrite(m, existing)
  {
    out := [];
    var cursor, inserted, removedAny := 0, false, false;
    while true
      invariant cursor <= |existing| && inserted == removedAny
      invariant !inserted ==> cursor == 0 && out == []
      invariant inserted ==> out + Strip(m, existing, cursor) == Rewrite(m, existing)
      invariant inserted ==> NextMarker(m, existing, 0).Some?
      decreases |existing| - cursor
    {
      var nextStart := FindFrom(existing, cursor, m.start);
      var nextEnd := FindFrom(existing, cursor, m.end);
      var earliest := EarliestMarker(nextStart, nextEnd);
      assert earliest == NextMarker(m, existing, cursor);
      if earliest.None? {
        break;
      }
      var at := earliest.value;
      ghost var before := out;
      out := out + existing[cursor..at];
      if !inserted {
        out := out + m.Block();
      }
      var next := SkipSpan(m, existing, at, Some(at) == nextStart);
      if inserted {
        LaterSpan(m, existing, cursor, at, before);
      } else {
        FirstSpan(m, existing, at);
      }
      inserted := true;
      removedAny := true;
      cursor := next;
    }
    if removedAny {
      out := out + existing[cursor..];
      return;
    }
    out := TrimNewlines(existing);
    if out != [] {
      out := out + "\n\n";
    }
    out := out + m.Block();
    assert out + [] == out;
  }

  // One turn of the cursor loop, after the block is in.
  lemma LaterSpan(m: Markers, s: string, cursor: nat, at: nat, out: string)
    requires cursor <= |s| && Distinct(m) && NextMarker(m, s, cursor) == Some(at)
    ensures (out + s[cursor..at]) + Strip(m, s, SpanEnd(m, s, at)) == out + Strip(m, s, cursor)
  {
    Assoc(out, s[cursor..at], Strip(m, s, SpanEnd(m, s, at)));
  }

  // The turn that puts the block in.
  lemma FirstSpan(m: Markers, s: string, at: nat)
    requires Distinct(m) && NextMarker(m, s, 0) == Some(at)
    ensures (([] + s[0..at]) + m.Block()) + Strip(m, s, SpanEnd(m, s, at)) == Rewrite(m, s)
  {
    assert [] + s[0..at] == Head(m, s);
  }
}
