/**
 What the rewrite of `.bashrc` is, in terms of the text alone: where markers stand, where lines
 end, and which characters are kept.
*/
module ManagedBlockForm {
  import opened Basics
  import opened ManagedBlock
  import opened ManagedBlockLaws

  // ---- a file without markers ----

  lemma {:induction false} OnlyNewlinesTrimmed(s: string)
    ensures forall i :: |TrimNewlines(s)| <= i < |s| ==> s[i] == '\n'
    decreases |s|
  {
    if s != [] && s[|s| - 1] == '\n' {
      OnlyNewlinesTrimmed(s[..|s| - 1]);
    }
  }

  // `t` is `s` without the newlines at its end.
  predicate IsTrimmed(s: string, t: string) {
    && t <= s && (t == [] || t[|t| - 1] != '\n')
    && forall i :: |t| <= i < |s| ==> s[i] == '\n'
  }

  /**
   A file without markers keeps its text, but for newlines at its end; the block follows after
   one empty line, or stands alone when there is no text.
  */
  lemma BlockIsAppended(m: Markers, s: string)
    requires Distinct(m) && Clean(m, s)
    ensures exists t :: IsTrimmed(s, t) &&
              Rewrite(m, s) == t + (if t == [] then "" else "\n\n") + (m.start + m.body + m.end + "\n")
  {
    CleanHasNoNext(m, s);
    OnlyNewlinesTrimmed(s);
    var t := TrimNewlines(s);
    assert IsTrimmed(s, t);
    assert Rewrite(m, s) == Head(m, s) + m.Block() + [] == Head(m, s) + m.Block();
  }

  // ---- managed spans ----

  ghost predicate FirstAt(s: string, from: nat, pat: string, k: nat) {
    from <= k && At(s, k, pat) && forall j: nat :: from <= j < k ==> !At(s, j, pat)
  }

  ghost predicate NoneFrom(s: string, from: nat, pat: string) {
    forall j: nat :: from <= j ==> !At(s, j, pat)
  }

  // `e` is just past the first line break at or behind `q`, or the end.
  predicate LineEndsAt(s: string, q: nat, e: nat) {
    && q <= e <= |s|
    && (forall k :: q <= k < e - 1 ==> s[k] != '\n')
    && (e == |s| || (q < e && s[e - 1] == '\n'))
  }

  /**
   The managed span at a marker. A start marker with an end marker somewhere behind it: from the
   one through the line of the other. A start marker without one, or an end marker met first: the
   line it is on, from the marker on.
  */
  ghost predicate ManagedSpan(m: Markers, s: string, at: nat, e: nat) {
    if At(s, at, m.start) then
      || (exists k: nat :: FirstAt(s, at, m.end, k) && LineEndsAt(s, k + |m.end|, e))
      || (NoneFrom(s, at, m.end) && LineEndsAt(s, at + |m.start|, e))
    else
      At(s, at, m.end) && LineEndsAt(s, at + |m.end|, e)
  }

  lemma {:induction false} AfterBreakIsLineEnd(s: string, q: nat, e: nat)
    requires q <= |s|
    ensures LineEndsAt(s, q, e) <==> e == AfterBreak(s, q)
    decreases |s| - q
  {
    if q < |s| && s[q] != '\n' {
      AfterBreakIsLineEnd(s, q + 1, e);
    }
  }

  lemma FoundIsFirst(s: string, from: nat, pat: string, k: nat)
    requires from <= |s|
    ensures FirstAt(s, from, pat, k) <==> FindFrom(s, from, pat) == Some(k)
    ensures NoneFrom(s, from, pat) <==> FindFrom(s, from, pat).None?
  {
    if FindFrom(s, from, pat).Some? {
      var found := FindFrom(s, from, pat).value;
      forall j: nat | from <= j < found ensures !At(s, j, pat) {
        if At(s, j, pat) {
          FindIsFirst(s, from, pat, j);
        }
      }
    } else {
      forall j: nat | from <= j ensures !At(s, j, pat) {
        if At(s, j, pat) {
          FindIsFirst(s, from, pat, j);
        }
      }
    }
    if FirstAt(s, from, pat, k) {
      FindIsFirst(s, from, pat, k);
    }
  }

  lemma SpanIsManaged(m: Markers, s: string, at: nat, e: nat)
    requires Distinct(m) && MarkerAt(m, s, at)
    ensures ManagedSpan(m, s, at, e) <==> e == SpanEnd(m, s, at)
  {
    AfterBreakIsLineEnd(s, SpanMark(m, s, at), e);
    if At(s, at, m.start) {
      match FindFrom(s, at, m.end)
      case Some(k) =>
        FoundIsFirst(s, at, m.end, k);
        forall j: nat | FirstAt(s, at, m.end, j) ensures j == k {
          FoundIsFirst(s, at, m.end, j);
        }
      case None =>
        forall j: nat ensures !FirstAt(s, at, m.end, j) {
          FoundIsFirst(s, at, m.end, j);
        }
        FoundIsFirst(s, at, m.end, 0);
    }
  }

  // ---- what is kept ----

  ghost predicate FirstMarker(m: Markers, s: string, from: nat, at: nat) {
    from <= at && MarkerAt(m, s, at) && forall j: nat :: from <= j < at ==> !MarkerAt(m, s, j)
  }

  ghost predicate NoMarkerFrom(m: Markers, s: string, from: nat) {
    forall j: nat :: from <= j ==> !MarkerAt(m, s, j)
  }

  lemma NextIsFirstMarker(m: Markers, s: string, from: nat, at: nat)
    requires Distinct(m) && from <= |s|
    ensures FirstMarker(m, s, from, at) ==> NextMarker(m, s, from) == Some(at)
    ensures NoMarkerFrom(m, s, from) ==> NextMarker(m, s, from).None?
  {
    if FirstMarker(m, s, from, at) {
      NextIsFirst(m, s, from, at);
    }
  }

  /**
   Stripping from a position on: everything, or what stands before the first marker and what is
   kept behind its span.
  */
  lemma StripLaw(m: Markers, s: string, from: nat, at: nat, e: nat)
    requires Distinct(m) && from <= |s|
    ensures NoMarkerFrom(m, s, from) ==> Strip(m, s, from) == s[from..]
    ensures FirstMarker(m, s, from, at) && ManagedSpan(m, s, at, e) ==>
            at <= e <= |s| && Strip(m, s, from) == s[from..at] + Strip(m, s, e)
  {
    NextIsFirstMarker(m, s, from, at);
    if FirstMarker(m, s, from, at) {
      SpanIsManaged(m, s, at, e);
    }
  }

  /** A file with markers: the text before the first, the block in place of its span, and what is kept behind it. */
  lemma BlockReplacesFirstSpan(m: Markers, s: string, at: nat, e: nat)
    requires Distinct(m) && FirstMarker(m, s, 0, at) && ManagedSpan(m, s, at, e)
    ensures at <= e <= |s|
    ensures Rewrite(m, s) == s[..at] + (m.start + m.body + m.end + "\n") + Strip(m, s, e)
  {
    NextIsFirstMarker(m, s, 0, at);
    SpanIsManaged(m, s, at, e);
  }
}
