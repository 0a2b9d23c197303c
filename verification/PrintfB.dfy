/**
 The argument of the guest's `printf '%b'` (`shell_printf_b_arg`): four sequential replaces,
 which the `%b` conversion of the POSIX `printf` utility must undo.
*/
module PrintfB {
  import opened Basics

  // `str::replace` with a one-character pattern.
  function Replace(s: string, c: char, with: string): string {
    if s == [] then [] else (if s[0] == c then with else [s[0]]) + Replace(s[1..], c, with)
  }

  function Escaped(content: string): string {
    Replace(Replace(Replace(Replace(content, '\\', "\\\\"), '\n', "\\n"), '\r', "\\r"), '\t', "\\t")
  }

  // What one character ends up as.
  function EscapedChar(c: char): string {
    if c == '\\' then "\\\\"
    else if c == '\n' then "\\n"
    else if c == '\r' then "\\r"
    else if c == '\t' then "\\t"
    else [c]
  }

  function CharByChar(s: string): string {
    if s == [] then [] else EscapedChar(s[0]) + CharByChar(s[1..])
  }

  function IsOctal(c: char): bool { '0' <= c <= '7' }

  // At most three octal digits from the front of `s`.
  function OctalDigits(s: string, most: nat): (n: nat)
    ensures n <= most && n <= |s|
  {
    if most == 0 || s == [] || !IsOctal(s[0]) then 0 else 1 + OctalDigits(s[1..], most - 1)
  }

  function OctalValue(digits: string): nat
    requires forall i :: 0 <= i < |digits| ==> IsOctal(digits[i])
  {
    if digits == [] then 0
    else
      var last := digits[|digits| - 1];
      assert IsOctal(last);
      OctalValue(digits[..|digits| - 1]) * 8 + (last as nat - '0' as nat)
  }

  lemma {:induction false} OctalDigitsAreOctal(s: string, most: nat)
    ensures forall i :: 0 <= i < OctalDigits(s, most) ==> IsOctal(s[i])
  {
    if most > 0 && s != [] && IsOctal(s[0]) {
      OctalDigitsAreOctal(s[1..], most - 1);
      forall i | 0 < i < OctalDigits(s, most) ensures IsOctal(s[i]) {
        assert s[i] == s[1..][i - 1];
      }
    }
  }

  // The one-letter escapes of `%b` that stand for a character.
  function Letter(c: char): Option<char> {
    match c
    case '\\' => Some('\\')
    case 'a' => Some(7 as char)
    case 'b' => Some(8 as char)
    case 'f' => Some(12 as char)
    case 'n' => Some('\n')
    case 'r' => Some('\r')
    case 't' => Some('\t')
    case 'v' => Some(11 as char)
    case _ => None
  }

  function Prefixed(p: string, rest: Option<string>): Option<string> {
    match rest
    case Some(r) => Some(p + r)
    case None => None
  }

  // The `%b` conversion; None where POSIX leaves the escape unspecified.
  function DecodeB(s: string): (out: Option<string>)
    decreases |s|
  {
    if s == [] then Some([])
    else if s[0] != '\\' then Prefixed([s[0]], DecodeB(s[1..]))
    else if |s| == 1 then None
    else if s[1] == 'c' then Some([])
    else if s[1] == '0' then
      var n := OctalDigits(s[2..], 3);
      OctalDigitsAreOctal(s[2..], 3);
      Prefixed([(OctalValue(s[2..2 + n]) % 256) as char], DecodeB(s[2 + n..]))
    else match Letter(s[1])
      case Some(c) => Prefixed([c], DecodeB(s[2..]))
      case None => None
  }

  // ---- four passes are one map ----

  lemma {:induction false} ReplaceConcat(a: string, b: string, c: char, r: string)
    ensures Replace(a + b, c, r) == Replace(a, c, r) + Replace(b, c, r)
    decreases |a|
  {
    if a == [] {
      assert a + b == b;
    } else {
      ReplaceConcat(a[1..], b, c, r);
      assert (a + b)[1..] == a[1..] + b;
      Assoc(if a[0] == c then r else [a[0]], Replace(a[1..], c, r), Replace(b, c, r));
    }
  }

  lemma EscapedConcat(a: string, b: string)
    ensures Escaped(a + b) == Escaped(a) + Escaped(b)
  {
    ReplaceConcat(a, b, '\\', "\\\\");
    var a1, b1 := Replace(a, '\\', "\\\\"), Replace(b, '\\', "\\\\");
    ReplaceConcat(a1, b1, '\n', "\\n");
    var a2, b2 := Replace(a1, '\n', "\\n"), Replace(b1, '\n', "\\n");
    ReplaceConcat(a2, b2, '\r', "\\r");
    var a3, b3 := Replace(a2, '\r', "\\r"), Replace(b2, '\r', "\\r");
    ReplaceConcat(a3, b3, '\t', "\\t");
  }

  lemma ReplaceOne(x: char, c: char, r: string)
    ensures Replace([x], c, r) == if x == c then r else [x]
  {
    assert [x][1..] == [];
  }

  lemma ReplaceTwo(x: char, y: char, c: char, r: string)
    requires x != c && y != c
    ensures Replace([x, y], c, r) == [x, y]
  {
    assert [x, y][1..] == [y];
    ReplaceOne(y, c, r);
  }

  lemma EscapedOne(x: char)
    ensures Escaped([x]) == EscapedChar(x)
  {
    ReplaceOne(x, '\\', "\\\\");
    ReplaceOne(x, '\n', "\\n");
    ReplaceOne(x, '\r', "\\r");
    ReplaceOne(x, '\t', "\\t");
    if x == '\\' {
      ReplaceTwo('\\', '\\', '\n', "\\n");
    }
    if x == '\\' || x == '\n' {
      var y := if x == '\\' then '\\' else 'n';
      ReplaceTwo('\\', y, '\r', "\\r");
    }
    if x == '\\' || x == '\n' || x == '\r' {
      var y := if x == '\\' then '\\' else if x == '\n' then 'n' else 'r';
      ReplaceTwo('\\', y, '\t', "\\t");
    }
  }

  /** Four passes over the text are one pass: no pass touches what an earlier one wrote. */
  lemma {:induction false} PassesAreOneMap(content: string)
    ensures Escaped(content) == CharByChar(content)
    decreases |content|
  {
    if content != [] {
      assert content == [content[0]] + content[1..];
      EscapedConcat([content[0]], content[1..]);
      EscapedOne(content[0]);
      PassesAreOneMap(content[1..]);
    }
  }

  // ---- the round trip ----

  lemma DecodeChar(c: char, rest: string)
    ensures DecodeB(EscapedChar(c) + rest) == Prefixed([c], DecodeB(rest))
  {
    var s := EscapedChar(c) + rest;
    if |EscapedChar(c)| == 1 {
      assert s[1..] == rest;
    } else {
      assert s[2..] == rest;
    }
  }

  lemma {:induction false} DecodeCharByChar(s: string)
    ensures DecodeB(CharByChar(s)) == Some(s)
    decreases |s|
  {
    if s != [] {
      DecodeChar(s[0], CharByChar(s[1..]));
      DecodeCharByChar(s[1..]);
      assert [s[0]] + s[1..] == s;
    }
  }

  /** For every text, `%b` gives back the text; no escape it meets is unspecified. */
  lemma RoundTrip(content: string)
    ensures DecodeB(Escaped(content)) == Some(content)
  {
    PassesAreOneMap(content);
    DecodeCharByChar(content);
  }

  lemma {:induction false} MapIsOneLine(s: string)
    ensures forall c :: c in CharByChar(s) ==> c != '\n' && c != '\r' && c != '\t'
    decreases |s|
  {
    if s != [] {
      MapIsOneLine(s[1..]);
    }
  }

  /** The argument is one line: no character is left that the shell line could break at. */
  lemma EscapedIsOneLine(content: string)
    ensures forall c :: c in Escaped(content) ==> c != '\n' && c != '\r' && c != '\t'
  {
    PassesAreOneMap(content);
    MapIsOneLine(content);
  }

  // The passes with the backslash last.
  function BackslashLast(content: string): string {
    Replace(Replace(content, '\n', "\\n"), '\\', "\\\\")
  }

  lemma {:induction false} DoubledDecodes(s: string)
    ensures DecodeB(Replace(s, '\\', "\\\\")) == Some(s)
    decreases |s|
  {
    if s != [] {
      var rest := Replace(s[1..], '\\', "\\\\");
      DoubledDecodes(s[1..]);
      assert [s[0]] + s[1..] == s;
      if s[0] == '\\' {
        assert ("\\\\" + rest)[2..] == rest;
      } else {
        assert ([s[0]] + rest)[1..] == rest;
      }
    }
  }

  lemma {:induction false} ReplacedIsGone(s: string, c: char, with: string)
    requires c !in with
    ensures c !in Replace(s, c, with)
    ensures c !in s ==> Replace(s, c, with) == s
    decreases |s|
  {
    if s != [] {
      ReplacedIsGone(s[1..], c, with);
    }
  }

  /** The backslash pass has to come first: last, it spoils exactly the texts with a newline. */
  lemma OrderMatters(s: string)
    ensures DecodeB(BackslashLast(s)) == Some(s) <==> '\n' !in s
  {
    DoubledDecodes(Replace(s, '\n', "\\n"));
    ReplacedIsGone(s, '\n', "\\n");
  }
}
