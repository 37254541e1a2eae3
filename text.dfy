/** The Python `str` operations the core relies on: `strip`, `splitlines`,
    `lower`, `startswith`, `in` (substring), `join`, comparison, `str(int)` and
    `int(str)`. */
module Text {
  import opened Wrappers

  /** `str.isspace()`: the characters `str.strip()` removes. */
  predicate IsSpace(c: char) {
    c == ' ' || ('\t' <= c <= '\r') || ('\U{1c}' <= c <= '\U{1f}')
    || c == '\U{85}' || c == '\U{a0}' || c == '\U{1680}' || ('\U{2000}' <= c <= '\U{200a}')
    || c == '\U{2028}' || c == '\U{2029}' || c == '\U{202f}' || c == '\U{205f}' || c == '\U{3000}'
  }

  /** `str.lstrip()` */
  function TrimStart(s: string): (r: string)
    ensures |r| <= |s| && r == s[|s| - |r|..]
    ensures r == [] || !IsSpace(r[0])
  {
    if s != [] && IsSpace(s[0]) then TrimStart(s[1..]) else s
  }

  /** `str.rstrip()` */
  function TrimEnd(s: string): (r: string)
    ensures |r| <= |s| && r == s[..|r|]
    ensures r == [] || !IsSpace(r[|r| - 1])
  {
    if s != [] && IsSpace(s[|s| - 1]) then TrimEnd(s[..|s| - 1]) else s
  }

  /** `str.strip()` */
  function Strip(s: string): (r: string)
    ensures |r| <= |s|
    ensures r == [] || (!IsSpace(r[0]) && !IsSpace(r[|r| - 1]))
  {
    TrimEnd(TrimStart(s))
  }

  /** `lstrip` removes whitespace only. */
  lemma {:induction false} TrimStartRemovesSpace(s: string)
    ensures forall i :: 0 <= i < |s| - |TrimStart(s)| ==> IsSpace(s[i])
  {
    if s != [] && IsSpace(s[0]) {
      TrimStartRemovesSpace(s[1..]);
    }
  }

  /** `rstrip` removes whitespace only. */
  lemma {:induction false} TrimEndRemovesSpace(s: string)
    ensures forall i :: |TrimEnd(s)| <= i < |s| ==> IsSpace(s[i])
  {
    if s != [] && IsSpace(s[|s| - 1]) {
      TrimEndRemovesSpace(s[..|s| - 1]);
    }
  }

  /** Only a string of whitespace strips to nothing. */
  lemma StripEmpty(s: string)
    ensures Strip(s) == [] <==> forall i :: 0 <= i < |s| ==> IsSpace(s[i])
  {
    TrimStartRemovesSpace(s);
    TrimEndRemovesSpace(TrimStart(s));
  }

  lemma StripKeeps(s: string)
    requires s == [] || (!IsSpace(s[0]) && !IsSpace(s[|s| - 1]))
    ensures Strip(s) == s
  {
  }

  /** The line boundaries of `str.splitlines()`. */
  predicate IsLineBreak(c: char) {
    c == '\n' || c == '\r' || c == '\U{b}' || c == '\U{c}' || ('\U{1c}' <= c <= '\U{1e}')
    || c == '\U{85}' || c == '\U{2028}' || c == '\U{2029}'
  }

  predicate NoLineBreak(s: string) {
    forall i :: 0 <= i < |s| ==> !IsLineBreak(s[i])
  }

  /** Index of the first line boundary in `s`, or `|s|` when there is none. */
  function FirstBreak(s: string): (i: nat)
    ensures i <= |s|
    ensures i < |s| ==> IsLineBreak(s[i])
    ensures NoLineBreak(s[..i])
  {
    if s == [] then 0
    else if IsLineBreak(s[0]) then 0
    else
      var k := FirstBreak(s[1..]);
      assert s[..k + 1] == [s[0]] + s[1..][..k];
      k + 1
  }

  /** `str.splitlines()`: split at every boundary (`\r\n` counts as one); a
      boundary at the very end does not open another line. */
  function SplitLines(s: string): (lines: seq<string>)
    ensures forall k :: 0 <= k < |lines| ==> NoLineBreak(lines[k])
    ensures s == [] <==> lines == []
    decreases |s|
  {
    if s == [] then []
    else
      var i := FirstBreak(s);
      if i == |s| then [s]
      else
        var next := if s[i] == '\r' && i + 1 < |s| && s[i + 1] == '\n' then i + 2 else i + 1;
        [s[..i]] + SplitLines(s[next..])
  }

  /** `sep.join(parts)` */
  function Join(sep: string, parts: seq<string>): string {
    if parts == [] then ""
    else if |parts| == 1 then parts[0]
    else parts[0] + sep + Join(sep, parts[1..])
  }

  /** Splitting lines that were joined with "\n" gives the lines back, as long as
      no line is empty or holds a line boundary. */
  lemma {:induction false} SplitJoinedLines(parts: seq<string>)
    requires forall k :: 0 <= k < |parts| ==> parts[k] != [] && NoLineBreak(parts[k])
    ensures SplitLines(Join("\n", parts)) == parts
  {
    if parts == [] {
    } else if |parts| == 1 {
      FirstBreakNone(parts[0]);
    } else {
      var s := Join("\n", parts);
      var p := parts[0];
      assert s == p + ("\n" + Join("\n", parts[1..]));
      FirstBreakAt(p, "\n" + Join("\n", parts[1..]));
      assert FirstBreak(s) == |p|;
      var rest := Join("\n", parts[1..]);
      SplitJoinedLines(parts[1..]);
      JoinNonEmpty(parts[1..]);
      if |rest| > 0 && rest[0] == '\n' {
        assert IsLineBreak(rest[0]);
        JoinHead(parts[1..]);
        assert false;
      }
      assert s[|p| + 1..] == rest;
      assert s[..|p|] == p;
    }
  }

  /** The same with a line boundary after the last line: it closes that line
      and opens no other. */
  lemma {:induction false} SplitTerminatedLines(parts: seq<string>)
    requires parts != []
    requires forall k :: 0 <= k < |parts| ==> parts[k] != [] && NoLineBreak(parts[k])
    ensures SplitLines(Join("\n", parts) + "\n") == parts
  {
    var p := parts[0];
    if |parts| == 1 {
      var s := p + "\n";
      assert Join("\n", parts) == p;
      FirstBreakAt(p, "\n");
      assert FirstBreak(s) == |p| && s[|p|] == '\n';
      assert s[|p| + 1..] == [];
      assert s[..|p|] == p;
    } else {
      var rest := Join("\n", parts[1..]) + "\n";
      var s := Join("\n", parts) + "\n";
      assert Join("\n", parts) == p + "\n" + Join("\n", parts[1..]);
      assert s == p + ("\n" + rest);
      FirstBreakAt(p, "\n" + rest);
      assert FirstBreak(s) == |p| && s[|p|] == '\n';
      SplitTerminatedLines(parts[1..]);
      assert s[|p| + 1..] == rest;
      assert s[..|p|] == p;
    }
  }

  lemma FirstBreakNone(s: string)
    requires NoLineBreak(s)
    ensures FirstBreak(s) == |s|
  {
    if s != [] {
      FirstBreakNone(s[1..]);
    }
  }

  lemma {:induction false} FirstBreakAt(p: string, rest: string)
    requires NoLineBreak(p) && rest != [] && IsLineBreak(rest[0])
    ensures FirstBreak(p + rest) == |p|
  {
    if p != [] {
      assert (p + rest)[1..] == p[1..] + rest;
      FirstBreakAt(p[1..], rest);
    } else {
      assert p + rest == rest;
    }
  }

  lemma {:induction false} JoinNonEmpty(parts: seq<string>)
    requires parts != [] && parts[0] != []
    ensures Join("\n", parts) != []
  {
  }

  lemma {:induction false} JoinHead(parts: seq<string>)
    requires parts != [] && parts[0] != []
    ensures Join("\n", parts)[0] == parts[0][0]
  {
  }

  /** ASCII case folding (SQLite's LIKE folds ASCII letters only). */
  function LowerChar(c: char): char {
    if 'A' <= c <= 'Z' then (c as int + 32) as char else c
  }

  function Lower(s: string): (r: string)
    ensures |r| == |s| && forall i :: 0 <= i < |s| ==> r[i] == LowerChar(s[i])
  {
    seq(|s|, i requires 0 <= i < |s| => LowerChar(s[i]))
  }

  /** Folding the case of text that stripping leaves alone. */
  lemma {:induction false} LowerOfStripped(s: string)
    requires s == [] || (!IsSpace(s[0]) && !IsSpace(s[|s| - 1]))
    ensures Lower(Strip(s)) == Lower(s)
  {
    StripKeeps(s);
  }

  /** Digits have no case: folding digits followed by one character folds
      that character only. */
  lemma {:induction false} LowerDigitsThen(d: string, c: char)
    requires forall i :: 0 <= i < |d| ==> IsDigit(d[i])
    ensures Lower(d + [c]) == d + [LowerChar(c)]
  {
    var l := Lower(d + [c]);
    forall i | 0 <= i < |d|
      ensures l[i] == d[i]
    {
      assert (d + [c])[i] == d[i];
    }
    assert l[|d|] == LowerChar(c);
  }

  predicate StartsWith(s: string, prefix: string) {
    |prefix| <= |s| && s[..|prefix|] == prefix
  }

  predicate EndsWith(s: string, suffix: string) {
    |suffix| <= |s| && s[|s| - |suffix|..] == suffix
  }

  predicate OccursAt(hay: string, needle: string, i: int) {
    0 <= i <= |hay| - |needle| && hay[i..i + |needle|] == needle
  }

  /** `needle in hay` */
  predicate Contains(hay: string, needle: string) {
    exists i :: 0 <= i <= |hay| && OccursAt(hay, needle, i)
  }

  /** Lexicographic order by code point: how Python compares `str` values and
      SQLite compares TEXT under its default BINARY collation. */
  predicate Le(a: string, b: string) {
    a == [] || (b != [] && (a[0] < b[0] || (a[0] == b[0] && Le(a[1..], b[1..]))))
  }

  lemma {:induction false} LeRefl(a: string)
    ensures Le(a, a)
  {
    if a != [] {
      LeRefl(a[1..]);
    }
  }

  lemma {:induction false} LeTotal(a: string, b: string)
    ensures Le(a, b) || Le(b, a)
  {
    if a != [] && b != [] && a[0] == b[0] {
      LeTotal(a[1..], b[1..]);
    }
  }

  lemma {:induction false} LeTrans(a: string, b: string, c: string)
    requires Le(a, b) && Le(b, c)
    ensures Le(a, c)
  {
    if a != [] && b != [] && c != [] && a[0] == b[0] && b[0] == c[0] {
      LeTrans(a[1..], b[1..], c[1..]);
    }
  }

  lemma {:induction false} LeAntisym(a: string, b: string)
    requires Le(a, b) && Le(b, a)
    ensures a == b
  {
    if a != [] && b != [] {
      LeAntisym(a[1..], b[1..]);
      assert a == [a[0]] + a[1..];
      assert b == [b[0]] + b[1..];
    }
  }

  predicate IsDigit(c: char) { '0' <= c <= '9' }

  function DigitChar(d: nat): (c: char)
    requires d < 10
    ensures IsDigit(c) && c as int - '0' as int == d
  {
    ('0' as int + d) as char
  }

  /** `str(n)` for a natural number. */
  function NatToString(n: nat): (r: string)
    ensures r != [] && forall i :: 0 <= i < |r| ==> IsDigit(r[i])
  {
    if n < 10 then [DigitChar(n)] else NatToString(n / 10) + [DigitChar(n % 10)]
  }

  /** `str(n)` for an integer. */
  function IntToString(n: int): (r: string)
    ensures r != [] && IsDigit(r[|r| - 1])
  {
    if n < 0 then "-" + NatToString(-n) else NatToString(n)
  }

  /** Value of a run of ASCII digits. */
  function DigitsValue(d: string): (v: int)
    requires forall i :: 0 <= i < |d| ==> IsDigit(d[i])
    ensures v >= 0
  {
    if d == [] then 0
    else
      assert IsDigit(d[|d| - 1]);
      DigitsValue(d[..|d| - 1]) * 10 + (d[|d| - 1] as int - '0' as int)
  }

  /** Python's decimal integer literal: digits, with single underscores allowed
      between two digits. */
  predicate DigitGroups(d: string) {
    && d != [] && IsDigit(d[0]) && IsDigit(d[|d| - 1])
    && (forall i :: 0 <= i < |d| ==> IsDigit(d[i]) || d[i] == '_')
    && (forall i :: 0 <= i < |d| - 1 ==> !DoubleUnderscore(d, i))
  }

  predicate DoubleUnderscore(d: string, i: int)
    requires 0 <= i < |d| - 1
  {
    d[i] == '_' && d[i + 1] == '_'
  }

  function DropUnderscores(d: string): (r: string)
    requires forall i :: 0 <= i < |d| ==> IsDigit(d[i]) || d[i] == '_'
    ensures forall i :: 0 <= i < |r| ==> IsDigit(r[i])
    ensures (forall i :: 0 <= i < |d| ==> IsDigit(d[i])) ==> r == d
  {
    if d == [] then []
    else (if d[0] == '_' then [] else [d[0]]) + DropUnderscores(d[1..])
  }

  /** `int(s)` on a decimal string: surrounding whitespace, an optional sign,
      then digit groups; anything else is a ValueError (`None`). */
  function ParseInt(s: string): Option<int> {
    ParseSignedLiteral(Strip(s))
  }

  function ParseSignedLiteral(t: string): Option<int> {
    if t != [] && (t[0] == '+' || t[0] == '-') then
      if DigitGroups(t[1..]) then
        var v := DigitsValue(DropUnderscores(t[1..]));
        Some(if t[0] == '-' then -v else v)
      else None
    else if DigitGroups(t) then Some(DigitsValue(DropUnderscores(t)))
    else None
  }

  lemma {:induction false} DigitsValueOfNat(n: nat)
    ensures DigitsValue(NatToString(n)) == n
  {
    if n >= 10 {
      var r := NatToString(n);
      var front := NatToString(n / 10);
      assert r == front + [DigitChar(n % 10)];
      assert r[..|r| - 1] == front;
      DigitsValueOfNat(n / 10);
    }
  }

  /** `int(str(n)) == n` for every natural number. */
  lemma ParseIntOfString(n: nat)
    ensures ParseInt(IntToString(n)) == Some(n)
  {
    ParsePlainDigits(NatToString(n));
    DigitsValueOfNat(n);
  }

  lemma ParsePlainDigits(d: string)
    requires d != [] && forall i :: 0 <= i < |d| ==> IsDigit(d[i])
    ensures ParseInt(d) == Some(DigitsValue(d))
  {
    DigitsAreTrimmed(d);
    ParseIntOfTrimmed(d);
    LiteralOfDigits(d);
  }

  lemma DigitsAreTrimmed(d: string)
    requires d != [] && forall i :: 0 <= i < |d| ==> IsDigit(d[i])
    ensures !IsSpace(d[0]) && !IsSpace(d[|d| - 1])
  {
    assert IsDigit(d[0]) && IsDigit(d[|d| - 1]);
  }

  /** `int()` of text with no surrounding whitespace reads the literal as it is. */
  lemma ParseIntOfTrimmed(s: string)
    requires s == [] || (!IsSpace(s[0]) && !IsSpace(s[|s| - 1]))
    ensures ParseInt(s) == ParseSignedLiteral(s)
  {
    StripKeeps(s);
  }

  lemma LiteralOfDigits(d: string)
    requires d != [] && forall i :: 0 <= i < |d| ==> IsDigit(d[i])
    ensures ParseSignedLiteral(d) == Some(DigitsValue(d))
  {
    DigitsOnlyGroups(d);
  }

  lemma DigitsOnlyGroups(d: string)
    requires d != [] && forall i :: 0 <= i < |d| ==> IsDigit(d[i])
    ensures DigitGroups(d) && DropUnderscores(d) == d
  {
  }

  /** `s.rstrip(c)` for a single character. */
  function RStripChar(s: string, c: char): (r: string)
    ensures |r| <= |s| && r == s[..|r|]
    ensures r == [] || r[|r| - 1] != c
    ensures forall i :: |r| <= i < |s| ==> s[i] == c
  {
    if s != [] && s[|s| - 1] == c then RStripChar(s[..|s| - 1], c) else s
  }
}
