/**
 * Models of the Python `str` operations that the converter and the recipe
 * engine rely on: whitespace stripping, ASCII lower-casing, left-to-right
 * `str.replace`, `str(int)` and `int(str)`.
 */
module PyStr {
  import opened Wrappers

  /** The characters Python's `str.strip()` removes (`str.isspace()`). */
  predicate IsSpace(c: char) {
    || c == ' '
    || ('\t' <= c <= '\r')
    || ('\U{1c}' <= c <= '\U{1f}')
    || c == '\U{85}' || c == '\U{a0}' || c == '\U{1680}'
    || ('\U{2000}' <= c <= '\U{200a}')
    || c == '\U{2028}' || c == '\U{2029}' || c == '\U{202f}' || c == '\U{205f}' || c == '\U{3000}'
  }

  /** `s.lstrip()` */
  function LStrip(s: string): (r: string)
    ensures |r| <= |s| && r == s[|s| - |r|..]
    ensures r == [] || !IsSpace(r[0])
    ensures forall i :: 0 <= i < |s| - |r| ==> IsSpace(s[i])
  {
    if s != [] && IsSpace(s[0]) then
      var t := s[1..];
      var r := LStrip(t);
      assert forall i :: 1 <= i < |s| ==> s[i] == t[i - 1];
      r
    else s
  }

  /** `s.rstrip()` */
  function RStrip(s: string): (r: string)
    ensures |r| <= |s| && r == s[..|r|]
    ensures r == [] || !IsSpace(r[|r| - 1])
    ensures forall i :: |r| <= i < |s| ==> IsSpace(s[i])
  {
    if s != [] && IsSpace(s[|s| - 1]) then RStrip(s[..|s| - 1]) else s
  }

  /** `s.strip()` */
  function Strip(s: string): string {
    RStrip(LStrip(s))
  }

  /** A string that neither starts nor ends with whitespace is its own `strip()`. */
  lemma StripNoEdgeSpace(s: string)
    requires s == [] || (!IsSpace(s[0]) && !IsSpace(s[|s| - 1]))
    ensures Strip(s) == s
  {
  }

  /** `r` is the stretch of `s` from index `a` on, with only copies of `c` before and after it. */
  predicate CutAtEdges(s: string, r: string, c: char, a: nat) {
    && a + |r| <= |s| && r == s[a..a + |r|]
    && (forall i :: 0 <= i < a ==> s[i] == c)
    && (forall i :: a + |r| <= i < |s| ==> s[i] == c)
  }

  /** `s.strip(c)` for a single character `c`. */
  function StripChar(s: string, c: char): (r: string)
    ensures |r| <= |s|
    ensures r == [] || (r[0] != c && r[|r| - 1] != c)
    ensures exists a: nat :: CutAtEdges(s, r, c, a)
  {
    if s == [] then
      assert CutAtEdges(s, [], c, 0);
      []
    else if s[0] == c then
      var r := StripChar(s[1..], c);
      CutFront(s, r, c);
      r
    else if s[|s| - 1] == c then
      var t := s[..|s| - 1];
      var r := StripChar(t, c);
      CutBack(s, t, r, c);
      r
    else
      assert CutAtEdges(s, s, c, 0);
      s
  }

  /** One more `c` in front of `s[1..]` moves the cut one place. */
  lemma CutFront(s: string, r: string, c: char)
    requires s != [] && s[0] == c
    ensures forall a: nat :: CutAtEdges(s[1..], r, c, a) ==> CutAtEdges(s, r, c, a + 1)
  {
    forall a: nat | CutAtEdges(s[1..], r, c, a)
      ensures CutAtEdges(s, r, c, a + 1)
    {
      assert s[a + 1..a + 1 + |r|] == s[1..][a..a + |r|];
      assert forall i :: 1 <= i < |s| ==> s[i] == s[1..][i - 1];
    }
  }

  /** One more `c` after `t`, which is `s[..|s| - 1]`, keeps the cut. */
  lemma CutBack(s: string, t: string, r: string, c: char)
    requires s != [] && s[|s| - 1] == c && t == s[..|s| - 1]
    ensures forall a: nat :: CutAtEdges(t, r, c, a) ==> CutAtEdges(s, r, c, a)
  {
    forall a: nat | CutAtEdges(t, r, c, a)
      ensures CutAtEdges(s, r, c, a)
    {
      assert s[a..a + |r|] == t[a..a + |r|];
      assert forall i :: 0 <= i < |t| ==> s[i] == t[i];
    }
  }

  /** `s.lstrip(c)` for a single character `c`. */
  function LStripChar(s: string, c: char): (r: string)
    ensures |r| <= |s| && r == s[|s| - |r|..]
    ensures r == [] || r[0] != c
    ensures forall i :: 0 <= i < |s| - |r| ==> s[i] == c
  {
    if s != [] && s[0] == c then LStripChar(s[1..], c) else s
  }

  /** ASCII model of `str.lower()` on one character. */
  function LowerChar(c: char): char {
    if 'A' <= c <= 'Z' then (c as int + 32) as char else c
  }

  /** ASCII model of `str.lower()`. */
  function Lower(s: string): (r: string)
    ensures |r| == |s|
  {
    seq(|s|, i requires 0 <= i < |s| => LowerChar(s[i]))
  }

  /** `s` holds the (non-empty) string `p` starting at index `i`. */
  predicate StartsAt(s: string, p: string, i: nat) {
    i + |p| <= |s| && s[i..i + |p|] == p
  }

  /** `p` occurs somewhere in `s` (Python's `p in s`). */
  predicate HasSubstring(s: string, p: string) {
    exists i :: 0 <= i <= |s| && StartsAt(s, p, i)
  }

  /**
   * `s.replace(old, new)`: scan left to right, replacing non-overlapping
   * occurrences of `old` (here `pat`, replaced by `rep`).
   */
  function ReplaceAll(s: string, pat: string, rep: string): string
    requires |pat| > 0
    decreases |s|
  {
    if |s| < |pat| then s
    else if s[..|pat|] == pat then rep + ReplaceAll(s[|pat|..], pat, rep)
    else [s[0]] + ReplaceAll(s[1..], pat, rep)
  }

  /** Replacing a single character distributes over concatenation. */
  lemma {:induction false} ReplaceCharConcat(a: string, b: string, c: char, rep: string)
    ensures ReplaceAll(a + b, [c], rep) == ReplaceAll(a, [c], rep) + ReplaceAll(b, [c], rep)
    decreases |a|
  {
    if a == [] {
      assert a + b == b;
    } else {
      assert (a + b)[1..] == a[1..] + b;
      assert (a + b)[..1] == a[..1];
      ReplaceCharConcat(a[1..], b, c, rep);
    }
  }

  /** Replacing a single character that does not occur changes nothing. */
  lemma {:induction false} ReplaceCharAbsent(s: string, c: char, rep: string)
    requires c !in s
    ensures ReplaceAll(s, [c], rep) == s
    decreases |s|
  {
    if s != [] {
      assert s[..1] == [s[0]];
      ReplaceCharAbsent(s[1..], c, rep);
      assert [s[0]] + s[1..] == s;
    }
  }

  // ---------------------------------------------------------------- integers

  predicate IsDigit(c: char) { '0' <= c <= '9' }

  /** The end of the run of ASCII digits that starts at `i`. */
  function DigitEnd(s: string, i: nat): (j: nat)
    requires i <= |s|
    ensures i <= j <= |s| && (forall m :: i <= m < j ==> IsDigit(s[m])) && (j == |s| || !IsDigit(s[j]))
    decreases |s| - i
  {
    if i < |s| && IsDigit(s[i]) then DigitEnd(s, i + 1) else i
  }

  function DigitChar(d: nat): (c: char)
    requires d < 10
    ensures IsDigit(c) && c as int - '0' as int == d
  {
    ('0' as int + d) as char
  }

  /** `str(n)` for a natural number: shortest decimal form. */
  function NatToString(n: nat): (r: string)
    ensures |r| > 0 && forall i :: 0 <= i < |r| ==> IsDigit(r[i])
    decreases n
  {
    if n < 10 then [DigitChar(n)] else NatToString(n / 10) + [DigitChar(n % 10)]
  }

  /** `str(n)` for an integer. */
  function IntToString(n: int): (r: string)
    ensures |r| > 0 && (IsDigit(r[0]) || r[0] == '-') && IsDigit(r[|r| - 1])
    ensures forall i :: 1 <= i < |r| ==> IsDigit(r[i])
  {
    if n < 0 then "-" + NatToString(-n) else NatToString(n)
  }

  /**
   * The digit groups `int()` accepts in base 10: digits, with single
   * underscores allowed between two digits.
   */
  predicate IsDigitGroup(s: string) {
    && |s| > 0 && IsDigit(s[0]) && IsDigit(s[|s| - 1])
    && (forall i :: 0 <= i < |s| ==> IsDigit(s[i]) || s[i] == '_')
    && (forall i :: 0 <= i < |s| - 1 && s[i] == '_' ==> s[i + 1] != '_')
  }

  /** The number a digit group denotes; underscores carry no value. */
  function GroupValue(s: string): nat {
    if s == [] then 0
    else if IsDigit(s[|s| - 1]) then GroupValue(s[..|s| - 1]) * 10 + (s[|s| - 1] as int - '0' as int)
    else GroupValue(s[..|s| - 1])
  }

  /** `int(s)`: surrounding whitespace, an optional sign, one digit group. */
  function PyInt(s: string): Option<int> {
    SignedGroup(Strip(s))
  }

  /** An optional sign and one digit group, the text `int()` reads once blanks are stripped. */
  function SignedGroup(t: string): Option<int> {
    if |t| > 0 && (t[0] == '-' || t[0] == '+') then
      if IsDigitGroup(t[1..]) then
        Some(if t[0] == '-' then 0 - GroupValue(t[1..]) as int else GroupValue(t[1..]) as int)
      else None
    else if IsDigitGroup(t) then Some(GroupValue(t))
    else None
  }

  lemma {:induction false} NatToStringValue(n: nat)
    ensures IsDigitGroup(NatToString(n)) && GroupValue(NatToString(n)) == n
    decreases n
  {
    var s := NatToString(n);
    if n >= 10 {
      NatToStringValue(n / 10);
      assert s[..|s| - 1] == NatToString(n / 10);
    }
  }

  /** `int(str(n)) == n` */
  lemma IntRoundTrip(n: int)
    ensures PyInt(IntToString(n)) == Some(n)
  {
    var s := IntToString(n);
    StripNoEdgeSpace(s);
    SignedGroupOfInt(n);
  }

  /** The digits `str(n)` writes read back as `n`. */
  lemma SignedGroupOfInt(n: int)
    ensures SignedGroup(IntToString(n)) == Some(n)
  {
    var s := IntToString(n);
    if n < 0 {
      NatToStringValue(-n);
      assert s[1..] == NatToString(-n);
    } else {
      NatToStringValue(n);
    }
  }

  // ------------------------------------------------------------ floats

  /** The first index of `c` in `s`, or `|s|` when it does not occur. */
  function IndexOf(s: string, c: char): (i: nat)
    ensures i <= |s| && (i < |s| ==> s[i] == c) && c !in s[..i]
  {
    if s == [] then 0 else if s[0] == c then 0 else 1 + IndexOf(s[1..], c)
  }

  /** `s.find(c, from)`: the first index at or after `from` holding `c`, or `|s|`. */
  function Find(s: string, c: char, from: nat): (i: nat)
    requires from <= |s|
    ensures from <= i <= |s| && (i < |s| ==> s[i] == c)
    ensures forall j :: from <= j < i ==> s[j] != c
    decreases |s| - from
  {
    if from == |s| then from else if s[from] == c then from else Find(s, c, from + 1)
  }

  /** An optional sign followed by a digit group: the exponent of a float literal. */
  predicate IsSignedGroup(s: string) {
    if |s| > 0 && (s[0] == '-' || s[0] == '+') then IsDigitGroup(s[1..]) else IsDigitGroup(s)
  }

  /** `digits`, `digits.`, `digits.digits` or `.digits`. */
  predicate IsMantissa(s: string) {
    var d := IndexOf(s, '.');
    if d == |s| then IsDigitGroup(s)
    else
      var a, b := s[..d], s[d + 1..];
      && (a == [] || IsDigitGroup(a))
      && (b == [] || IsDigitGroup(b))
      && (a != [] || b != [])
  }

  /** A decimal float literal without a sign: mantissa and an optional exponent. */
  predicate IsDecimalFloat(s: string) {
    var t := Lower(s);
    var e := IndexOf(t, 'e');
    if e == |t| then IsMantissa(t) else IsMantissa(t[..e]) && IsSignedGroup(t[e + 1..])
  }

  /** The text Python's `float()` accepts: whitespace, a sign, then a decimal literal, `inf`, `infinity` or `nan`. */
  predicate IsPyFloat(s: string) {
    var t := Strip(s);
    var u := if |t| > 0 && (t[0] == '-' || t[0] == '+') then t[1..] else t;
    Lower(u) == "inf" || Lower(u) == "infinity" || Lower(u) == "nan" || IsDecimalFloat(u)
  }

  /** Digit groups hold no dot and no `e`. */
  lemma DigitGroupHasNoMarks(s: string)
    requires IsDigitGroup(s)
    ensures IndexOf(s, '.') == |s| && IndexOf(Lower(s), 'e') == |s| && Lower(s) == s
  {
    var l := Lower(s);
    assert forall i :: 0 <= i < |s| ==> l[i] == s[i];
    assert l == s;
    assert forall i :: 0 <= i < |s| ==> s[i] != '.' && s[i] != 'e';
  }

  /** `float(str(n))` succeeds for every integer. */
  lemma IntIsPyFloat(n: int)
    ensures IsPyFloat(IntToString(n))
  {
    var s := IntToString(n);
    StripNoEdgeSpace(s);
    if n < 0 {
      NatToStringValue(-n);
      assert s[1..] == NatToString(-n);
      DigitGroupHasNoMarks(s[1..]);
    } else {
      NatToStringValue(n);
      DigitGroupHasNoMarks(s);
    }
  }
}
