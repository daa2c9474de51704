/**
 * Writing a tree with `write_ndugff` and reading the lines back with
 * `load_ndugff` gives the same tree, for every tree within the limits of
 * the text format (`WF`): names drawn from `[\w ]`, a Struct id and Dword
 * value other than -1 (which reads back as the sentinel), strings the
 * quoting can carry, and list elements holding one container each.
 */
module RoundTrip {
  import opened Wrappers
  import opened PyStr
  import opened GffValue
  import opened DslText
  import opened DslParse
  import opened DslRender

  // -------------------------------------------------------- what fits the text

  predicate NameOK(s: string) {
    forall i :: 0 <= i < |s| ==> NameChar(s[i])
  }

  /** Float text the format carries verbatim: accepted by `float()`, no blanks, quotes or backslashes. */
  predicate FloatTextOK(s: string) {
    && IsPyFloat(s) && s != []
    && forall i :: 0 <= i < |s| ==> !IsSpace(s[i]) && s[i] != '"' && s[i] != '\\'
  }

  predicate ScalarOK(k: Kind, v: Value) {
    match v
    case IntV(i) => IsIntKind(k) && (k == Dword ==> i != PrettySentinel)
    case TextV(s) =>
      if IsEscapedKind(k) then '\r' !in s && RStrip(s) == s
      else if IsLiteralKind(k) then '\\' !in s && '\n' !in s && '\r' !in s && (k == MagicTag ==> |s| == 4)
      else IsFloatKind(k) && FloatTextOK(s)
    case _ => false
  }

  predicate KeyOK(k: Key) {
    && NameOK(k.name)
    && (k.kind == Struct <==> k.id.Some?)
    && (k.id.Some? ==> k.id.value != PrettySentinel)
  }

  predicate WFEntry(e: Entry)
    decreases e, 0
  {
    && KeyOK(e.key)
    && match e.value
       case DictV(d) => (e.key.kind == Struct || e.key.kind == CExoLocString) && WF(d)
       case ListV(items) => e.key.kind == List && WFItems(items)
       case _ => e.key.name != [] && ScalarOK(e.key.kind, e.value)
  }

  /** A list element: one container entry (the source's lists hold `{Struct(""): {...}}`). */
  predicate WFItem(d: Dict)
    decreases d, 0
  {
    |d.entries| == 1 && IsNodeKind(d.entries[0].key.kind) && WFEntry(d.entries[0])
  }

  predicate WFItems(items: seq<Dict>)
    decreases items, 0
  {
    forall i :: 0 <= i < |items| ==> WFItem(items[i])
  }

  predicate WFEntries(es: seq<Entry>)
    decreases es, 0
  {
    forall i :: 0 <= i < |es| ==> WFEntry(es[i])
  }

  predicate WF(d: Dict)
    decreases d, 1
  {
    WFEntries(d.entries)
  }

  // --------------------------------------------------------- one line's text

  /** The text of a field line once `strip()` has removed its indentation. */
  function Body(e: Entry): string {
    if IsNodeKind(e.key.kind) then FormattedKey(e.key)
    else FormattedKey(e.key) + ": " + ValueText(e.key.kind, e.value)
  }

  lemma FieldLineIsIndentedBody(e: Entry, depth: nat)
    ensures FieldLine(e, depth) == Indent(depth) + Body(e)
  {
    if !IsNodeKind(e.key.kind) {
      var k, t := FormattedKey(e.key), ValueText(e.key.kind, e.value);
      assert Indent(depth) + k + ": " + t == Indent(depth) + (k + ": " + t);
    }
  }

  lemma {:induction false} LStripSpaces(n: nat, x: string)
    requires x != [] && !IsSpace(x[0])
    ensures LStrip(Spaces(n) + x) == x
    decreases n
  {
    if n > 0 {
      assert (Spaces(n) + x)[1..] == Spaces(n - 1) + x;
      LStripSpaces(n - 1, x);
    } else {
      assert Spaces(0) + x == x;
    }
  }

  /** `strip()` removes exactly the indentation of a line whose text has no blank edge. */
  lemma StripIndented(n: nat, x: string)
    requires x != [] && !IsSpace(x[0]) && !IsSpace(x[|x| - 1])
    ensures Strip(Spaces(n) + x) == x
  {
    LStripSpaces(n, x);
  }

  /** What a scalar's value text looks like: no blank edge, quoted exactly for quoted kinds. */
  predicate ValueShape(k: Kind, t: string) {
    && t != [] && t[0] != ' ' && !IsSpace(t[|t| - 1]) && '\n' !in t
    && (t[0] == '"' <==> IsEscapedKind(k) || IsLiteralKind(k))
    && (t[|t| - 1] == '"' <==> IsEscapedKind(k) || IsLiteralKind(k))
    && (!IsEscapedKind(k) && !IsLiteralKind(k) ==> '\\' !in t)
  }

  lemma ValueTextShape(k: Kind, v: Value)
    requires ScalarOK(k, v)
    ensures ValueShape(k, ValueText(k, v))
  {
    match v {
      case IntV(i) => IntTextShape(k, i);
      case TextV(s) =>
        if IsEscapedKind(k) {
          EscapedTextShape(k, s);
        } else if IsLiteralKind(k) {
          LiteralTextShape(k, s);
        } else {
          FloatTextShape(k, s);
        }
    }
  }

  lemma IntTextShape(k: Kind, i: int)
    requires IsIntKind(k)
    ensures ValueShape(k, ValueText(k, IntV(i)))
  {
    assert !IsEscapedKind(k) && !IsLiteralKind(k);
    var x := if k == Dword then Prettify(i) else i;
    assert ValueText(k, IntV(i)) == IntToString(x);
    DecimalShape(IntToString(x));
  }

  lemma EscapedTextShape(k: Kind, s: string)
    requires IsEscapedKind(k)
    ensures ValueShape(k, ValueText(k, TextV(s)))
  {
    QuotedShape(Escape(s));
  }

  lemma LiteralTextShape(k: Kind, s: string)
    requires IsLiteralKind(k) && '\n' !in s
    ensures ValueShape(k, ValueText(k, TextV(s)))
  {
    QuotedShape(s);
  }

  lemma FloatTextShape(k: Kind, s: string)
    requires IsFloatKind(k) && FloatTextOK(s)
    ensures ValueShape(k, ValueText(k, TextV(s)))
  {
    assert s[0] != '"' && s[|s| - 1] != '"';
  }

  lemma DecimalShape(t: string)
    requires DecimalText(t)
    ensures t[0] != ' ' && t[0] != '"' && !IsSpace(t[|t| - 1]) && t[|t| - 1] != '"' && '\n' !in t && '\\' !in t
  {
  }

  lemma QuotedShape(s: string)
    requires '\n' !in s
    ensures var t := "\"" + s + "\""; t != [] && t[0] == '"' && t[|t| - 1] == '"' && '\n' !in t
  {
    assert forall c :: c in "\"" + s + "\"" ==> c == '"' || c in s;
  }

  /** The stripped field line has no blank edge and starts with `g`. */
  lemma BodyShape(e: Entry)
    requires KeyOK(e.key)
    requires !IsNodeKind(e.key.kind) ==> ScalarOK(e.key.kind, e.value)
    ensures var b := Body(e); b != [] && b[0] == 'g' && !IsSpace(b[|b| - 1])
  {
    KeyTextShape(e.key);
    if !IsNodeKind(e.key.kind) {
      ValueTextShape(e.key.kind, e.value);
      JoinedShape(FormattedKey(e.key), ValueText(e.key.kind, e.value));
    }
  }

  /** A formatted key starts with `g` and ends with `)`. */
  lemma KeyTextShape(k: Key)
    ensures var fk := FormattedKey(k); fk != [] && fk[0] == 'g' && fk[|fk| - 1] == ')'
  {
    var fk := FormattedKey(k);
    var kn := KindName(k.kind);
    assert fk[..|kn|] == kn;
    assert fk[0] == kn[0] == kn[..4][0] == 'g';
  }

  /** `fk: t` keeps the first character of `fk` and the last of `t`. */
  lemma JoinedShape(fk: string, t: string)
    requires fk != [] && t != []
    ensures var b := fk + ": " + t; b[0] == fk[0] && b[|b| - 1] == t[|t| - 1]
  {
  }

  // ------------------------------------------------------------ tokenizing

  /** The type alternation picks out the kind whose name, followed by `(`, starts the line. */
  lemma FirstTypeOf(line: string, k: Kind)
    requires TypeMatches(line, k)
    ensures FirstType(line, Kinds, 0) == Some(k)
  {
    assert TypeMatches(line, Kinds[KindIndex(k)]);
    var r := FirstType(line, Kinds, 0);
    TypeMatchUnique(line, r.value, k);
  }

  /** The `name` group ends at the first `)`. */
  lemma NameGroup(line: string, p: nat, name: string)
    requires p + |name| < |line| && line[p..p + |name|] == name && line[p + |name|] == ')' && NameOK(name)
    ensures NameEnd(line, p) == p + |name|
  {
    forall m | p <= m < p + |name| ensures NameChar(line[m]) {
      assert line[m] == line[p..p + |name|][m - p];
    }
    assert !NameChar(line[p + |name|]);
  }

  /** The shape of `IntToString`'s result: an optional `-`, then digits. */
  predicate DecimalText(t: string) {
    |t| > 0 && (IsDigit(t[0]) || t[0] == '-') && (forall i :: 1 <= i < |t| ==> IsDigit(t[i])) && IsDigit(t[|t| - 1])
  }

  /** The id group reads back the decimal text of the id. */
  lemma IdGroupOfId(line: string, q: nat, t: string)
    requires DecimalText(t)
    requires q <= |line| && line[q..] == ".id(" + t + ")"
    ensures IdGroup(line, q) == (Some(t), |line|)
  {
    var tail := line[q..];
    assert |line| == q + |t| + 5;
    assert line[q..q + 4] == tail[..4] == ".id(";
    var a := q + 4;
    assert line[a..a + |t|] == tail[4..4 + |t|] == t;
    assert forall m :: 0 <= m < |t| ==> line[a + m] == t[m];
    assert line[a + |t|] == tail[4 + |t|] == ')';
    var b := if a < |line| && line[a] == '-' then a + 1 else a;
    forall m | b <= m < a + |t| ensures IsDigit(line[m]) {
      assert line[m] == t[m - a];
    }
    assert !IsDigit(line[a + |t|]);
    assert DigitEnd(line, b) == a + |t|;
  }

  /** Without `.id(` after the name there is no id, and the position stays. */
  lemma IdGroupAbsent(line: string, q: nat)
    requires q <= |line|
    requires q == |line| || line[q] == ':'
    ensures IdGroup(line, q) == (None, q)
  {
  }

  /** `: value` at the end of a line gives the value. */
  lemma ValueGroupOf(line: string, r: nat, t: string)
    requires r <= |line| && line[r..] == ": " + t
    requires t != [] && t[0] != ' ' && '\n' !in t
    ensures ValueGroup(line, r) == Some(t)
  {
    assert line[r] == line[r..][0] == ':';
    var rest := line[r + 1..];
    assert rest == " " + t;
    assert SpaceEnd(rest, 0) == 1 by {
      assert rest[0] == ' ';
      assert SpaceEnd(rest, 1) == 1;
    }
    assert rest[1..] == t;
  }

  lemma ValueGroupAtEnd(line: string)
    ensures ValueGroup(line, |line|) == None
  {
  }

  /** Where the parts of `(name)tail` sit after the type group, which ends at `n`. */
  predicate KeyAt(line: string, n: nat, name: string, tail: string) {
    && |line| == n + |name| + 2 + |tail|
    && line[n] == '('
    && line[n + 1..n + 1 + |name|] == name && line[n + 1 + |name|] == ')'
    && line[n + |name| + 2..] == tail
  }

  /** Where the parts of `type(name)tail` sit, with `type` the name of kind `k`. */
  predicate KeyLineAt(line: string, k: Kind, name: string, tail: string) {
    KeyAt(line, |KindName(k)|, name, tail) && line[..|KindName(k)|] == KindName(k)
  }

  lemma KeyLineParts(line: string, k: Kind, name: string, tail: string)
    requires line == KindName(k) + "(" + name + ")" + tail
    ensures KeyLineAt(line, k, name, tail)
  {
    var kn := KindName(k);
    assert line[|kn| + 1..|kn| + 1 + |name|] == (kn + "(" + name)[|kn| + 1..];
  }

  /** The type alternative of kind `k` matches a line `type(name)` + tail. */
  lemma KeyLineType(line: string, k: Kind, name: string, tail: string)
    requires KeyLineAt(line, k, name, tail)
    ensures TypeMatches(line, k) && line[3] == '.'
  {
    var kn := KindName(k);
    var n := |kn|;
    assert line[..3] == kn[..4][..3] == "gff";
    assert line[3] == kn[3] == kn[..4][3] == '.';
    assert line[4..n] == kn[4..];
  }

  /** `_DSL_TOKENIZER.match` after a type group ending at `n`, on `(name)` + tail: the groups. */
  lemma MatchKeyAt(line: string, n: nat, ty: LineType, name: string, tail: string)
    requires NameOK(name) && KeyAt(line, n, name, tail)
    ensures TokensAfter(line, n, ty) == Some(Tokens(ty, name,
              IdGroup(line, n + |name| + 2).0,
              ValueGroup(line, IdGroup(line, n + |name| + 2).1)))
  {
    NameGroup(line, n + 1, name);
    MatchAfterOf(line, n, ty, n + 1 + |name|, n + |name| + 2);
  }

  /** `MatchLine` is the match after the type group the alternation picks. */
  lemma MatchLineType(line: string, k: Kind)
    requires FirstType(line, Kinds, 0) == Some(k) && line[3] == '.'
    ensures MatchLine(line) == TokensAfter(line, |KindName(k)|, Known(k))
  {
  }

  /** The groups after the type, once the end of the name is known. */
  lemma MatchAfterOf(line: string, n: nat, ty: LineType, j: nat, q: nat)
    requires n < |line| && NameEnd(line, n + 1) == j && j < |line| && line[j] == ')' && q == j + 1
    ensures TokensAfter(line, n, ty) == Some(Tokens(ty, line[n + 1..j], IdGroup(line, q).0, ValueGroup(line, IdGroup(line, q).1)))
  {
  }

  /** `a + b + c`, regrouped. */
  lemma Regroup(a: string, b: string, c: string)
    ensures a + b + c == a + (b + c)
  {
  }

  /** The id text a Struct line carries. */
  function IdText(k: Key): Option<string> {
    if k.kind == Struct && k.id.Some? then Some(IntToString(Prettify(k.id.value))) else None
  }

  /** The tokenizer gives back the kind, name, id text and value text of a written line. */
  lemma BodyTokens(e: Entry)
    requires KeyOK(e.key)
    requires !IsNodeKind(e.key.kind) ==> ScalarOK(e.key.kind, e.value)
    ensures MatchLine(Body(e)) == Some(Tokens(Known(e.key.kind), e.key.name, IdText(e.key),
              if IsNodeKind(e.key.kind) then None else Some(ValueText(e.key.kind, e.value))))
  {
    if e.key.kind == Struct {
      StructTokens(e.key, Body(e));
    } else if IsNodeKind(e.key.kind) {
      NodeTokens(e.key, Body(e));
    } else {
      ValueTextShape(e.key.kind, e.value);
      var t := ValueText(e.key.kind, e.value);
      Regroup(KindName(e.key.kind) + "(" + e.key.name + ")", ": ", t);
      FieldTokens(e.key, t, Body(e));
    }
    FirstTypeOf(Body(e), e.key.kind);
    MatchLineType(Body(e), e.key.kind);
  }

  lemma StructTokens(k: Key, line: string)
    requires KeyOK(k) && k.kind == Struct && line == FormattedKey(k)
    ensures TypeMatches(line, k.kind) && line[3] == '.' && TokensAfter(line, |KindName(k.kind)|, Known(k.kind)) == Some(Tokens(Known(Struct), k.name, IdText(k), None))
  {
    var pre := KindName(k.kind) + "(" + k.name + ")";
    var t := IntToString(Prettify(k.id.value));
    assert line == pre + ".id(" + t + ")";
    Regroup(pre + ".id(", t, ")");
    Regroup(pre, ".id(", t + ")");
    KeyLineParts(line, k.kind, k.name, ".id(" + t + ")");
    KeyLineType(line, k.kind, k.name, ".id(" + t + ")");
    StructAfter(line, |KindName(k.kind)|, Known(k.kind), k.name, t);
  }

  /** A key line whose tail is `.id(i)`. */
  lemma StructAfter(line: string, n: nat, ty: LineType, name: string, t: string)
    requires NameOK(name) && DecimalText(t) && KeyAt(line, n, name, ".id(" + t + ")")
    ensures TokensAfter(line, n, ty) == Some(Tokens(ty, name, Some(t), None))
  {
    IdGroupOfId(line, n + |name| + 2, t);
    ValueGroupAtEnd(line);
    KeyWithGroups(line, n, ty, name, ".id(" + t + ")", Some(t), |line|);
  }

  /** `MatchKeyAt` once the id group is known to read `id` and end at `e`. */
  lemma KeyWithGroups(line: string, n: nat, ty: LineType, name: string, tail: string, id: Option<string>, e: nat)
    requires NameOK(name) && KeyAt(line, n, name, tail)
    requires IdGroup(line, n + |name| + 2) == (id, e)
    ensures TokensAfter(line, n, ty) == Some(Tokens(ty, name, id, ValueGroup(line, e)))
  {
    MatchKeyAt(line, n, ty, name, tail);
  }

  lemma NodeTokens(k: Key, line: string)
    requires KeyOK(k) && k.kind != Struct && line == FormattedKey(k)
    ensures TypeMatches(line, k.kind) && line[3] == '.' && TokensAfter(line, |KindName(k.kind)|, Known(k.kind)) == Some(Tokens(Known(k.kind), k.name, None, None))
  {
    var pre := KindName(k.kind) + "(" + k.name + ")";
    assert line == pre + "";
    KeyLineParts(line, k.kind, k.name, "");
    KeyLineType(line, k.kind, k.name, "");
    NodeAfter(line, |KindName(k.kind)|, Known(k.kind), k.name);
  }

  /** A key line with nothing after the name. */
  lemma NodeAfter(line: string, n: nat, ty: LineType, name: string)
    requires NameOK(name) && KeyAt(line, n, name, "")
    ensures TokensAfter(line, n, ty) == Some(Tokens(ty, name, None, None))
  {
    MatchKeyAt(line, n, ty, name, "");
    IdGroupAbsent(line, n + |name| + 2);
    ValueGroupAtEnd(line);
  }

  lemma FieldTokens(k: Key, t: string, line: string)
    requires KeyOK(k) && line == KindName(k.kind) + "(" + k.name + ")" + (": " + t)
    requires t != [] && t[0] != ' ' && '\n' !in t
    ensures TypeMatches(line, k.kind) && line[3] == '.' && TokensAfter(line, |KindName(k.kind)|, Known(k.kind)) == Some(Tokens(Known(k.kind), k.name, None, Some(t)))
  {
    KeyLineParts(line, k.kind, k.name, ": " + t);
    KeyLineType(line, k.kind, k.name, ": " + t);
    FieldAfter(line, |KindName(k.kind)|, Known(k.kind), k.name, t);
  }

  /** A key line whose tail is `: t`. */
  lemma FieldAfter(line: string, n: nat, ty: LineType, name: string, t: string)
    requires NameOK(name) && KeyAt(line, n, name, ": " + t)
    requires t != [] && t[0] != ' ' && '\n' !in t
    ensures TokensAfter(line, n, ty) == Some(Tokens(ty, name, None, Some(t)))
  {
    var p := n + |name| + 2;
    MatchKeyAt(line, n, ty, name, ": " + t);
    assert line[p..][0] == ':';
    IdGroupAbsent(line, p);
    ValueGroupOf(line, p, t);
  }

  lemma UnquoteUnquoted(t: string)
    requires t != [] && t[0] != '"' && t[|t| - 1] != '"'
    ensures Unquote(t) == t
  {
  }

  /** The value text of a scalar reads back, through its kind's constructor, to the same field. */
  lemma ScalarDecodes(k: Kind, name: string, v: Value)
    requires ScalarOK(k, v)
    ensures ScalarText(Known(k), ValueText(k, v)).Success?
    ensures ScalarField(Known(k), name, ScalarText(Known(k), ValueText(k, v)).value) == Success(Entry(Key(k, name, None), v))
  {
    match v {
      case IntV(i) => IntDecodes(k, name, i);
      case TextV(s) =>
        if IsEscapedKind(k) {
          EscapedDecodes(k, name, s);
        } else if IsLiteralKind(k) {
          LiteralDecodes(k, name, s);
        } else {
          FloatDecodes(k, name, s);
        }
    }
  }

  lemma IntDecodes(k: Kind, name: string, i: int)
    requires ScalarOK(k, IntV(i))
    ensures ScalarText(Known(k), ValueText(k, IntV(i))).Success?
    ensures ScalarField(Known(k), name, ScalarText(Known(k), ValueText(k, IntV(i))).value) == Success(Entry(Key(k, name, None), IntV(i)))
  {
    KindClasses(k);
    var t := ValueText(k, IntV(i));
    IntTextShape(k, i);
    UnquoteUnquoted(t);
    var x := if k == Dword then UnprettifyText(t) else t;
    assert ScalarText(Known(k), t) == Success(x);
    if k == Dword {
      SentinelTextRoundTrip(i);
    } else {
      IntRoundTrip(i);
    }
    IntFieldOf(k, name, x, i);
  }

  lemma IntFieldOf(k: Kind, name: string, x: string, i: int)
    requires IsIntKind(k) && PyInt(x) == Some(i)
    ensures ScalarField(Known(k), name, x) == Success(Entry(Key(k, name, None), IntV(i)))
  {
  }

  lemma EscapedDecodes(k: Kind, name: string, s: string)
    requires ScalarOK(k, TextV(s)) && IsEscapedKind(k)
    ensures ScalarText(Known(k), ValueText(k, TextV(s))).Success?
    ensures ScalarField(Known(k), name, ScalarText(Known(k), ValueText(k, TextV(s))).value) == Success(Entry(Key(k, name, None), TextV(s)))
  {
    KindClasses(k);
    var t := ValueText(k, TextV(s));
    assert t == EncodeEscaped(s);
    EscapedRoundTrip(s);
    UnquoteQuoted(Escape(s));
  }

  lemma LiteralDecodes(k: Kind, name: string, s: string)
    requires ScalarOK(k, TextV(s)) && IsLiteralKind(k)
    ensures ScalarText(Known(k), ValueText(k, TextV(s))).Success?
    ensures ScalarField(Known(k), name, ScalarText(Known(k), ValueText(k, TextV(s))).value) == Success(Entry(Key(k, name, None), TextV(s)))
  {
    KindClasses(k);
    UnquoteQuoted(s);
    if k == MagicTag {
      assert s[..4] == s;
    }
  }

  lemma FloatDecodes(k: Kind, name: string, s: string)
    requires ScalarOK(k, TextV(s)) && !IsEscapedKind(k) && !IsLiteralKind(k)
    ensures ScalarText(Known(k), ValueText(k, TextV(s))).Success?
    ensures ScalarField(Known(k), name, ScalarText(Known(k), ValueText(k, TextV(s))).value) == Success(Entry(Key(k, name, None), TextV(s)))
  {
    KindClasses(k);
    ValueTextShape(k, TextV(s));
    UnquoteUnquoted(ValueText(k, TextV(s)));
  }

  // ------------------------------------------------------------- one line

  /** The innermost open container is a dictionary (or only the root is open). */
  predicate TopIsDict(st: Stack) {
    st.open == [] || st.open[|st.open| - 1].node.DictNode?
  }

  predicate TopIsList(st: Stack) {
    st.open != [] && st.open[|st.open| - 1].node.ListNode?
  }

  /** The stripped text of a field line is classified as its own node or field. */
  lemma StripFieldLine(e: Entry, depth: nat)
    requires KeyOK(e.key)
    requires !IsNodeKind(e.key.kind) ==> ScalarOK(e.key.kind, e.value)
    ensures Strip(FieldLine(e, depth)) == Body(e) && Body(e) != [] && Body(e)[0] != '#' && Body(e) != "end()"
  {
    FieldLineIsIndentedBody(e, depth);
    BodyShape(e);
    StripIndented(4 * depth, Body(e));
    assert "end()"[0] == 'e';
  }

  /** The validated form of a written field line. */
  function Classified(e: Entry): Result<DslLine, ParseError> {
    if e.key.kind == Struct && e.key.id.Some? then Success(Node(Struct, e.key.name, Some(UnprettifyText(IntToString(Prettify(e.key.id.value))))))
    else if IsNodeKind(e.key.kind) then Success(Node(e.key.kind, e.key.name, None))
    else match ScalarText(Known(e.key.kind), ValueText(e.key.kind, e.value))
      case Failure(err) => Failure(err)
      case Success(v) => Success(Field(Known(e.key.kind), e.key.name, v))
  }

  lemma ClassifyOpen(e: Entry)
    requires KeyOK(e.key) && IsNodeKind(e.key.kind)
    requires Body(e) != [] && Body(e)[0] != '#' && Body(e) != "end()"
    ensures ClassifyLine(Body(e)) == Classified(e)
  {
    BodyTokens(e);
  }

  lemma ClassifyScalar(e: Entry)
    requires KeyOK(e.key) && !IsNodeKind(e.key.kind) && e.key.name != [] && ScalarOK(e.key.kind, e.value)
    requires Body(e) != [] && Body(e)[0] != '#' && Body(e) != "end()"
    ensures ScalarText(Known(e.key.kind), ValueText(e.key.kind, e.value)).Success?
    ensures ClassifyLine(Body(e)) == Classified(e)
  {
    BodyTokens(e);
    ScalarDecodes(e.key.kind, e.key.name, e.value);
  }

  /** The validated form of a field line, through `strip()`. */
  lemma ClassifyFieldLine(e: Entry, depth: nat)
    requires KeyOK(e.key)
    requires !IsNodeKind(e.key.kind) ==> e.key.name != [] && ScalarOK(e.key.kind, e.value)
    ensures !IsNodeKind(e.key.kind) ==> ScalarText(Known(e.key.kind), ValueText(e.key.kind, e.value)).Success?
    ensures ClassifyLine(Strip(FieldLine(e, depth))) == Classified(e)
  {
    StripFieldLine(e, depth);
    if IsNodeKind(e.key.kind) {
      ClassifyOpen(e);
    } else {
      ClassifyScalar(e);
    }
  }

  /** A scalar line adds its field to the innermost dictionary. */
  lemma StepScalar(st: Stack, e: Entry, depth: nat)
    requires KeyOK(e.key) && !IsNodeKind(e.key.kind) && e.key.name != [] && ScalarOK(e.key.kind, e.value)
    requires TopIsDict(st)
    ensures Step(st, FieldLine(e, depth)) == Success(Attach(st, e))
  {
    var k := e.key.kind;
    ClassifyFieldLine(e, depth);
    ScalarDecodes(k, e.key.name, e.value);
    var v := ScalarText(Known(k), ValueText(k, e.value)).value;
    StepField(st, FieldLine(e, depth), Known(k), e.key.name, v, e);
  }

  /** A validated field line whose field builds adds that field to the innermost dictionary. */
  lemma StepField(st: Stack, raw: string, ty: LineType, name: string, v: string, e: Entry)
    requires ClassifyLine(Strip(raw)) == Success(Field(ty, name, v))
    requires ScalarField(ty, name, v) == Success(e) && TopIsDict(st)
    ensures Step(st, raw) == Success(Attach(st, e))
  {
  }

  /** A node line opens an empty container under its own key. */
  lemma StepOpen(st: Stack, e: Entry, depth: nat)
    requires KeyOK(e.key) && IsNodeKind(e.key.kind)
    ensures Step(st, FieldLine(e, depth)) == Success(Stack(st.root, st.open + [Frame(e.key, OpenNode(e.key.kind))]))
  {
    var k := e.key.kind;
    ClassifyFieldLine(e, depth);
    var sid := if k == Struct then Some(UnprettifyText(IntToString(Prettify(e.key.id.value)))) else None;
    if k == Struct {
      SentinelTextRoundTrip(e.key.id.value);
    }
    assert Classified(e) == Success(Node(k, e.key.name, sid));
    StepNode(st, FieldLine(e, depth), k, e.key.name, sid, e.key);
  }

  /** A validated node line whose key builds opens an empty container under that key. */
  lemma StepNode(st: Stack, raw: string, k: Kind, name: string, sid: Option<string>, key: Key)
    requires ClassifyLine(Strip(raw)) == Success(Node(k, name, sid))
    requires IsNodeKind(k) && NodeKey(k, name, sid) == Success(key)
    ensures Step(st, raw) == Success(Stack(st.root, st.open + [Frame(key, OpenNode(k))]))
  {
  }

  /** An `end()` line closes the innermost container. */
  lemma StepEnd(st: Stack, depth: nat)
    ensures Step(st, EndLine(depth)) == Close(st)
  {
    StripIndented(4 * depth + 2, "end()");
    ClassifyEnd(Strip(EndLine(depth)));
  }

  // ------------------------------------------------------------ many lines

  /** Running two blocks of lines one after the other, for any step function. */
  lemma {:induction false} FoldAppend(step: (Stack, string) -> Result<Stack, ParseError>,
                                      st: Stack, a: seq<string>, b: seq<string>, mid: Stack)
    requires Fold(step, st, a) == Success(mid)
    ensures Fold(step, st, a + b) == Fold(step, mid, b)
    decreases |a|
  {
    if a == [] {
      assert a + b == b;
    } else {
      assert (a + b)[0] == a[0] && (a + b)[1..] == a[1..] + b;
      FoldAppend(step, step(st, a[0]).value, a[1..], b, mid);
    }
  }

  lemma FoldOne(step: (Stack, string) -> Result<Stack, ParseError>, st: Stack, line: string)
    ensures Fold(step, st, [line]) == step(st, line)
  {
    assert [line][1..] == [];
  }

  /** The innermost dictionary with `es` appended. */
  function AppendTop(st: Stack, es: seq<Entry>): (r: Stack)
    requires TopIsDict(st)
    ensures TopIsDict(r)
  {
    if st.open == [] then Stack(st.root + es, [])
    else
      var n := |st.open| - 1;
      Stack(st.root, st.open[..n] + [Frame(st.open[n].key, DictNode(st.open[n].node.entries + es))])
  }

  lemma AppendTopNothing(st: Stack)
    requires TopIsDict(st)
    ensures AppendTop(st, []) == st
  {
    if st.open != [] {
      var n := |st.open| - 1;
      assert st.open[n].node.entries + [] == st.open[n].node.entries;
      assert st.open[..n] + [st.open[n]] == st.open;
    } else {
      assert st.root + [] == st.root;
    }
  }

  lemma AttachIsAppendTop(st: Stack, e: Entry)
    requires TopIsDict(st)
    ensures Attach(st, e) == AppendTop(st, [e])
  {
  }

  lemma AppendTopTwice(st: Stack, a: seq<Entry>, b: seq<Entry>)
    requires TopIsDict(st)
    ensures AppendTop(AppendTop(st, a), b) == AppendTop(st, a + b)
  {
    if st.open != [] {
      var n := |st.open| - 1;
      assert (st.open[..n] + [Frame(st.open[n].key, DictNode(st.open[n].node.entries + a))])[..n] == st.open[..n];
      assert st.open[n].node.entries + a + b == st.open[n].node.entries + (a + b);
    } else {
      assert st.root + a + b == st.root + (a + b);
    }
  }

  /** The innermost list with `items` appended. */
  function AppendItems(st: Stack, items: seq<Dict>): (r: Stack)
    requires TopIsList(st)
    ensures TopIsList(r)
  {
    var n := |st.open| - 1;
    Stack(st.root, st.open[..n] + [Frame(st.open[n].key, ListNode(st.open[n].node.items + items))])
  }

  lemma AppendItemsNothing(st: Stack)
    requires TopIsList(st)
    ensures AppendItems(st, []) == st
  {
    var n := |st.open| - 1;
    assert st.open[n].node.items + [] == st.open[n].node.items;
    assert st.open[..n] + [st.open[n]] == st.open;
  }

  lemma AttachIsAppendItems(st: Stack, e: Entry)
    requires TopIsList(st)
    ensures Attach(st, e) == AppendItems(st, [Dict([e])])
  {
  }

  lemma AppendItemsTwice(st: Stack, a: seq<Dict>, b: seq<Dict>)
    requires TopIsList(st)
    ensures AppendItems(AppendItems(st, a), b) == AppendItems(st, a + b)
  {
    var n := |st.open| - 1;
    assert (st.open[..n] + [Frame(st.open[n].key, ListNode(st.open[n].node.items + a))])[..n] == st.open[..n];
    assert st.open[n].node.items + a + b == st.open[n].node.items + (a + b);
  }

  lemma FoldCons(step: (Stack, string) -> Result<Stack, ParseError>, st: Stack, line: string, more: seq<string>, next: Stack)
    requires step(st, line) == Success(next)
    ensures Fold(step, st, [line] + more) == Fold(step, next, more)
  {
    assert ([line] + more)[0] == line && ([line] + more)[1..] == more;
  }

  /** What reading one written line does, stated for any step function. */
  predicate ScalarLineOK(step: (Stack, string) -> Result<Stack, ParseError>, st: Stack, e: Entry, depth: nat) {
    step(st, FieldLine(e, depth)) == Success(Attach(st, e))
  }

  predicate OpenLineOK(step: (Stack, string) -> Result<Stack, ParseError>, st: Stack, e: Entry, depth: nat)
    requires IsNodeKind(e.key.kind)
  {
    step(st, FieldLine(e, depth)) == Success(Stack(st.root, st.open + [Frame(e.key, OpenNode(e.key.kind))]))
  }

  predicate EndLineOK(step: (Stack, string) -> Result<Stack, ParseError>, st: Stack, depth: nat) {
    step(st, EndLine(depth)) == Close(st)
  }

  predicate IsScalarEntry(e: Entry) {
    KeyOK(e.key) && !IsNodeKind(e.key.kind) && e.key.name != [] && ScalarOK(e.key.kind, e.value)
  }

  /** A step function that reads field lines, node lines and `end()` as `load_ndugff` does. */
  ghost predicate StepOK(step: (Stack, string) -> Result<Stack, ParseError>) {
    && (forall st: Stack, e: Entry, depth: nat | IsScalarEntry(e) && TopIsDict(st) :: ScalarLineOK(step, st, e, depth))
    && (forall st: Stack, e: Entry, depth: nat | KeyOK(e.key) && IsNodeKind(e.key.kind) :: OpenLineOK(step, st, e, depth))
    && (forall st: Stack, depth: nat :: EndLineOK(step, st, depth))
  }

  /** `load_ndugff`'s per-line step meets that description. */
  lemma LoaderStepOK()
    ensures StepOK(Step)
  {
    forall st: Stack, e: Entry, depth: nat | IsScalarEntry(e) && TopIsDict(st) ensures ScalarLineOK(Step, st, e, depth) {
      StepScalar(st, e, depth);
    }
    forall st: Stack, e: Entry, depth: nat | KeyOK(e.key) && IsNodeKind(e.key.kind) ensures OpenLineOK(Step, st, e, depth) {
      StepOpen(st, e, depth);
    }
    forall st: Stack, depth: nat ensures EndLineOK(Step, st, depth) {
      StepEnd(st, depth);
    }
  }

  // ------------------------------------------------------------ whole trees

  /** The lines of one field, read in at any depth, attach that field to the innermost container. */
  lemma {:induction false} EntryRun(step: (Stack, string) -> Result<Stack, ParseError>, st: Stack, e: Entry, depth: nat)
    requires StepOK(step)
    requires WFEntry(e) && (IsNodeKind(e.key.kind) || TopIsDict(st))
    ensures Fold(step, st, EntryLines(e, depth)) == Success(Attach(st, e))
    decreases e, 1
  {
    match e.value {
      case DictV(d) => DictEntryRun(step, st, e, d, depth);
      case ListV(items) => ListEntryRun(step, st, e, items, depth);
      case IntV(_) => ScalarEntryRun(step, st, e, depth);
      case TextV(_) => ScalarEntryRun(step, st, e, depth);
    }
  }

  lemma ScalarEntryRun(step: (Stack, string) -> Result<Stack, ParseError>, st: Stack, e: Entry, depth: nat)
    requires StepOK(step)
    requires IsScalarEntry(e) && TopIsDict(st)
    ensures Fold(step, st, EntryLines(e, depth)) == Success(Attach(st, e))
  {
    assert EntryLines(e, depth) == [FieldLine(e, depth)];
    assert ScalarLineOK(step, st, e, depth);
    FoldOne(step, st, FieldLine(e, depth));
  }

  lemma {:induction false} DictEntryRun(step: (Stack, string) -> Result<Stack, ParseError>, st: Stack, e: Entry, d: Dict, depth: nat)
    requires StepOK(step)
    requires e.value == DictV(d) && KeyOK(e.key) && (e.key.kind == Struct || e.key.kind == CExoLocString) && WF(d)
    ensures Fold(step, st, EntryLines(e, depth)) == Success(Attach(st, e))
    decreases e, 0
  {
    DictBodyRun(step, st, e.key, d, depth + 1);
    DictNodeRun(step, st, e, d, depth);
  }

  /** A dictionary's node line, its filled body and `end()`: the node attaches. */
  lemma DictNodeRun(step: (Stack, string) -> Result<Stack, ParseError>, st: Stack, e: Entry, d: Dict, depth: nat)
    requires StepOK(step)
    requires e.value == DictV(d) && KeyOK(e.key) && (e.key.kind == Struct || e.key.kind == CExoLocString)
    requires Fold(step, Stack(st.root, st.open + [Frame(e.key, DictNode([]))]), DictLines(d, depth + 1))
         == Success(Stack(st.root, st.open + [Frame(e.key, DictNode(d.entries))]))
    ensures Fold(step, st, EntryLines(e, depth)) == Success(Attach(st, e))
  {
    DictEntryLines(e, d, depth);
    assert OpenNode(e.key.kind) == DictNode([]);
    assert e.value == NodeValue(DictNode(d.entries));
    NodeEntryRun(step, st, e, DictNode(d.entries), depth, DictLines(d, depth + 1));
  }

  /** The lines of a dictionary, read into a container just opened, fill it. */
  lemma {:induction false} DictBodyRun(step: (Stack, string) -> Result<Stack, ParseError>, st: Stack, key: Key, d: Dict, depth: nat)
    requires StepOK(step) && WF(d)
    ensures Fold(step, Stack(st.root, st.open + [Frame(key, DictNode([]))]), DictLines(d, depth))
         == Success(Stack(st.root, st.open + [Frame(key, DictNode(d.entries))]))
    decreases d, 3
  {
    DictRun(step, Stack(st.root, st.open + [Frame(key, DictNode([]))]), d, depth);
    OpenedThenFilled(st, key, d.entries);
  }

  lemma {:induction false} ListEntryRun(step: (Stack, string) -> Result<Stack, ParseError>, st: Stack, e: Entry, items: seq<Dict>, depth: nat)
    requires StepOK(step)
    requires e.value == ListV(items) && KeyOK(e.key) && e.key.kind == List && WFItems(items)
    ensures Fold(step, st, EntryLines(e, depth)) == Success(Attach(st, e))
    decreases e, 0
  {
    ItemsBodyRun(step, st, e.key, items, depth + 1);
    ListEntryLines(e, items, depth);
    NodeEntryRun(step, st, e, ListNode(items), depth, ItemsLines(items, depth + 1));
  }

  /** The lines of list items, read into a list just opened, fill it. */
  lemma {:induction false} ItemsBodyRun(step: (Stack, string) -> Result<Stack, ParseError>, st: Stack, key: Key, items: seq<Dict>, depth: nat)
    requires StepOK(step) && WFItems(items)
    ensures Fold(step, Stack(st.root, st.open + [Frame(key, ListNode([]))]), ItemsLines(items, depth))
         == Success(Stack(st.root, st.open + [Frame(key, ListNode(items))]))
    decreases items, 3
  {
    ItemsRun(step, Stack(st.root, st.open + [Frame(key, ListNode([]))]), items, depth);
    OpenedThenFilledList(st, key, items);
  }

  lemma DictEntryLines(e: Entry, d: Dict, depth: nat)
    requires e.value == DictV(d)
    ensures EntryLines(e, depth) == [FieldLine(e, depth)] + DictLines(d, depth + 1) + [EndLine(depth)]
  {
  }

  lemma ListEntryLines(e: Entry, items: seq<Dict>, depth: nat)
    requires e.value == ListV(items)
    ensures EntryLines(e, depth) == [FieldLine(e, depth)] + ItemsLines(items, depth + 1) + [EndLine(depth)]
  {
  }

  /** A node line, lines that fill the opened container with `n`, and `end()`: the node attaches. */
  lemma NodeEntryRun(step: (Stack, string) -> Result<Stack, ParseError>, st: Stack, e: Entry, n: Node, depth: nat, body: seq<string>)
    requires StepOK(step) && KeyOK(e.key) && IsNodeKind(e.key.kind) && e.value == NodeValue(n)
    requires EntryLines(e, depth) == [FieldLine(e, depth)] + body + [EndLine(depth)]
    requires Fold(step, Stack(st.root, st.open + [Frame(e.key, OpenNode(e.key.kind))]), body) == Success(Stack(st.root, st.open + [Frame(e.key, n)]))
    ensures Fold(step, st, EntryLines(e, depth)) == Success(Attach(st, e))
  {
    var fl := FieldLine(e, depth);
    var st1 := Stack(st.root, st.open + [Frame(e.key, OpenNode(e.key.kind))]);
    var st2 := Stack(st.root, st.open + [Frame(e.key, n)]);
    assert OpenLineOK(step, st, e, depth);
    FoldCons(step, st, fl, body, st1);
    FoldAppend(step, st, [fl] + body, [EndLine(depth)], st2);
    assert EndLineOK(step, st2, depth);
    FoldOne(step, st2, EndLine(depth));
    ClosePops(st, e, n);
  }

  lemma OpenedThenFilled(st: Stack, key: Key, es: seq<Entry>)
    ensures AppendTop(Stack(st.root, st.open + [Frame(key, DictNode([]))]), es) == Stack(st.root, st.open + [Frame(key, DictNode(es))])
  {
    assert (st.open + [Frame(key, DictNode([]))])[..|st.open|] == st.open;
    assert [] + es == es;
  }

  lemma OpenedThenFilledList(st: Stack, key: Key, items: seq<Dict>)
    ensures AppendItems(Stack(st.root, st.open + [Frame(key, ListNode([]))]), items) == Stack(st.root, st.open + [Frame(key, ListNode(items))])
  {
    assert (st.open + [Frame(key, ListNode([]))])[..|st.open|] == st.open;
    assert [] + items == items;
  }

  /** Closing a container just opened on `st` attaches it to `st`. */
  lemma ClosePops(st: Stack, e: Entry, n: Node)
    requires e.value == NodeValue(n)
    ensures Close(Stack(st.root, st.open + [Frame(e.key, n)])) == Success(Attach(st, e))
  {
    assert (st.open + [Frame(e.key, n)])[..|st.open|] == st.open;
  }

  lemma {:induction false} DictRun(step: (Stack, string) -> Result<Stack, ParseError>, st: Stack, d: Dict, depth: nat)
    requires StepOK(step)
    requires WF(d) && TopIsDict(st)
    ensures Fold(step, st, DictLines(d, depth)) == Success(AppendTop(st, d.entries))
    decreases d, 2
  {
    EntriesRun(step, st, d.entries, depth);
  }

  lemma {:induction false} EntriesRun(step: (Stack, string) -> Result<Stack, ParseError>, st: Stack, es: seq<Entry>, depth: nat)
    requires StepOK(step)
    requires WFEntries(es) && TopIsDict(st)
    ensures Fold(step, st, EntriesLines(es, depth)) == Success(AppendTop(st, es))
    decreases es, 1
  {
    if es == [] {
      AppendTopNothing(st);
    } else {
      EntriesTail(es);
      EntryRun(step, st, es[0], depth);
      AttachIsAppendTop(st, es[0]);
      var st1 := AppendTop(st, [es[0]]);
      FoldAppend(step, st, EntryLines(es[0], depth), EntriesLines(es[1..], depth), st1);
      EntriesRun(step, st1, es[1..], depth);
      AppendTopTwice(st, [es[0]], es[1..]);
    }
  }

  lemma EntriesTail(es: seq<Entry>)
    requires WFEntries(es) && es != []
    ensures WFEntry(es[0]) && WFEntries(es[1..]) && [es[0]] + es[1..] == es
  {
    assert forall i :: 0 <= i < |es| - 1 ==> es[1..][i] == es[i + 1];
  }

  lemma ItemsTail(items: seq<Dict>)
    requires WFItems(items) && items != []
    ensures WFItem(items[0]) && WFItems(items[1..]) && [items[0]] + items[1..] == items
  {
    assert forall i :: 0 <= i < |items| - 1 ==> items[1..][i] == items[i + 1];
  }

  lemma {:induction false} ItemRun(step: (Stack, string) -> Result<Stack, ParseError>, st: Stack, d: Dict, depth: nat)
    requires StepOK(step)
    requires WFItem(d) && TopIsList(st)
    ensures Fold(step, st, DictLines(d, depth)) == Success(AppendItems(st, [d]))
    decreases d, 2
  {
    var e := d.entries[0];
    assert e in d.entries;
    assert d.entries == [e];
    assert EntriesLines([e], depth) == EntryLines(e, depth) + EntriesLines([], depth);
    assert EntryLines(e, depth) + [] == EntryLines(e, depth);
    EntryRun(step, st, e, depth);
    AttachIsAppendItems(st, e);
  }

  lemma {:induction false} ItemsRun(step: (Stack, string) -> Result<Stack, ParseError>, st: Stack, items: seq<Dict>, depth: nat)
    requires StepOK(step)
    requires WFItems(items) && TopIsList(st)
    ensures Fold(step, st, ItemsLines(items, depth)) == Success(AppendItems(st, items))
    decreases items, 1
  {
    if items == [] {
      AppendItemsNothing(st);
    } else {
      ItemsTail(items);
      ItemRun(step, st, items[0], depth);
      var st1 := AppendItems(st, [items[0]]);
      FoldAppend(step, st, DictLines(items[0], depth), ItemsLines(items[1..], depth), st1);
      ItemsRun(step, st1, items[1..], depth);
      AppendItemsTwice(st, [items[0]], items[1..]);
    }
  }

  /** Loading what `write_ndugff` wrote gives back the tree that was written, at any starting indentation. */
  lemma WriteThenLoad(d: Dict, depth: nat)
    requires WF(d)
    ensures ParseLines(DictLines(d, depth)) == Success(d)
  {
    LoaderStepOK();
    DictRun(Step, Stack([], []), d, depth);
    assert [] + d.entries == d.entries;
  }

  /**
   * The loop as written loses the whole tree behind one leading blank or
   * comment line: every later line is validated and then skipped.
   */
  lemma LeadingSkipLineAsWritten(d: Dict, depth: nat, raw: string)
    requires WF(d) && IsSkipLine(raw)
    ensures ParseLinesAsWritten([raw] + DictLines(d, depth)) == Success(Dict([]))
  {
    var lines := DictLines(d, depth);
    WriteThenLoad(d, depth);
    SkippingAfterValidFile(Stack([], []), Stack([], []), lines);
    assert ([raw] + lines)[0] == raw && ([raw] + lines)[1..] == lines;
  }

  /** With each blank or comment line skipped on its own, the same file loads in full. */
  lemma LeadingSkipLine(d: Dict, depth: nat, raw: string)
    requires WF(d) && IsSkipLine(raw)
    ensures ParseLines([raw] + DictLines(d, depth)) == Success(d)
  {
    WriteThenLoad(d, depth);
    SkipLinesChangeNothing(Stack([], []), raw);
    FoldCons(Step, Stack([], []), raw, DictLines(d, depth), Stack([], []));
  }
}
