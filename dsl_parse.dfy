/**
 * `load_ndugff`: each line of a `.ndugff` file is stripped, tokenised by
 * `_DSL_TOKENIZER`, validated (`build_dsl_line`), converted
 * (`build_ndugff_field`) and applied to a stack of open containers
 * (`build_ndugff_dict`). Node lines (Struct, CExoLocString, List) open a
 * container, `end()` closes the innermost one into its parent, and scalar
 * lines add a field to the innermost dictionary.
 */
module DslParse {
  import opened Wrappers
  import opened PyStr
  import opened GffValue
  import opened DslText

  /** The reasons `log_and_raise` is called while loading. */
  datatype ParseError =
    | NoMatch             // the line does not match `_DSL_TOKENIZER`
    | MissingStructId     // a Struct line without `.id(...)`
    | MissingName         // a scalar line with an empty name
    | MissingValue        // a scalar line without `: value`
    | BackslashInString   // a backslash in a literal string kind
    | BackslashInValue    // a backslash in a non-string value
    | BadStructId         // `int()` refuses the struct id
    | UnknownType         // the type text is not a `_FIELD_TYPES` name
    | BadValue            // the value's `internal_value_type` refuses the text
    | UnexpectedEnd       // `end()` with no open node
    | FieldOutsideStruct  // a scalar line directly inside a List

  // ---------------------------------------------------------------- tokenizer

  /**
   * One alternative of the `type` group: `gff`, any character but a newline
   * (the `.` of the type name is unescaped in the pattern), the rest of the
   * type name, and the `(` that must follow.
   */
  predicate TypeMatches(line: string, k: Kind) {
    var n := KindName(k);
    && |line| > |n|
    && line[..3] == "gff" && line[3] != '\n'
    && line[4..|n|] == n[4..]
    && line[|n|] == '('
  }

  /** A type name followed by `(` blocks every longer type name from matching too. */
  lemma ShorterNameBlocks(line: string, a: Kind, b: Kind)
    requires |KindName(a)| < |KindName(b)|
    ensures !(TypeMatches(line, a) && TypeMatches(line, b))
  {
    var na, nb := KindName(a), KindName(b);
    if TypeMatches(line, b) {
      assert line[4..|nb|][|na| - 4] == nb[4..][|na| - 4];
      assert line[|na|] == nb[|na|];
    }
  }

  /** Two type names of one length that both match are the same name. */
  lemma SameLengthSameName(line: string, a: Kind, b: Kind)
    requires |KindName(a)| == |KindName(b)|
    ensures TypeMatches(line, a) && TypeMatches(line, b) ==> a == b
  {
    var na, nb := KindName(a), KindName(b);
    if TypeMatches(line, a) && TypeMatches(line, b) {
      assert na == na[..4] + na[4..] && nb == nb[..4] + nb[4..];
      KindNameInjective(a, b);
    }
  }

  /** At most one alternative can be followed by `(`, so the alternation order never matters. */
  lemma TypeMatchUnique(line: string, a: Kind, b: Kind)
    ensures TypeMatches(line, a) && TypeMatches(line, b) ==> a == b
  {
    if |KindName(a)| < |KindName(b)| {
      ShorterNameBlocks(line, a, b);
    } else if |KindName(b)| < |KindName(a)| {
      ShorterNameBlocks(line, b, a);
    } else {
      SameLengthSameName(line, a, b);
    }
  }

  /** The first alternative, in table order, that matches. */
  function FirstType(line: string, ks: seq<Kind>, i: nat): (r: Option<Kind>)
    requires i <= |ks|
    ensures r.Some? ==> TypeMatches(line, r.value)
    ensures r.None? ==> forall j :: i <= j < |ks| ==> !TypeMatches(line, ks[j])
    decreases |ks| - i
  {
    if i == |ks| then None
    else if TypeMatches(line, ks[i]) then Some(ks[i])
    else FirstType(line, ks, i + 1)
  }

  /** The matched `type` text: a table name when the fourth character is `.`, anything else otherwise. */
  datatype LineType = Known(kind: Kind) | Unknown(text: string)

  /** `[\w ]` (ASCII). */
  predicate NameChar(c: char) {
    ('a' <= c <= 'z') || ('A' <= c <= 'Z') || IsDigit(c) || c == '_' || c == ' '
  }

  function NameEnd(s: string, i: nat): (j: nat)
    requires i <= |s|
    ensures i <= j <= |s| && (forall m :: i <= m < j ==> NameChar(s[m])) && (j == |s| || !NameChar(s[j]))
    decreases |s| - i
  {
    if i < |s| && NameChar(s[i]) then NameEnd(s, i + 1) else i
  }

  function SpaceEnd(s: string, i: nat): (j: nat)
    requires i <= |s|
    ensures i <= j <= |s| && (forall m :: i <= m < j ==> s[m] == ' ') && (j == |s| || s[j] != ' ')
    decreases |s| - i
  {
    if i < |s| && s[i] == ' ' then SpaceEnd(s, i + 1) else i
  }

  /**
   * `(?:\.id\((?P<struct_id>-?\d+)\))?` at position `q`: the id text and the
   * position after the group, or no id and `q` unchanged.
   */
  function IdGroup(line: string, q: nat): (r: (Option<string>, nat))
    requires q <= |line|
    ensures q <= r.1 <= |line|
    ensures r.0.None? ==> r.1 == q
  {
    if StartsAt(line, ".id(", q) then
      var a := q + 4;
      var b := if a < |line| && line[a] == '-' then a + 1 else a;
      var c := DigitEnd(line, b);
      if c > b && c < |line| && line[c] == ')' then (Some(line[a..c]), c + 1) else (None, q)
    else (None, q)
  }

  /** `.+$` on the rest of the line: no newline, except one that ends the text. */
  function ValueTail(t: string): Option<string> {
    if t != [] && '\n' !in t then Some(t)
    else if |t| >= 2 && t[|t| - 1] == '\n' && '\n' !in t[..|t| - 1] then Some(t[..|t| - 1])
    else None
  }

  /** `[ ]*(?P<value>.+)$`: the greedy space run backs off one space at a time. */
  function TryValue(rest: string, j: nat): Option<string>
    requires j <= |rest|
    decreases j
  {
    if ValueTail(rest[j..]).Some? then ValueTail(rest[j..])
    else if j == 0 then None
    else TryValue(rest, j - 1)
  }

  /** `(?:\:[ ]*(?P<value>.+)$)?` at position `r`. */
  function ValueGroup(line: string, r: nat): Option<string>
    requires r <= |line|
  {
    if r < |line| && line[r] == ':' then
      var rest := line[r + 1..];
      TryValue(rest, SpaceEnd(rest, 0))
    else None
  }

  datatype Tokens = Tokens(ty: LineType, name: string, structId: Option<string>, value: Option<string>)

  /** `_DSL_TOKENIZER.match(line)`: anchored at the start, not at the end. */
  function MatchLine(line: string): (r: Option<Tokens>)
    ensures r.Some? ==> forall i :: 0 <= i < |r.value.name| ==> NameChar(r.value.name[i])
  {
    match FirstType(line, Kinds, 0)
    case None => None
    case Some(k) =>
      var n := |KindName(k)|;
      TokensAfter(line, n, if line[3] == '.' then Known(k) else Unknown(line[..n]))
  }

  /** The groups after a `type` group that ends at `n`, followed there by `(`. */
  function TokensAfter(line: string, n: nat, ty: LineType): (r: Option<Tokens>)
    requires n < |line|
    ensures r.Some? ==> forall i :: 0 <= i < |r.value.name| ==> NameChar(r.value.name[i])
  {
    var j := NameEnd(line, n + 1);
    if j < |line| && line[j] == ')' then
      var g := IdGroup(line, j + 1);
      Some(Tokens(ty, line[n + 1..j], g.0, ValueGroup(line, g.1)))
    else None
  }

  // -------------------------------------------------------- build_dsl_line

  /** A validated line. */
  datatype DslLine =
    | Skip
    | NodeEnd
    | Node(kind: Kind, name: string, structId: Option<string>)
    | Field(ty: LineType, name: string, value: string)

  /** `normalize_magic_tag`: `value[:4].ljust(4)`. */
  function MagicTagNormal(v: string): (r: string)
    ensures |r| == 4
    ensures |v| >= 4 ==> r == v[..4]
    ensures |v| < 4 ==> r[..|v|] == v && forall i :: |v| <= i < 4 ==> r[i] == ' '
  {
    if |v| >= 4 then v[..4] else v + seq(4 - |v|, _ => ' ')
  }

  predicate IsEscapedType(ty: LineType) { ty.Known? && IsEscapedKind(ty.kind) }
  predicate IsLiteralType(ty: LineType) { ty.Known? && IsLiteralKind(ty.kind) }

  /** The value text of a scalar line: unquoted, unescaped or refused, normalised. */
  function ScalarText(ty: LineType, v: string): (r: Result<string, ParseError>)
    ensures '\\' !in Unquote(v) && r.Success? && !(ty == Known(MagicTag) || ty == Known(Dword)) ==> r.value == Unquote(v)
    ensures '\\' in Unquote(v) && !IsEscapedType(ty) ==> r.Failure?
    ensures r.Success? && IsLiteralType(ty) ==> '\\' !in r.value
    ensures r.Success? && ty == Known(MagicTag) ==> |r.value| == 4
  {
    var u := Unquote(v);
    if '\\' in u && !IsEscapedType(ty) then
      Failure(if IsLiteralType(ty) then BackslashInString else BackslashInValue)
    else
      var w := if '\\' in u then Unescape(u) else u;
      var x := if ty == Known(MagicTag) then MagicTagNormal(w) else w;
      Success(if ty == Known(Dword) then UnprettifyText(x) else x)
  }

  /** `build_dsl_line` on a stripped line. */
  function ClassifyLine(line: string): (r: Result<DslLine, ParseError>)
    ensures line == [] || line[0] == '#' <==> r == Success(Skip)
    ensures r.Success? && r.value.Node? ==> IsNodeKind(r.value.kind) && (r.value.kind == Struct ==> r.value.structId.Some?)
  {
    if line == [] || line[0] == '#' then Success(Skip)
    else if line == "end()" then Success(NodeEnd)
    else match MatchLine(line)
      case None => Failure(NoMatch)
      case Some(t) =>
        if t.ty.Known? && IsNodeKind(t.ty.kind) then
          if t.ty.kind == Struct then
            if t.structId.None? then Failure(MissingStructId)
            else Success(Node(Struct, t.name, Some(UnprettifyText(t.structId.value))))
          else Success(Node(t.ty.kind, t.name, None))
        else if t.name == [] then Failure(MissingName)
        else if t.value.None? then Failure(MissingValue)
        else match ScalarText(t.ty, t.value.value)
          case Failure(e) => Failure(e)
          case Success(v) => Success(Field(t.ty, t.name, v))
  }

  /** What a validated line carries: `end()` only from `end()`, a match behind every node and field, field values normalised. */
  lemma ClassifyLineShape(line: string)
    ensures var r := ClassifyLine(line);
      && (r.Success? && r.value.NodeEnd? ==> line == "end()")
      && (r.Success? && (r.value.Node? || r.value.Field?) ==> MatchLine(line).Some?)
      && (r.Success? && r.value.Field? ==> r.value.name != [] && !(r.value.ty.Known? && IsNodeKind(r.value.ty.kind)))
      && (r.Success? && r.value.Field? && IsLiteralType(r.value.ty) ==> '\\' !in r.value.value)
      && (r.Success? && r.value.Field? && r.value.ty == Known(MagicTag) ==> |r.value.value| == 4)
  {
  }

  // --------------------------------------------------- build_ndugff_field

  /** The key of a node line; a Struct id goes through `int()`. */
  function NodeKey(k: Kind, name: string, structId: Option<string>): (r: Result<Key, ParseError>)
    ensures r.Success? ==> r.value.kind == k && r.value.name == name
    ensures r.Success? ==> (k == Struct <==> r.value.id.Some?)
    ensures k == Struct && structId.Some? ==> (r.Success? <==> PyInt(structId.value).Some?)
    ensures k == Struct && r.Success? ==> structId.Some? && r.value.id == PyInt(structId.value)
  {
    if k == Struct then
      match structId
      case None => Failure(BadStructId)
      case Some(s) =>
        (match PyInt(s)
         case None => Failure(BadStructId)
         case Some(n) => Success(Key(Struct, name, Some(n))))
    else Success(Key(k, name, None))
  }

  /** An int kind: `int(value)`. */
  function IntField(k: Kind, name: string, v: string): (r: Result<Entry, ParseError>)
    requires IsIntKind(k)
    ensures r.Success? <==> PyInt(v).Some?
    ensures r.Success? ==> r.value == Entry(Key(k, name, None), IntV(PyInt(v).value))
  {
    match PyInt(v)
    case None => Failure(BadValue)
    case Some(n) => Success(Entry(Key(k, name, None), IntV(n)))
  }

  /** A float or string kind: the text itself, once `float()` accepts it for the float kinds. */
  function TextField(k: Kind, name: string, v: string): (r: Result<Entry, ParseError>)
    requires IsTextKind(k)
    ensures r.Success? <==> !IsFloatKind(k) || IsPyFloat(v)
    ensures r.Success? ==> r.value == Entry(Key(k, name, None), TextV(v))
  {
    if IsFloatKind(k) && !IsPyFloat(v) then Failure(BadValue) else Success(Entry(Key(k, name, None), TextV(v)))
  }

  /** The field of a scalar line: `constructor(value)` for its kind. */
  function ScalarField(ty: LineType, name: string, v: string): (r: Result<Entry, ParseError>)
    ensures ty.Unknown? ==> r == Failure(UnknownType)
    ensures r.Success? ==> ty.Known? && r.value.key == Key(ty.kind, name, None) && TypedEntry(r.value)
    ensures ty.Known? && IsNodeKind(ty.kind) ==> r.Failure?
  {
    match ty
    case Unknown(_) => Failure(UnknownType)
    case Known(k) =>
      if IsIntKind(k) then IntField(k, name, v)
      else if IsTextKind(k) then TextField(k, name, v)
      else Failure(BadValue)
  }

  // ---------------------------------------------------- build_ndugff_dict

  /** The container an open frame is filling. */
  datatype Node = DictNode(entries: seq<Entry>) | ListNode(items: seq<Dict>)

  /** One stack element `{key: container}`. */
  datatype Frame = Frame(key: Key, node: Node)

  /** The stack: the root dictionary, then the open containers, innermost last. */
  datatype Stack = Stack(root: seq<Entry>, open: seq<Frame>)

  function NodeValue(n: Node): Value {
    match n
    case DictNode(es) => DictV(Dict(es))
    case ListNode(items) => ListV(items)
  }

  /** `constructor()` of a node kind. */
  function OpenNode(k: Kind): (n: Node)
    requires IsNodeKind(k)
    ensures NodeValue(n) == EmptyNode(k)
  {
    if k == List then ListNode([]) else DictNode([])
  }

  /** The innermost open frame receives `e`: appended to a list as `{key: value}`, or to a dictionary. */
  function Attach(st: Stack, e: Entry): (r: Stack)
    ensures |r.open| == |st.open|
    ensures st.open == [] ==> r.root == st.root + [e]
    ensures st.open != [] ==> r.root == st.root && r.open[..|st.open| - 1] == st.open[..|st.open| - 1]
  {
    if st.open == [] then Stack(st.root + [e], [])
    else
      var n := |st.open| - 1;
      var top := st.open[n];
      match top.node
      case ListNode(items) => Stack(st.root, st.open[..n] + [Frame(top.key, ListNode(items + [Dict([e])]))])
      case DictNode(es) => Stack(st.root, st.open[..n] + [Frame(top.key, DictNode(es + [e]))])
  }

  /** `end()`: pop the innermost frame into its parent. */
  function Close(st: Stack): (r: Result<Stack, ParseError>)
    ensures st.open == [] <==> r == Failure(UnexpectedEnd)
    ensures r.Success? ==> |r.value.open| == |st.open| - 1
  {
    if st.open == [] then Failure(UnexpectedEnd)
    else
      var n := |st.open| - 1;
      var child := st.open[n];
      Success(Attach(Stack(st.root, st.open[..n]), Entry(child.key, NodeValue(child.node))))
  }

  /** A scalar field goes into the innermost dictionary; a List there is an error. */
  function AddField(st: Stack, e: Entry): (r: Result<Stack, ParseError>)
    ensures st.open != [] && st.open[|st.open| - 1].node.ListNode? <==> r == Failure(FieldOutsideStruct)
    ensures r.Success? ==> r.value == Attach(st, e)
  {
    if st.open != [] && st.open[|st.open| - 1].node.ListNode? then Failure(FieldOutsideStruct)
    else Success(Attach(st, e))
  }

  /** The effect of one validated line on the stack. */
  function Apply(st: Stack, dl: DslLine): (r: Result<Stack, ParseError>)
    requires dl.Node? ==> IsNodeKind(dl.kind)
    ensures dl.Skip? ==> r == Success(st)
    ensures dl.NodeEnd? && st.open == [] ==> r == Failure(UnexpectedEnd)
    ensures r.Success? && dl.NodeEnd? ==> |r.value.open| == |st.open| - 1
    ensures r.Success? && dl.Node? ==>
              r.value.root == st.root && |r.value.open| == |st.open| + 1 && r.value.open[..|st.open|] == st.open
    ensures r.Success? && dl.Field? ==> |r.value.open| == |st.open|
  {
    match dl
    case Skip => Success(st)
    case NodeEnd => Close(st)
    case Node(k, name, sid) =>
      (match NodeKey(k, name, sid)
       case Failure(e) => Failure(e)
       case Success(key) => Success(Stack(st.root, st.open + [Frame(key, OpenNode(k))])))
    case Field(ty, name, v) =>
      (match ScalarField(ty, name, v)
       case Failure(e) => Failure(e)
       case Success(e) => AddField(st, e))
  }

  /** One raw line: stripped, validated, applied. */
  function Step(st: Stack, raw: string): Result<Stack, ParseError> {
    match ClassifyLine(Strip(raw))
    case Failure(e) => Failure(e)
    case Success(dl) => Apply(st, dl)
  }

  /** Lines fed one at a time to `step`, stopping at the first failure. */
  function Fold(step: (Stack, string) -> Result<Stack, ParseError>, st: Stack, lines: seq<string>): Result<Stack, ParseError>
    decreases |lines|
  {
    if lines == [] then Success(st)
    else match step(st, lines[0])
      case Failure(e) => Failure(e)
      case Success(next) => Fold(step, next, lines[1..])
  }

  function Run(st: Stack, lines: seq<string>): Result<Stack, ParseError> {
    Fold(Step, st, lines)
  }

  /**
   * `build_ndugff_dict` with blank and comment lines skipped one at a time:
   * the root dictionary after the last line. Containers still open at the
   * end are dropped, as the source keeps only `stack[0]`.
   */
  function ParseLines(lines: seq<string>): Result<Dict, ParseError> {
    match Run(Stack([], []), lines)
    case Failure(e) => Failure(e)
    case Success(st) => Success(Dict(st.root))
  }

  /** The stack of the source, `stack[0]` being the root frame, as the stack of the functions above. */
  function AsStack(stack: seq<Frame>): Stack
    requires |stack| >= 1 && stack[0].node.DictNode?
  {
    Stack(stack[0].node.entries, stack[1..])
  }

  /** One iteration of the loop of `build_ndugff_dict`, on the source's stack. */
  method ApplyLine(stack: seq<Frame>, dl: DslLine) returns (r: Result<seq<Frame>, ParseError>)
    requires |stack| >= 1 && stack[0].node.DictNode?
    requires dl.Node? ==> IsNodeKind(dl.kind)
    ensures r.Success? <==> Apply(AsStack(stack), dl).Success?
    ensures r.Failure? ==> r.error == Apply(AsStack(stack), dl).error
    ensures r.Success? ==> |r.value| >= 1 && r.value[0].node.DictNode? && AsStack(r.value) == Apply(AsStack(stack), dl).value
  {
    match dl {
      case Skip =>
        r := Success(stack);
      case NodeEnd =>
        r := PopFrame(stack);
      case Node(k, name, sid) =>
        var key := NodeKey(k, name, sid);
        if key.Failure? {
          return Failure(key.error);
        }
        r := Success(stack + [Frame(key.value, OpenNode(k))]);
        assert (stack + [Frame(key.value, OpenNode(k))])[1..] == stack[1..] + [Frame(key.value, OpenNode(k))];
      case Field(ty, name, v) =>
        var field := ScalarField(ty, name, v);
        if field.Failure? {
          return Failure(field.error);
        }
        r := PushField(stack, field.value);
    }
  }

  /** `end()` on the source's stack: the innermost frame popped into its parent. */
  method PopFrame(stack: seq<Frame>) returns (r: Result<seq<Frame>, ParseError>)
    requires |stack| >= 1 && stack[0].node.DictNode?
    ensures r.Success? <==> Close(AsStack(stack)).Success?
    ensures r.Failure? ==> r.error == Close(AsStack(stack)).error
    ensures r.Success? ==> |r.value| >= 1 && r.value[0].node.DictNode? && AsStack(r.value) == Close(AsStack(stack)).value
  {
    if |stack| <= 1 {
      return Failure(UnexpectedEnd);
    }
    var st := AsStack(stack);
    var child := stack[|stack| - 1];
    var rest := stack[..|stack| - 1];
    var entry := Entry(child.key, NodeValue(child.node));
    var parent := rest[|rest| - 1];
    var s: seq<Frame>;
    match parent.node {
      case ListNode(items) =>
        s := rest[..|rest| - 1] + [Frame(parent.key, ListNode(items + [Dict([entry])]))];
      case DictNode(es) =>
        s := rest[..|rest| - 1] + [Frame(parent.key, DictNode(es + [entry]))];
    }
    assert st.open[..|st.open| - 1] == rest[1..];
    r := Success(s);
  }

  /** A scalar field on the source's stack: into the innermost dictionary, refused in a List. */
  method PushField(stack: seq<Frame>, e: Entry) returns (r: Result<seq<Frame>, ParseError>)
    requires |stack| >= 1 && stack[0].node.DictNode?
    ensures r.Success? <==> AddField(AsStack(stack), e).Success?
    ensures r.Failure? ==> r.error == AddField(AsStack(stack), e).error
    ensures r.Success? ==> |r.value| >= 1 && r.value[0].node.DictNode? && AsStack(r.value) == AddField(AsStack(stack), e).value
  {
    var top := stack[|stack| - 1];
    match top.node {
      case ListNode(_) =>
        return Failure(FieldOutsideStruct);
      case DictNode(es) =>
        r := Success(stack[..|stack| - 1] + [Frame(top.key, DictNode(es + [e]))]);
    }
  }

  /**
   * The loop of `build_ndugff_dict`. `stack[0]` is the root frame, so the
   * source's `len(stack) <= 1` test is `|stack| <= 1`.
   */
  method BuildNdugffDict(lines: seq<string>) returns (r: Result<Dict, ParseError>)
    ensures r == ParseLines(lines)
  {
    var stack: seq<Frame> := [Frame(Key(Struct, "root", None), DictNode([]))];
    var i := 0;
    while i < |lines|
      invariant 0 <= i <= |lines|
      invariant |stack| >= 1 && stack[0].node.DictNode?
      invariant Run(AsStack(stack), lines[i..]) == Run(Stack([], []), lines)
    {
      assert lines[i..][1..] == lines[i + 1..];
      var dl := ClassifyLine(Strip(lines[i]));
      if dl.Failure? {
        return Failure(dl.error);
      }
      var next := ApplyLine(stack, dl.value);
      if next.Failure? {
        return Failure(next.error);
      }
      stack := next.value;
      i := i + 1;
    }
    r := Success(Dict(stack[0].node.entries));
  }

  // ------------------------------------------------- the source as written

  /**
   * `build_ndugff_dict` as written: a blank or comment line sets
   * `dsl_line.skip`, and the `continue` after it jumps over
   * `dsl_line.reset()`, so the flag stays set for every later line. Those
   * lines are still validated by `build_dsl_line` but never added.
   */
  function RunAsWritten(st: Stack, lines: seq<string>, skipping: bool): Result<Stack, ParseError>
    decreases |lines|
  {
    if lines == [] then Success(st)
    else match ClassifyLine(Strip(lines[0]))
      case Failure(e) => Failure(e)
      case Success(dl) =>
        if skipping || dl.Skip? then RunAsWritten(st, lines[1..], true)
        else match Apply(st, dl)
          case Failure(e) => Failure(e)
          case Success(next) => RunAsWritten(next, lines[1..], false)
  }

  function ParseLinesAsWritten(lines: seq<string>): Result<Dict, ParseError> {
    match RunAsWritten(Stack([], []), lines, false)
    case Failure(e) => Failure(e)
    case Success(st) => Success(Dict(st.root))
  }

  /** A line `build_dsl_line` marks as skipped. */
  predicate IsSkipLine(raw: string) {
    var line := Strip(raw);
    line == [] || line[0] == '#'
  }

  /** Without blank or comment lines the source as written and the corrected loop agree. */
  lemma {:induction false} AsWrittenAgreesWithoutSkips(st: Stack, lines: seq<string>)
    requires forall i :: 0 <= i < |lines| ==> !IsSkipLine(lines[i])
    ensures RunAsWritten(st, lines, false) == Run(st, lines)
    decreases |lines|
  {
    if lines != [] {
      var c := ClassifyLine(Strip(lines[0]));
      assert !IsSkipLine(lines[0]);
      if c.Success? {
        var a := Apply(st, c.value);
        if a.Success? {
          AsWrittenAgreesWithoutSkips(a.value, lines[1..]);
        }
      }
    }
  }

  /** Once skipping, the loop as written only validates: the stack stays as it was. */
  lemma {:induction false} SkippingKeepsStack(st: Stack, lines: seq<string>)
    ensures RunAsWritten(st, lines, true).Success? ==> RunAsWritten(st, lines, true) == Success(st)
    decreases |lines|
  {
    if lines != [] {
      SkippingKeepsStack(st, lines[1..]);
    }
  }

  /** Once skipping, the loop as written fails exactly when some later line is invalid. */
  lemma {:induction false} SkippingOnlyValidates(st: Stack, lines: seq<string>)
    ensures RunAsWritten(st, lines, true).Success? <==>
            forall i :: 0 <= i < |lines| ==> ClassifyLine(Strip(lines[i])).Success?
    decreases |lines|
  {
    if lines != [] {
      SkippingStep(st, lines);
      SkippingOnlyValidates(st, lines[1..]);
      AllCons(lines, raw => ClassifyLine(Strip(raw)).Success?);
    }
  }

  /** A property holds of every element exactly when it holds of the first and of every later one. */
  lemma AllCons<T>(xs: seq<T>, f: T -> bool)
    requires xs != []
    ensures (forall i :: 0 <= i < |xs| ==> f(xs[i])) <==> f(xs[0]) && forall i :: 0 <= i < |xs[1..]| ==> f(xs[1..][i])
  {
    assert forall i :: 1 <= i < |xs| ==> xs[i] == xs[1..][i - 1];
  }

  /** One line of the skipping loop: validated, then the rest. */
  lemma SkippingStep(st: Stack, lines: seq<string>)
    requires lines != []
    ensures RunAsWritten(st, lines, true).Success? <==>
            ClassifyLine(Strip(lines[0])).Success? && RunAsWritten(st, lines[1..], true).Success?
  {
  }

  // ------------------------------------------------------------ properties

  /** The stack only holds what the loaders produce: typed entries, and frames matching their keys. */
  predicate FrameTyped(f: Frame) {
    && IsNodeKind(f.key.kind)
    && (f.key.kind == List <==> f.node.ListNode?)
    && TypedEntry(Entry(f.key, NodeValue(f.node)))
  }

  predicate StackTyped(st: Stack) {
    && Typed(Dict(st.root))
    && forall i :: 0 <= i < |st.open| ==> FrameTyped(st.open[i])
  }

  lemma AttachTyped(st: Stack, e: Entry)
    requires StackTyped(st) && TypedEntry(e)
    ensures StackTyped(Attach(st, e))
  {
    var r := Attach(st, e);
    if st.open == [] {
      assert forall i :: 0 <= i < |st.root| ==> r.root[i] == st.root[i];
      assert r.root[|st.root|] == e;
    } else {
      var n := |st.open| - 1;
      var top := st.open[n];
      assert FrameTyped(top);
      match top.node {
        case ListNode(items) =>
          var items2 := items + [Dict([e])];
          assert TypedItems(items);
          assert Typed(Dict([e]));
          assert forall i :: 0 <= i < |items2| ==> items2[i] == if i < |items| then items[i] else Dict([e]);
          assert TypedItems(items2);
        case DictNode(es) =>
          var es2 := es + [e];
          assert Typed(Dict(es));
          assert forall i :: 0 <= i < |es2| ==> es2[i] == if i < |es| then es[i] else e;
          assert Typed(Dict(es2));
      }
      assert forall i :: 0 <= i < n ==> r.open[i] == st.open[i];
    }
  }

  lemma ApplyTyped(st: Stack, dl: DslLine)
    requires dl.Node? ==> IsNodeKind(dl.kind)
    requires StackTyped(st) && Apply(st, dl).Success?
    ensures StackTyped(Apply(st, dl).value)
  {
    match dl {
      case Skip =>
      case NodeEnd =>
        var n := |st.open| - 1;
        var child := st.open[n];
        assert FrameTyped(child);
        AttachTyped(Stack(st.root, st.open[..n]), Entry(child.key, NodeValue(child.node)));
      case Node(k, name, sid) =>
        var key := NodeKey(k, name, sid).value;
        assert FrameTyped(Frame(key, OpenNode(k)));
        var r := Apply(st, dl).value;
        assert forall i :: 0 <= i < |r.open| ==> r.open[i] == if i < |st.open| then st.open[i] else Frame(key, OpenNode(k));
      case Field(ty, name, v) =>
        var e := ScalarField(ty, name, v).value;
        assert TypedEntry(e);
        AttachTyped(st, e);
    }
  }

  lemma {:induction false} RunTyped(st: Stack, lines: seq<string>)
    requires StackTyped(st) && Run(st, lines).Success?
    ensures StackTyped(Run(st, lines).value)
    decreases |lines|
  {
    if lines != [] {
      var c := ClassifyLine(Strip(lines[0]));
      ApplyTyped(st, c.value);
      RunTyped(Apply(st, c.value).value, lines[1..]);
    }
  }

  /** Every tree the loader accepts is typed: kinds and values agree, and exactly the Structs have ids. */
  lemma ParseLinesTyped(lines: seq<string>)
    requires ParseLines(lines).Success?
    ensures Typed(ParseLines(lines).value)
  {
    RunTyped(Stack([], []), lines);
  }

  /** A fold that succeeds took a successful first step and succeeded on the rest. */
  lemma FoldSucceeds(step: (Stack, string) -> Result<Stack, ParseError>, st: Stack, lines: seq<string>)
    requires lines != [] && Fold(step, st, lines).Success?
    ensures step(st, lines[0]).Success? && Fold(step, step(st, lines[0]).value, lines[1..]).Success?
  {
  }

  lemma StepClassifies(st: Stack, raw: string)
    requires Step(st, raw).Success?
    ensures ClassifyLine(Strip(raw)).Success?
  {
  }

  /** Once skipping, the loop as written accepts every file the corrected loop accepts, and keeps its stack. */
  lemma {:induction false} SkippingAfterValidFile(st0: Stack, st: Stack, lines: seq<string>)
    requires Run(st0, lines).Success?
    ensures RunAsWritten(st, lines, true) == Success(st)
    decreases |lines|
  {
    if lines != [] {
      FoldSucceeds(Step, st0, lines);
      StepClassifies(st0, lines[0]);
      SkippingAfterValidFile(Step(st0, lines[0]).value, st, lines[1..]);
    }
  }

  /** Blank lines and comments change nothing. */
  lemma SkipLinesChangeNothing(st: Stack, raw: string)
    requires IsSkipLine(raw)
    ensures Step(st, raw) == Success(st)
  {
  }

  /** An `end()` line with no open node is refused, whatever follows it. */
  lemma UnmatchedEndFails(st: Stack, raw: string, rest: seq<string>)
    requires st.open == [] && Strip(raw) == "end()"
    ensures Run(st, [raw] + rest) == Failure(UnexpectedEnd)
  {
    assert ([raw] + rest)[0] == raw;
    EndStepFails(st, raw);
  }

  /** A line that strips to `end()` fails on a stack with nothing open. */
  lemma EndStepFails(st: Stack, raw: string)
    requires Strip(raw) == "end()" && st.open == []
    ensures Step(st, raw) == Failure(UnexpectedEnd)
  {
    ClassifyEnd(Strip(raw));
  }

  lemma ClassifyEnd(line: string)
    requires line == "end()"
    ensures ClassifyLine(line) == Success(NodeEnd)
  {
    assert line[0] == 'e';
  }
}
