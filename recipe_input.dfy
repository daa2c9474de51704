/**
 * Reading a `.recipes` configuration (`_InputResolver`): every line is
 * stripped, comments are removed, each remaining line is tokenized into a
 * node type and its properties, and the tokens are assembled into the
 * sources and recipes they define, of which the selected ones are kept.
 */
module RecipeInput {
  import opened Wrappers
  import opened PyStr
  import RecipeText
  import opened RecipeNames

  // -------------------------------------------------------------- tokenizer

  /** The text that opens a property: `.name(`. */
  function Opener(prop: string): string {
    "." + prop + "("
  }

  /** The index of the first of `pats` that occurs in `line` at `p`. */
  function FirstAt(line: string, p: nat, pats: seq<string>): (r: Option<nat>)
    ensures r.Some? ==> r.value < |pats| && StartsAt(line, pats[r.value], p)
    ensures r.Some? ==> forall k :: 0 <= k < r.value ==> !StartsAt(line, pats[k], p)
    ensures r.None? ==> forall k :: 0 <= k < |pats| ==> !StartsAt(line, pats[k], p)
  {
    if pats == [] then None
    else if StartsAt(line, pats[0], p) then Some(0)
    else match FirstAt(line, p, pats[1..])
      case None => None
      case Some(k) => Some(k + 1)
  }

  /** `^(?P<type>selected|source|...)`: the node type the line starts with. */
  function LeadingType(line: string): (r: Option<string>)
    ensures r.Some? ==> r.value in NodeTypes && StartsAt(line, r.value, 0)
  {
    match FirstAt(line, 0, NodeTypes)
    case None => None
    case Some(k) => Some(NodeTypes[k])
  }

  /** A property found by the tokenizer: its name, its value and the index after it. */
  datatype PropMatch = PropMatch(prop: string, value: string, end: nat)

  /**
   * `("[^"]+"|\d+)\)` at `q`: a non-empty quoted text without quotes, or a
   * run of digits, followed by `)`. The value is what `strip('"')` leaves.
   */
  function ValueAt(line: string, q: nat): (r: Option<(string, nat)>)
    ensures r.Some? ==> q < r.value.1 <= |line| && line[r.value.1 - 1] == ')'
    ensures r.Some? ==> r.value.0 != [] && '"' !in r.value.0
    ensures r.Some? && line[q] != '"' ==> forall i :: 0 <= i < |r.value.0| ==> IsDigit(r.value.0[i])
    ensures r.Some? && line[q] == '"' ==> q + 2 < r.value.1 && line[q + 1..r.value.1 - 2] == r.value.0 && line[r.value.1 - 2] == '"'
  {
    if q >= |line| then None
    else if line[q] == '"' then
      var close := Find(line, '"', q + 1);
      if close > q + 1 && close + 1 < |line| && line[close + 1] == ')' then
        assert forall j :: q + 1 <= j < close ==> line[q + 1..close][j - (q + 1)] == line[j];
        Some((line[q + 1..close], close + 2))
      else None
    else
      var j := DigitEnd(line, q);
      if j > q && j < |line| && line[j] == ')' then Some((line[q..j], j + 1)) else None
  }

  /**
   * `\.(?P<property>...)\((?P<value>...)\)` at index `p`. No property name
   * holds `(`, so the alternative that can match is the name that ends at the
   * first `(` after the dot.
   */
  function PropertyAt(line: string, p: nat): (r: Option<PropMatch>)
    ensures r.Some? ==> p < r.value.end <= |line| && IsProperty(r.value.prop)
    ensures r.Some? ==> StartsAt(line, Opener(r.value.prop), p) && r.value.value != [] && '"' !in r.value.value
  {
    if p < |line| && line[p] == '.' then NamedProperty(line, p, Find(line, '(', p + 1)) else None
  }

  /** The property whose name runs from the dot at `p` to the first `(` after it, at `c`. */
  function NamedProperty(line: string, p: nat, c: nat): (r: Option<PropMatch>)
    requires p < c <= |line| && line[p] == '.' && (c < |line| ==> line[c] == '(')
    ensures r.Some? ==> p < r.value.end <= |line| && IsProperty(r.value.prop)
    ensures r.Some? ==> StartsAt(line, Opener(r.value.prop), p) && r.value.value != [] && '"' !in r.value.value
  {
    if c < |line| && IsProperty(line[p + 1..c]) then
      OpenerFound(line, p, c);
      match ValueAt(line, c + 1)
      case None => None
      case Some(v) => Some(PropMatch(line[p + 1..c], v.0, v.1))
    else None
  }

  lemma OpenerFound(line: string, p: nat, c: nat)
    requires p < |line| && line[p] == '.' && p < c < |line| && line[c] == '('
    ensures StartsAt(line, Opener(line[p + 1..c]), p)
  {
    assert line[p..c + 1] == [line[p]] + line[p + 1..c] + [line[c]];
  }

  /** The `finditer` loop from index `p`: each property found is recorded, a later one overriding an earlier one. */
  function ScanProps(line: string, p: nat, props: map<string, string>): (r: map<string, string>)
    requires p <= |line|
    ensures forall k :: k in props ==> k in r
    ensures forall k :: k in r ==> (k in props && r[k] == props[k]) || (IsProperty(k) && r[k] != [] && '"' !in r[k])
    decreases |line| - p
  {
    if p == |line| then props
    else match PropertyAt(line, p)
      case Some(m) => ScanProps(line, m.end, props[m.prop := m.value])
      case None => ScanProps(line, p + 1, props)
  }

  /** A tokenized line: its node type and its properties. */
  datatype Token = Token(kind: string, props: map<string, string>)

  /** A token the tokenizer can produce. */
  predicate TokenOK(t: Token) {
    && t.kind in NodeTypes
    && t.props != map[]
    && forall k :: k in t.props ==> IsProperty(k) && t.props[k] != [] && '"' !in t.props[k]
  }

  /** The token of one line, kept only when it has a type and at least one property. */
  function TokenizeLine(line: string): (r: Option<Token>)
    ensures r.Some? ==> TokenOK(r.value)
  {
    match LeadingType(line)
    case None => None
    case Some(t) =>
      var props := ScanProps(line, |t|, map[]);
      if props == map[] then None else Some(Token(t, props))
  }

  /** The body of the loop over the lines of `_get_tokenized_input`. */
  method TokenizeOne(line: string) returns (r: Option<Token>)
    ensures r == TokenizeLine(line)
  {
    var kind := LeadingType(line);
    var props := FindProperties(line, if kind.Some? then |kind.value| else 0);
    if kind.Some? && props != map[] {
      r := Some(Token(kind.value, props));
    } else {
      r := None;
    }
  }

  /** The `finditer` loop over the properties of a line, from index `start`. */
  method FindProperties(line: string, start: nat) returns (props: map<string, string>)
    requires start <= |line|
    ensures props == ScanProps(line, start, map[])
  {
    props := map[];
    var p := start;
    while p < |line|
      invariant start <= p <= |line|
      invariant ScanProps(line, p, props) == ScanProps(line, start, map[])
      decreases |line| - p
    {
      var m := PropertyAt(line, p);
      if m.Some? {
        var name, value, end := m.value.prop, m.value.value, m.value.end;
        ScanStep(line, p, props, name, value, end);
        props := props[name := value];
        p := end;
      } else {
        ScanSkip(line, p, props);
        p := p + 1;
      }
    }
    assert ScanProps(line, p, props) == props;
  }


  /** The tokens of the lines, in order, each line that yields none skipped. */
  function TokensOf(lines: seq<string>): (r: seq<Token>)
    ensures forall t :: t in r ==> TokenOK(t)
  {
    if lines == [] then [] else Listed(TokenizeLine(lines[0])) + TokensOf(lines[1..])
  }

  function Listed(t: Option<Token>): seq<Token> {
    if t.Some? then [t.value] else []
  }

  lemma TokensStep(lines: seq<string>, i: nat, t: Option<Token>)
    requires i < |lines| && t == TokenizeLine(lines[i])
    ensures TokensOf(lines[i..]) == Listed(t) + TokensOf(lines[i + 1..])
  {
    assert lines[i..][1..] == lines[i + 1..];
  }

  /** `[line.strip() for line in f.readlines()]` */
  function StrippedEach(raw: seq<string>): (r: seq<string>)
    ensures |r| == |raw| && forall i :: 0 <= i < |r| ==> r[i] == Strip(raw[i])
  {
    seq(|raw|, i requires 0 <= i < |raw| => Strip(raw[i]))
  }

  /** What `_get_tokenized_input` returns for the lines of the file. */
  function TokenizedInput(raw: seq<string>): seq<Token> {
    TokensOf(RecipeText.StrippedLines(StrippedEach(raw)))
  }

  lemma TokenAssoc(a: seq<Token>, b: seq<Token>, c: seq<Token>)
    ensures a + (b + c) == a + b + c
  {
  }

  /** `_get_tokenized_input`; reading the file is left to the caller, who passes its lines. */
  method GetTokenizedInput(raw: seq<string>) returns (tokens: seq<Token>)
    ensures tokens == TokenizedInput(raw)
  {
    var lines := RecipeText.StripComments(StrippedEach(raw));
    tokens := [];
    var i := 0;
    while i < |lines|
      invariant i <= |lines|
      invariant tokens + TokensOf(lines[i..]) == TokensOf(lines)
    {
      var t := TokenizeOne(lines[i]);
      TokensStep(lines, i, t);
      TokenAssoc(tokens, Listed(t), TokensOf(lines[i + 1..]));
      tokens := tokens + Listed(t);
      i := i + 1;
    }
    assert lines[i..] == [];
  }

  // --------------------------------------------------------- tokenizer lemmas

  /** How a property is written: `.name("value")`. */
  function RenderProperty(prop: string, value: string): string {
    Opener(prop) + "\"" + value + "\")"
  }

  /** The first `c` at or after `from` when the text there is `v`, which has none, followed by `c`. */
  lemma FindAfter(s: string, from: nat, v: string, c: char)
    requires c !in v && from + |v| < |s| && s[from + |v|] == c
    requires forall j :: 0 <= j < |v| ==> s[from + j] == v[j]
    ensures Find(s, c, from) == from + |v|
  {
    assert forall j :: from <= j < from + |v| ==> s[j] == v[j - from] && v[j - from] in v;
  }

  /** A quoted value followed by `)` is read back. */
  lemma QuotedValueAt(line: string, q: nat, value: string)
    requires value != [] && '"' !in value
    requires q + |value| + 3 <= |line| && line[q..q + |value| + 3] == "\"" + value + "\")"
    ensures ValueAt(line, q) == Some((value, q + |value| + 3))
  {
    var w := "\"" + value + "\")";
    assert line[q] == w[0];
    forall j | 0 <= j < |value| ensures line[q + 1 + j] == value[j] {
      assert line[q + 1 + j] == w[1 + j];
    }
    assert line[q + 1 + |value|] == w[|value| + 1];
    FindAfter(line, q + 1, value, '"');
    assert line[q + 1 + |value| + 1] == w[|value| + 2];
    assert line[q + 1..q + 1 + |value|] == w[1..|value| + 1] == value;
  }

  /** The two halves of a written property. */
  lemma RenderParts(prop: string, value: string)
    ensures |RenderProperty(prop, value)| == |Opener(prop)| + |value| + 3
    ensures RenderProperty(prop, value)[..|Opener(prop)|] == Opener(prop)
    ensures RenderProperty(prop, value)[|Opener(prop)|..] == "\"" + value + "\")"
  {
  }

  lemma SliceParts(line: string, p: nat, r: string, n: nat)
    requires p + |r| <= |line| && line[p..p + |r|] == r && n <= |r|
    ensures line[p..p + n] == r[..n] && line[p + n..p + |r|] == r[n..]
  {
  }

  /** A name without `(` after a dot is read up to the `(` that follows it. */
  lemma NameAt(line: string, p: nat, prop: string)
    requires '(' !in prop && StartsAt(line, Opener(prop), p)
    ensures line[p] == '.' && p + 1 + |prop| < |line|
    ensures Find(line, '(', p + 1) == p + 1 + |prop| && line[p + 1..p + 1 + |prop|] == prop
  {
    var o := Opener(prop);
    assert line[p] == o[0];
    forall j | 0 <= j < |prop| ensures line[p + 1 + j] == prop[j] {
      assert line[p + 1 + j] == o[1 + j];
    }
    assert line[p + 1 + |prop|] == o[|prop| + 1];
    FindAfter(line, p + 1, prop, '(');
    assert line[p + 1..p + 1 + |prop|] == o[1..|prop| + 1] == prop;
  }

  /** A written property is read back: its name, its value and its end. */
  lemma PropertyRoundTrip(line: string, p: nat, prop: string, value: string)
    requires IsProperty(prop) && value != [] && '"' !in value
    requires p + |RenderProperty(prop, value)| <= |line|
    requires line[p..p + |RenderProperty(prop, value)|] == RenderProperty(prop, value)
    ensures PropertyAt(line, p) == Some(PropMatch(prop, value, p + |RenderProperty(prop, value)|))
  {
    RenderParts(prop, value);
    SliceParts(line, p, RenderProperty(prop, value), |Opener(prop)|);
    NoParen(prop);
    PropertyAtParts(line, p, prop, value);
  }

  /** The same, from the opener and the quoted value standing one after the other. */
  lemma PropertyAtParts(line: string, p: nat, prop: string, value: string)
    requires IsProperty(prop) && '(' !in prop && value != [] && '"' !in value
    requires StartsAt(line, Opener(prop), p)
    requires StartsAt(line, "\"" + value + "\")", p + |prop| + 2)
    ensures PropertyAt(line, p) == Some(PropMatch(prop, value, p + |prop| + |value| + 5))
  {
    NameAt(line, p, prop);
    QuotedValueAt(line, p + |prop| + 2, value);
    PropertyAtFound(line, p, p + 1 + |prop|, prop, value, p + |prop| + |value| + 5);
  }

  lemma PropertyAtFound(line: string, p: nat, c: nat, name: string, value: string, end: nat)
    requires p < |line| && line[p] == '.' && p < c < |line| && Find(line, '(', p + 1) == c
    requires line[p + 1..c] == name && IsProperty(name) && ValueAt(line, c + 1) == Some((value, end))
    ensures PropertyAt(line, p) == Some(PropMatch(name, value, end))
  {
    assert PropertyAt(line, p) == NamedProperty(line, p, c);
  }

  /** The tokenizer's scan over a written property moves on to its end with the property recorded. */
  lemma ScanOverProperty(line: string, p: nat, prop: string, value: string, props: map<string, string>)
    requires IsProperty(prop) && value != [] && '"' !in value
    requires p + |RenderProperty(prop, value)| <= |line|
    requires line[p..p + |RenderProperty(prop, value)|] == RenderProperty(prop, value)
    ensures ScanProps(line, p, props) == ScanProps(line, p + |RenderProperty(prop, value)|, props[prop := value])
  {
    var end := p + |RenderProperty(prop, value)|;
    PropertyRoundTrip(line, p, prop, value);
    ScanStep(line, p, props, prop, value, end);
  }

  /** Where no property starts, the scan moves on by one character. */
  lemma ScanSkip(line: string, p: nat, props: map<string, string>)
    requires p < |line| && PropertyAt(line, p).None?
    ensures ScanProps(line, p, props) == ScanProps(line, p + 1, props)
  {
  }

  /** One step of the scan over a property found at `p`. */
  lemma ScanStep(line: string, p: nat, props: map<string, string>, name: string, value: string, end: nat)
    requires p < |line| && PropertyAt(line, p) == Some(PropMatch(name, value, end))
    ensures end <= |line| && ScanProps(line, p, props) == ScanProps(line, end, props[name := value])
  {
  }

  /** A line written as a node type and one property is read back as that token. */
  lemma TokenizeRendered(t: string, prop: string, value: string)
    requires t in NodeTypes && IsProperty(prop) && value != [] && '"' !in value
    ensures TokenizeLine(t + RenderProperty(prop, value)) == Some(Token(t, map[prop := value]))
  {
    var r := RenderProperty(prop, value);
    var line := t + r;
    LeadingTypeOf(t, r);
    assert line[|t|..|t| + |r|] == r;
    ScanOverProperty(line, |t|, prop, value, map[]);
    assert map[][prop := value] == map[prop := value];
  }

  /** Two written properties are scanned in turn. */
  lemma ScanTwo(line: string, p: nat, r1: string, r2: string, prop: string, first: string, second: string)
    requires IsProperty(prop) && first != [] && '"' !in first && second != [] && '"' !in second
    requires r1 == RenderProperty(prop, first) && r2 == RenderProperty(prop, second)
    requires p + |r1| + |r2| == |line| && line[p..] == r1 + r2
    ensures ScanProps(line, p, map[]) == map[prop := second]
  {
    assert line[p..p + |r1|] == r1;
    assert line[p + |r1|..p + |r1| + |r2|] == r2;
    ScanOverProperty(line, p, prop, first, map[]);
    ScanOverProperty(line, p + |r1|, prop, second, map[prop := first]);
    assert map[][prop := first][prop := second] == map[prop := second];
  }

  /** Of two values written for the same property, the later one is kept. */
  lemma LaterPropertyWins(t: string, prop: string, first: string, second: string)
    requires t in NodeTypes && IsProperty(prop)
    requires first != [] && '"' !in first && second != [] && '"' !in second
    ensures TokenizeLine(t + RenderProperty(prop, first) + RenderProperty(prop, second))
      == Some(Token(t, map[prop := second]))
  {
    var r1, r2 := RenderProperty(prop, first), RenderProperty(prop, second);
    var line := t + r1 + r2;
    assert t + (r1 + r2) == line;
    LeadingTypeOf(t, r1 + r2);
    assert line[|t|..] == r1 + r2;
    ScanTwo(line, |t|, r1, r2, prop, first, second);
  }

  /** Node types are prefix-free, so a line that starts with a type has exactly that type. */
  lemma LeadingTypeOf(t: string, rest: string)
    requires t in NodeTypes
    ensures LeadingType(t + rest) == Some(t)
  {
    var line := t + rest;
    assert line[..|t|] == t;
    var a :| 0 <= a < |NodeTypes| && NodeTypes[a] == t;
    assert StartsAt(line, NodeTypes[a], 0);
    var r := FirstAt(line, 0, NodeTypes);
    var u := NodeTypes[r.value];
    assert line[..|u|] == u;
    if |u| <= |t| {
      assert u == t[..|u|];
      TypesPrefixFree(r.value, a);
    } else {
      assert t == u[..|t|];
      TypesPrefixFree(a, r.value);
    }
  }


}
