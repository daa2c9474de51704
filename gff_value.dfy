/**
 * The in-memory value model of a loaded GFF document (`_ndugff_dict`):
 * an ordered sequence of (key, value) pairs, where a key is
 * `_Key(type, name, id)`. Keys have no equality of their own in the source
 * (identity hashing), so two entries with the same name never collide and
 * every insertion appends.
 */
module GffValue {
  import opened Wrappers
  import opened PyStr

  /** The DSL field types, in the order of the `_FIELD_TYPES` table. */
  datatype Kind =
    | Byte | Char | Word | Short | Int | Dword | Int64 | Dword64
    | Float | Double
    | MagicTag | ResRef | CExoString | Language | Base64String
    | CExoLocString | Struct | List

  /** The table, in declaration order; `list(_FIELD_TYPES).index(k)` is the index here. */
  const Kinds: seq<Kind> := [
    Byte, Char, Word, Short, Int, Dword, Int64, Dword64, Float, Double,
    MagicTag, ResRef, CExoString, Language, Base64String, CExoLocString, Struct, List
  ]

  /** Position of a kind in `_FIELD_TYPES` (the primary sort key of `reorder`). */
  function KindIndex(k: Kind): (i: nat)
    ensures i < |Kinds| && Kinds[i] == k
  {
    match k
    case Byte => 0 case Char => 1 case Word => 2 case Short => 3
    case Int => 4 case Dword => 5 case Int64 => 6 case Dword64 => 7
    case Float => 8 case Double => 9 case MagicTag => 10 case ResRef => 11
    case CExoString => 12 case Language => 13 case Base64String => 14
    case CExoLocString => 15 case Struct => 16 case List => 17
  }

  lemma KindNameInjective(a: Kind, b: Kind)
    ensures KindName(a) == KindName(b) <==> a == b
  {
  }

  lemma KindIndexInjective(a: Kind, b: Kind)
    ensures KindIndex(a) == KindIndex(b) <==> a == b
  {
  }

  /** The `dsl_type_name` of each kind, as written in `.ndugff` text. */
  function KindName(k: Kind): (r: string)
    ensures |r| > 4 && r[..4] == "gff."
  {
    match k
    case Byte => "gff.Byte" case Char => "gff.Char" case Word => "gff.Word"
    case Short => "gff.Short" case Int => "gff.Int" case Dword => "gff.Dword"
    case Int64 => "gff.Int64" case Dword64 => "gff.Dword64" case Float => "gff.Float"
    case Double => "gff.Double" case MagicTag => "gff.MagicTag" case ResRef => "gff.ResRef"
    case CExoString => "gff.CExoString" case Language => "gff.Language"
    case Base64String => "gff.Base64String" case CExoLocString => "gff.CExoLocString"
    case Struct => "gff.Struct" case List => "gff.List"
  }

  /** The four shapes of value a kind can have. */
  datatype KindClass = IntClass | FloatClass | StringClass | NodeClass

  /** The class of a kind, after its `internal_value_type` (`int`, `float`, `str`, `dict`/`list`). */
  function ClassOf(k: Kind): KindClass {
    match k
    case Byte => IntClass case Char => IntClass case Word => IntClass case Short => IntClass
    case Int => IntClass case Dword => IntClass case Int64 => IntClass case Dword64 => IntClass
    case Float => FloatClass case Double => FloatClass
    case MagicTag => StringClass case ResRef => StringClass case CExoString => StringClass
    case Language => StringClass case Base64String => StringClass
    case CExoLocString => NodeClass case Struct => NodeClass case List => NodeClass
  }

  /** `_NODE_TYPES`: kinds whose value is a container opened by a line and closed by `end()`. */
  predicate IsNodeKind(k: Kind) { ClassOf(k) == NodeClass }

  /** `_ESCAPED_STRING_TYPES` */
  predicate IsEscapedKind(k: Kind) { k == CExoString || k == Language }

  /** `_LITERAL_STRING_TYPES` */
  predicate IsLiteralKind(k: Kind) { k == ResRef || k == MagicTag || k == Base64String }

  /** Kinds whose `internal_value_type` is `int`. */
  predicate IsIntKind(k: Kind) { ClassOf(k) == IntClass }

  /** Kinds whose `internal_value_type` is `float`. */
  predicate IsFloatKind(k: Kind) { ClassOf(k) == FloatClass }

  /** Kinds whose value is held as text: floats (as their literal) and all string kinds. */
  predicate IsTextKind(k: Kind) { ClassOf(k) == FloatClass || ClassOf(k) == StringClass }

  /** Every kind is in exactly one class. */
  lemma KindClasses(k: Kind)
    ensures IsIntKind(k) <==> KindIndex(k) < 8
    ensures IsTextKind(k) <==> 8 <= KindIndex(k) < 15
    ensures IsNodeKind(k) <==> 15 <= KindIndex(k)
    ensures IsNodeKind(k) <==> k == CExoLocString || k == Struct || k == List
    ensures IsFloatKind(k) <==> k == Float || k == Double
    ensures ClassOf(k) == StringClass <==> IsEscapedKind(k) || IsLiteralKind(k)
  {
  }

  /** `_Key`: `id` is set only on Struct keys. */
  datatype Key = Key(kind: Kind, name: string, id: Option<int>)

  /**
   * A field value. Integers are unbounded, as Python's `int` is (range checks
   * belong to the foreign `gff.*` constructors). Float and Double values are
   * kept as their literal text.
   */
  datatype Value =
    | IntV(i: int)
    | TextV(s: string)
    | DictV(d: Dict)
    | ListV(items: seq<Dict>)

  datatype Entry = Entry(key: Key, value: Value)

  /** An insertion-ordered dictionary of fields. */
  datatype Dict = Dict(entries: seq<Entry>)

  /** The value container a node kind starts with (`constructor()`). */
  function EmptyNode(k: Kind): (v: Value)
    requires IsNodeKind(k)
    ensures k == List <==> v == ListV([])
    ensures k != List <==> v == DictV(Dict([]))
  {
    if k == List then ListV([]) else DictV(Dict([]))
  }

  /**
   * The shape the loaders always give a tree: int kinds hold integers,
   * float and string kinds hold text, Struct and CExoLocString hold a
   * dictionary, List holds a list of dictionaries, and exactly the Struct
   * keys carry an id.
   */
  predicate TypedEntry(e: Entry)
    decreases e, 1
  {
    var k := e.key.kind;
    && (k == Struct <==> e.key.id.Some?)
    && match e.value
       case IntV(_) => IsIntKind(k)
       case TextV(_) => IsTextKind(k)
       case DictV(d) => (k == Struct || k == CExoLocString) && Typed(d)
       case ListV(items) => k == List && TypedItems(items)
  }

  predicate TypedItems(items: seq<Dict>)
    decreases items, 0
  {
    forall i :: 0 <= i < |items| ==> Typed(items[i])
  }

  predicate Typed(d: Dict)
    decreases d, 0
  {
    forall i :: 0 <= i < |d.entries| ==> TypedEntry(d.entries[i])
  }

  // ---------------------------------------------------------------- sentinel

  /** `_GFF_UINT32_SENTINEL`: "unset" for Dword values and struct ids. */
  const Sentinel: int := 0xFFFF_FFFF

  /** `_PRETTY_SENTINEL`: how the sentinel is shown in text and accepted from JSON. */
  const PrettySentinel: int := -1

  /** `get_pretty_sentinel` (renderer). */
  function Prettify(v: int): (r: int)
    ensures v == Sentinel ==> r == PrettySentinel
    ensures v != Sentinel ==> r == v
  {
    if v == Sentinel then PrettySentinel else v
  }

  /** `get_unprettified_sentinel` of the DSL parser, which works on the literal text. */
  function UnprettifyText(s: string): (r: string)
    ensures s == "-1" ==> r == IntToString(Sentinel)
    ensures s != "-1" ==> r == s
  {
    if s == IntToString(PrettySentinel) then IntToString(Sentinel) else s
  }

  /** `get_unprettified_sentinel` of the JSON loader, which works on the value. */
  function UnprettifyValue(v: int): (r: int)
    ensures v == PrettySentinel ==> r == Sentinel
    ensures v != PrettySentinel ==> r == v
  {
    if v == PrettySentinel then Sentinel else v
  }

  /** Every value but -1 survives being prettified and unprettified. */
  lemma SentinelValueRoundTrip(v: int)
    requires v != PrettySentinel
    ensures UnprettifyValue(Prettify(v)) == v
  {
  }

  /**
   * The text round trip of a Dword value or struct id: the renderer writes
   * `str(Prettify(v))`, the parser unprettifies that text and applies `int()`.
   * The sentinel is written `-1` and read back as 4294967295.
   */
  lemma {:induction false} SentinelTextRoundTrip(v: int)
    requires v != PrettySentinel
    ensures PyInt(UnprettifyText(IntToString(Prettify(v)))) == Some(v)
    ensures v == Sentinel ==> IntToString(Prettify(v)) == "-1"
  {
    MinusOneText();
    if v == Sentinel {
      IntRoundTrip(Sentinel);
    } else {
      var t := IntToString(v);
      IntRoundTrip(v);
      IntRoundTrip(-1);
      assert t != "-1";
    }
  }

  lemma MinusOneText()
    ensures IntToString(PrettySentinel) == "-1"
  {
  }
}
