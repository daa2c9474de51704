/**
 * `write_ndugff` / `dump_dict_lines`: one line per field, indented four
 * spaces per level, key as `type(name)` (`.id(n)` after a Struct), value
 * after `: ` for scalars; the children of a dictionary or list follow, and
 * `end()` closes them two spaces deeper than the opening line.
 */
module DslRender {
  import opened Wrappers
  import opened PyStr
  import opened GffValue
  import opened DslText

  /** `" " * n` */
  function Spaces(n: nat): (r: string)
    ensures |r| == n && forall i :: 0 <= i < n ==> r[i] == ' '
  {
    seq(n, _ => ' ')
  }

  /** `get_indent(depth)`: four spaces per level. */
  function Indent(depth: nat): (r: string)
    ensures |r| == 4 * depth && forall i :: 0 <= i < |r| ==> r[i] == ' '
  {
    Spaces(4 * depth)
  }

  /** `line` starts with (at least) the indentation of `depth`. */
  predicate IndentedBy(line: string, depth: nat) {
    4 * depth <= |line| && forall i :: 0 <= i < 4 * depth ==> line[i] == ' '
  }

  /** `end_node(depth)`: `int(4 * (depth + 0.5))` spaces, then `end()`. */
  function EndLine(depth: nat): (r: string)
    ensures |r| == 4 * depth + 7 && r[4 * depth + 2..] == "end()"
    ensures forall i :: 0 <= i < 4 * depth + 2 ==> r[i] == ' '
    ensures IndentedBy(r, depth) && !IndentedBy(r, depth + 1)
  {
    var r := Spaces(4 * depth + 2) + "end()";
    assert r[4 * depth + 2..] == "end()";
    assert r[4 * depth + 2] == 'e';
    r
  }

  /** `get_formatted_key`; a Struct id is shown with the sentinel as -1 (a missing one as `None`). */
  function FormattedKey(k: Key): string {
    if k.kind == Struct then
      KindName(k.kind) + "(" + k.name + ")" + ".id(" + (if k.id.Some? then IntToString(Prettify(k.id.value)) else "None") + ")"
    else KindName(k.kind) + "(" + k.name + ")"
  }

  /**
   * The text after `: ` (`get_formatted_value`): escaped kinds quoted and
   * escaped, literal kinds quoted, Dword with the sentinel as -1, other
   * integers in decimal, float text as it is. A container under a scalar
   * kind, which no loader produces, has no text here.
   */
  function ValueText(k: Kind, v: Value): string {
    match v
    case IntV(i) => if k == Dword then IntToString(Prettify(i)) else IntToString(i)
    case TextV(s) =>
      if IsEscapedKind(k) then "\"" + Escape(s) + "\""
      else if IsLiteralKind(k) then "\"" + s + "\""
      else s
    case _ => ""
  }

  /** `dump_field_line`: the opening line of a node, or a complete scalar line. */
  function FieldLine(e: Entry, depth: nat): string
  {
    if IsNodeKind(e.key.kind) then Indent(depth) + FormattedKey(e.key)
    else Indent(depth) + FormattedKey(e.key) + ": " + ValueText(e.key.kind, e.value)
  }

  /** The lines of one field and, for a container, its children and `end()`. */
  function EntryLines(e: Entry, depth: nat): (r: seq<string>)
    ensures |r| >= 1 && r[0] == FieldLine(e, depth)
    ensures !(e.value.DictV? || e.value.ListV?) ==> |r| == 1
    ensures (e.value.DictV? || e.value.ListV?) ==> |r| >= 2 && r[|r| - 1] == EndLine(depth)
    ensures forall i :: 0 < i < |r| - 1 ==> IndentedBy(r[i], depth + 1)
    ensures forall i :: 0 <= i < |r| ==> IndentedBy(r[i], depth)
    decreases e, 2
  {
    match e.value
    case DictV(d) => [FieldLine(e, depth)] + DictLines(d, depth + 1) + [EndLine(depth)]
    case ListV(items) => [FieldLine(e, depth)] + ItemsLines(items, depth + 1) + [EndLine(depth)]
    case _ => [FieldLine(e, depth)]
  }

  function EntriesLines(es: seq<Entry>, depth: nat): (r: seq<string>)
    ensures forall i :: 0 <= i < |r| ==> IndentedBy(r[i], depth)
    decreases es, 1
  {
    if es == [] then [] else EntryLines(es[0], depth) + EntriesLines(es[1..], depth)
  }

  lemma AppendAssoc(a: seq<string>, b: seq<string>, c: seq<string>)
    ensures a + b + c == a + (b + c)
  {
  }

  lemma WrapAssoc(a: seq<string>, b: seq<string>, c: seq<string>, d: seq<string>)
    ensures a + b + c + d == a + (b + c + d)
  {
  }

  lemma EntriesLinesUnfold(es: seq<Entry>, i: nat, depth: nat)
    requires i < |es|
    ensures EntriesLines(es[i..], depth) == EntryLines(es[i], depth) + EntriesLines(es[i + 1..], depth)
  {
    assert es[i..][1..] == es[i + 1..];
  }

  /** `dump_dict_lines(d, depth)` */
  function DictLines(d: Dict, depth: nat): (r: seq<string>)
    ensures forall i :: 0 <= i < |r| ==> IndentedBy(r[i], depth)
    decreases d, 0
  {
    EntriesLines(d.entries, depth)
  }

  /** Each list element's dictionary, at the same depth, one after the other. */
  function ItemsLines(items: seq<Dict>, depth: nat): (r: seq<string>)
    ensures forall i :: 0 <= i < |r| ==> IndentedBy(r[i], depth)
    decreases items, 1
  {
    if items == [] then [] else DictLines(items[0], depth) + ItemsLines(items[1..], depth)
  }

  /** `dump_dict_lines` as the source runs it: appending to the shared line list. */
  method DumpDictLines(d: Dict, depth: nat, acc: seq<string>) returns (out: seq<string>)
    ensures out == acc + DictLines(d, depth)
    decreases d, 0
  {
    var es := d.entries;
    out := acc;
    var i := 0;
    while i < |es|
      invariant 0 <= i <= |es|
      invariant out + EntriesLines(es[i..], depth) == acc + EntriesLines(es, depth)
    {
      EntriesLinesUnfold(es, i, depth);
      assert es[i] in es;
      AppendAssoc(out, EntryLines(es[i], depth), EntriesLines(es[i + 1..], depth));
      out := DumpEntryLines(es[i], depth, out);
      i := i + 1;
    }
  }

  /** One iteration of `dump_dict_lines`: the field line, then any children and `end()`. */
  method DumpEntryLines(e: Entry, depth: nat, acc: seq<string>) returns (out: seq<string>)
    ensures out == acc + EntryLines(e, depth)
    decreases e, 1
  {
    var head := acc + [FieldLine(e, depth)];
    match e.value {
      case DictV(c) =>
        assert EntryLines(e, depth) == [FieldLine(e, depth)] + DictLines(c, depth + 1) + [EndLine(depth)];
        WrapAssoc(acc, [FieldLine(e, depth)], DictLines(c, depth + 1), [EndLine(depth)]);
        out := DumpDictLines(c, depth + 1, head);
        out := out + [EndLine(depth)];
      case ListV(items) =>
        assert EntryLines(e, depth) == [FieldLine(e, depth)] + ItemsLines(items, depth + 1) + [EndLine(depth)];
        WrapAssoc(acc, [FieldLine(e, depth)], ItemsLines(items, depth + 1), [EndLine(depth)]);
        out := DumpItemsLines(items, depth + 1, head);
        out := out + [EndLine(depth)];
      case IntV(_) =>
        out := head;
      case TextV(_) =>
        out := head;
    }
  }

  /** The loop over a list's elements in `dump_dict_lines`. */
  method DumpItemsLines(items: seq<Dict>, depth: nat, acc: seq<string>) returns (out: seq<string>)
    ensures out == acc + ItemsLines(items, depth)
    decreases items, 0
  {
    out := acc;
    var j := 0;
    while j < |items|
      invariant 0 <= j <= |items|
      invariant out + ItemsLines(items[j..], depth) == acc + ItemsLines(items, depth)
    {
      assert items[j..][1..] == items[j + 1..];
      AppendAssoc(out, DictLines(items[j], depth), ItemsLines(items[j + 1..], depth));
      out := DumpDictLines(items[j], depth, out);
      j := j + 1;
    }
  }
}
