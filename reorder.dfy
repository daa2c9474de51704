/**
 * `_Dict.reorder`: every dictionary of the tree is sorted, stably, by
 * (position of the key's type in `_FIELD_TYPES`, lower-cased key name);
 * list elements keep their order and are reordered inside.
 */
module Reorder {
  import opened PyStr
  import opened GffValue

  /** Python's `<` on strings: code-point lexicographic, a proper prefix is smaller. */
  predicate StrLt(a: string, b: string) {
    if a == [] then b != []
    else if b == [] then false
    else if a[0] == b[0] then StrLt(a[1..], b[1..])
    else a[0] < b[0]
  }

  lemma {:induction false} StrLtIrreflexive(a: string)
    ensures !StrLt(a, a)
    decreases |a|
  {
    if a != [] { StrLtIrreflexive(a[1..]); }
  }

  lemma {:induction false} StrLtTransitive(a: string, b: string, c: string)
    requires StrLt(a, b) && StrLt(b, c)
    ensures StrLt(a, c)
    decreases |a|
  {
    if a != [] && b != [] && c != [] && a[0] == b[0] && b[0] == c[0] {
      StrLtTransitive(a[1..], b[1..], c[1..]);
    }
  }

  lemma {:induction false} StrLtTotal(a: string, b: string)
    ensures a == b || StrLt(a, b) || StrLt(b, a)
    decreases |a|
  {
    if a != [] && b != [] && a[0] == b[0] {
      StrLtTotal(a[1..], b[1..]);
      if a[1..] == b[1..] {
        assert a == [a[0]] + a[1..] && b == [b[0]] + b[1..];
      }
    }
  }

  /** The `sort_key` of a key. */
  function SortKey(k: Key): (int, string) {
    (KindIndex(k.kind), Lower(k.name))
  }

  /** Tuple `<` on sort keys. */
  predicate KeyLt(a: Key, b: Key) {
    var (ia, na) := SortKey(a);
    var (ib, nb) := SortKey(b);
    ia < ib || (ia == ib && StrLt(na, nb))
  }

  lemma KeyLtIrreflexive(a: Key)
    ensures !KeyLt(a, a)
  {
    StrLtIrreflexive(Lower(a.name));
  }

  lemma KeyLtTransitive(a: Key, b: Key, c: Key)
    requires KeyLt(a, b) && KeyLt(b, c)
    ensures KeyLt(a, c)
  {
    if SortKey(a).0 == SortKey(b).0 == SortKey(c).0 {
      StrLtTransitive(SortKey(a).1, SortKey(b).1, SortKey(c).1);
    }
  }

  lemma KeyLtTotal(a: Key, b: Key)
    ensures SortKey(a) == SortKey(b) || KeyLt(a, b) || KeyLt(b, a)
  {
    StrLtTotal(SortKey(a).1, SortKey(b).1);
  }

  /** Sorted: no entry is strictly smaller than one before it. */
  predicate Sorted(s: seq<Entry>) {
    forall i, j :: 0 <= i < j < |s| ==> !KeyLt(s[j].key, s[i].key)
  }

  /** The entries of `s` whose sort key is `r`, in order. */
  function Rank(s: seq<Entry>, r: (int, string)): seq<Entry> {
    if s == [] then []
    else if SortKey(s[0].key) == r then [s[0]] + Rank(s[1..], r)
    else Rank(s[1..], r)
  }

  /** Insert `e` before the first entry that is not strictly smaller. */
  function Insert(e: Entry, s: seq<Entry>): seq<Entry> {
    if s == [] then [e]
    else if KeyLt(s[0].key, e.key) then [s[0]] + Insert(e, s[1..])
    else [e] + s
  }

  /** `sorted(..., key=sort_key)`, a stable sort. */
  function SortEntries(s: seq<Entry>): seq<Entry> {
    if s == [] then [] else Insert(s[0], SortEntries(s[1..]))
  }

  /** No entry of `t` is strictly smaller than `k`. */
  predicate LowerBound(k: Key, t: seq<Entry>) {
    forall j :: 0 <= j < |t| ==> !KeyLt(t[j].key, k)
  }

  lemma SortedCons(x: Entry, t: seq<Entry>)
    ensures Sorted([x] + t) <==> LowerBound(x.key, t) && Sorted(t)
  {
    var s := [x] + t;
    assert forall j :: 0 <= j < |t| ==> t[j] == s[j + 1];
    if Sorted(s) {
      forall j | 0 <= j < |t| ensures !KeyLt(t[j].key, x.key) { assert s[0] == x; }
      forall i, j | 0 <= i < j < |t| ensures !KeyLt(t[j].key, t[i].key) { assert t[j] == s[j + 1] && t[i] == s[i + 1]; }
    }
    if LowerBound(x.key, t) && Sorted(t) {
      forall i, j | 0 <= i < j < |s| ensures !KeyLt(s[j].key, s[i].key) {
        if i > 0 { assert s[i] == t[i - 1] && s[j] == t[j - 1]; }
      }
    }
  }

  lemma {:induction false} InsertMultiset(e: Entry, s: seq<Entry>)
    ensures multiset(Insert(e, s)) == multiset(s) + multiset{e}
    decreases |s|
  {
    if s != [] && KeyLt(s[0].key, e.key) {
      InsertMultiset(e, s[1..]);
      assert s == [s[0]] + s[1..];
    }
  }

  lemma {:induction false} InsertRank(e: Entry, s: seq<Entry>, r: (int, string))
    ensures Rank(Insert(e, s), r) == if SortKey(e.key) == r then [e] + Rank(s, r) else Rank(s, r)
    decreases |s|
  {
    if s == [] {
    } else if KeyLt(s[0].key, e.key) {
      InsertRank(e, s[1..], r);
      assert ([s[0]] + Insert(e, s[1..]))[1..] == Insert(e, s[1..]);
      if SortKey(s[0].key) == SortKey(e.key) { KeyLtIrreflexive(e.key); }
    } else {
      assert ([e] + s)[1..] == s;
    }
  }

  /** A lower bound of `s` that is also not above `e` bounds `Insert(e, s)`. */
  lemma {:induction false} InsertLowerBound(k: Key, e: Entry, s: seq<Entry>)
    requires LowerBound(k, s) && !KeyLt(e.key, k)
    ensures LowerBound(k, Insert(e, s))
    decreases |s|
  {
    if s != [] && KeyLt(s[0].key, e.key) {
      assert LowerBound(k, s[1..]) by {
        forall j | 0 <= j < |s[1..]| ensures !KeyLt(s[1..][j].key, k) { assert s[1..][j] == s[j + 1]; }
      }
      InsertLowerBound(k, e, s[1..]);
      var t := Insert(e, s[1..]);
      forall j | 0 <= j < |[s[0]] + t| ensures !KeyLt(([s[0]] + t)[j].key, k) {
        if j > 0 { assert ([s[0]] + t)[j] == t[j - 1]; }
      }
    }
  }

  lemma {:induction false} InsertSorted(e: Entry, s: seq<Entry>)
    requires Sorted(s)
    ensures Sorted(Insert(e, s))
    decreases |s|
  {
    if s == [] {
    } else if KeyLt(s[0].key, e.key) {
      SortedCons(s[0], s[1..]);
      assert s == [s[0]] + s[1..];
      InsertSorted(e, s[1..]);
      if KeyLt(e.key, s[0].key) { KeyLtTransitive(e.key, s[0].key, e.key); KeyLtIrreflexive(e.key); }
      InsertLowerBound(s[0].key, e, s[1..]);
      SortedCons(s[0], Insert(e, s[1..]));
    } else {
      forall j | 0 <= j < |s| ensures !KeyLt(s[j].key, e.key) {
        if j > 0 && KeyLt(s[j].key, e.key) {
          KeyLtTotal(s[0].key, s[j].key);
          if KeyLt(s[0].key, s[j].key) { KeyLtTransitive(s[0].key, s[j].key, e.key); }
        }
      }
      SortedCons(e, s);
    }
  }

  /**
   * The sort is sorted, a permutation, and stable: the entries sharing any
   * given sort key appear in their original order.
   */
  lemma {:induction false} SortEntriesProps(s: seq<Entry>)
    ensures Sorted(SortEntries(s))
    ensures multiset(SortEntries(s)) == multiset(s)
    ensures forall r :: Rank(SortEntries(s), r) == Rank(s, r)
    decreases |s|
  {
    if s != [] {
      SortEntriesProps(s[1..]);
      InsertSorted(s[0], SortEntries(s[1..]));
      InsertMultiset(s[0], SortEntries(s[1..]));
      forall r ensures Rank(SortEntries(s), r) == Rank(s, r) {
        InsertRank(s[0], SortEntries(s[1..]), r);
      }
      assert s == [s[0]] + s[1..];
    }
  }

  /** Sorting an already sorted sequence changes nothing. */
  lemma {:induction false} SortSortedIsIdentity(s: seq<Entry>)
    requires Sorted(s)
    ensures SortEntries(s) == s
    decreases |s|
  {
    if s != [] {
      assert Sorted(s[1..]);
      SortSortedIsIdentity(s[1..]);
      if |s| > 1 {
        assert !KeyLt(s[1].key, s[0].key);
        assert Insert(s[0], s[1..]) == [s[0]] + s[1..];
      }
      assert [s[0]] + s[1..] == s;
    }
  }

  // ------------------------------------------------------------- sort_recursive

  function ReorderEntry(e: Entry): Entry
    decreases e, 3
  {
    Entry(e.key, ReorderValue(e.value))
  }

  function ReorderValue(v: Value): Value
    decreases v, 2
  {
    match v
    case DictV(d) => DictV(ReorderDict(d))
    case ListV(items) => ListV(ReorderItems(items))
    case _ => v
  }

  /** Each list element reordered inside, in place. */
  function ReorderItems(items: seq<Dict>): (r: seq<Dict>)
    ensures |r| == |items|
    decreases items, 1
  {
    if items == [] then [] else [ReorderDict(items[0])] + ReorderItems(items[1..])
  }

  /** The entries of one dictionary, each with its value reordered, in their old order. */
  function ReorderEach(es: seq<Entry>): (r: seq<Entry>)
    ensures |r| == |es|
    decreases es, 1
  {
    if es == [] then [] else [ReorderEntry(es[0])] + ReorderEach(es[1..])
  }

  /** `reorder`, applied to one dictionary and everything below it. */
  function ReorderDict(d: Dict): Dict
    decreases d, 0
  {
    Dict(SortEntries(ReorderEach(d.entries)))
  }

  lemma {:induction false} ReorderEachAt(es: seq<Entry>, i: int)
    requires 0 <= i < |es|
    ensures ReorderEach(es)[i] == ReorderEntry(es[i])
    decreases |es|
  {
    if i > 0 { ReorderEachAt(es[1..], i - 1); }
  }

  /** Reordering a list keeps its elements in place and reorders each inside. */
  lemma {:induction false} ReorderKeepsListOrder(items: seq<Dict>, i: int)
    requires 0 <= i < |items|
    ensures |ReorderValue(ListV(items)).items| == |items|
    ensures ReorderValue(ListV(items)).items[i] == ReorderDict(items[i])
    decreases |items|
  {
    if i > 0 { ReorderKeepsListOrder(items[1..], i - 1); }
  }

  /** What `reorder` promises of one dictionary: sorted, same entries, stable per sort key. */
  lemma ReorderDictProps(d: Dict)
    ensures Sorted(ReorderDict(d).entries)
    ensures multiset(ReorderDict(d).entries) == multiset(ReorderEach(d.entries))
    ensures forall r :: Rank(ReorderDict(d).entries, r) == Rank(ReorderEach(d.entries), r)
  {
    SortEntriesProps(ReorderEach(d.entries));
  }

  /** A dictionary that is sorted at every level. */
  predicate Ordered(d: Dict)
    decreases d, 0
  {
    && Sorted(d.entries)
    && forall i :: 0 <= i < |d.entries| ==> OrderedValue(d.entries[i].value)
  }

  predicate OrderedValue(v: Value)
    decreases v, 1
  {
    match v
    case DictV(d) => Ordered(d)
    case ListV(items) => forall i :: 0 <= i < |items| ==> Ordered(items[i])
    case _ => true
  }

  /** An ordered tree is left unchanged by `reorder`. */
  lemma {:induction false} ReorderOrderedIsIdentity(d: Dict)
    requires Ordered(d)
    ensures ReorderDict(d) == d
    decreases d, 0
  {
    ReorderEachOrdered(d.entries);
    SortSortedIsIdentity(d.entries);
  }

  lemma {:induction false} ReorderEachOrdered(es: seq<Entry>)
    requires forall i :: 0 <= i < |es| ==> OrderedValue(es[i].value)
    ensures ReorderEach(es) == es
    decreases es, 0
  {
    if es != [] {
      ReorderEntryOrdered(es[0]);
      ReorderEachOrdered(es[1..]);
    }
  }

  lemma {:induction false} ReorderEntryOrdered(e: Entry)
    requires OrderedValue(e.value)
    ensures ReorderEntry(e) == e
    decreases e, 2
  {
    ReorderValueOrderedIsIdentity(e.value);
  }

  lemma {:induction false} ReorderItemsOrdered(items: seq<Dict>)
    requires forall i :: 0 <= i < |items| ==> Ordered(items[i])
    ensures ReorderItems(items) == items
    decreases items, 0
  {
    if items != [] {
      ReorderOrderedIsIdentity(items[0]);
      ReorderItemsOrdered(items[1..]);
    }
  }

  lemma {:induction false} ReorderValueOrderedIsIdentity(v: Value)
    requires OrderedValue(v)
    ensures ReorderValue(v) == v
    decreases v, 1
  {
    match v
    case DictV(d) => ReorderOrderedIsIdentity(d);
    case ListV(items) => ReorderItemsOrdered(items);
    case _ =>
  }

  /** Whatever `reorder` returns is ordered at every level. */
  lemma {:induction false} ReorderIsOrdered(d: Dict)
    ensures Ordered(ReorderDict(d))
    decreases d, 0
  {
    var m := ReorderEach(d.entries);
    SortEntriesProps(m);
    var r := ReorderDict(d).entries;
    forall i | 0 <= i < |r| ensures OrderedValue(r[i].value) {
      assert r[i] in multiset(r);
      assert r[i] in multiset(m);
      var k :| 0 <= k < |m| && m[k] == r[i];
      ReorderEachAt(d.entries, k);
      ReorderValueIsOrdered(d.entries[k].value);
    }
  }

  lemma {:induction false} ReorderItemsAreOrdered(items: seq<Dict>)
    ensures forall i :: 0 <= i < |ReorderItems(items)| ==> Ordered(ReorderItems(items)[i])
    decreases items, 0
  {
    if items != [] {
      ReorderIsOrdered(items[0]);
      ReorderItemsAreOrdered(items[1..]);
      var r := ReorderItems(items);
      assert forall i :: 1 <= i < |r| ==> r[i] == ReorderItems(items[1..])[i - 1];
    }
  }

  lemma {:induction false} ReorderValueIsOrdered(v: Value)
    ensures OrderedValue(ReorderValue(v))
    decreases v, 1
  {
    match v
    case DictV(d) => ReorderIsOrdered(d);
    case ListV(items) => ReorderItemsAreOrdered(items);
    case _ =>
  }

  /** `reorder` is idempotent. */
  lemma ReorderIdempotent(d: Dict)
    ensures ReorderDict(ReorderDict(d)) == ReorderDict(d)
  {
    ReorderIsOrdered(d);
    ReorderOrderedIsIdentity(ReorderDict(d));
  }
}
