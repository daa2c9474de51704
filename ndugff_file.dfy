/**
 * The `.ndugff` side of `_Gff._Single`: the object holds the tree loaded
 * last (`_ndugff_dict`), `load_ndugff` replaces it with the reordered tree
 * of a file that parses, and `write_ndugff` renders it. The file system is
 * left out: a file is its list of lines, and whether it exists is the
 * `present` parameter of the path test. The path test is the corrected
 * `is_ndugff_file`, which asks for the inner GFF suffix its documentation
 * describes (`Paths.IsConvertedNdugffFile`).
 */
module NdugffFile {
  import opened Wrappers
  import opened PyStr
  import opened GffValue
  import opened DslParse
  import opened DslRender
  import opened RoundTrip
  import opened Reorder
  import opened Paths

  /** The tree after `load_ndugff(path)` on a file with these lines: a failed load keeps the tree loaded before. */
  function AfterLoad(prev: Option<Dict>, path: string, present: bool, lines: seq<string>): Option<Dict> {
    if IsConvertedNdugffFile(path, false, present) && ParseLines(lines).Success? then Some(ReorderDict(ParseLines(lines).value))
    else prev
  }

  /**
   * The lines `write_ndugff(path)` writes, or `None` when it writes
   * nothing: the path must name a converted `.ndugff` file (its existence is not
   * asked, so `present` plays no part) and the loaded tree must not be
   * missing or empty.
   */
  function WrittenLines(dict: Option<Dict>, path: string): Option<seq<string>> {
    if IsConvertedNdugffFile(path, true, false) && dict.Some? && dict.value.entries != [] then Some(DictLines(dict.value, 0))
    else None
  }

  class Single {
    /** `_ndugff_dict`: `None` until a file has been loaded. */
    var ndugffDict: Option<Dict>

    /** A loaded tree has been through `reorder`. */
    predicate Valid()
      reads this
    {
      ndugffDict.Some? ==> Ordered(ndugffDict.value)
    }

    constructor ()
      ensures ndugffDict.None? && Valid()
    {
      ndugffDict := None;
    }

    /** `load_ndugff(path)`; a `ValueError` while building the tree is swallowed. */
    method LoadNdugff(path: string, present: bool, lines: seq<string>)
      requires Valid()
      modifies this
      ensures Valid()
      ensures ndugffDict == AfterLoad(old(ndugffDict), path, present, lines)
    {
      if IsConvertedNdugffFile(path, false, present) {
        var r := BuildNdugffDict(lines);
        if r.Success? {
          ReorderIsOrdered(r.value);
          ndugffDict := Some(ReorderDict(r.value));
        }
      }
    }

    /** `write_ndugff(path)`: the lines joined into the file, or `None` when nothing is written. */
    method WriteNdugff(path: string) returns (lines: Option<seq<string>>)
      ensures lines == WrittenLines(ndugffDict, path)
    {
      lines := None;
      if IsConvertedNdugffFile(path, true, false) && ndugffDict.Some? && ndugffDict.value.entries != [] {
        var out := DumpDictLines(ndugffDict.value, 0, []);
        assert [] + DictLines(ndugffDict.value, 0) == DictLines(ndugffDict.value, 0);
        lines := Some(out);
      }
    }
  }

  // ------------------------------------------------------------------ lemmas

  /** Whatever is loaded is ordered, so the class invariant holds after any load. */
  lemma LoadIsOrdered(prev: Option<Dict>, path: string, present: bool, lines: seq<string>)
    requires prev.Some? ==> Ordered(prev.value)
    ensures AfterLoad(prev, path, present, lines).Some? ==> Ordered(AfterLoad(prev, path, present, lines).value)
  {
    if ParseLines(lines).Success? {
      ReorderIsOrdered(ParseLines(lines).value);
    }
  }

  /**
   * A tree that `write_ndugff` wrote comes back, unchanged, from
   * `load_ndugff` on any existing `.ndugff` path, whatever was loaded
   * before.
   */
  lemma WriteThenLoadRestores(d: Dict, prev: Option<Dict>, out: string, path: string, present: bool)
    requires WF(d) && Ordered(d)
    requires WrittenLines(Some(d), out).Some?
    requires IsConvertedNdugffFile(path, false, present)
    ensures AfterLoad(prev, path, present, WrittenLines(Some(d), out).value) == Some(d)
  {
    WriteThenLoad(d, 0);
    ReorderOrderedIsIdentity(d);
  }

  /** A file whose first line is an unmatched `end()` leaves the previous tree in place. */
  lemma UnmatchedEndKeepsPrevious(prev: Option<Dict>, path: string, present: bool, raw: string, rest: seq<string>)
    requires Strip(raw) == "end()"
    ensures AfterLoad(prev, path, present, [raw] + rest) == prev
  {
    var lines := [raw] + rest;
    UnmatchedEndFails(Stack([], []), raw, rest);
    assert ParseLines(lines) == Failure(UnexpectedEnd);
  }
}
