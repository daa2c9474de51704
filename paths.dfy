/**
 * `_Paths`: the extension tables and `_is_file_of_type`, which decides
 * from a path's suffixes whether it names a GFF, `.ndugff`, `.json` or
 * ERF file. Whether the file (or folder) exists is a parameter.
 * The `pathlib` pieces it relies on (`name`, `suffixes`, `stem`,
 * `suffix`) are modelled on `/`-separated text.
 */
module Paths {
  import opened Wrappers
  import opened PyStr

  const GffExtensions: seq<string> := [
    ".are", ".git", ".gic", ".bic", ".dlg", ".gff", ".gui", ".ifo", ".fac", ".jrl",
    ".itp", ".utc", ".utd", ".ute", ".uti", ".utm", ".utp", ".uts", ".utt", ".utw"
  ]

  const ErfExtensions: seq<string> := [".erf", ".hak", ".mod", ".nwm"]

  /** The keys of `FILE_EXTENSIONS`. */
  datatype FileType = NdugffType | JsonType | GffType | ErfType

  /** A table entry is either one suffix (compared with `!=`) or a list (compared with `in`). */
  datatype Extensions = One(ext: string) | Many(exts: seq<string>)

  function TypeExtensions(t: FileType): Extensions {
    match t
    case NdugffType => One(".ndugff")
    case JsonType => One(".json")
    case GffType => Many(GffExtensions)
    case ErfType => Many(ErfExtensions)
  }

  predicate ExtensionOK(exts: Extensions, suffix: string) {
    match exts
    case One(e) => suffix == e
    case Many(es) => suffix in es
  }

  // ------------------------------------------------------------------ pathlib

  /** The index just past the last `/` of `s[..n]`, or 0. */
  function AfterLastSlash(s: string, n: nat): (i: nat)
    requires n <= |s|
    ensures i <= n && '/' !in s[i..n]
    ensures i > 0 ==> s[i - 1] == '/'
  {
    if n == 0 then 0 else if s[n - 1] == '/' then n else AfterLastSlash(s, n - 1)
  }

  /** `s` without trailing `/` characters. */
  function DropTrailingSlashes(s: string): (r: string)
    ensures |r| <= |s| && r == s[..|r|] && (r == [] || r[|r| - 1] != '/')
  {
    if s != [] && s[|s| - 1] == '/' then
      var t := s[..|s| - 1];
      var r := DropTrailingSlashes(t);
      assert t[..|r|] == s[..|r|];
      r
    else s
  }

  /** `Path(p).name`: the final component; `pathlib` drops `.` components, so a final `.` gives the one before it. */
  function Name(path: string): (r: string)
    ensures '/' !in r && r != "."
    decreases |path|
  {
    var p := DropTrailingSlashes(path);
    var i := AfterLastSlash(p, |p|);
    if p[i..] == "." then Name(p[..i]) else p[i..]
  }

  /** `s.split('.')`: never empty. */
  function SplitDots(s: string): (r: seq<string>)
    ensures |r| >= 1
    decreases |s|
  {
    var i := IndexOf(s, '.');
    if i == |s| then [s] else [s[..i]] + SplitDots(s[i + 1..])
  }

  /** `["." + p for p in parts]` */
  function DotPrefixed(parts: seq<string>): (r: seq<string>)
    ensures |r| == |parts|
    ensures forall i :: 0 <= i < |r| ==> r[i] == "." + parts[i]
  {
    if parts == [] then [] else ["." + parts[0]] + DotPrefixed(parts[1..])
  }

  /** `Path.suffixes`: none when the name ends with `.`; otherwise every `.part` after the first piece of the name with its leading dots removed. */
  function Suffixes(name: string): (r: seq<string>)
    ensures forall i :: 0 <= i < |r| ==> |r[i]| >= 1 && r[i][0] == '.'
  {
    if name != [] && name[|name| - 1] == '.' then []
    else DotPrefixed(SplitDots(LStripChar(name, '.'))[1..])
  }

  /** The index of the last `.` of `s`, or -1 (`str.rfind('.')`). */
  function LastDot(s: string): (i: int)
    ensures -1 <= i < |s| && (i >= 0 ==> s[i] == '.')
    ensures forall j :: i < j < |s| ==> s[j] != '.'
  {
    if s == [] then -1 else if s[|s| - 1] == '.' then |s| - 1 else LastDot(s[..|s| - 1])
  }

  /** `Path.suffix`: from the last dot, unless that dot is the first or the last character. */
  function Suffix(name: string): (r: string)
    ensures r == [] || (r[0] == '.' && |r| >= 2 && '.' !in r[1..])
  {
    var i := LastDot(name);
    if 0 < i < |name| - 1 then name[i..] else []
  }

  /** `Path.stem`: the name without its `Suffix`. */
  function Stem(name: string): (r: string)
    ensures r + Suffix(name) == name
  {
    var i := LastDot(name);
    if 0 < i < |name| - 1 then name[..i] else name
  }

  // --------------------------------------------------------- _is_file_of_type

  /**
   * `_is_file_of_type(path, skip_exist, target, base, is_folder)`; `present`
   * stands for `fp.is_dir()` when a folder is asked for and `fp.is_file()`
   * otherwise.
   */
  function IsFileOfType(path: string, skipExist: bool, present: bool, target: FileType, base: Option<FileType>): bool {
    SuffixesOfType(Suffixes(Name(path)), skipExist, present, target, base)
  }

  /** The decision once the suffixes are known: the last one against the target, the first against the base when there are two. */
  function SuffixesOfType(sfx: seq<string>, skipExist: bool, present: bool, target: FileType, base: Option<FileType>): bool {
    if |sfx| != 1 && |sfx| != 2 then false
    else if !ExtensionOK(TypeExtensions(target), Lower(sfx[|sfx| - 1])) then false
    else if |sfx| == 2 && base.Some? && !ExtensionOK(TypeExtensions(base.value), Lower(sfx[0])) then false
    else skipExist || present
  }

  function IsGffFile(path: string, skipExist: bool, present: bool): bool {
    IsFileOfType(path, skipExist, present, GffType, None)
  }

  function IsNdugffFile(path: string, skipExist: bool, present: bool): bool {
    IsFileOfType(path, skipExist, present, NdugffType, Some(GffType))
  }

  /**
   * `is_ndugff_file` as its documentation describes it: a file converted
   * from a GFF source, whose name keeps the GFF suffix inside the
   * `.ndugff` one (`foo.utc.ndugff`). As written, a name with the single
   * suffix `.ndugff` skips the inner test and is accepted too.
   */
  function IsConvertedNdugffFile(path: string, skipExist: bool, present: bool): bool {
    |Suffixes(Name(path))| == 2 && IsNdugffFile(path, skipExist, present)
  }

  function IsJsonFile(path: string, skipExist: bool, present: bool): bool {
    IsFileOfType(path, skipExist, present, JsonType, Some(GffType))
  }

  function IsErfFile(path: string, skipExist: bool, present: bool): bool {
    IsFileOfType(path, skipExist, present, ErfType, None)
  }

  /** The same test as `IsErfFile`; `present` is then the folder test. */
  function IsErfFolder(path: string, skipExist: bool, present: bool): bool {
    IsFileOfType(path, skipExist, present, ErfType, None)
  }

  // ----------------------------------------------------------------- lemmas

  /** A file name piece with no `.` and no `/`. */
  predicate Plain(s: string) {
    s != [] && '.' !in s && '/' !in s
  }

  lemma SplitDotsCons(a: string, b: string)
    requires '.' !in a
    ensures SplitDots(a + "." + b) == [a] + SplitDots(b)
  {
    var s := a + "." + b;
    assert s[..|a|] == a;
    assert s[|a| + 1..] == b;
    assert s[|a|] == '.';
  }

  lemma {:induction false} NoSlashBefore(s: string, n: nat)
    requires n <= |s| && '/' !in s
    ensures AfterLastSlash(s, n) == 0
  {
    if n > 0 {
      NoSlashBefore(s, n - 1);
    }
  }

  /** A name without `/` is its own final component. */
  lemma NamePlain(s: string)
    requires '/' !in s && s != "."
    ensures Name(s) == s
  {
    NoSlashBefore(s, |s|);
  }

  /** A final `/.` is dropped: the name of `x.utc/.` is `x.utc`. */
  lemma NameSkipsDotComponent(s: string)
    requires '/' !in s && s != "." && s != []
    ensures Name(s + "/.") == s
  {
    var p := s + "/.";
    assert DropTrailingSlashes(p) == p;
    assert p[|s|] == '/';
    assert AfterLastSlash(p, |p|) == |s| + 1;
    assert p[|s| + 1..] == ".";
    assert p[..|s| + 1] == s + "/";
    assert DropTrailingSlashes(s + "/") == s by {
      assert (s + "/")[..|s|] == s;
    }
    NamePlain(s);
  }

  /** The suffixes of a name that neither starts nor ends with a dot: one per piece after the first. */
  lemma SuffixesOfPieces(name: string, rest: seq<string>)
    requires name != [] && name[0] != '.' && name[|name| - 1] != '.'
    requires SplitDots(name)[1..] == rest
    ensures Suffixes(name) == DotPrefixed(rest)
  {
  }

  lemma LastNotDot(name: string, e: string)
    requires Plain(e) && |name| >= |e| && name[|name| - |e|..] == e
    ensures name[|name| - 1] != '.'
  {
    assert name[|name| - 1] == e[|e| - 1];
  }

  lemma FirstNotDot(name: string, stem: string)
    requires Plain(stem) && |name| >= |stem| && name[..|stem|] == stem
    ensures name != [] && name[0] != '.'
  {
    assert name[0] == stem[0];
  }

  lemma SplitDotsPlain(x: string)
    requires '.' !in x
    ensures SplitDots(x) == [x]
  {
  }

  lemma DotPrefixed2(x: string, y: string)
    ensures DotPrefixed([x, y]) == ["." + x, "." + y]
  {
    var r := DotPrefixed([x, y]);
    assert r[0] == "." + x && r[1] == "." + y;
  }

  /** The suffixes of `stem.x` */
  lemma Suffixes1(stem: string, x: string)
    requires Plain(stem) && Plain(x)
    ensures Suffixes(stem + "." + x) == ["." + x] && Name(stem + "." + x) == stem + "." + x
  {
    var name := stem + "." + x;
    SplitDotsCons(stem, x);
    SplitDotsPlain(x);
    var rest := SplitDots(name)[1..];
    assert rest == [x];
    LastNotDot(name, x);
    FirstNotDot(name, stem);
    SuffixesOfPieces(name, rest);
    NamePlain(name);
  }

  lemma SplitDots3(stem: string, x: string, y: string)
    requires Plain(stem) && Plain(x) && Plain(y)
    ensures SplitDots(stem + "." + x + "." + y) == [stem, x, y]
  {
    assert stem + "." + x + "." + y == stem + "." + (x + "." + y);
    SplitDotsCons(stem, x + "." + y);
    SplitDotsCons(x, y);
    SplitDotsPlain(y);
  }

  /** The suffixes of `stem.x.y` */
  lemma Suffixes2(stem: string, x: string, y: string)
    requires Plain(stem) && Plain(x) && Plain(y)
    ensures Suffixes(stem + "." + x + "." + y) == ["." + x, "." + y]
    ensures Name(stem + "." + x + "." + y) == stem + "." + x + "." + y
  {
    var name := stem + "." + x + "." + y;
    SplitDots3(stem, x, y);
    var rest := SplitDots(name)[1..];
    assert rest == [x, y];
    LastNotDot(name, y);
    FirstNotDot(name, stem);
    SuffixesOfPieces(name, rest);
    DotPrefixed2(x, y);
    NamePlain(name);
  }

  lemma SplitDots4(stem: string, x: string, y: string, z: string)
    requires Plain(stem) && Plain(x) && Plain(y) && Plain(z)
    ensures |SplitDots(stem + "." + x + "." + y + "." + z)| == 4
  {
    assert stem + "." + x + "." + y + "." + z == stem + "." + (x + "." + y + "." + z);
    SplitDotsCons(stem, x + "." + y + "." + z);
    SplitDots3(x, y, z);
  }

  /** `stem.x.y.z` has three suffixes. */
  lemma Suffixes3(stem: string, x: string, y: string, z: string)
    requires Plain(stem) && Plain(x) && Plain(y) && Plain(z)
    ensures |Suffixes(stem + "." + x + "." + y + "." + z)| == 3
    ensures Name(stem + "." + x + "." + y + "." + z) == stem + "." + x + "." + y + "." + z
  {
    var name := stem + "." + x + "." + y + "." + z;
    Suffixes3Count(stem, x, y, z, name);
    assert name[0] == stem[0] != '.';
    NamePlain(name);
  }

  lemma Suffixes3Count(stem: string, x: string, y: string, z: string, name: string)
    requires Plain(stem) && Plain(x) && Plain(y) && Plain(z)
    requires name == stem + "." + x + "." + y + "." + z
    ensures |Suffixes(name)| == 3
  {
    SplitDots4(stem, x, y, z);
    var rest := SplitDots(name)[1..];
    LastNotDot(name, z);
    FirstNotDot(name, stem);
    SuffixesOfPieces(name, rest);
  }

  /** `foo.utc.ndugff` (in any letter case) is an `.ndugff` file; `foo.txt.ndugff` is not. */
  lemma NdugffNames(stem: string, inner: string, ext: string, skipExist: bool, present: bool)
    requires Plain(stem) && Plain(inner) && Plain(ext) && Lower("." + ext) == ".ndugff"
    ensures IsNdugffFile(stem + "." + inner + "." + ext, skipExist, present)
      <==> (skipExist || present) && Lower("." + inner) in GffExtensions
  {
    Suffixes2(stem, inner, ext);
  }

  /** With one suffix there is no inner one to check, so `foo.ndugff` is accepted too. */
  lemma NdugffWithoutInnerSuffix(stem: string, ext: string, skipExist: bool, present: bool)
    requires Plain(stem) && Plain(ext) && Lower("." + ext) == ".ndugff"
    ensures IsNdugffFile(stem + "." + ext, skipExist, present) <==> skipExist || present
  {
    Suffixes1(stem, ext);
  }

  /** Corrected: `foo.utc.ndugff` is accepted exactly as before, since its inner suffix is checked. */
  lemma ConvertedNdugffNames(stem: string, inner: string, ext: string, skipExist: bool, present: bool)
    requires Plain(stem) && Plain(inner) && Plain(ext) && Lower("." + ext) == ".ndugff"
    ensures IsConvertedNdugffFile(stem + "." + inner + "." + ext, skipExist, present)
      <==> (skipExist || present) && Lower("." + inner) in GffExtensions
  {
    Suffixes2(stem, inner, ext);
  }

  /** Corrected: `foo.ndugff`, with no inner GFF suffix, is never an `.ndugff` file. */
  lemma ConvertedNdugffNeedsInnerSuffix(stem: string, ext: string, skipExist: bool, present: bool)
    requires Plain(stem) && Plain(ext)
    ensures !IsConvertedNdugffFile(stem + "." + ext, skipExist, present)
  {
    Suffixes1(stem, ext);
  }

  /** Three suffixes are never a known file type, whatever they are. */
  lemma ThreeSuffixesRejected(stem: string, x: string, y: string, z: string, skipExist: bool, present: bool, target: FileType, base: Option<FileType>)
    requires Plain(stem) && Plain(x) && Plain(y) && Plain(z)
    ensures !IsFileOfType(stem + "." + x + "." + y + "." + z, skipExist, present, target, base)
  {
    Suffixes3(stem, x, y, z);
  }

  /** A GFF file is recognised by its last suffix, in any letter case. */
  lemma GffNames(stem: string, ext: string, skipExist: bool, present: bool)
    requires Plain(stem) && Plain(ext)
    ensures IsGffFile(stem + "." + ext, skipExist, present) <==> (skipExist || present) && Lower("." + ext) in GffExtensions
  {
    Suffixes1(stem, ext);
  }

  /** A GFF name with an extra inner suffix is still a GFF file: only an `.ndugff` or `.json` target checks the inner one. */
  lemma GffNamesWithInnerSuffix(stem: string, other: string, ext: string, skipExist: bool, present: bool)
    requires Plain(stem) && Plain(other) && Plain(ext)
    ensures IsGffFile(stem + "." + other + "." + ext, skipExist, present) <==> (skipExist || present) && Lower("." + ext) in GffExtensions
  {
    Suffixes2(stem, other, ext);
  }

  /** Unless the existence test is skipped, a missing file is never accepted. */
  lemma MissingFileRejected(path: string, target: FileType, base: Option<FileType>)
    ensures !IsFileOfType(path, false, false, target, base)
  {
  }

  /** `Stem` and `Suffix` of `stem.ext`. */
  lemma StemAndSuffix(stem: string, ext: string)
    requires stem != [] && Plain(ext)
    ensures Suffix(stem + "." + ext) == "." + ext && Stem(stem + "." + ext) == stem
  {
    var name := stem + "." + ext;
    assert name[|stem|] == '.';
    assert forall j :: |stem| < j < |name| ==> name[j] == ext[j - |stem| - 1];
    LastDotIs(name, |stem|);
    assert name[|stem|..] == "." + ext;
    assert name[..|stem|] == stem;
  }

  lemma LastDotIs(s: string, i: nat)
    requires i < |s| && s[i] == '.'
    requires forall j :: i < j < |s| ==> s[j] != '.'
    ensures LastDot(s) == i
    decreases |s|
  {
    if i < |s| - 1 {
      LastDotIs(s[..|s| - 1], i);
    }
  }
}
