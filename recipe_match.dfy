/**
 * The decision procedure of `export_game_resources`: `_is_match_by_patterns`
 * tests a file name against the pattern groups of a recipe, and `_is_match`
 * applies the priority order exclude-fullname, match-fullname,
 * exclude-pattern, match-pattern. A compiled pattern is a sequence of
 * one-character elements (a literal, `.` or one of the three wildcard classes)
 * with optional `^`/`$` anchors.
 */
module RecipeMatch {
  import opened PyStr
  import Paths

  /** One element of a compiled pattern: a literal, `[a-z]`, `[0-9]`, `\w` or `.`. */
  datatype Elem = Lit(c: char) | Letter | Digit | Word | AnyChar

  /** ASCII `\w`: letters, digits and `_`. */
  predicate IsWordChar(c: char) {
    ('a' <= c <= 'z') || ('A' <= c <= 'Z') || ('0' <= c <= '9') || c == '_'
  }

  predicate ElemMatches(e: Elem, c: char) {
    match e
    case Lit(x) => c == x
    case Letter => 'a' <= c <= 'z'
    case Digit => '0' <= c <= '9'
    case Word => IsWordChar(c)
    case AnyChar => c != '\n'
  }

  /** A compiled pattern: `^` if `anchorStart`, the elements, `$` if `anchorEnd`. */
  datatype Pattern = Pattern(anchorStart: bool, anchorEnd: bool, elems: seq<Elem>)

  /** The elements match `s` starting at index `i`. */
  predicate MatchesAt(elems: seq<Elem>, s: string, i: nat) {
    i + |elems| <= |s| && forall k :: 0 <= k < |elems| ==> ElemMatches(elems[k], s[i + k])
  }

  /** `pattern.search(s)`: a match at some index the anchors allow. */
  predicate Search(p: Pattern, s: string) {
    exists i: nat :: i <= |s| && (p.anchorStart ==> i == 0) && (p.anchorEnd ==> i + |p.elems| == |s|) && MatchesAt(p.elems, s, i)
  }

  /** `pattern.match(s)`: a match at index 0. */
  predicate MatchStart(p: Pattern, s: string) {
    (p.anchorEnd ==> |p.elems| == |s|) && MatchesAt(p.elems, s, 0)
  }

  /** The compiled conditions of one `match`/`exclude` line; an absent or empty condition is `[]`. */
  datatype Group = Group(nameStart: seq<Pattern>, namePart: seq<Pattern>, nameEnd: seq<Pattern>, extension: seq<Pattern>)

  predicate AnyMatchStart(ps: seq<Pattern>, s: string) {
    exists p :: p in ps && MatchStart(p, s)
  }

  predicate AnySearch(ps: seq<Pattern>, s: string) {
    exists p :: p in ps && Search(p, s)
  }

  /** One group: some condition is present, and each present condition has a pattern that matches. */
  predicate GroupMatches(g: Group, stem: string, ext: string) {
    && (g.nameStart != [] || g.nameEnd != [] || g.namePart != [] || g.extension != [])
    && (g.nameStart != [] ==> AnyMatchStart(g.nameStart, stem))
    && (g.nameEnd != [] ==> AnySearch(g.nameEnd, stem))
    && (g.namePart != [] ==> AnySearch(g.namePart, stem))
    && (g.extension != [] ==> AnySearch(g.extension, ext))
  }

  /** The loop over the groups, returning at the first group that matches. */
  function FirstGroupMatches(groups: seq<Group>, stem: string, ext: string): (r: bool)
    ensures r <==> exists g :: g in groups && GroupMatches(g, stem, ext)
  {
    if groups == [] then false
    else GroupMatches(groups[0], stem, ext) || FirstGroupMatches(groups[1..], stem, ext)
  }

  /** `Path(f).stem` */
  function StemOf(filename: string): string {
    Paths.Stem(Paths.Name(filename))
  }

  /** `Path(f).suffix.lstrip(".")` */
  function ExtOf(filename: string): string {
    LStripChar(Paths.Suffix(Paths.Name(filename)), '.')
  }

  /** `_is_match_by_patterns(filename, patterns)` */
  function IsMatchByPatterns(filename: string, groups: seq<Group>): (r: bool)
    ensures r <==> exists g :: g in groups && GroupMatches(g, StemOf(filename), ExtOf(filename))
  {
    if groups == [] then false
    else FirstGroupMatches(groups, StemOf(filename), ExtOf(filename))
  }

  /** The compiled filters of a recipe. */
  datatype Filters = Filters(
    excludeFilenames: seq<string>,
    includeFilenames: seq<string>,
    excludePatterns: seq<Group>,
    includePatterns: seq<Group>)

  /** `_is_match(filename, filters)` */
  function IsMatch(filename: string, f: Filters): bool {
    if filename in f.excludeFilenames then false
    else if filename in f.includeFilenames then true
    else if IsMatchByPatterns(filename, f.excludePatterns) then false
    else IsMatchByPatterns(filename, f.includePatterns)
  }

  // ----------------------------------------------------------------- lemmas

  /** The priority order, and the decision as a whole. */
  lemma MatchPrecedence(filename: string, f: Filters)
    ensures filename in f.excludeFilenames ==> !IsMatch(filename, f)
    ensures filename !in f.excludeFilenames && filename in f.includeFilenames ==> IsMatch(filename, f)
    ensures (filename !in f.excludeFilenames && filename !in f.includeFilenames
             && IsMatchByPatterns(filename, f.excludePatterns)) ==> !IsMatch(filename, f)
    ensures IsMatch(filename, f) <==>
      filename !in f.excludeFilenames
      && (filename in f.includeFilenames
          || (!IsMatchByPatterns(filename, f.excludePatterns) && IsMatchByPatterns(filename, f.includePatterns)))
  {
  }

  /** No pattern group, no match. */
  lemma EmptyPatternsNeverMatch(filename: string)
    ensures !IsMatchByPatterns(filename, [])
  {
  }

  /** A group whose conditions are all empty never matches, whatever else is in the list. */
  lemma EmptyGroupNeverMatches(filename: string, groups: seq<Group>)
    ensures IsMatchByPatterns(filename, groups + [Group([], [], [], [])]) == IsMatchByPatterns(filename, groups)
  {
    var stem, ext := StemOf(filename), ExtOf(filename);
    if IsMatchByPatterns(filename, groups + [Group([], [], [], [])]) {
      var g :| g in groups + [Group([], [], [], [])] && GroupMatches(g, stem, ext);
      assert g in groups;
    }
  }

  /** Another include group never drops a file, and another exclude group never adds one. */
  lemma MorePatternsMonotone(filename: string, f: Filters, g: Group)
    ensures IsMatch(filename, f) ==> IsMatch(filename, f.(includePatterns := f.includePatterns + [g]))
    ensures IsMatch(filename, f.(excludePatterns := f.excludePatterns + [g])) ==> IsMatch(filename, f)
  {
    var stem, ext := StemOf(filename), ExtOf(filename);
    if IsMatchByPatterns(filename, f.includePatterns) {
      var h :| h in f.includePatterns && GroupMatches(h, stem, ext);
      assert h in f.includePatterns + [g];
    }
    if IsMatchByPatterns(filename, f.excludePatterns) {
      var h :| h in f.excludePatterns && GroupMatches(h, stem, ext);
      assert h in f.excludePatterns + [g];
    }
  }

  /** The order of the groups does not matter. */
  lemma GroupOrderIrrelevant(filename: string, a: seq<Group>, b: seq<Group>)
    requires multiset(a) == multiset(b)
    ensures IsMatchByPatterns(filename, a) == IsMatchByPatterns(filename, b)
  {
    forall g | g in a ensures g in b {
      assert g in multiset(a);
    }
    forall g | g in b ensures g in a {
      assert g in multiset(b);
    }
  }

  /** With `^` the pattern must match a prefix. */
  lemma StartAnchored(elems: seq<Elem>, s: string)
    ensures MatchStart(Pattern(true, false, elems), s) <==> MatchesAt(elems, s, 0)
    ensures Search(Pattern(true, false, elems), s) <==> MatchesAt(elems, s, 0)
  {
    if MatchesAt(elems, s, 0) {
      var z: nat := 0;
      assert z <= |s| && MatchesAt(elems, s, z);
    }
  }

  /** With `$` the pattern must match a suffix. */
  lemma EndAnchored(elems: seq<Elem>, s: string)
    ensures Search(Pattern(false, true, elems), s) <==> |elems| <= |s| && MatchesAt(elems, s, |s| - |elems|)
  {
    if |elems| <= |s| && MatchesAt(elems, s, |s| - |elems|) {
      var i: nat := |s| - |elems|;
      assert i <= |s| && i + |elems| == |s| && MatchesAt(elems, s, i);
    }
  }

  /** With both anchors the pattern must match the whole text. */
  lemma BothAnchored(elems: seq<Elem>, s: string)
    ensures Search(Pattern(true, true, elems), s) <==> |elems| == |s| && MatchesAt(elems, s, 0)
  {
    if |elems| == |s| && MatchesAt(elems, s, 0) {
      var z: nat := 0;
      assert z <= |s| && z + |elems| == |s| && MatchesAt(elems, s, z);
    }
  }

  /** Without anchors the pattern may match anywhere. */
  lemma Unanchored(elems: seq<Elem>, s: string, i: nat)
    requires MatchesAt(elems, s, i)
    ensures Search(Pattern(false, false, elems), s)
  {
  }

  // ------------------------------------------------------------------ export

  /** The names `export_game_resources` writes: each resource name lower-cased, kept when it matches. */
  function SelectedNames(resources: seq<string>, f: Filters): (r: seq<string>)
    ensures forall x :: x in r <==> exists res :: res in resources && x == Lower(res) && IsMatch(x, f)
  {
    if resources == [] then []
    else
      var x := Lower(resources[0]);
      var rest := SelectedNames(resources[1..], f);
      assert forall res :: res in resources <==> res == resources[0] || res in resources[1..];
      if IsMatch(x, f) then [x] + rest else rest
  }

  /** The export loop over the archive's file names; the file writes are recorded as the names written. */
  method ExportResources(resources: seq<string>, f: Filters) returns (written: seq<string>)
    ensures written == SelectedNames(resources, f)
  {
    written := [];
    var i := 0;
    while i < |resources|
      invariant 0 <= i <= |resources|
      invariant written + SelectedNames(resources[i..], f) == SelectedNames(resources, f)
    {
      assert resources[i..][1..] == resources[i + 1..];
      var filename := Lower(resources[i]);
      if IsMatch(filename, f) {
        written := written + [filename];
      }
      i := i + 1;
    }
    assert resources[i..] == [];
  }
}
