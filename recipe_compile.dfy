/**
 * `_RecipeCompiler._compile` without the key-file lookup: the value lists of
 * a recipe are split into de-duplicated tokens, each token's wildcards are
 * resolved (`?` to `\w`, `#` to `[0-9]`, `@` to `[a-z]`, after lower-casing)
 * and compiled with the anchors of its condition, and the `match`/`exclude`
 * children of the selected recipe become the filters of `_is_match`.
 *
 * The compiled text is read back by `CompileRegex`, which knows the three
 * constructs the resolution writes and `.`, and treats every other character
 * as a literal; the lemmas about compiled tokens are stated for tokens
 * without the other characters a regular expression reads (`PlainToken`).
 */
module RecipeCompile {
  import opened Wrappers
  import opened PyStr
  import opened RecipeMatch
  import opened RecipeStructure

  // --------------------------------------------------------------- wildcards

  /** `s.replace(c, rep)` for a one-character `c`. */
  function Subst(s: string, c: char, rep: string): string {
    ReplaceAll(s, [c], rep)
  }

  /** `resolve_token_wildcards(t)` */
  function ResolveTokenWildcards(t: string): string {
    Subst(Subst(Subst(Lower(t), '?', "\\w"), '#', "[0-9]"), '@', "[a-z]")
  }

  /** What the three replacements make of one character. */
  function ResolveChar(c: char): string {
    if c == '?' then "\\w" else if c == '#' then "[0-9]" else if c == '@' then "[a-z]" else [c]
  }

  function ResolveText(s: string): string {
    if s == [] then [] else ResolveChar(s[0]) + ResolveText(s[1..])
  }

  lemma SubstOne(c: char, x: char, rep: string)
    ensures Subst([c], x, rep) == if c == x then rep else [c]
  {
    assert [c][..1] == [c];
    assert [c][1..] == [];
    assert ReplaceAll([], [x], rep) == [];
    assert [c] == [x] <==> c == x;
  }

  lemma Subst3One(c: char)
    ensures Subst(Subst(Subst([c], '?', "\\w"), '#', "[0-9]"), '@', "[a-z]") == ResolveChar(c)
  {
    SubstOne(c, '?', "\\w");
    if c == '?' {
      ReplaceCharAbsent("\\w", '#', "[0-9]");
      ReplaceCharAbsent("\\w", '@', "[a-z]");
    } else {
      SubstOne(c, '#', "[0-9]");
      if c == '#' {
        ReplaceCharAbsent("[0-9]", '@', "[a-z]");
      } else {
        SubstOne(c, '@', "[a-z]");
      }
    }
  }

  /** The chained `replace` calls act character by character. */
  lemma {:induction false} ResolvePerChar(s: string)
    ensures Subst(Subst(Subst(s, '?', "\\w"), '#', "[0-9]"), '@', "[a-z]") == ResolveText(s)
    decreases |s|
  {
    if s != [] {
      var h, t := [s[0]], s[1..];
      assert s == h + t;
      ReplaceCharConcat(h, t, '?', "\\w");
      ReplaceCharConcat(Subst(h, '?', "\\w"), Subst(t, '?', "\\w"), '#', "[0-9]");
      ReplaceCharConcat(Subst(Subst(h, '?', "\\w"), '#', "[0-9]"), Subst(Subst(t, '?', "\\w"), '#', "[0-9]"), '@', "[a-z]");
      Subst3One(s[0]);
      ResolvePerChar(t);
    }
  }

  /**
   * The pattern text read as a regular expression: `\w`, `[0-9]` and
   * `[a-z]` are the classes the resolution writes, `.` is any character but
   * a newline; any other character stands for itself.
   */
  function CompileRegex(p: string): (r: seq<Elem>)
    decreases |p|
  {
    if p == [] then []
    else if |p| >= 2 && p[0] == '\\' && p[1] == 'w' then [Word] + CompileRegex(p[2..])
    else if |p| >= 5 && p[..5] == "[0-9]" then [Digit] + CompileRegex(p[5..])
    else if |p| >= 5 && p[..5] == "[a-z]" then [Letter] + CompileRegex(p[5..])
    else if p[0] == '.' then [AnyChar] + CompileRegex(p[1..])
    else [Lit(p[0])] + CompileRegex(p[1..])
  }

  /** The element a token character stands for: `?` a word character, `#` a digit, `@` a letter, `.` any character. */
  function WildcardElem(c: char): Elem {
    if c == '?' then Word else if c == '#' then Digit else if c == '@' then Letter else if c == '.' then AnyChar else Lit(c)
  }

  /**
   * Characters of a token that the regular-expression engine reads and the
   * compiler above does not model: escapes, classes, anchors, quantifiers
   * and groups (`?` and `.` are modelled; `|` never survives the value
   * tokenizer).
   */
  predicate IsRegexMeta(c: char) {
    c == '\\' || c == '[' || c == ']' || c == '^' || c == '$' || c == '*' || c == '+' || c == '(' || c == ')' || c == '{' || c == '}'
  }

  /** A token whose compiled pattern has one element per character. */
  predicate PlainToken(t: string) {
    forall i :: 0 <= i < |t| ==> !IsRegexMeta(t[i])
  }

  function Wildcards(s: string): (r: seq<Elem>)
    ensures |r| == |s| && forall i :: 0 <= i < |s| ==> r[i] == WildcardElem(s[i])
  {
    if s == [] then [] else [WildcardElem(s[0])] + Wildcards(s[1..])
  }

  lemma CompileWord(rest: string)
    ensures CompileRegex("\\w" + rest) == [Word] + CompileRegex(rest)
  {
    assert ("\\w" + rest)[2..] == rest;
  }

  lemma CompileDigit(rest: string)
    ensures CompileRegex("[0-9]" + rest) == [Digit] + CompileRegex(rest)
  {
    var p := "[0-9]" + rest;
    assert p[..5] == "[0-9]" && p[5..] == rest;
  }

  lemma CompileLetter(rest: string)
    ensures CompileRegex("[a-z]" + rest) == [Letter] + CompileRegex(rest)
  {
    var p := "[a-z]" + rest;
    assert p[..5] == "[a-z]" && p[5..] == rest;
    assert p[1] != '0';
  }

  lemma CompileDot(rest: string)
    ensures CompileRegex("." + rest) == [AnyChar] + CompileRegex(rest)
  {
    var p := "." + rest;
    assert p[0] == '.' && p[1..] == rest;
    assert |p| >= 5 ==> p[..5][0] == '.';
  }

  lemma CompileLiteral(c: char, rest: string)
    requires c != '\\' && c != '[' && c != '.'
    ensures CompileRegex([c] + rest) == [Lit(c)] + CompileRegex(rest)
  {
    var p := [c] + rest;
    assert p[0] == c && p[1..] == rest;
    assert |p| >= 5 ==> p[..5][0] == c;
  }

  lemma {:induction false} CompileResolvedText(s: string)
    requires '\\' !in s && '[' !in s
    ensures CompileRegex(ResolveText(s)) == Wildcards(s)
    decreases |s|
  {
    if s != [] {
      var c, rest := s[0], ResolveText(s[1..]);
      if c == '?' {
        CompileWord(rest);
      } else if c == '#' {
        CompileDigit(rest);
      } else if c == '@' {
        CompileLetter(rest);
      } else if c == '.' {
        CompileDot(rest);
      } else {
        CompileLiteral(c, rest);
      }
      assert forall k :: 0 <= k < |s[1..]| ==> s[1..][k] == s[k + 1];
      CompileResolvedText(s[1..]);
    }
  }

  /**
   * A resolved token compiles to one element per character of the
   * lower-cased token: `?` a word character, `#` a digit, `@` a letter,
   * `.` any character, anything else itself, for tokens without the
   * characters `PlainToken` excludes.
   */
  lemma CompileResolved(t: string)
    requires PlainToken(t)
    ensures CompileRegex(ResolveTokenWildcards(t)) == Wildcards(Lower(t))
  {
    var u := Lower(t);
    assert forall i :: 0 <= i < |u| ==> u[i] == LowerChar(t[i]);
    ResolvePerChar(u);
    CompileResolvedText(u);
  }

  /** The elements of a compiled token, position by position. */
  lemma TokenElems(t: string)
    requires PlainToken(t)
    ensures |CompileRegex(ResolveTokenWildcards(t))| == |t|
    ensures forall k :: 0 <= k < |t| ==> CompileRegex(ResolveTokenWildcards(t))[k] == WildcardElem(LowerChar(t[k]))
  {
    CompileResolved(t);
    var u := Lower(t);
    assert forall k :: 0 <= k < |t| ==> u[k] == LowerChar(t[k]);
  }

  /** `regex.compile` of a resolved token with the anchors of its condition. */
  function TokenPattern(token: string, anchorStart: bool, anchorEnd: bool): Pattern {
    Pattern(anchorStart, anchorEnd, CompileRegex(token))
  }

  /** An `extension` token must match the whole extension. */
  lemma ExtensionMatchesWhole(t: string, ext: string)
    requires PlainToken(t)
    ensures Search(TokenPattern(ResolveTokenWildcards(t), true, true), ext) <==>
      |t| == |ext| && forall k :: 0 <= k < |t| ==> ElemMatches(WildcardElem(LowerChar(t[k])), ext[k])
  {
    TokenElems(t);
    BothAnchored(CompileRegex(ResolveTokenWildcards(t)), ext);
  }

  /** A `name_start` token must match a prefix of the stem. */
  lemma NameStartMatchesPrefix(t: string, stem: string)
    requires PlainToken(t)
    ensures MatchStart(TokenPattern(ResolveTokenWildcards(t), true, false), stem) <==>
      |t| <= |stem| && forall k :: 0 <= k < |t| ==> ElemMatches(WildcardElem(LowerChar(t[k])), stem[k])
  {
    TokenElems(t);
    StartAnchored(CompileRegex(ResolveTokenWildcards(t)), stem);
  }

  /** A `name_end` token must match a suffix of the stem. */
  lemma NameEndMatchesSuffix(t: string, stem: string)
    requires PlainToken(t)
    ensures Search(TokenPattern(ResolveTokenWildcards(t), false, true), stem) <==>
      |t| <= |stem| && forall k :: 0 <= k < |t| ==> ElemMatches(WildcardElem(LowerChar(t[k])), stem[|stem| - |t| + k])
  {
    TokenElems(t);
    EndAnchored(CompileRegex(ResolveTokenWildcards(t)), stem);
  }

  /** The extension token `ut@` matches `utc`... */
  lemma ExtensionAcceptsExact(t: string, ext: string)
    requires t == "ut@" && ext == "utc"
    ensures Search(TokenPattern(ResolveTokenWildcards(t), true, true), ext)
  {
    ExtensionMatchesWhole(t, ext);
    assert LowerChar(t[0]) == ext[0] && LowerChar(t[1]) == ext[1] && t[2] == '@';
  }

  /** ...but not `utcx`. */
  lemma ExtensionRejectsLonger(t: string, ext: string)
    requires t == "ut@" && ext == "utcx"
    ensures !Search(TokenPattern(ResolveTokenWildcards(t), true, true), ext)
  {
    ExtensionMatchesWhole(t, ext);
  }

  /** A `.` in a token matches any character: the extension token `a.b` matches `axb`. */
  lemma ExtensionDotMatchesAny(t: string, ext: string)
    requires t == "a.b" && ext == "axb"
    ensures Search(TokenPattern(ResolveTokenWildcards(t), true, true), ext)
  {
    assert PlainToken(t);
    ExtensionMatchesWhole(t, ext);
    assert LowerChar(t[0]) == ext[0] && t[1] == '.' && LowerChar(t[2]) == ext[2];
  }

  // ------------------------------------------------------------ value lists

  /** `[,\s|;'"]`, the separators of `_value_tokenizer`. */
  predicate IsValueDelim(c: char) {
    c == ',' || IsSpace(c) || c == '|' || c == ';' || c == '\'' || c == '"'
  }

  /** The end of the run of non-separators that starts at `i`. */
  function RunEnd(s: string, i: nat): (j: nat)
    requires i <= |s|
    ensures i <= j <= |s|
    ensures forall k :: i <= k < j ==> !IsValueDelim(s[k])
    ensures j == |s| || IsValueDelim(s[j])
    decreases |s| - i
  {
    if i == |s| || IsValueDelim(s[i]) then i else RunEnd(s, i + 1)
  }

  /**
   * The non-empty pieces of `_value_tokenizer.split(s)`. The empty pieces
   * the split also yields around separator runs are never kept by
   * `get_value_tokens`, so they are left out here.
   */
  function Words(s: string): (r: seq<string>)
    ensures forall w :: w in r ==> w != [] && forall k :: 0 <= k < |w| ==> !IsValueDelim(w[k])
    decreases |s|
  {
    if s == [] then []
    else if IsValueDelim(s[0]) then Words(s[1..])
    else
      var j := RunEnd(s, 0);
      assert forall k :: 0 <= k < j ==> s[..j][k] == s[k];
      [s[..j]] + Words(s[j..])
  }

  lemma {:induction false} RunEndBeforeDelim(a: string, b: string, i: nat)
    requires i <= |a| && b != [] && IsValueDelim(b[0])
    ensures RunEnd(a + b, i) == RunEnd(a, i)
    decreases |a| - i
  {
    var s := a + b;
    if i < |a| && !IsValueDelim(a[i]) {
      assert s[i] == a[i];
      RunEndBeforeDelim(a, b, i + 1);
    } else if i == |a| {
      assert s[i] == b[0];
    } else {
      assert s[i] == a[i];
    }
  }

  /** A separator splits the text: the words on each side are the words of the whole. */
  lemma {:induction false} WordsSplit(a: string, d: char, b: string)
    requires IsValueDelim(d)
    ensures Words(a + [d] + b) == Words(a) + Words(b)
    decreases |a|
  {
    var s := a + [d] + b;
    if a == [] {
      assert s == [d] + b && s[1..] == b;
    } else if IsValueDelim(a[0]) {
      assert s[0] == a[0] && s[1..] == a[1..] + [d] + b;
      WordsSplit(a[1..], d, b);
    } else {
      assert s == a + ([d] + b);
      RunEndBeforeDelim(a, [d] + b, 0);
      var j := RunEnd(a, 0);
      assert s[0] == a[0];
      assert s[..j] == a[..j];
      assert s[j..] == a[j..] + [d] + b;
      WordsSplit(a[j..], d, b);
    }
  }

  /** A run of non-separators is one word. */
  lemma WordsOfWord(w: string)
    requires w != [] && forall k :: 0 <= k < |w| ==> !IsValueDelim(w[k])
    ensures Words(w) == [w]
  {
    assert RunEnd(w, 0) == |w|;
    assert w[..|w|] == w && w[|w|..] == [];
  }

  /** `xs[i]` is kept: it is non-empty and did not occur before. */
  predicate Kept(xs: seq<string>, i: nat)
    requires i < |xs|
  {
    xs[i] != [] && xs[i] !in xs[..i]
  }

  /** The kept elements from index `i` on, in order: a reference for the append-if-absent loop. */
  function FirstFrom(xs: seq<string>, i: nat): (r: seq<string>)
    requires i <= |xs|
    ensures forall x :: x in r ==> x in xs
    decreases |xs| - i
  {
    if i == |xs| then [] else (if Kept(xs, i) then [xs[i]] else []) + FirstFrom(xs, i + 1)
  }

  function FirstOccurrences(xs: seq<string>): seq<string> {
    FirstFrom(xs, 0)
  }

  function ResolvedWords(s: string): (r: seq<string>)
    ensures |r| == |Words(s)| && forall i :: 0 <= i < |r| ==> r[i] == ResolveTokenWildcards(Words(s)[i])
  {
    seq(|Words(s)|, i requires 0 <= i < |Words(s)| => ResolveTokenWildcards(Words(s)[i]))
  }

  /** What `get_value_tokens(s)` returns. */
  function ValueTokens(s: string): seq<string> {
    FirstOccurrences(ResolvedWords(s))
  }

  lemma FirstFromStep(xs: seq<string>, i: nat)
    requires i < |xs|
    ensures FirstFrom(xs, i) == (if Kept(xs, i) then [xs[i]] else []) + FirstFrom(xs, i + 1)
  {
  }

  /** The loop invariant of `get_value_tokens` after `i` pieces. */
  ghost predicate TokensSoFar(xs: seq<string>, i: nat, tokens: seq<string>)
    requires i <= |xs|
  {
    && tokens + FirstFrom(xs, i) == FirstFrom(xs, 0)
    && forall x :: x in tokens <==> x in xs[..i] && x != []
  }

  lemma AppendIfAbsent(xs: seq<string>, i: nat, tokens: seq<string>)
    requires i < |xs| && TokensSoFar(xs, i, tokens)
    ensures TokensSoFar(xs, i + 1, if xs[i] != [] && xs[i] !in tokens then tokens + [xs[i]] else tokens)
  {
    FirstFromStep(xs, i);
    assert xs[..i + 1] == xs[..i] + [xs[i]];
  }

  /** `get_value_tokens(s)`: the append-if-absent loop over the split pieces. */
  method GetValueTokens(s: string) returns (tokens: seq<string>)
    ensures tokens == ValueTokens(s)
  {
    var words := Words(s);
    var xs := ResolvedWords(s);
    tokens := [];
    var i := 0;
    while i < |words|
      invariant i <= |words|
      invariant TokensSoFar(xs, i, tokens)
    {
      var resolved := ResolveTokenWildcards(words[i]);
      assert resolved == xs[i];
      AppendIfAbsent(xs, i, tokens);
      if resolved != [] && resolved !in tokens {
        tokens := tokens + [resolved];
      }
      i := i + 1;
    }
  }

  /** The first index of `x` in `xs`. */
  function FirstIndex(xs: seq<string>, x: string): (j: nat)
    requires x in xs
    ensures j < |xs| && xs[j] == x && x !in xs[..j]
  {
    if xs[0] == x then 0
    else
      var j := FirstIndex(xs[1..], x);
      assert xs[..j + 1] == [xs[0]] + xs[1..][..j];
      j + 1
  }

  lemma KeptIsFirst(xs: seq<string>, j: nat)
    requires j < |xs| && Kept(xs, j)
    ensures FirstIndex(xs, xs[j]) == j
  {
    var f := FirstIndex(xs, xs[j]);
    assert f <= j;
  }

  lemma {:induction false} FirstFromHas(xs: seq<string>, i: nat, x: string)
    requires i <= |xs|
    ensures x in FirstFrom(xs, i) <==> exists j :: i <= j < |xs| && Kept(xs, j) && xs[j] == x
    decreases |xs| - i
  {
    if i < |xs| {
      FirstFromHas(xs, i + 1, x);
      if Kept(xs, i) && xs[i] == x {
        assert x in FirstFrom(xs, i);
      }
    }
  }

  /** Every non-empty piece, and nothing else, is among the tokens. */
  lemma FirstOccurrencesMembers(xs: seq<string>, x: string)
    ensures x in FirstOccurrences(xs) <==> x in xs && x != []
  {
    FirstFromHas(xs, 0, x);
    if x in xs && x != [] {
      var j := FirstIndex(xs, x);
      assert Kept(xs, j);
    }
  }

  /** Each kept element sits at its first occurrence, so later kept elements differ from it. */
  lemma {:induction false} FirstFromLater(xs: seq<string>, i: nat, x: string)
    requires i <= |xs| && x in FirstFrom(xs, i)
    ensures FirstIndex(xs, x) >= i
  {
    FirstFromHas(xs, i, x);
    var j :| i <= j < |xs| && Kept(xs, j) && xs[j] == x;
    KeptIsFirst(xs, j);
  }

  /** The tokens are in the order of their first occurrence (and so distinct). */
  lemma {:induction false} FirstFromOrdered(xs: seq<string>, i: nat)
    requires i <= |xs|
    ensures forall a, b :: 0 <= a < b < |FirstFrom(xs, i)| ==>
      FirstIndex(xs, FirstFrom(xs, i)[a]) < FirstIndex(xs, FirstFrom(xs, i)[b])
    decreases |xs| - i
  {
    if i < |xs| {
      var r, rest := FirstFrom(xs, i), FirstFrom(xs, i + 1);
      FirstFromOrdered(xs, i + 1);
      if Kept(xs, i) {
        KeptIsFirst(xs, i);
        assert r == [xs[i]] + rest;
        forall b | 0 < b < |r| ensures FirstIndex(xs, r[0]) < FirstIndex(xs, r[b]) {
          assert r[b] == rest[b - 1] && r[b] in rest;
          FirstFromLater(xs, i + 1, r[b]);
        }
        forall a, b | 0 < a < b < |r| ensures FirstIndex(xs, r[a]) < FirstIndex(xs, r[b]) {
          assert r[a] == rest[a - 1] && r[b] == rest[b - 1];
        }
      }
    }
  }

  /**
   * `get_value_tokens(s)`: the resolved pieces of `s`, none empty, each
   * once, in the order in which they first occur.
   */
  lemma ValueTokensSpec(s: string)
    ensures forall x :: x in ValueTokens(s) <==> x in ResolvedWords(s) && x != []
    ensures forall a, b :: 0 <= a < b < |ValueTokens(s)| ==>
      FirstIndex(ResolvedWords(s), ValueTokens(s)[a]) < FirstIndex(ResolvedWords(s), ValueTokens(s)[b])
    ensures forall a, b :: 0 <= a < b < |ValueTokens(s)| ==> ValueTokens(s)[a] != ValueTokens(s)[b]
  {
    var xs := ResolvedWords(s);
    forall x ensures x in ValueTokens(s) <==> x in xs && x != [] {
      FirstOccurrencesMembers(xs, x);
    }
    FirstFromOrdered(xs, 0);
  }

  // ---------------------------------------------------------------- filters

  /** The token list of one condition of an entry; an absent condition has none. */
  function ConditionTokens(entry: Props, key: string): seq<string> {
    if key in entry then ValueTokens(entry[key]) else []
  }

  function Compiled(tokens: seq<string>, anchorStart: bool, anchorEnd: bool): (r: seq<Pattern>)
    ensures |r| == |tokens| && forall i :: 0 <= i < |r| ==> r[i] == TokenPattern(tokens[i], anchorStart, anchorEnd)
  {
    seq(|tokens|, i requires 0 <= i < |tokens| => TokenPattern(tokens[i], anchorStart, anchorEnd))
  }

  /**
   * `compile_patterns` of `{k: get_value_tokens(v) for k, v in entry.items()}`:
   * `name_start` anchored at the start, `name_end` at the end, `extension`
   * at both, `name_part` nowhere; other keys are never consulted.
   */
  function CompileGroup(entry: Props): (g: Group)
    ensures |g.nameStart| == |ConditionTokens(entry, "name_start")|
    ensures |g.namePart| == |ConditionTokens(entry, "name_part")|
    ensures |g.nameEnd| == |ConditionTokens(entry, "name_end")|
    ensures |g.extension| == |ConditionTokens(entry, "extension")|
    ensures forall p :: p in g.nameStart ==> p.anchorStart && !p.anchorEnd
    ensures forall p :: p in g.namePart ==> !p.anchorStart && !p.anchorEnd
    ensures forall p :: p in g.nameEnd ==> !p.anchorStart && p.anchorEnd
    ensures forall p :: p in g.extension ==> p.anchorStart && p.anchorEnd
  {
    Group(
      Compiled(ConditionTokens(entry, "name_start"), true, false),
      Compiled(ConditionTokens(entry, "name_part"), false, false),
      Compiled(ConditionTokens(entry, "name_end"), false, true),
      Compiled(ConditionTokens(entry, "extension"), true, true))
  }

  const NoFilters: Filters := Filters([], [], [], [])

  /** One entry of `get_filters`: its `fullname` tokens, then its group when anything else is left. */
  function AddEntry(f: Filters, entry: Props, toInclude: bool): Filters {
    var names := ConditionTokens(entry, "fullname");
    var rest := entry - {"fullname"};
    if toInclude then
      var f1 := f.(includeFilenames := f.includeFilenames + names);
      if rest == map[] then f1 else f1.(includePatterns := f1.includePatterns + [CompileGroup(rest)])
    else
      var f1 := f.(excludeFilenames := f.excludeFilenames + names);
      if rest == map[] then f1 else f1.(excludePatterns := f1.excludePatterns + [CompileGroup(rest)])
  }

  function AddEntries(f: Filters, entries: seq<Props>, toInclude: bool): Filters
    decreases |entries|
  {
    if entries == [] then f else AddEntries(AddEntry(f, entries[0], toInclude), entries[1..], toInclude)
  }

  /** What `get_filters` returns for the selected recipe (`{}` when there is none). */
  function RecipeFilters(recipe: Option<Block>): Filters {
    match recipe
    case None => NoFilters
    case Some(b) => AddEntries(AddEntries(NoFilters, b.matches, true), b.excludes, false)
  }

  /** The inner loop of `get_filters` over the entries of one child type. */
  method AddAll(f0: Filters, entries: seq<Props>, toInclude: bool) returns (f: Filters)
    ensures f == AddEntries(f0, entries, toInclude)
  {
    f := f0;
    var i := 0;
    while i < |entries|
      invariant i <= |entries|
      invariant AddEntries(f, entries[i..], toInclude) == AddEntries(f0, entries, toInclude)
    {
      assert entries[i..][1..] == entries[i + 1..];
      var entry := entries[i];
      var names: seq<string> := [];
      if "fullname" in entry {
        names := GetValueTokens(entry["fullname"]);
      }
      var rest := entry - {"fullname"};
      if toInclude {
        f := f.(includeFilenames := f.includeFilenames + names);
        if rest != map[] {
          f := f.(includePatterns := f.includePatterns + [CompileGroup(rest)]);
        }
      } else {
        f := f.(excludeFilenames := f.excludeFilenames + names);
        if rest != map[] {
          f := f.(excludePatterns := f.excludePatterns + [CompileGroup(rest)]);
        }
      }
      i := i + 1;
    }
    assert entries[i..] == [];
  }

  /** `get_filters(filter_data)` */
  method GetFilters(recipe: Option<Block>) returns (f: Filters)
    ensures f == RecipeFilters(recipe)
  {
    f := NoFilters;
    if recipe.Some? {
      f := AddAll(f, recipe.value.matches, true);
      f := AddAll(f, recipe.value.excludes, false);
    }
  }

  // ---------------------------------------------------------- filter lemmas

  /** The file names some entry lists under `fullname`. */
  predicate Listed(entries: seq<Props>, x: string) {
    exists e :: e in entries && x in ConditionTokens(e, "fullname")
  }

  /** Adding toInclude entries leaves the exclude side alone, and the other way round. */
  lemma {:induction false} AddEntriesSides(f: Filters, entries: seq<Props>, toInclude: bool)
    ensures toInclude ==> AddEntries(f, entries, toInclude).excludeFilenames == f.excludeFilenames
    ensures toInclude ==> AddEntries(f, entries, toInclude).excludePatterns == f.excludePatterns
    ensures !toInclude ==> AddEntries(f, entries, toInclude).includeFilenames == f.includeFilenames
    ensures !toInclude ==> AddEntries(f, entries, toInclude).includePatterns == f.includePatterns
    decreases |entries|
  {
    if entries != [] {
      AddEntriesSides(AddEntry(f, entries[0], toInclude), entries[1..], toInclude);
    }
  }

  /** A name ends up on a fullname list exactly when it was there before or an entry lists it. */
  lemma {:induction false} AddEntriesNames(f: Filters, entries: seq<Props>, toInclude: bool, x: string)
    ensures toInclude ==> (x in AddEntries(f, entries, toInclude).includeFilenames <==> x in f.includeFilenames || Listed(entries, x))
    ensures !toInclude ==> (x in AddEntries(f, entries, toInclude).excludeFilenames <==> x in f.excludeFilenames || Listed(entries, x))
    decreases |entries|
  {
    if entries != [] {
      var e := entries[0];
      AddEntriesNames(AddEntry(f, e, toInclude), entries[1..], toInclude, x);
      assert forall d :: d in entries <==> d == e || d in entries[1..];
    }
  }

  /** The fullname lists of `get_filters` hold exactly the names the entries list. */
  lemma RecipeFullnames(b: Block, x: string)
    ensures x in RecipeFilters(Some(b)).includeFilenames <==> Listed(b.matches, x)
    ensures x in RecipeFilters(Some(b)).excludeFilenames <==> Listed(b.excludes, x)
  {
    var f1 := AddEntries(NoFilters, b.matches, true);
    AddEntriesNames(NoFilters, b.matches, true, x);
    AddEntriesSides(NoFilters, b.matches, true);
    AddEntriesNames(f1, b.excludes, false, x);
    AddEntriesSides(f1, b.excludes, false);
  }

  /** Without a selected recipe nothing is exported. */
  lemma NoRecipeExportsNothing(filename: string)
    ensures !IsMatch(filename, RecipeFilters(None))
  {
  }

  /** A name an `exclude` entry lists under `fullname` is never exported. */
  lemma ExcludedFullnameWins(b: Block, filename: string)
    requires Listed(b.excludes, filename)
    ensures !IsMatch(filename, RecipeFilters(Some(b)))
  {
    RecipeFullnames(b, filename);
  }

  /** A name a `match` entry lists under `fullname`, and no `exclude` entry does, is always exported. */
  lemma MatchedFullnameExported(b: Block, filename: string)
    requires Listed(b.matches, filename) && !Listed(b.excludes, filename)
    ensures IsMatch(filename, RecipeFilters(Some(b)))
  {
    RecipeFullnames(b, filename);
  }
}
