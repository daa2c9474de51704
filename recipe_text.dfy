/**
 * Comment handling of the `.recipes` configuration (`_InputResolver`):
 * `split_outside_quotes` cuts a line at a delimiter that is not inside
 * double quotes, and `strip_comments` uses it to drop `###` block
 * comments, `#` line comments and blank lines.
 */
module RecipeText {
  import opened PyStr

  // ------------------------------------------------------ split_outside_quotes

  /**
   * The token list of `split_outside_quotes` before its final clean-up, for
   * the scan resumed at index `i` with quote state `q` and the text `cur`
   * of the token being collected.
   */
  function Raw(line: string, delim: string, i: nat, q: bool, cur: string): seq<string>
    requires |delim| > 0
    decreases |line| - i
  {
    if i >= |line| then [cur]
    else if !q && StartsAt(line, delim, i) then [cur, delim] + Raw(line, delim, i + |delim|, q, "")
    else Raw(line, delim, i + 1, if line[i] == '"' then !q else q, cur + [line[i]])
  }

  /** What `[t.strip() for t in tokens if t]` makes of one token. */
  function Kept(t: string): seq<string> {
    if t == "" then [] else [Strip(t)]
  }

  /** `[t.strip() for t in tokens if t]` */
  function Clean(ts: seq<string>): seq<string> {
    if ts == [] then [] else Kept(ts[0]) + Clean(ts[1..])
  }

  /** The tokens `split_outside_quotes(line, delim)` returns. */
  function OutsideQuoteTokens(line: string, delim: string): seq<string>
    requires |delim| > 0
  {
    Clean(Raw(line, delim, 0, false, ""))
  }

  /** `split_outside_quotes`; an empty delimiter would never advance, and the source only passes `###` and `#`. */
  method SplitOutsideQuotes(line: string, delim: string) returns (tokens: seq<string>)
    requires |delim| > 0
    ensures tokens == OutsideQuoteTokens(line, delim)
  {
    var raw: seq<string> := [];
    var current := "";
    var i := 0;
    var inQuote := false;
    while i < |line|
      invariant i <= |line|
      invariant raw + Raw(line, delim, i, inQuote, current) == Raw(line, delim, 0, false, "")
      decreases |line| - i
    {
      if !inQuote && StartsAt(line, delim, i) {
        assert raw + [current] + [delim] + Raw(line, delim, i + |delim|, inQuote, "")
            == raw + Raw(line, delim, i, inQuote, current);
        raw := raw + [current];
        current := "";
        i := i + |delim|;
        raw := raw + [delim];
      } else {
        if line[i] == '"' {
          inQuote := !inQuote;
        }
        current := current + [line[i]];
        i := i + 1;
      }
    }
    raw := raw + [current];
    tokens := Clean(raw);
  }

  // ------------------------------------------------------------ strip_comments

  /** The loop over the tokens of a line that holds `###`: each `###` toggles the block state, other tokens outside a block are kept. */
  function BlockPass(ts: seq<string>, inBlock: bool): (seq<string>, bool) {
    if ts == [] then ([], inBlock)
    else if ts[0] == "###" then BlockPass(ts[1..], !inBlock)
    else
      var rest := BlockPass(ts[1..], inBlock);
      ((if inBlock then [] else [ts[0]]) + rest.0, rest.1)
  }

  /** The loop over the tokens of a line that holds `#`: the tokens before the first `#`. */
  function BeforeHash(ts: seq<string>): seq<string> {
    if ts == [] || ts[0] == "#" then [] else [ts[0]] + BeforeHash(ts[1..])
  }

  /** One line of `strip_comments`: the lines it keeps and the new block state. */
  function StripLine(line: string, inBlock: bool): (seq<string>, bool) {
    if line == "" then ([], inBlock)
    else
      var blockTokens := OutsideQuoteTokens(line, "###");
      if "###" in blockTokens then BlockPass(blockTokens, inBlock)
      else if inBlock then ([], inBlock)
      else
        var hashTokens := OutsideQuoteTokens(line, "#");
        if "#" in hashTokens then (BeforeHash(hashTokens), inBlock)
        else ([line], inBlock)
  }

  function StripFrom(lines: seq<string>, inBlock: bool): seq<string> {
    if lines == [] then []
    else
      var first := StripLine(lines[0], inBlock);
      first.0 + StripFrom(lines[1..], first.1)
  }

  /** What `strip_comments(lines)` returns. */
  function StrippedLines(lines: seq<string>): seq<string> {
    StripFrom(lines, false)
  }

  lemma StripFromCons(lines: seq<string>, k: nat, inBlock: bool, kept: seq<string>, next: bool)
    requires k < |lines|
    requires kept == StripLine(lines[k], inBlock).0 && next == StripLine(lines[k], inBlock).1
    ensures StripFrom(lines[k..], inBlock) == kept + StripFrom(lines[k + 1..], next)
  {
    assert lines[k..][1..] == lines[k + 1..];
  }

  lemma Assoc(a: seq<string>, b: seq<string>, c: seq<string>)
    ensures a + (b + c) == a + b + c
  {
  }

  /** `strip_comments` */
  method StripComments(lines: seq<string>) returns (out: seq<string>)
    ensures out == StrippedLines(lines)
  {
    out := [];
    var inBlock := false;
    var k := 0;
    while k < |lines|
      invariant k <= |lines|
      invariant out + StripFrom(lines[k..], inBlock) == StrippedLines(lines)
    {
      var kept, next := StripOneLine(lines[k], inBlock);
      StripFromCons(lines, k, inBlock, kept, next);
      Assoc(out, kept, StripFrom(lines[k + 1..], next));
      out := out + kept;
      inBlock := next;
      k := k + 1;
    }
    assert lines[k..] == [];
  }

  /** The body of the loop of `strip_comments` for one line. */
  method StripOneLine(line: string, inBlock: bool) returns (kept: seq<string>, next: bool)
    ensures kept == StripLine(line, inBlock).0 && next == StripLine(line, inBlock).1
  {
    kept := [];
    next := inBlock;
    if line == "" {
      return;
    }
    var tokens := SplitOutsideQuotes(line, "###");
    if "###" in tokens {
      kept, next := BlockLoop(tokens, inBlock);
      return;
    }
    if inBlock {
      return;
    }
    tokens := SplitOutsideQuotes(line, "#");
    if "#" in tokens {
      kept := HashLoop(tokens);
      return;
    }
    kept := [line];
  }

  /** `for token in block_tokens: ...` */
  method BlockLoop(tokens: seq<string>, inBlock: bool) returns (kept: seq<string>, next: bool)
    ensures kept == BlockPass(tokens, inBlock).0 && next == BlockPass(tokens, inBlock).1
  {
    kept := [];
    next := inBlock;
    var j := 0;
    while j < |tokens|
      invariant j <= |tokens|
      invariant kept + BlockPass(tokens[j..], next).0 == BlockPass(tokens, inBlock).0
      invariant BlockPass(tokens[j..], next).1 == BlockPass(tokens, inBlock).1
    {
      assert tokens[j..][1..] == tokens[j + 1..];
      if tokens[j] == "###" {
        next := !next;
      } else if !next {
        kept := kept + [tokens[j]];
      }
      j := j + 1;
    }
    assert tokens[j..] == [];
  }

  /** `for token in line_tokens: if token == "#": break ...` */
  method HashLoop(tokens: seq<string>) returns (kept: seq<string>)
    ensures kept == BeforeHash(tokens)
  {
    kept := [];
    var j := 0;
    while j < |tokens| && tokens[j] != "#"
      invariant j <= |tokens|
      invariant kept + BeforeHash(tokens[j..]) == BeforeHash(tokens)
    {
      assert tokens[j..][1..] == tokens[j + 1..];
      kept := kept + [tokens[j]];
      j := j + 1;
    }
    if j < |tokens| {
      assert tokens[j..][0] == "#";
    }
  }

  // ----------------------------------------------------------------- lemmas

  function Join(ts: seq<string>): string {
    if ts == [] then [] else ts[0] + Join(ts[1..])
  }

  lemma {:induction false} JoinAppend(a: seq<string>, b: seq<string>)
    ensures Join(a + b) == Join(a) + Join(b)
  {
    if a == [] {
      assert a + b == b;
    } else {
      assert (a + b)[1..] == a[1..] + b;
      JoinAppend(a[1..], b);
    }
  }

  /** Splitting loses no text: the raw tokens, delimiters included, put back together are the line. */
  lemma {:induction false} RawJoin(line: string, delim: string, i: nat, q: bool, cur: string)
    requires |delim| > 0 && i <= |line|
    ensures Join(Raw(line, delim, i, q, cur)) == cur + line[i..]
    decreases |line| - i
  {
    if i == |line| {
      assert line[i..] == [];
    } else if !q && StartsAt(line, delim, i) {
      RawJoin(line, delim, i + |delim|, q, "");
      JoinAppend([cur, delim], Raw(line, delim, i + |delim|, q, ""));
      assert line[i..] == delim + line[i + |delim|..];
    } else {
      RawJoin(line, delim, i + 1, if line[i] == '"' then !q else q, cur + [line[i]]);
      assert line[i..] == [line[i]] + line[i + 1..];
    }
  }

  /** The number of double quotes in `s`. */
  function QuoteCount(s: string): nat {
    if s == [] then 0 else QuoteCount(s[..|s| - 1]) + (if s[|s| - 1] == '"' then 1 else 0)
  }

  /** Index `p` of `line` lies inside double quotes: an odd number of quotes comes before it. */
  predicate InQuote(line: string, p: nat)
    requires p <= |line|
  {
    QuoteCount(line[..p]) % 2 == 1
  }

  lemma QuoteCountStep(line: string, i: nat)
    requires i < |line|
    ensures QuoteCount(line[..i + 1]) == QuoteCount(line[..i]) + (if line[i] == '"' then 1 else 0)
  {
    assert line[..i + 1][..i] == line[..i];
  }

  /** Whitespace holds no quotes. */
  lemma {:induction false} QuoteCountSpaces(s: string)
    requires forall k :: 0 <= k < |s| ==> IsSpace(s[k])
    ensures QuoteCount(s) == 0
  {
    if s != [] {
      QuoteCountSpaces(s[..|s| - 1]);
    }
  }

  /** An occurrence of the delimiter starts with its first character. */
  lemma StartsAtFirst(line: string, delim: string, p: nat)
    requires |delim| > 0
    ensures StartsAt(line, delim, p) ==> line[p] == delim[0]
  {
    if StartsAt(line, delim, p) {
      assert line[p..p + |delim|][0] == line[p];
    }
  }

  /** When every occurrence of the delimiter lies inside quotes, the scan never splits. */
  lemma {:induction false} RawQuotedOnly(line: string, delim: string, i: nat, q: bool, cur: string)
    requires |delim| > 0 && i <= |line|
    requires q == InQuote(line, i)
    requires forall p :: i <= p < |line| && StartsAt(line, delim, p) ==> InQuote(line, p)
    ensures Raw(line, delim, i, q, cur) == [cur + line[i..]]
    decreases |line| - i
  {
    if i < |line| {
      QuoteCountStep(line, i);
      assert !(!q && StartsAt(line, delim, i));
      RawQuotedOnly(line, delim, i + 1, if line[i] == '"' then !q else q, cur + [line[i]]);
      assert cur + [line[i]] + line[i + 1..] == cur + line[i..];
    } else {
      assert line[i..] == [];
      assert cur + line[i..] == cur;
      assert Raw(line, delim, i, q, cur) == [cur];
    }
  }

  /** A stretch with no first character of the delimiter is copied into the current token, whatever the quote state. */
  lemma {:induction false} RawNoDelimiterFrom(line: string, delim: string, i: nat, q: bool, cur: string)
    requires |delim| > 0 && i <= |line|
    requires forall p :: i <= p < |line| ==> line[p] != delim[0]
    ensures Raw(line, delim, i, q, cur) == [cur + line[i..]]
    decreases |line| - i
  {
    if i < |line| {
      StartsAtFirst(line, delim, i);
      RawNoDelimiterFrom(line, delim, i + 1, if line[i] == '"' then !q else q, cur + [line[i]]);
      assert cur + [line[i]] + line[i + 1..] == cur + line[i..];
    } else {
      assert line[i..] == [];
      assert cur + line[i..] == cur;
      assert Raw(line, delim, i, q, cur) == [cur];
    }
  }

  /** A quote-free stretch with no delimiter is copied into the current token. */
  lemma {:induction false} RawAdvance(line: string, delim: string, i: nat, j: nat, cur: string)
    requires |delim| > 0 && i <= j <= |line|
    requires forall p :: i <= p < j ==> line[p] != delim[0] && line[p] != '"'
    ensures Raw(line, delim, i, false, cur) == Raw(line, delim, j, false, cur + line[i..j])
    decreases j - i
  {
    if i < j {
      StartsAtFirst(line, delim, i);
      RawAdvance(line, delim, i + 1, j, cur + [line[i]]);
      assert cur + [line[i]] + line[i + 1..j] == cur + line[i..j];
    } else {
      assert cur + line[i..j] == cur;
    }
  }

  /** `strip()` returns a stretch of the text that starts after whitespace only. */
  lemma StripIsSlice(s: string) returns (a: nat)
    ensures a <= |s| && a + |Strip(s)| <= |s|
    ensures Strip(s) == s[a..a + |Strip(s)|]
    ensures forall k :: 0 <= k < a ==> IsSpace(s[k])
  {
    var l := LStrip(s);
    a := |s| - |l|;
    var r := RStrip(l);
    assert r == l[..|r|];
  }

  /** `strip()` adds no character. */
  lemma StripKeepsOut(s: string, c: char)
    requires c !in s
    ensures c !in Strip(s)
  {
    var a := StripIsSlice(s);
    forall k | 0 <= k < |Strip(s)| ensures Strip(s)[k] != c {
      assert Strip(s)[k] == s[a + k];
    }
  }

  /** A line whose delimiters are all quoted does not strip to the delimiter. */
  lemma QuotedDelimiterNotStripped(line: string, delim: string)
    requires |delim| > 0
    requires forall p :: 0 <= p < |line| && StartsAt(line, delim, p) ==> InQuote(line, p)
    ensures Strip(line) != delim
  {
    var a := StripIsSlice(line);
    QuoteCountSpaces(line[..a]);
    assert !InQuote(line, a);
    assert StartsAt(line, Strip(line), a);
  }

  /** A line whose delimiters are all quoted is one token, and that token is not the delimiter itself. */
  lemma QuotedDelimitersOnly(line: string, delim: string)
    requires |delim| > 0 && line != ""
    requires forall p :: 0 <= p < |line| && StartsAt(line, delim, p) ==> InQuote(line, p)
    ensures OutsideQuoteTokens(line, delim) == [Strip(line)]
    ensures delim !in OutsideQuoteTokens(line, delim)
  {
    assert line[..0] == [];
    RawQuotedOnly(line, delim, 0, false, "");
    assert "" + line[0..] == line;
    QuotedDelimiterNotStripped(line, delim);
    assert Clean([line]) == [Strip(line)];
  }

  lemma RawSplitsAt(line: string, delim: string, n: nat, cur: string)
    requires |delim| > 0 && StartsAt(line, delim, n)
    ensures Raw(line, delim, n, false, cur) == [cur, delim] + Raw(line, delim, n + |delim|, false, "")
  {
  }

  /** A line with one unquoted delimiter at `n`, whose first character appears nowhere else, splits into three. */
  lemma SplitAt(line: string, delim: string, n: nat)
    requires |delim| > 0 && StartsAt(line, delim, n)
    requires forall p :: 0 <= p < n ==> line[p] != delim[0] && line[p] != '"'
    requires forall p :: n + |delim| <= p < |line| ==> line[p] != delim[0]
    ensures Raw(line, delim, 0, false, "") == [line[..n], delim, line[n + |delim|..]]
  {
    RawAdvance(line, delim, 0, n, "");
    assert "" + line[0..n] == line[..n];
    RawSplitsAt(line, delim, n, line[..n]);
    RawNoDelimiterFrom(line, delim, n + |delim|, false, "");
    assert "" + line[n + |delim|..] == line[n + |delim|..];
  }

  /** `pre + d + post` with the delimiter's first character only in the middle and no quote before it splits into three. */
  lemma SplitOnce(pre: string, delim: string, post: string)
    requires |delim| > 0 && '"' !in pre
    requires delim[0] !in pre && delim[0] !in post
    ensures Raw(pre + delim + post, delim, 0, false, "") == [pre, delim, post]
  {
    var line := pre + delim + post;
    var n := |pre|;
    assert line[..n] == pre;
    assert line[n..n + |delim|] == delim;
    assert line[n + |delim|..] == post;
    forall p | 0 <= p < n ensures line[p] != delim[0] && line[p] != '"' {
      assert line[p] == pre[p];
    }
    forall p | n + |delim| <= p < |line| ensures line[p] != delim[0] {
      assert line[p] == post[p - n - |delim|];
    }
    SplitAt(line, delim, n);
  }

  /** The tokens of `pre + d + post` once cleaned. */
  lemma SplitOnceTokens(pre: string, delim: string, post: string)
    requires |delim| > 0 && '"' !in pre
    requires !IsSpace(delim[0]) && !IsSpace(delim[|delim| - 1])
    requires delim[0] !in pre && delim[0] !in post
    ensures OutsideQuoteTokens(pre + delim + post, delim) == Kept(pre) + [delim] + Kept(post)
  {
    SplitOnce(pre, delim, post);
    CleanThree(pre, delim, post);
    StripNoEdgeSpace(delim);
  }

  lemma CleanThree(a: string, b: string, c: string)
    ensures Clean([a, b, c]) == Kept(a) + Kept(b) + Kept(c)
  {
    assert [a, b, c][1..] == [b, c];
    assert [b, c][1..] == [c];
    assert [c][1..] == [];
    assert Clean([c]) == Kept(c);
  }

  /** Blank lines are dropped and do not touch the block state. */
  lemma BlankLineDropped(rest: seq<string>, inBlock: bool)
    ensures StripFrom([""] + rest, inBlock) == StripFrom(rest, inBlock)
  {
    assert ([""] + rest)[1..] == rest;
  }

  lemma StripFromFirst(line: string, rest: seq<string>, inBlock: bool)
    ensures StripFrom([line] + rest, inBlock)
      == StripLine(line, inBlock).0 + StripFrom(rest, StripLine(line, inBlock).1)
  {
    assert ([line] + rest)[1..] == rest;
  }

  /** A line whose every `#` is inside double quotes is kept as it is outside a block, and dropped inside one. */
  lemma QuotedHashesKeepLine(line: string, rest: seq<string>, inBlock: bool)
    requires line != ""
    requires forall p :: 0 <= p < |line| && line[p] == '#' ==> InQuote(line, p)
    ensures StripFrom([line] + rest, inBlock) == (if inBlock then [] else [line]) + StripFrom(rest, inBlock)
  {
    forall p | 0 <= p < |line| && StartsAt(line, "###", p) ensures InQuote(line, p) {
      StartsAtFirst(line, "###", p);
    }
    QuotedDelimitersOnly(line, "###");
    forall p | 0 <= p < |line| && StartsAt(line, "#", p) ensures InQuote(line, p) {
      StartsAtFirst(line, "#", p);
    }
    QuotedDelimitersOnly(line, "#");
    assert StripLine(line, inBlock) == (if inBlock then [] else [line], inBlock);
    StripFromFirst(line, rest, inBlock);
  }

  /** The three ways `strip_comments` treats a non-blank line, by its tokens. */
  lemma StripLineCases(line: string, inBlock: bool)
    requires line != ""
    ensures "###" in OutsideQuoteTokens(line, "###") ==> StripLine(line, inBlock) == BlockPass(OutsideQuoteTokens(line, "###"), inBlock)
    ensures "###" !in OutsideQuoteTokens(line, "###") && inBlock ==> StripLine(line, inBlock) == ([], inBlock)
    ensures "###" !in OutsideQuoteTokens(line, "###") && !inBlock && "#" in OutsideQuoteTokens(line, "#")
      ==> StripLine(line, inBlock) == (BeforeHash(OutsideQuoteTokens(line, "#")), inBlock)
  {
  }

  /** `pre # post`: the text before an unquoted `#` is kept (stripped), the rest of the line is dropped. */
  lemma LineComment(pre: string, post: string, rest: seq<string>)
    requires '#' !in pre && '"' !in pre && '#' !in post
    ensures StripFrom([pre + "#" + post] + rest, false) == Kept(pre) + StripFrom(rest, false)
  {
    var line := pre + "#" + post;
    TripleAbsent(pre, post, line);
    HashFirst(pre, post, line);
    StripLineCases(line, false);
    StripFromFirst(line, rest, false);
  }

  lemma TripleAbsent(pre: string, post: string, line: string)
    requires '#' !in pre && '#' !in post && line == pre + "#" + post
    ensures line != "" && "###" !in OutsideQuoteTokens(line, "###")
  {
    NoTripleMarker(pre, post, line);
    QuotedDelimitersOnly(line, "###");
  }

  lemma HashFirst(pre: string, post: string, line: string)
    requires '#' !in pre && '"' !in pre && '#' !in post && line == pre + "#" + post
    ensures "#" in OutsideQuoteTokens(line, "#")
    ensures BeforeHash(OutsideQuoteTokens(line, "#")) == Kept(pre)
  {
    SplitOnceTokens(pre, "#", post);
    NotHash(pre);
    BeforeHashFirst(Kept(pre), Kept(post));
    var ts := OutsideQuoteTokens(line, "#");
    assert ts[|Kept(pre)|] == "#";
  }

  /** A text without `#` does not strip to `#`. */
  lemma NotHash(s: string)
    requires '#' !in s
    ensures Strip(s) != "#" && "#" !in Kept(s) && |Kept(s)| <= 1
  {
    StripKeepsOut(s, '#');
    assert '#' in "#";
  }

  /** A single `#` between texts without `#` never forms a `###`. */
  lemma NoTripleMarker(pre: string, post: string, line: string)
    requires '#' !in pre && '#' !in post && line == pre + "#" + post
    ensures forall p :: 0 <= p < |line| && StartsAt(line, "###", p) ==> InQuote(line, p)
  {
    var n := |pre|;
    forall p | 0 <= p < |line| ensures !StartsAt(line, "###", p) {
      if p + 3 <= |line| {
        assert line[p..p + 3][0] == line[p] && line[p..p + 3][1] == line[p + 1];
        assert "###"[0] == '#' && "###"[1] == '#';
        if p < n {
          assert line[p] == pre[p];
        } else if p > n {
          assert line[p] == post[p - n - 1];
        } else {
          assert line[p + 1] == post[0];
        }
      }
    }
  }

  lemma BeforeHashFirst(head: seq<string>, tail: seq<string>)
    requires "#" !in head && |head| <= 1
    ensures BeforeHash(head + ["#"] + tail) == head
  {
    if head != [] {
      assert (head + ["#"] + tail)[1..] == ["#"] + tail;
      assert [head[0]] == head;
    } else {
      assert head + ["#"] + tail == ["#"] + tail;
    }
  }

  /** A line that is exactly `###` toggles the block state and produces nothing. */
  lemma BlockMarkerToggles(rest: seq<string>, inBlock: bool)
    ensures StripFrom(["###"] + rest, inBlock) == StripFrom(rest, !inBlock)
  {
    BlockMarkerInLine("", "", rest, inBlock);
    assert "" + "###" + "" == "###";
    assert [] + [] + StripFrom(rest, !inBlock) == StripFrom(rest, !inBlock);
  }

  /**
   * `pre ### post`: outside a block the text before the marker is kept and
   * the block opens; inside a block the block closes and the text after
   * the marker is kept.
   */
  lemma BlockMarkerInLine(pre: string, post: string, rest: seq<string>, inBlock: bool)
    requires '#' !in pre && '"' !in pre && '#' !in post
    ensures StripFrom([pre + "###" + post] + rest, inBlock)
      == (if !inBlock && pre != "" then [Strip(pre)] else [])
       + (if inBlock && post != "" then [Strip(post)] else [])
       + StripFrom(rest, !inBlock)
  {
    var line := pre + "###" + post;
    assert line != "";
    SplitOnceTokens(pre, "###", post);
    NotMarker(pre);
    NotMarker(post);
    BlockPassThree(Kept(pre), Kept(post), inBlock);
    StripLineCases(line, inBlock);
    StripFromFirst(line, rest, inBlock);
  }

  /** Without a marker, the block pass keeps everything outside a block and nothing inside one. */
  lemma {:induction false} BlockPassNoMarker(ts: seq<string>, inBlock: bool)
    requires "###" !in ts
    ensures BlockPass(ts, inBlock) == (if inBlock then [] else ts, inBlock)
  {
    if ts != [] {
      assert ts[0] != "###";
      assert forall t :: t in ts[1..] ==> t in ts;
      BlockPassNoMarker(ts[1..], inBlock);
      assert [ts[0]] + ts[1..] == ts;
      var rest := BlockPass(ts[1..], inBlock);
      assert BlockPass(ts, inBlock) == ((if inBlock then [] else [ts[0]]) + rest.0, rest.1);
      assert rest.1 == inBlock;
      assert BlockPass(ts, inBlock).1 == inBlock;
      assert BlockPass(ts, inBlock).0 == (if inBlock then [] else ts);
    } else {
      assert BlockPass(ts, inBlock) == ([], inBlock);
    }
  }

  /** Tokens before the first marker are kept or dropped by the current state; those after it by the toggled one. */
  lemma {:induction false} BlockPassMarker(a: seq<string>, c: seq<string>, inBlock: bool)
    requires "###" !in a
    ensures BlockPass(a + ["###"] + c, inBlock)
      == ((if inBlock then [] else a) + BlockPass(c, !inBlock).0, BlockPass(c, !inBlock).1)
  {
    var after := BlockPass(c, !inBlock);
    if a == [] {
      assert a + ["###"] + c == ["###"] + c;
      assert (["###"] + c)[1..] == c;
      assert BlockPass(a + ["###"] + c, inBlock) == after;
      assert (if inBlock then [] else a) + after.0 == after.0;
    } else {
      var ts := a + ["###"] + c;
      assert ts[0] == a[0] && ts[1..] == a[1..] + ["###"] + c;
      assert a[0] != "###";
      assert forall t :: t in a[1..] ==> t in a;
      BlockPassMarker(a[1..], c, inBlock);
      var rest := BlockPass(ts[1..], inBlock);
      assert rest == ((if inBlock then [] else a[1..]) + after.0, after.1);
      assert BlockPass(ts, inBlock) == ((if inBlock then [] else [a[0]]) + rest.0, rest.1);
      assert [a[0]] + a[1..] == a;
      assert (if inBlock then [] else [a[0]]) + rest.0 == (if inBlock then [] else a) + after.0;
    }
  }

  lemma BlockPassThree(head: seq<string>, tail: seq<string>, inBlock: bool)
    requires "###" !in head && "###" !in tail
    ensures BlockPass(head + ["###"] + tail, inBlock)
      == ((if inBlock then [] else head) + (if inBlock then tail else []), !inBlock)
  {
    BlockPassNoMarker(tail, !inBlock);
    BlockPassMarker(head, tail, inBlock);
  }

  /** A text without `#` is not the marker, and neither is its stripped form. */
  lemma NotMarker(s: string)
    requires '#' !in s
    ensures Strip(s) != "###" && "###" !in Kept(s)
  {
    StripKeepsOut(s, '#');
    assert '#' in "###";
  }
}
