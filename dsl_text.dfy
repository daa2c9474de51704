/**
 * How string values are written inside `.ndugff` lines and read back:
 * quoting (`unquote_quoted_string`), escaping (`get_escaped_string`) and
 * unescaping (`unescape_escaped_string`). Each operation exists twice: as
 * the source writes it (`...AsWritten`) and corrected, where the corrected
 * pair is proved to round-trip and is the one the parser and renderer use.
 */
module DslText {
  import opened PyStr

  // ------------------------------------------------------------ as written

  /** `value.strip('"')`: removes every quote at either edge, not just one pair. */
  function UnquoteAsWritten(s: string): (r: string)
    ensures r == [] || (r[0] != '"' && r[|r| - 1] != '"')
    ensures exists a :: CutAtEdges(s, r, '"', a)
  {
    StripChar(s, '"')
  }

  /** `get_escaped_string` as written: the backslash itself is not escaped. */
  function EscapeAsWritten(s: string): string {
    ReplaceAll(ReplaceAll(ReplaceAll(ReplaceAll(s, "\"", "\\\""), "\t", "\\t"), "\r\n", "\\n"), "\n", "\\n")
  }

  /** `unescape_escaped_string` as written: four replacements, then `rstrip()`. */
  function UnescapeAsWritten(s: string): string {
    RStrip(ReplaceAll(ReplaceAll(ReplaceAll(ReplaceAll(s, "\\r\\n", "\\n"), "\\\"", "\""), "\\t", "\t"), "\\n", "\n"))
  }

  /** An escaped-kind value as the renderer writes it: `f'"{v}"'`. */
  function EncodeEscapedAsWritten(s: string): string {
    "\"" + EscapeAsWritten(s) + "\""
  }

  /** An escaped-kind value as the parser reads it: unquote, then unescape if a backslash is present. */
  function DecodeEscapedAsWritten(v: string): string {
    var u := UnquoteAsWritten(v);
    if '\\' in u then UnescapeAsWritten(u) else u
  }

  /** A CExoString that is a lone quote does not survive: the closing `"` eats it and leaves the backslash. */
  lemma QuoteLossAsWritten()
    ensures DecodeEscapedAsWritten(EncodeEscapedAsWritten("\"")) == "\\"
  {
    assert ReplaceAll("\"", "\"", "\\\"") == "\\\"";
    assert ReplaceAll("\\\"", "\t", "\\t") == "\\\"";
    assert ReplaceAll("\\\"", "\r\n", "\\n") == "\\\"";
    assert ReplaceAll("\\\"", "\n", "\\n") == "\\\"";
    var q := "\"\\\"\"";
    assert EncodeEscapedAsWritten("\"") == q;
    UnquoteLoneQuote(q);
    assert UnescapeAsWritten("\\") == "\\";
  }

  /** The written lone quote unquotes to a backslash. */
  lemma UnquoteLoneQuote(q: string)
    requires q == "\"\\\"\""
    ensures UnquoteAsWritten(q) == "\\"
  {
    assert q[1..] == "\\\"\"";
    assert StripChar(q, '"') == StripChar("\\\"\"", '"');
    assert StripChar("\\\"\"", '"') == StripChar("\\\"", '"');
    assert StripChar("\\\"", '"') == StripChar("\\", '"');
  }

  /** A CExoString holding a backslash does not survive: `\n` as two characters reads back as a line break. */
  lemma BackslashLossAsWritten()
    ensures DecodeEscapedAsWritten(EncodeEscapedAsWritten("\\nb")) == "\nb"
  {
    var s := "\\nb";
    EscapeBackslashText();
    var q := "\"" + s + "\"";
    assert EncodeEscapedAsWritten(s) == q;
    UnquoteBackslashText(s, q);
    assert s[0] == '\\';
    UnescapeBackslashText();
  }

  /** The writer as written leaves backslash-n-b alone. */
  lemma EscapeBackslashText()
    ensures EscapeAsWritten("\\nb") == "\\nb"
  {
    var s := "\\nb";
    assert ReplaceAll(s, "\"", "\\\"") == s;
    assert ReplaceAll(s, "\t", "\\t") == s;
    assert ReplaceAll(s, "\r\n", "\\n") == s;
    assert ReplaceAll(s, "\n", "\\n") == s;
  }

  /** The reader as written turns backslash-n-b into a line break and `b`. */
  lemma UnescapeBackslashText()
    ensures UnescapeAsWritten("\\nb") == "\nb"
  {
    var s := "\\nb";
    assert ReplaceAll(s, "\\r\\n", "\\n") == s;
    assert s[..2][1] != '"' && s[1..] == "nb" && "nb"[1..] == "b";
    assert ReplaceAll(s, "\\\"", "\"") == s;
    assert ReplaceAll(s, "\\t", "\t") == s;
    assert ReplaceAll(s, "\\n", "\n") == "\nb";
  }

  /** The written text backslash-n-b unquotes to itself. */
  lemma UnquoteBackslashText(s: string, q: string)
    requires s == "\\nb" && q == "\"" + s + "\""
    ensures UnquoteAsWritten(q) == s
  {
    assert q[1..] == s + "\"";
    assert StripChar(q, '"') == StripChar(s + "\"", '"');
    assert (s + "\"")[..|s|] == s;
    assert StripChar(s + "\"", '"') == StripChar(s, '"');
  }

  /** A ResRef or other literal string ending in a quote loses it. */
  lemma LiteralQuoteLossAsWritten()
    ensures UnquoteAsWritten("\"a\"\"") == "a"
  {
    var q := "\"a\"\"";
    assert q[1..] == "a\"\"";
    assert "a\"\""[..2] == "a\"";
    assert "a\""[..1] == "a";
    assert StripChar(q, '"') == StripChar("a\"\"", '"');
    assert StripChar("a\"\"", '"') == StripChar("a\"", '"');
    assert StripChar("a\"", '"') == StripChar("a", '"');
  }

  // ------------------------------------------------------------- corrected

  /** Removes one leading and one trailing quote, where present. */
  function Unquote(s: string): (r: string)
    ensures |s| >= 2 && s[0] == '"' && s[|s| - 1] == '"' ==> r == s[1..|s| - 1]
  {
    var t := if s != [] && s[0] == '"' then s[1..] else s;
    if t != [] && t[|t| - 1] == '"' then t[..|t| - 1] else t
  }

  /** Quoting then unquoting gives back any string at all. */
  lemma UnquoteQuoted(s: string)
    ensures Unquote("\"" + s + "\"") == s
  {
    var q := "\"" + s + "\"";
    assert q[1..|q| - 1] == s;
  }

  /** Escape backslash, quote, tab and line breaks, each as a two-character sequence. */
  function Escape(s: string): (r: string)
    ensures '\\' !in s && '"' !in s && '\t' !in s && '\n' !in s && '\r' !in s ==> r == s
    ensures '\n' !in r
    decreases |s|
  {
    if s == [] then []
    else if s[0] == '\\' then "\\\\" + Escape(s[1..])
    else if s[0] == '"' then "\\\"" + Escape(s[1..])
    else if s[0] == '\t' then "\\t" + Escape(s[1..])
    else if |s| >= 2 && s[0] == '\r' && s[1] == '\n' then "\\n" + Escape(s[2..])
    else if s[0] == '\n' then "\\n" + Escape(s[1..])
    else [s[0]] + Escape(s[1..])
  }

  /** Single-pass unescaping; a backslash before any other character is kept. */
  function UnescapeRaw(s: string): string
    decreases |s|
  {
    if s == [] then []
    else if s[0] != '\\' || |s| == 1 then [s[0]] + UnescapeRaw(s[1..])
    else if s[1] == '\\' then "\\" + UnescapeRaw(s[2..])
    else if s[1] == '"' then "\"" + UnescapeRaw(s[2..])
    else if s[1] == 't' then "\t" + UnescapeRaw(s[2..])
    else if s[1] == 'n' then "\n" + UnescapeRaw(s[2..])
    else if |s| >= 4 && s[1] == 'r' && s[2] == '\\' && s[3] == 'n' then "\n" + UnescapeRaw(s[4..])
    else "\\" + UnescapeRaw(s[1..])
  }

  /** `unescape_escaped_string`, corrected: unescape, then `rstrip()`. */
  function Unescape(s: string): string {
    RStrip(UnescapeRaw(s))
  }

  lemma {:induction false} UnescapeRawEscape(s: string)
    requires '\r' !in s
    ensures UnescapeRaw(Escape(s)) == s
    decreases |s|
  {
    if s != [] {
      var e := Escape(s);
      var rest := Escape(s[1..]);
      assert '\r' !in s[1..] by { assert forall c :: c in s[1..] ==> c in s; }
      UnescapeRawEscape(s[1..]);
      if s[0] == '\\' || s[0] == '"' || s[0] == '\t' || s[0] == '\n' {
        assert e[2..] == rest;
      } else {
        assert e == [s[0]] + rest;
      }
      assert [s[0]] + s[1..] == s;
    }
  }

  /** An escaped-kind value as the renderer writes it. */
  function EncodeEscaped(s: string): string {
    "\"" + Escape(s) + "\""
  }

  /** An escaped-kind value as the parser reads it. */
  function DecodeEscaped(v: string): string {
    var u := Unquote(v);
    if '\\' in u then Unescape(u) else u
  }

  /**
   * Every string without a carriage return and without trailing whitespace
   * (the GFF loader strips both) survives writing and reading back.
   */
  lemma EscapedRoundTrip(s: string)
    requires '\r' !in s && RStrip(s) == s
    ensures DecodeEscaped(EncodeEscaped(s)) == s
  {
    UnquoteQuoted(Escape(s));
    UnescapeRawEscape(s);
    EscapeWithoutBackslash(s);
  }

  /** Escaping introduces a backslash whenever it changes anything. */
  lemma {:induction false} EscapeWithoutBackslash(s: string)
    ensures '\\' in Escape(s) || Escape(s) == s
    decreases |s|
  {
    if s != [] {
      var e := Escape(s);
      if s[0] == '\\' || s[0] == '"' || s[0] == '\t' || s[0] == '\n' || (|s| >= 2 && s[0] == '\r' && s[1] == '\n') {
        assert e[0] == '\\';
      } else {
        assert e == [s[0]] + Escape(s[1..]);
        assert forall c :: c in Escape(s[1..]) ==> c in e;
        EscapeWithoutBackslash(s[1..]);
        assert [s[0]] + s[1..] == s;
      }
    }
  }

  /** The corrected pair repairs both as-written counterexamples. */
  lemma CorrectedCounterexamples()
    ensures DecodeEscaped(EncodeEscaped("\"")) == "\""
    ensures DecodeEscaped(EncodeEscaped("\\nb")) == "\\nb"
    ensures Unquote("\"a\"\"") == "a\""
  {
    QuoteSurvives("\"");
    QuoteSurvives("\\nb");
    TrailingQuoteSurvives("a\"", "\"a\"\"");
  }

  lemma QuoteSurvives(s: string)
    requires s == "\"" || s == "\\nb"
    ensures DecodeEscaped(EncodeEscaped(s)) == s
  {
    assert s[|s| - 1] != ' ';
    EscapedRoundTrip(s);
  }

  lemma TrailingQuoteSurvives(s: string, quoted: string)
    requires s == "a\"" && quoted == "\"a\"\""
    ensures Unquote(quoted) == s
  {
    UnquoteQuoted(s);
    assert "\"" + s + "\"" == quoted;
  }
}
