# NDU GFF: a verified model of the text DSL, the JSON strref handling and the KEY/BIF recipe filters

NDU converts Neverwinter Nights GFF documents between the binary format,
JSON and its own line-based text format, `.ndugff`. It also extracts game
resources from KEY/BIF archives, selected by a `.recipes` file. The binary
codec and the archive readers belong to a third-party library. This
project models the logic NDU implements itself, all of it in
`src/ndu.py`:

- **The `.ndugff` DSL.**
  - `load_ndugff`: line classification, validation, unquoting, unescaping,
    the `-1` sentinel, and the stack of open containers.
  - `write_ndugff`: key and value formatting, escaping, indentation and
    `end()` lines.
  - The round trip between the two.
- **The tree.** A loaded document is an ordered sequence of
  (`_Key(type, name, id)`, value) pairs. It is sorted by `_Dict.reorder`.
- **The `_Gff._Single` object.** It remembers the tree loaded last.
  `load_ndugff` replaces that tree when a file parses. `write_ndugff`
  renders it.
- **The language table and the strref sentinel.** This includes the JSON
  bridge's
  - omission of a sentinel strref when writing, and
  - default back to the sentinel when loading.
- **`_Paths._is_file_of_type`.** File existence is a boolean parameter.
- **The `_KeyBif` recipe pipeline.**
  - Quote-aware comment stripping.
  - The `.recipes` tokenizer.
  - Grouping of tokens into sources and recipes.
  - Value-list tokenising.
  - Wildcard resolution and compilation.
  - Filter construction.
  - The `_is_match` decision procedure.
  - The export loop's choice of files.

The model is written in the source's own form:

- **Loops become methods proved against specification functions.** These
  are `build_ndugff_dict`, `dump_dict_lines`, `split_outside_quotes`,
  `strip_comments`, `get_value_tokens`, `_get_structured_input`,
  `get_filters` and the tokenizer loops.
- **Pure helpers become functions.** These are `reorder`, wildcard
  resolution, the sentinel helpers, `_is_match` and `_is_file_of_type`.
- **`_Gff._Single` becomes a class.** Its `_ndugff_dict` field is updated
  by `LoadNdugff`.

Behaviours kept as the code has them:

- Containers still open at the end of a `.ndugff` file are dropped.
  Only `stack[0]` is kept (src/ndu.py:1060-1062).
- A selected recipe id that names no recipe yields an empty recipe, not
  an error (src/ndu.py:1792).
- The recipes template text at src/ndu.py:1517-1520 promises that an
  empty key list loads `nwn_retail.key` and `nwn_base.key`. The code at
  src/ndu.py:1836 iterates over `get_value_tokens(keylist or "")`, which
  supplies no default. This is in `get_key_pairs`, which is left out.

Four defects the code evidently does not intend are listed under
"## Findings". The main pipeline uses the corrected behaviour. The
behaviour as written is modelled beside it, with the input that shows the
difference.

Modules (one file each):

- `Wrappers`, `PyStr`: Python's string operations, as used by the core.
- `GffValue`: field types, values and the sentinel.
- `Languages`: the language table.
- `DslText`: quoting and escaping.
- `DslParse`: `load_ndugff`.
- `DslRender`: `write_ndugff`.
- `RoundTrip`: write-then-load.
- `Reorder`: `_Dict.reorder`.
- `NdugffFile`: the `_Gff._Single` state.
- `JsonBridge`: the `CExoLocString` part of `load_json` and `write_json`.
- `Paths`: `_is_file_of_type`.
- Recipe pipeline:
  - `RecipeText`: comment stripping.
  - `RecipeNames` and `RecipeInput`: the tokenizer.
  - `RecipeStructure`: `_get_structured_input`.
  - `RecipeCompile`: `_RecipeCompiler`.
  - `RecipeMatch`: `_is_match` and the export loop.

## Model

| member | source | states |
|---|---|---|
| PyStr.LStrip | src/ndu.py:1034 | `str.lstrip()`: the result is a suffix of the input, does not start with whitespace, and only whitespace was removed |
| PyStr.RStrip | src/ndu.py:946 | `str.rstrip()`: the result is a prefix of the input, does not end with whitespace, and only whitespace was removed |
| PyStr.StripChar | src/ndu.py:950 | `str.strip('"')`: the result is a slice of the input with only quotes cut from its two ends, and no quote is left at either end |
| PyStr.LStripChar | src/ndu.py:1612 | `str.lstrip(c)`: the result is a suffix of the input, does not start with `c`, and only copies of `c` were removed |
| PyStr.IntRoundTrip | src/ndu.py:1017 | `int(str(n)) == n` for every integer |
| PyStr.IntIsPyFloat | src/ndu.py:1025 | the decimal text of any integer is accepted by `float()` |
| PyStr.Find | src/ndu.py:1487 | the first occurrence of a character at or after a position, or the end |
| GffValue.KindIndex | src/ndu.py:396 | each field type has a position in `_FIELD_TYPES`, and that position holds the type |
| GffValue.KindIndexInjective | src/ndu.py:396 | distinct field types have distinct sort positions |
| GffValue.KindNameInjective | src/ndu.py:450-560 | distinct field types have distinct `dsl_type_name`s |
| GffValue.KindClasses | src/ndu.py:450-563 | each type is exactly one of integer, float, string or node; `_NODE_TYPES` is CExoLocString, Struct and List; the string types are the escaped plus the literal ones |
| GffValue.EmptyNode | src/ndu.py:1022 | a node's constructor gives an empty list for List and an empty dict otherwise |
| GffValue.Prettify | src/ndu.py:1271-1272 | `get_pretty_sentinel`: 0xFFFFFFFF becomes -1, any other value is unchanged |
| GffValue.UnprettifyValue | src/ndu.py:718-723 | the JSON `get_unprettified_sentinel`: -1 becomes 0xFFFFFFFF, any other value is unchanged |
| GffValue.UnprettifyText | src/ndu.py:952-957 | the DSL `get_unprettified_sentinel`: the text `-1` becomes `4294967295`, any other text is unchanged |
| GffValue.SentinelValueRoundTrip | src/ndu.py:718-723 | unprettifying a prettified value gives back every value except -1 |
| GffValue.SentinelTextRoundTrip | src/ndu.py:952-957 | a value written as text and read back through the DSL sentinel helper and `int()` is restored, except -1; the sentinel is written as `-1` |
| Languages.LanguageName | src/ndu.py:436-449 | an id has a name exactly when it is in 0..11, and the name is at that position of the table |
| Languages.GenderedLanguageName | src/ndu.py:588-595 | the GFF loader's name for (language, gender) is the table entry at `lang * 2 + gender` |
| Languages.LanguageId | src/ndu.py:1092-1096 | the reverse lookup finds an id holding the name, or the name is in no entry |
| Languages.LanguageRoundTrip | src/ndu.py:436-449 | name to id to name and id to name to id are identities |
| Languages.FemaleIffOdd | src/ndu.py:436-449 | a name ends in `_F` exactly when its id is odd |
| Languages.JsonLanguageId | src/ndu.py:1175-1179 | `get_json_language_id` succeeds exactly for the twelve names |
| Languages.JsonLanguageRoundTrip | src/ndu.py:712-716 | the JSON key written for a name reads back as that name |
| DslText.UnquoteAsWritten | src/ndu.py:949-950 | `strip('"')` as written: the result is the value with only quotes cut from its two ends, and no quote remains at either end |
| DslText.QuoteLossAsWritten | src/ndu.py:949-950 | as written, the one-character CExoString `"` is written and read back as a backslash |
| DslText.BackslashLossAsWritten | src/ndu.py:1262-1269 | as written, the text backslash-n-b comes back with a newline, because a backslash is never escaped |
| DslText.LiteralQuoteLossAsWritten | src/ndu.py:949-950 | as written, a literal value ending in a quote loses that quote |
| DslText.Unquote | src/ndu.py:949-950 | the corrected unquote removes exactly one pair of surrounding quotes |
| DslText.UnquoteQuoted | src/ndu.py:1293-1294 | unquoting a quoted value gives back the value |
| DslText.Escape | src/ndu.py:1262-1269 | text containing no character that needs escaping is unchanged, and the result has no newline |
| DslText.EscapeAsWritten | src/ndu.py:1262-1269 | definition of `get_escaped_string` as written; see DslText.BackslashLossAsWritten |
| DslText.UnescapeRawEscape | src/ndu.py:939-945 | unescaping what was escaped gives back any text without a carriage return |
| DslText.UnescapeAsWritten | src/ndu.py:939-945 | definition of the unescape as written; see DslText.BackslashLossAsWritten |
| DslText.Unescape | src/ndu.py:939-945 | definition of the corrected unescape; see DslText.UnescapeRawEscape |
| DslText.EscapedRoundTrip | src/ndu.py:939-950 | a CExoString or Language value without a carriage return or trailing whitespace survives writing and reading |
| DslText.QuoteSurvives | src/ndu.py:949-950 | corrected, single-input examples: the two as-written counterexample inputs now survive writing and reading |
| DslText.TrailingQuoteSurvives | src/ndu.py:949-950 | corrected, a single-input example: a literal value ending in a quote keeps it |
| DslParse.TypeMatchUnique | src/ndu.py:566-567 | at most one field type name matches at the start of a line |
| DslParse.FirstType | src/ndu.py:567 | the type group finds the first type in table order that matches, or none matches |
| DslParse.MatchLine | src/ndu.py:566-571 | the tokenizer's name group holds only word characters and spaces |
| DslParse.IdGroup | src/ndu.py:569 | the optional `.id(...)` group consumes nothing when absent |
| DslParse.MagicTagNormal | src/ndu.py:936-937 | a MagicTag value becomes exactly 4 characters: truncated, or padded with spaces |
| DslParse.ScalarText | src/ndu.py:995-1007 | corrected, by the `strip('"')` finding (src/ndu.py:949-950): a backslash is refused in all but the escaped string kinds; literal kinds never hold one; a MagicTag has 4 characters; other values are just unquoted |
| DslParse.ClassifyLine | src/ndu.py:966-1007 | `build_dsl_line`: a line is skipped exactly when it is empty or starts with `#`; node lines have node types, and a Struct line has an id |
| DslParse.ClassifyLineShape | src/ndu.py:970-1005 | `end()` comes only from `end()`; every node or field line matched the tokenizer; fields have a name and a scalar type |
| DslParse.NodeKey | src/ndu.py:1010-1019 | a node key has the line's type and name; only a Struct has an id, and it succeeds exactly when `int()` accepts the id |
| DslParse.IntField | src/ndu.py:1020-1030 | an integer field succeeds exactly when `int()` accepts the value, and holds that integer |
| DslParse.TextField | src/ndu.py:1020-1030 | a string field always succeeds; a float field succeeds exactly when `float()` accepts the text |
| DslParse.ScalarField | src/ndu.py:1009-1030 | an unknown type is refused, a node type is never a scalar, and a result is well typed |
| DslParse.OpenNode | src/ndu.py:1049-1051 | a node line pushes the node type's empty value |
| DslParse.Attach | src/ndu.py:1044-1047 | a value closed or added goes to the root when nothing is open, otherwise to the innermost open node, and no other frame changes |
| DslParse.Close | src/ndu.py:1040-1047 | `end()` fails exactly when nothing is open, and otherwise pops one frame |
| DslParse.AddField | src/ndu.py:1052-1056 | a scalar fails exactly when the innermost open node is a List, and is otherwise attached |
| DslParse.Apply | src/ndu.py:1036-1059 | one step of the loop: skips change nothing, an unmatched `end()` fails, node lines push and `end()` pops exactly one frame |
| DslParse.ApplyLine | src/ndu.py:1038-1057 | the imperative step over the list stack agrees with the step function |
| DslParse.PopFrame | src/ndu.py:1040-1047 | the list-stack pop agrees with the step function |
| DslParse.PushField | src/ndu.py:1052-1056 | the list-stack field update agrees with the step function |
| DslParse.BuildNdugffDict | src/ndu.py:1032-1063 | corrected, by the skip-line finding (src/ndu.py:1036-1059) and the `strip('"')` finding (src/ndu.py:949-950): the loop over the stripped lines computes the root dictionary, or the first error |
| DslParse.ParseLines | src/ndu.py:1032-1063 | definition of the corrected loader; see DslParse.ParseLinesTyped and RoundTrip.WriteThenLoad |
| DslParse.Step | src/ndu.py:1037-1059 | definition of one corrected iteration; see DslParse.Apply and DslParse.ApplyLine |
| DslParse.Run | src/ndu.py:1036-1059 | definition of the corrected loop; see DslParse.BuildNdugffDict and RoundTrip.WriteThenLoad |
| DslParse.RunAsWritten | src/ndu.py:1036-1059 | definition of the loop as written, with the `skip` flag; see DslParse.SkippingKeepsStack and DslParse.SkippingOnlyValidates |
| DslParse.ParseLinesAsWritten | src/ndu.py:1032-1063 | definition of the loader as written; see RoundTrip.LeadingSkipLineAsWritten and DslParse.AsWrittenAgreesWithoutSkips |
| DslParse.AsWrittenAgreesWithoutSkips | src/ndu.py:1036-1059 | without blank or comment lines, the loop as written and the corrected loop agree |
| DslParse.SkippingKeepsStack | src/ndu.py:1038-1039 | as written, once a skip line is seen the tree never changes |
| DslParse.SkippingOnlyValidates | src/ndu.py:1037-1039 | as written, after a skip line the load fails exactly when some later line is invalid |
| DslParse.ParseLinesTyped | src/ndu.py:1009-1030 | every loaded tree is well typed |
| DslParse.SkipLinesChangeNothing | src/ndu.py:967-969 | blank and comment lines change nothing |
| DslParse.UnmatchedEndFails | src/ndu.py:1040-1041 | an `end()` with nothing open is refused, whatever follows |
| DslRender.Indent | src/ndu.py:1274-1275 | `get_indent(depth)` is exactly `4 * depth` characters, all of them spaces |
| DslRender.EndLine | src/ndu.py:1297-1301 | the `end()` line is indented at least as far as its node and less far than the node's children, so it never lines up with a child field |
| DslRender.EntryLines | src/ndu.py:1303-1321 | a scalar entry is one line; a node renders as at least its field line and a last `end()` line, the lines between are indented one level deeper, and every line is indented at least to the entry's depth |
| DslRender.FormattedKey | src/ndu.py:1277-1284 | definition of `get_formatted_key`; see RoundTrip.WriteThenLoad |
| DslRender.ValueText | src/ndu.py:1286-1295 | definition of `get_formatted_value`; see DslText.EscapedRoundTrip and RoundTrip.WriteThenLoad |
| DslRender.FieldLine | src/ndu.py:1303-1307 | definition of `dump_field_line`; see RoundTrip.WriteThenLoad |
| DslRender.DictLines | src/ndu.py:1309-1321 | definition of a dictionary's lines; every line is indented at least to the given depth; see DslRender.DumpDictLines and RoundTrip.WriteThenLoad |
| DslRender.ItemsLines | src/ndu.py:1318-1320 | definition of the list branch; every line is indented at least to the given depth; see DslRender.DumpItemsLines |
| DslRender.DumpDictLines | src/ndu.py:1309-1321 | corrected, by the backslash finding (src/ndu.py:1262-1269): `dump_dict_lines` appends exactly the rendering of the dictionary to the line list |
| DslRender.DumpEntryLines | src/ndu.py:1310-1321 | one iteration appends an entry's lines |
| DslRender.DumpItemsLines | src/ndu.py:1318-1320 | the list branch appends each element's lines in order |
| RoundTrip.WriteThenLoad | src/ndu.py:1032-1063 | corrected, by the skip-line finding (src/ndu.py:1036-1059), the `strip('"')` finding (src/ndu.py:949-950) and the backslash finding (src/ndu.py:1262-1269): loading what `write_ndugff` wrote gives back every well-formed tree, at any indentation |
| RoundTrip.LeadingSkipLineAsWritten | src/ndu.py:1036-1059 | as written, one leading blank or comment line makes the load return an empty tree |
| RoundTrip.LeadingSkipLine | src/ndu.py:967-969 | with skip lines skipped one at a time, the same file loads in full |
| Reorder.StrLtTransitive | src/ndu.py:397 | Python's string order is transitive |
| Reorder.StrLtTotal | src/ndu.py:397 | Python's string order is total |
| Reorder.SortEntries | src/ndu.py:401 | definition of `sorted` by the sort key; see Reorder.SortEntriesProps and Reorder.SortSortedIsIdentity |
| Reorder.KeyLtTransitive | src/ndu.py:395-397 | the sort-key order is transitive |
| Reorder.SortEntriesProps | src/ndu.py:401 | `sorted` yields a sorted permutation, stable among equal keys |
| Reorder.ReorderDict | src/ndu.py:394-409 | definition of `reorder`; see Reorder.ReorderDictProps, Reorder.ReorderIsOrdered and Reorder.ReorderIdempotent |
| Reorder.SortSortedIsIdentity | src/ndu.py:401 | sorting a sorted sequence leaves it unchanged |
| Reorder.ReorderKeepsListOrder | src/ndu.py:403-404 | list elements keep their positions and are reordered inside |
| Reorder.ReorderDictProps | src/ndu.py:399-402 | each dictionary's entries come out sorted, as a permutation, stable among equal keys |
| Reorder.ReorderIsOrdered | src/ndu.py:394-409 | the result of `reorder` is sorted at every level |
| Reorder.ReorderOrderedIsIdentity | src/ndu.py:394-409 | `reorder` leaves an already ordered tree unchanged |
| Reorder.ReorderIdempotent | src/ndu.py:394-409 | reordering twice is reordering once |
| NdugffFile.Single.constructor | src/ndu.py:427-428 | a new object has no tree loaded |
| NdugffFile.Single.LoadNdugff | src/ndu.py:1064-1070 | corrected, by the skip-line finding (src/ndu.py:1036-1059), the `strip('"')` finding (src/ndu.py:949-950) and the inner-suffix finding (src/ndu.py:55-58): `load_ndugff` stores the reordered tree when the path is an existing `stem.<gff>.ndugff` file that parses, and otherwise keeps the previous tree |
| NdugffFile.Single.WriteNdugff | src/ndu.py:1323-1329 | corrected, by the inner-suffix finding (src/ndu.py:55-58): `write_ndugff` renders the tree when the path is a `stem.<gff>.ndugff` path and a non-empty tree is loaded, and otherwise writes nothing |
| NdugffFile.AfterLoad | src/ndu.py:1064-1070 | corrected path test (inner-suffix finding); definition of the tree after `load_ndugff`; see NdugffFile.Single.LoadNdugff and NdugffFile.UnmatchedEndKeepsPrevious |
| NdugffFile.WrittenLines | src/ndu.py:1323-1329 | corrected path test (inner-suffix finding); definition of what `write_ndugff` writes; see NdugffFile.Single.WriteNdugff and NdugffFile.WriteThenLoadRestores |
| NdugffFile.LoadIsOrdered | src/ndu.py:1060-1062 | every loaded tree is ordered |
| NdugffFile.WriteThenLoadRestores | src/ndu.py:1032-1070 | corrected, by the skip-line finding (src/ndu.py:1036-1059), the `strip('"')` finding (src/ndu.py:949-950), the backslash finding (src/ndu.py:1262-1269) and the inner-suffix finding (src/ndu.py:55-58): a well-formed ordered tree written by `write_ndugff` is restored by `load_ndugff` on any existing `stem.<gff>.ndugff` path |
| NdugffFile.UnmatchedEndKeepsPrevious | src/ndu.py:1040-1041 | a file starting with an unmatched `end()` leaves the previous tree in place |
| JsonBridge.Put | src/ndu.py:1187-1189 | `dict.update` with one key: that key now maps to the value, and no other key changes |
| JsonBridge.StrrefOf | src/ndu.py:755-756 | a missing `"id"` and an `"id"` of -1 both read as the sentinel; `true` and `false` read as 1 and 0 |
| JsonBridge.LanguageEntries | src/ndu.py:758-761 | every field read from the non-`"id"` members is a Language field without an id |
| JsonBridge.LocStringFromJson | src/ndu.py:752-762 | a loaded localised string starts with its `strref` Dword |
| JsonBridge.CleanTextKeeps | src/ndu.py:732 | the loader keeps text without `\r\n` escapes or trailing whitespace as it is |
| JsonBridge.JsonIdsDistinct | src/ndu.py:1175-1179 | distinct language names get distinct JSON keys, and none of them is `"id"` |
| JsonBridge.LanguagesToJson | src/ndu.py:1188-1189 | Language fields are written one after the other as new members at the end |
| JsonBridge.LocStringToJson | src/ndu.py:1181-1190 | definition of `get_json_cexolocstring`; see JsonBridge.LocStringRoundTrip |
| JsonBridge.ToJsonFrom | src/ndu.py:1183-1189 | definition of the writer loop; see JsonBridge.SentinelStrrefOmitted and JsonBridge.StrrefWritten |
| JsonBridge.LanguagesFromMembers | src/ndu.py:758-761 | the written Language members read back as the fields they came from |
| JsonBridge.LanguagesFromJson | src/ndu.py:755 | `"id"` members are not read as languages |
| JsonBridge.SentinelStrrefOmitted | src/ndu.py:1184 | a sentinel strref is left out of the JSON object |
| JsonBridge.StrrefWritten | src/ndu.py:1184-1187 | any other strref is written first, as `"id"` |
| JsonBridge.LocStringRoundTrip | src/ndu.py:752-762 | a localised string survives `write_json` then `load_json`, for every strref except -1 |
| JsonBridge.MissingIdIsSentinel | src/ndu.py:755 | an object without `"id"`, or with `"id": -1`, loads with the sentinel strref |
| Paths.Name | src/ndu.py:49-50 | a path's name has no `/` and is never `.` |
| Paths.NameSkipsDotComponent | src/ndu.py:49-50 | a final `/.` component is skipped: the name of `x.utc/.` is `x.utc` |
| Paths.Suffixes | src/ndu.py:50 | every suffix starts with `.` |
| Paths.Stem | src/ndu.py:1611 | the stem followed by the suffix rebuilds the name |
| Paths.Suffix | src/ndu.py:1612 | the suffix is empty or a dot followed by at least one character other than a dot |
| Paths.IsFileOfType | src/ndu.py:38-85 | definition of `_is_file_of_type`; see Paths.GffNames, Paths.ThreeSuffixesRejected and Paths.MissingFileRejected |
| Paths.IsNdugffFile | src/ndu.py:104-117 | definition of `is_ndugff_file`; see Paths.NdugffNames and Paths.NdugffWithoutInnerSuffix |
| Paths.NdugffNames | src/ndu.py:104-117 | a `stem.inner.ndugff` name, in any letter case, is an `.ndugff` file exactly when the existence test passes and `.inner`, lower-cased, is a GFF extension |
| Paths.NdugffWithoutInnerSuffix | src/ndu.py:55-85 | as written: `stem.ndugff` is accepted exactly when the file exists or existence is not checked, although the docstring at src/ndu.py:106-108 asks for an inner GFF suffix |
| Paths.IsConvertedNdugffFile | src/ndu.py:104-117 | definition of the corrected `is_ndugff_file`, which asks for two suffixes as its documentation does; see Paths.ConvertedNdugffNames and Paths.ConvertedNdugffNeedsInnerSuffix |
| Paths.ConvertedNdugffNames | src/ndu.py:104-117 | corrected: a `stem.inner.ndugff` name is accepted exactly when the existence test passes and `.inner`, lower-cased, is a GFF extension, as in the code |
| Paths.ConvertedNdugffNeedsInnerSuffix | src/ndu.py:106-108 | corrected: a name with one suffix, such as `foo.ndugff`, is never an `.ndugff` file |
| Paths.ThreeSuffixesRejected | src/ndu.py:55-60 | a name with three suffixes is never accepted |
| Paths.GffNames | src/ndu.py:61-67 | `stem.ext` is a GFF file exactly when `.ext`, lower-cased, is in the GFF table and the existence test passes |
| Paths.GffNamesWithInnerSuffix | src/ndu.py:55-70 | without a base type, the inner suffix of a two-suffix name is not checked |
| Paths.MissingFileRejected | src/ndu.py:80-83 | when existence is checked, a missing file is never accepted |
| Paths.StemAndSuffix | src/ndu.py:1611-1612 | `stem.ext` splits into that stem and `.ext` |
| RecipeText.SplitOutsideQuotes | src/ndu.py:1687-1704 | the while loop computes the stripped non-empty pieces and delimiters outside quotes |
| RecipeText.OutsideQuoteTokens | src/ndu.py:1687-1704 | definition of `split_outside_quotes`; see RecipeText.RawJoin and RecipeText.SplitOnceTokens |
| RecipeText.RawJoin | src/ndu.py:1692-1703 | splitting loses no text: the pieces join back into the line |
| RecipeText.QuotedDelimitersOnly | src/ndu.py:1687-1704 | a line whose delimiters all lie inside quotes is one piece, the stripped line, and no delimiter is reported |
| RecipeText.SplitOnceTokens | src/ndu.py:1692-1704 | a line with one delimiter outside quotes splits into the text before it, the delimiter, and the text after it |
| RecipeText.StripComments | src/ndu.py:1706-1732 | the loop computes the stripped lines |
| RecipeText.StrippedLines | src/ndu.py:1706-1732 | definition of `strip_comments`; see RecipeText.BlankLineDropped and RecipeText.LineComment |
| RecipeText.StripOneLine | src/ndu.py:1710-1731 | one iteration computes that line's kept pieces and the new block state |
| RecipeText.BlockLoop | src/ndu.py:1714-1719 | the `###` token loop keeps tokens outside blocks and toggles at each marker |
| RecipeText.HashLoop | src/ndu.py:1725-1729 | the `#` token loop keeps the tokens before the first `#` |
| RecipeText.BlankLineDropped | src/ndu.py:1710-1711 | blank lines are dropped |
| RecipeText.QuotedHashesKeepLine | src/ndu.py:1712-1731 | a line whose `#` characters are all inside quotes is kept whole outside a block and dropped inside one |
| RecipeText.LineComment | src/ndu.py:1723-1730 | a single `#` discards the rest of the line |
| RecipeText.BlockMarkerToggles | src/ndu.py:1713-1720 | a `###` line toggles the block state |
| RecipeText.BlockMarkerInLine | src/ndu.py:1713-1720 | text before an inline `###` is kept outside a block, and the text after it is treated in the toggled state |
| RecipeText.BlockPassNoMarker | src/ndu.py:1714-1719 | without a marker, all tokens are kept outside a block and none inside |
| RecipeNames.AlternativeIff | src/ndu.py:1484-1487 | trying the alternatives in turn finds exactly the listed names |
| RecipeNames.NoParen | src/ndu.py:1453-1478 | no property name contains `(` |
| RecipeNames.TypesPrefixFree | src/ndu.py:1453-1478 | no node type is a prefix of another |
| RecipeInput.LeadingType | src/ndu.py:1486 | the anchored type group, when it matches, is a node type at the start of the line |
| RecipeInput.ValueAt | src/ndu.py:1487 | a value group, closed by `)`, is either a non-empty quoted text without quotes, read without its quotes, or a non-empty run of digits |
| RecipeInput.PropertyAt | src/ndu.py:1487 | a property match names a known property, starts with `.name(`, and holds a non-empty value without quotes |
| RecipeInput.ScanProps | src/ndu.py:1739-1743 | the `finditer` loop keeps every earlier property and adds only well-formed ones |
| RecipeInput.TokenizeLine | src/ndu.py:1738-1745 | a line yields a token only with a type and at least one property, and every token is well formed |
| RecipeInput.TokenizeOne | src/ndu.py:1738-1745 | the loop for one line computes its token |
| RecipeInput.FindProperties | src/ndu.py:1739-1743 | the `finditer` loop computes the scanned properties |
| RecipeInput.GetTokenizedInput | src/ndu.py:1734-1746 | the loop over the stripped, comment-free lines computes the token list |
| RecipeInput.PropertyRoundTrip | src/ndu.py:1487 | a written `.name("value")` is matched as that property and value, ending where it was written |
| RecipeInput.TokenizeRendered | src/ndu.py:1738-1745 | a line written as a node type and one property is read as that token |
| RecipeInput.LaterPropertyWins | src/ndu.py:1743 | when a property is written twice, the later value wins |
| RecipeStructure.IntProp | src/ndu.py:1771 | the `int()` of a property: absent, a number, or the text `int()` refuses |
| RecipeStructure.Select | src/ndu.py:1768-1771 | a `selected` token sets the ids it names and leaves the others |
| RecipeStructure.Open | src/ndu.py:1772-1780 | a source or recipe token opens a block with its id (-1 when absent), its description and empty children |
| RecipeStructure.AddChild | src/ndu.py:1781-1788 | a child token of the open block is appended, a `game` token updates an existing non-empty game, and other tokens are ignored |
| RecipeStructure.GetStructuredInput | src/ndu.py:1748-1793 | the loop computes the selection, or the error it would raise |
| RecipeStructure.Merge | src/ndu.py:1749-1757 | definition of `merge_node`; see RecipeStructure.FoldKeepsNoZero and RecipeStructure.LaterBlockReplaces |
| RecipeStructure.StepToken | src/ndu.py:1766-1788 | definition of one iteration; see RecipeStructure.Select, RecipeStructure.Open and RecipeStructure.AddChild |
| RecipeStructure.Finish | src/ndu.py:1789-1793 | definition of the final merge and lookup; see RecipeStructure.NoSelectionFails and RecipeStructure.MergedBlockFound |
| RecipeStructure.StructuredInput | src/ndu.py:1748-1793 | definition of `_get_structured_input`; see RecipeStructure.GetStructuredInput and RecipeStructure.NoSelectionFails |
| RecipeStructure.FoldKeepsNoZero | src/ndu.py:1756 | no block with id 0 is ever stored |
| RecipeStructure.ZeroIdNeverSelected | src/ndu.py:1756-1757 | selecting source 0 always fails, and selecting recipe 0 always yields no recipe |
| RecipeStructure.LaterBlockReplaces | src/ndu.py:1757 | a later block with the same id replaces the earlier one |
| RecipeStructure.MergedBlockFound | src/ndu.py:1756-1757 | a block with a non-zero id is stored under its id |
| RecipeStructure.ChildFirstFails | src/ndu.py:1781 | a child token before any source or recipe fails |
| RecipeStructure.NoSelectionFails | src/ndu.py:1792 | without a selected source id the lookup fails |
| RecipeStructure.BadSelectionFails | src/ndu.py:1771 | a selected id `int()` refuses fails |
| RecipeStructure.SecondGameUpdates | src/ndu.py:1782-1786 | a second `game` token merges into the first, the later keys winning |
| RecipeCompile.ResolvePerChar | src/ndu.py:1806-1812 | resolution lower-cases the token and replaces `?`, `#` and `@`, one character at a time |
| RecipeCompile.ResolveTokenWildcards | src/ndu.py:1805-1811 | definition of `resolve_token_wildcards`; see RecipeCompile.ResolvePerChar |
| RecipeCompile.Wildcards | src/ndu.py:1806-1812 | each token character becomes one pattern element |
| RecipeCompile.CompileRegex | src/ndu.py:1822-1832 | definition of `regex.compile` on the patterns the core builds; see RecipeCompile.CompileResolved |
| RecipeCompile.CompileResolved | src/ndu.py:1806-1832 | compiling a resolved token without regex metacharacters (other than `.`) gives one element per character: a word-class, digit-class or letter-class element for `?`, `#`, `@`, any character but newline for `.`, and a literal otherwise |
| RecipeCompile.TokenElems | src/ndu.py:1822-1832 | a compiled token without regex metacharacters (other than `.`) has as many elements as the token has characters |
| RecipeCompile.ExtensionMatchesWhole | src/ndu.py:1831-1832 | for a token without regex metacharacters (other than `.`), an extension pattern matches exactly the extensions of the token's length whose characters match element by element |
| RecipeCompile.NameStartMatchesPrefix | src/ndu.py:1825-1826 | for a token without regex metacharacters (other than `.`), a `name_start` pattern matches exactly the stems whose prefix matches |
| RecipeCompile.NameEndMatchesSuffix | src/ndu.py:1829-1830 | for a token without regex metacharacters (other than `.`), a `name_end` pattern matches exactly the stems whose suffix matches |
| RecipeCompile.ExtensionAcceptsExact | src/ndu.py:1831-1832 | a single-input example: `ut@` as an extension matches `utc` |
| RecipeCompile.ExtensionRejectsLonger | src/ndu.py:1831-1832 | a single-input example: `ut@` as an extension does not match `utcx` |
| RecipeCompile.ExtensionDotMatchesAny | src/ndu.py:1831-1832 | a single-input example: a `.` in a token keeps its regex meaning, so `a.b` as an extension matches `axb` |
| RecipeCompile.Words | src/ndu.py:1491 | the split pieces are non-empty and hold no separator |
| RecipeCompile.WordsSplit | src/ndu.py:1491 | a separator splits the pieces of the two sides apart |
| RecipeCompile.GetValueTokens | src/ndu.py:1814-1820 | the append-if-absent loop computes the value tokens |
| RecipeCompile.ValueTokensSpec | src/ndu.py:1814-1820 | a resolved piece is a token exactly when it is non-empty; tokens are distinct and in first-occurrence order |
| RecipeCompile.ValueTokens | src/ndu.py:1813-1819 | definition of `get_value_tokens`; see RecipeCompile.GetValueTokens and RecipeCompile.ValueTokensSpec |
| RecipeCompile.CompileGroup | src/ndu.py:1822-1832 | each condition's patterns have the anchors of its kind, one per value token |
| RecipeCompile.GetFilters | src/ndu.py:1842-1857 | the loop computes the recipe's filters |
| RecipeCompile.RecipeFilters | src/ndu.py:1842-1857 | definition of the recipe's filters; see RecipeCompile.GetFilters and RecipeCompile.RecipeFullnames |
| RecipeCompile.AddAll | src/ndu.py:1850-1856 | the inner loop adds each entry's full names, and a pattern group when other conditions remain |
| RecipeCompile.RecipeFullnames | src/ndu.py:1849-1852 | a name is an include or exclude full name exactly when it is a value token of some match or exclude entry |
| RecipeCompile.NoRecipeExportsNothing | src/ndu.py:1793 | a missing recipe selects no file |
| RecipeCompile.ExcludedFullnameWins | src/ndu.py:1628-1629 | an excluded full name is never exported, even when it is also matched |
| RecipeCompile.MatchedFullnameExported | src/ndu.py:1630-1631 | a matched full name that is not excluded is exported |
| RecipeMatch.FirstGroupMatches | src/ndu.py:1613-1625 | the group loop returns true exactly when some group matches |
| RecipeMatch.IsMatchByPatterns | src/ndu.py:1608-1625 | a file matches exactly when some group has a condition and every present condition has a matching pattern |
| RecipeMatch.MatchPrecedence | src/ndu.py:1627-1636 | exclude full name, then match full name, then exclude patterns, then match patterns, and the default is excluded |
| RecipeMatch.EmptyPatternsNeverMatch | src/ndu.py:1609-1610 | no groups never match |
| RecipeMatch.EmptyGroupNeverMatches | src/ndu.py:1614-1615 | a group without conditions never matches |
| RecipeMatch.MorePatternsMonotone | src/ndu.py:1632-1635 | adding match groups never removes a file, and adding exclude groups never adds one |
| RecipeMatch.GroupOrderIrrelevant | src/ndu.py:1613-1625 | the order of the groups does not matter |
| RecipeMatch.StartAnchored | src/ndu.py:1616 | `match` of a `^` pattern tests the start of the stem |
| RecipeMatch.EndAnchored | src/ndu.py:1618 | `search` of a `$` pattern tests the end of the stem |
| RecipeMatch.BothAnchored | src/ndu.py:1622 | a `^...$` pattern must cover the whole text |
| RecipeMatch.SelectedNames | src/ndu.py:1646-1648 | the exported names are exactly the lower-cased resource names that `_is_match` accepts |
| RecipeMatch.ExportResources | src/ndu.py:1646-1650 | the export loop writes exactly the selected names, in archive order |
| RecipeMatch.IsMatch | src/ndu.py:1627-1636 | definition of `_is_match`; see RecipeMatch.MatchPrecedence and RecipeMatch.MorePatternsMonotone |
| RecipeMatch.Search | src/ndu.py:1618-1623 | definition of `Pattern.search`; see RecipeMatch.EndAnchored and RecipeMatch.BothAnchored |
| RecipeMatch.MatchStart | src/ndu.py:1616 | definition of `Pattern.match`; see RecipeMatch.StartAnchored |

## Left out

- Binary GFF reading and writing, `gff.*` constructors and their range checks: they are calls into a third-party library (`load_gff`, `write_gff`).
- ERF, KEY and BIF reading and writing, and ZIP packaging: third-party archive APIs.
- `json.load`, `json.dump` and `base64`: library codecs. A JSON object is a sequence of members in insertion order.
- The JSON bridge's tree reshaping (`get_normalized_json_struct`, `get_json_dict` and the rest of `load_json`/`write_json` outside `CExoLocString`): it depends on untyped JSON shapes.
- File I/O in general. Opening, reading, `mkdir`, `rglob`, `is_file` and `is_dir` are left out. A file is its line list: `load_ndugff` takes the read lines, and `write_ndugff` returns the lines it joins with `\n`. The `is_file`/`is_dir` answer is a boolean parameter.
- `write_ndugff`'s `.ndugff` path test is made with existence not checked.
- The batch converters, `_get_dp`, `_resolve_script_path`, `_InputResolver._resolve_fp`, `write_default_recipes`, logging and stdout redirection: filesystem and process work.
- `get_key_pairs`: it probes the filesystem for `.key` files. A source without a `game` line keeps the initial `[]`, which cannot be read as a game.
- Float and Double values: `float()` parsing and formatting are floating point. A float field keeps its literal text, and the loader's acceptance test is modelled as a grammar of Python float literals.
- Regular-expression semantics beyond the three wildcards and `.`: `.` is compiled as any character but newline, and the other characters of a pattern are compiled as literals. In the source `^ $ * + ( ) { } [ ] \` keep their regex meaning, and a token such as `(` or `*` makes `regex.compile` raise. `$` also matching before a final newline is not modelled. `|` never reaches a pattern, because the value tokenizer splits on it (src/ndu.py:1491).
- RecipeCompile.CompileResolved: stated only for resolved tokens holding no regex metacharacter other than `.`, because the others are not modelled.
- RecipeCompile.TokenElems: stated only for tokens holding no regex metacharacter other than `.`, for the same reason.
- RecipeCompile.ExtensionMatchesWhole: stated only for tokens holding no regex metacharacter other than `.`, for the same reason.
- RecipeCompile.NameStartMatchesPrefix: stated only for tokens holding no regex metacharacter other than `.`, for the same reason.
- RecipeCompile.NameEndMatchesSuffix: stated only for tokens holding no regex metacharacter other than `.`, for the same reason.
- `RecipeCompile.Words`: the empty pieces `re.split` yields around separator runs are not modelled, because `get_value_tokens` never keeps them.
- `\w` and `\d` in the tokenizers and `str.lower()`: ASCII models. Unicode letters, digits and case mappings are not modelled. `str.strip()`, `lstrip()` and `rstrip()` use Python's full set of whitespace characters.
- `print` and the line numbers in `log_and_raise` messages: an error is a datatype value naming its reason.
- `JsonBridge.LocStringRoundTrip`: stated for Language fields with distinct names whose texts the loader keeps unchanged (no `\r\n` escape, no trailing whitespace), and a strref other than -1, which the loader reads as the sentinel.
- `NdugffFile.WriteThenLoadRestores`: stated for well-formed, ordered trees. The loader reorders what it reads, so other trees come back reordered.
- JsonBridge.StrrefOf: a floating-point `"id"` is read as `JOther` and refused. The source's `int()` truncates it, and `-1.0` is not unprettified. Floating point is not modelled.
- `Languages.LanguageId`: for an unknown name, `write_gff`'s `get_gff_language` goes on into the foreign library with `None`. The model returns `None` and leaves that call out.

## Findings

| source | as written | input that shows it | evidently intended | confidence | as-written member | corrected member |
|---|---|---|---|---|---|---|
| src/ndu.py:1036-1059 | `continue` after a skip line jumps over `dsl_line.reset()`, so `skip` stays set and every later line is only validated | a file whose first line is blank or a comment, followed by any valid tree | each blank or comment line is skipped on its own | not executed | RoundTrip.LeadingSkipLineAsWritten | RoundTrip.LeadingSkipLine |
| src/ndu.py:949-950 | `strip('"')` removes every quote at both ends, not just the pair the writer added | the CExoString `"` (written as `"\""`), or a ResRef ending in `"` | exactly one surrounding pair of quotes is removed | not executed | DslText.QuoteLossAsWritten | DslText.QuoteSurvives |
| src/ndu.py:1262-1269 | the writer does not escape `\`, so a value holding backslash-n comes back with a newline | the CExoString `\nb` (backslash, `n`, `b`) | a backslash is escaped, and the value survives writing and reading | not executed | DslText.BackslashLossAsWritten | DslText.EscapedRoundTrip |
| src/ndu.py:55-58 | a name with the single suffix `.ndugff` has no base suffix, so `is_ndugff_file` skips the inner GFF test that its documentation (src/ndu.py:106-108) asks for | `foo.ndugff`, existing; it is loaded, and the converter names its GFF output `foo` (src/ndu.py:343), with no GFF extension | only `stem.<gff extension>.ndugff` names are `.ndugff` files | not executed; low, since the comment at src/ndu.py:51-54 allows one suffix for native formats | Paths.NdugffWithoutInnerSuffix | Paths.ConvertedNdugffNeedsInnerSuffix |
