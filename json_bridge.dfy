/**
 * The CExoLocString part of the JSON bridge: `get_ndugff_cexolocstring` of
 * `load_json` and `get_json_cexolocstring` of `write_json`. In JSON a
 * localised string is an object holding an optional `"id"` (the strref) and
 * one text per decimal language id; in the tree it is a `strref` Dword
 * followed by one Language field per text. A strref equal to the sentinel
 * is left out of the JSON object and comes back as the sentinel when the
 * object is read.
 */
module JsonBridge {
  import opened Wrappers
  import opened PyStr
  import opened GffValue
  import opened Languages

  /**
   * The JSON values a localised string holds; `JOther` is any other value
   * (`null`, an array, an object, and a number with a fraction part, whose
   * floating-point reading is not modelled).
   */
  datatype JsonValue = JInt(i: int) | JBool(b: bool) | JStr(s: string) | JOther

  /** A JSON object: its members in insertion order. */
  type JsonObject = seq<(string, JsonValue)>

  function Lookup(obj: JsonObject, k: string): Option<JsonValue> {
    if obj == [] then None else if obj[0].0 == k then Some(obj[0].1) else Lookup(obj[1..], k)
  }

  /** `d.update({k: v})`: a present key keeps its place and takes the new value, a new key goes last. */
  function Put(obj: JsonObject, k: string, v: JsonValue): (r: JsonObject)
    ensures Lookup(r, k) == Some(v)
    ensures forall j :: j != k ==> Lookup(r, j) == Lookup(obj, j)
  {
    if obj == [] then [(k, v)]
    else if obj[0].0 == k then [(k, v)] + obj[1..]
    else [obj[0]] + Put(obj[1..], k, v)
  }

  /** `json.load` handing back a value `int()` cannot read, or an unknown language id or name. */
  datatype JsonError = NotAnInteger(text: string) | NotText(key: string) | UnknownLanguageId(key: string) | UnknownLanguageName(name: string)

  // ------------------------------------------------------------------ load

  /** `arg_json_value.pop("id", SENTINEL)` through `get_ndugff_value("gff.Dword", ...)`. */
  function StrrefOf(obj: JsonObject): (r: Result<int, JsonError>)
    ensures Lookup(obj, "id").None? ==> r == Success(Sentinel)
    ensures Lookup(obj, "id") == Some(JInt(PrettySentinel)) ==> r == Success(Sentinel)
    ensures Lookup(obj, "id") == Some(JBool(true)) ==> r == Success(1)
    ensures Lookup(obj, "id") == Some(JBool(false)) ==> r == Success(0)
  {
    match Lookup(obj, "id")
    case None => Success(Sentinel)
    case Some(JInt(i)) => Success(UnprettifyValue(i))
    // `True` and `False` are never equal to -1, and `int()` reads them as 1 and 0
    case Some(JBool(b)) => Success(if b then 1 else 0)
    // a string is compared with the integer -1, so it is never unprettified
    case Some(JStr(s)) =>
      (match PyInt(s)
       case None => Failure(NotAnInteger(s))
       case Some(n) => Success(n))
    case Some(JOther) => Failure(NotAnInteger(""))
  }

  /** `get_ndugff_value` on a Language text: `\r\n` escapes become `\n`, trailing blanks go. */
  function CleanText(s: string): string {
    RStrip(ReplaceAll(s, "\\r\\n", "\\n"))
  }

  /** The members other than `"id"`, each a language id and its text. */
  function LanguageEntries(obj: JsonObject): (r: Result<seq<Entry>, JsonError>)
    ensures r.Success? ==> forall e :: e in r.value ==> e.key.kind == Language && e.key.id.None?
  {
    if obj == [] then Success([])
    else
      var (k, v) := obj[0];
      if k == "id" then LanguageEntries(obj[1..])
      else match JsonLanguageName(k)
        case None => Failure(UnknownLanguageId(k))
        case Some(name) =>
          match v
          case JStr(s) =>
            (match LanguageEntries(obj[1..])
             case Failure(e) => Failure(e)
             case Success(rest) => Success([Entry(Key(Language, name, None), TextV(CleanText(s)))] + rest))
          case _ => Failure(NotText(k))
  }

  /** The strref field of the tree. */
  function StrrefEntry(v: int): Entry {
    Entry(Key(Dword, "strref", None), IntV(v))
  }

  /** `get_ndugff_cexolocstring(json_value)` of `load_json`. */
  function LocStringFromJson(obj: JsonObject): (r: Result<seq<Entry>, JsonError>)
    ensures r.Success? ==> |r.value| >= 1 && r.value[0].key == Key(Dword, "strref", None)
  {
    match StrrefOf(obj)
    case Failure(e) => Failure(e)
    case Success(strref) =>
      match LanguageEntries(obj)
      case Failure(e) => Failure(e)
      case Success(langs) => Success([StrrefEntry(strref)] + langs)
  }

  // ------------------------------------------------------------------ write

  function JsonOf(v: Value): JsonValue {
    match v
    case IntV(i) => JInt(i)
    case TextV(s) => JStr(s)
    case _ => JOther
  }

  /** The loop of `get_json_cexolocstring`, adding to the object built so far. */
  function ToJsonFrom(obj: JsonObject, es: seq<Entry>): Result<JsonObject, JsonError>
    decreases |es|
  {
    if es == [] then Success(obj)
    else
      var e := es[0];
      if e.key.kind == Dword && e.key.name == "strref" && e.value != IntV(Sentinel) then
        ToJsonFrom(Put(obj, "id", JsonOf(e.value)), es[1..])
      else if e.key.kind == Language then
        match JsonLanguageId(e.key.name)
        case None => Failure(UnknownLanguageName(e.key.name))
        case Some(id) => ToJsonFrom(Put(obj, id, JsonOf(e.value)), es[1..])
      else ToJsonFrom(obj, es[1..])
  }

  /** `get_json_cexolocstring(ndugff_value)` of `write_json`. */
  function LocStringToJson(es: seq<Entry>): Result<JsonObject, JsonError> {
    ToJsonFrom([], es)
  }

  // ------------------------------------------------------------------ lemmas

  /** A localised string's Language fields as the model writes them: known names, each once, with texts the loader keeps as they are. */
  predicate CleanLanguages(langs: seq<Entry>) {
    && (forall i :: 0 <= i < |langs| ==>
          && langs[i].key == Key(Language, langs[i].key.name, None)
          && langs[i].key.name in Names
          && langs[i].value.TextV?
          && CleanText(langs[i].value.s) == langs[i].value.s)
    && (forall i, j :: 0 <= i < j < |langs| ==> langs[i].key.name != langs[j].key.name)
  }

  /** Text without `\r\n` escapes and trailing blanks is left alone by the loader. */
  lemma {:induction false} ReplaceAbsent(s: string, pat: string, rep: string)
    requires |pat| > 0 && !HasSubstring(s, pat)
    ensures ReplaceAll(s, pat, rep) == s
    decreases |s|
  {
    if |s| >= |pat| {
      assert !StartsAt(s, pat, 0);
      assert !HasSubstring(s[1..], pat) by {
        forall i | 0 <= i <= |s[1..]| ensures !StartsAt(s[1..], pat, i) {
          assert !StartsAt(s, pat, i + 1);
          if i + |pat| <= |s[1..]| {
            assert s[1..][i..i + |pat|] == s[i + 1..i + 1 + |pat|];
          }
        }
      }
      ReplaceAbsent(s[1..], pat, rep);
    }
  }

  lemma CleanTextKeeps(s: string)
    requires !HasSubstring(s, "\\r\\n") && RStrip(s) == s
    ensures CleanText(s) == s
  {
    ReplaceAbsent(s, "\\r\\n", "\\n");
  }

  /** The JSON member a Language field becomes. */
  function Member(e: Entry): (string, JsonValue) {
    (if JsonLanguageId(e.key.name).Some? then JsonLanguageId(e.key.name).value else "", JsonOf(e.value))
  }

  /** The JSON members the Language fields become. */
  function LanguageMembers(langs: seq<Entry>): (r: JsonObject)
    ensures |r| == |langs| && forall i :: 0 <= i < |langs| ==> r[i] == Member(langs[i])
  {
    if langs == [] then [] else [Member(langs[0])] + LanguageMembers(langs[1..])
  }

  /** Distinct language names have distinct JSON keys, none of them `"id"`. */
  lemma JsonIdsDistinct(a: string, b: string)
    requires a in Names && b in Names
    ensures JsonLanguageId(a).value != "id"
    ensures a != b ==> JsonLanguageId(a).value != JsonLanguageId(b).value
  {
    JsonLanguageRoundTrip(a);
    JsonLanguageRoundTrip(b);
    var t := JsonLanguageId(a).value;
    assert IsDigit(t[|t| - 1]);
  }

  lemma {:induction false} LookupAbsent(obj: JsonObject, k: string)
    requires forall i :: 0 <= i < |obj| ==> obj[i].0 != k
    ensures Lookup(obj, k).None?
    decreases |obj|
  {
    if obj != [] {
      LookupAbsent(obj[1..], k);
    }
  }

  lemma {:induction false} PutNew(obj: JsonObject, k: string, v: JsonValue)
    requires forall i :: 0 <= i < |obj| ==> obj[i].0 != k
    ensures Put(obj, k, v) == obj + [(k, v)]
    decreases |obj|
  {
    if obj != [] {
      PutNew(obj[1..], k, v);
    }
  }

  lemma ConcatAssoc(a: JsonObject, b: JsonObject, c: JsonObject)
    ensures a + b + c == a + (b + c)
  {
  }

  /** Written one after the other, the Language fields add their members at the end. */
  lemma {:induction false} LanguagesToJson(obj: JsonObject, langs: seq<Entry>)
    requires CleanLanguages(langs)
    requires forall i, j :: 0 <= i < |obj| && 0 <= j < |langs| ==> obj[i].0 != JsonLanguageId(langs[j].key.name).value
    ensures ToJsonFrom(obj, langs) == Success(obj + LanguageMembers(langs))
    decreases |langs|
  {
    if langs != [] {
      var e, rest := langs[0], langs[1..];
      var id := JsonLanguageId(e.key.name).value;
      assert forall i :: 0 <= i < |obj| ==> obj[i].0 != id;
      PutNew(obj, id, JsonOf(e.value));
      var obj1 := obj + [Member(e)];
      assert forall j :: 0 <= j < |rest| ==> rest[j] == langs[j + 1];
      forall j | 0 <= j < |rest| ensures id != JsonLanguageId(rest[j].key.name).value {
        JsonIdsDistinct(e.key.name, rest[j].key.name);
      }
      LanguagesToJson(obj1, rest);
      ConcatAssoc(obj, [Member(e)], LanguageMembers(rest));
    } else {
      assert obj + [] == obj;
    }
  }

  /** One Language member read in front of the rest. */
  lemma LanguageEntriesCons(id: string, text: string, name: string, tail: JsonObject)
    requires id != "id" && JsonLanguageName(id) == Some(name) && LanguageEntries(tail).Success?
    ensures LanguageEntries([(id, JStr(text))] + tail) == Success([Entry(Key(Language, name, None), TextV(CleanText(text)))] + LanguageEntries(tail).value)
  {
    assert ([(id, JStr(text))] + tail)[1..] == tail;
  }

  /** A Language field's member has a key that reads back as its name, and holds its text. */
  lemma MemberReadsBack(e: Entry)
    requires e.key.name in Names && e.value.TextV?
    ensures Member(e) == (Member(e).0, JStr(e.value.s))
    ensures Member(e).0 != "id" && JsonLanguageName(Member(e).0) == Some(e.key.name)
  {
    JsonIdsDistinct(e.key.name, e.key.name);
    JsonLanguageRoundTrip(e.key.name);
  }

  lemma EntriesSplit(es: seq<Entry>)
    requires es != []
    ensures es == [es[0]] + es[1..]
  {
  }

  lemma CleanTail(langs: seq<Entry>)
    requires CleanLanguages(langs) && langs != []
    ensures CleanLanguages(langs[1..])
  {
    assert forall j :: 0 <= j < |langs[1..]| ==> langs[1..][j] == langs[j + 1];
  }

  /** The first Language member reads back in front of the rest. */
  lemma FromMembersStep(langs: seq<Entry>)
    requires CleanLanguages(langs) && langs != []
    requires LanguageEntries(LanguageMembers(langs[1..])) == Success(langs[1..])
    ensures LanguageEntries(LanguageMembers(langs)) == Success(langs)
  {
    var e, rest := langs[0], langs[1..];
    MemberReadsBack(e);
    assert LanguageMembers(langs) == [Member(e)] + LanguageMembers(rest);
    assert CleanText(e.value.s) == e.value.s;
    LanguageEntriesCons(Member(e).0, e.value.s, e.key.name, LanguageMembers(rest));
    assert e == Entry(Key(Language, e.key.name, None), TextV(e.value.s));
    EntriesSplit(langs);
  }

  /** The Language members read back as the fields they came from. */
  lemma {:induction false} LanguagesFromMembers(langs: seq<Entry>)
    requires CleanLanguages(langs)
    ensures LanguageEntries(LanguageMembers(langs)) == Success(langs)
    decreases |langs|
  {
    if langs != [] {
      CleanTail(langs);
      LanguagesFromMembers(langs[1..]);
      FromMembersStep(langs);
    }
  }

  /** `"id"` members are skipped. */
  lemma {:induction false} LanguagesFromJson(obj: JsonObject, members: JsonObject)
    requires forall i :: 0 <= i < |obj| ==> obj[i].0 == "id"
    ensures LanguageEntries(obj + members) == LanguageEntries(members)
    decreases |obj|
  {
    if obj != [] {
      assert (obj + members)[0] == obj[0] && (obj + members)[1..] == obj[1..] + members;
      assert LanguageEntries(obj + members) == LanguageEntries(obj[1..] + members);
      LanguagesFromJson(obj[1..], members);
    } else {
      assert obj + members == members;
    }
  }

  /** No Language member is called `"id"`. */
  lemma MembersHaveNoId(langs: seq<Entry>)
    requires CleanLanguages(langs)
    ensures Lookup(LanguageMembers(langs), "id").None?
  {
    var m := LanguageMembers(langs);
    forall i | 0 <= i < |m| ensures m[i].0 != "id" {
      JsonIdsDistinct(langs[i].key.name, langs[i].key.name);
    }
    LookupAbsent(m, "id");
  }

  /** The sentinel strref is left out of the JSON object. */
  lemma SentinelStrrefOmitted(langs: seq<Entry>)
    requires CleanLanguages(langs)
    ensures LocStringToJson([StrrefEntry(Sentinel)] + langs) == Success(LanguageMembers(langs))
    ensures Lookup(LanguageMembers(langs), "id").None?
  {
    assert ([StrrefEntry(Sentinel)] + langs)[1..] == langs;
    assert LocStringToJson([StrrefEntry(Sentinel)] + langs) == ToJsonFrom([], langs);
    LanguagesToJson([], langs);
    assert [] + LanguageMembers(langs) == LanguageMembers(langs);
    MembersHaveNoId(langs);
  }

  /** Any other strref is written first, as `"id"`. */
  lemma StrrefWritten(strref: int, langs: seq<Entry>)
    requires strref != Sentinel && CleanLanguages(langs)
    ensures LocStringToJson([StrrefEntry(strref)] + langs) == Success([("id", JInt(strref))] + LanguageMembers(langs))
  {
    assert ([StrrefEntry(strref)] + langs)[1..] == langs;
    forall j | 0 <= j < |langs| ensures "id" != JsonLanguageId(langs[j].key.name).value {
      JsonIdsDistinct(langs[j].key.name, langs[j].key.name);
    }
    LanguagesToJson([("id", JInt(strref))], langs);
  }

  /**
   * A localised string survives `write_json` then `load_json`: the strref
   * is written as `"id"` unless it is the sentinel, and an absent `"id"`
   * reads back as the sentinel. A strref of -1 is excluded, because the
   * loader reads -1 as the sentinel.
   */
  lemma LocStringRoundTrip(strref: int, langs: seq<Entry>)
    requires strref != PrettySentinel && CleanLanguages(langs)
    ensures LocStringToJson([StrrefEntry(strref)] + langs).Success?
    ensures LocStringFromJson(LocStringToJson([StrrefEntry(strref)] + langs).value) == Success([StrrefEntry(strref)] + langs)
  {
    var m := LanguageMembers(langs);
    LanguagesFromMembers(langs);
    if strref == Sentinel {
      SentinelStrrefOmitted(langs);
      LanguagesFromJson([], m);
      assert [] + m == m;
    } else {
      StrrefWritten(strref, langs);
      LanguagesFromJson([("id", JInt(strref))], m);
    }
  }

  /** An object without `"id"`, or with `"id": -1`, loads with the sentinel strref. */
  lemma MissingIdIsSentinel(obj: JsonObject)
    requires Lookup(obj, "id").None? || Lookup(obj, "id") == Some(JInt(PrettySentinel))
    ensures LocStringFromJson(obj).Success? ==> LocStringFromJson(obj).value[0] == StrrefEntry(Sentinel)
  {
  }
}
