/**
 * `_LANGUAGES`: GFF language ids (`lang * 2 + gender`) and their
 * names in `.ndugff` text, plus the string ids used as JSON keys.
 */
module Languages {
  import opened Wrappers
  import opened PyStr

  const Names: seq<string> := [
    "ENGLISH", "ENGLISH_F", "FRENCH", "FRENCH_F", "GERMAN", "GERMAN_F",
    "ITALIAN", "ITALIAN_F", "SPANISH", "SPANISH_F", "POLISH", "POLISH_F"
  ]

  /** Lookup by id; an id outside the table is the "Unknown" error. */
  function LanguageName(id: int): (r: Option<string>)
    ensures r.Some? <==> 0 <= id < |Names|
    ensures r.Some? ==> r.value == Names[id]
  {
    if 0 <= id < |Names| then Some(Names[id]) else None
  }

  /** `get_ndugff_language_name` of the GFF loader: id `lang * 2 + gender`. */
  function GenderedLanguageName(lang: int, gender: int): (r: Option<string>)
    ensures r.Some? <==> 0 <= lang * 2 + gender < 12
    ensures r.Some? ==> r == LanguageName(lang * 2 + gender)
  {
    LanguageName(lang * 2 + gender)
  }

  /** The reverse lookup: the first id whose name is `name`. */
  function LanguageId(name: string): (r: Option<nat>)
    ensures r.Some? ==> r.value < |Names| && Names[r.value] == name
    ensures r.None? ==> name !in Names
  {
    IdFrom(name, 0)
  }

  function IdFrom(name: string, k: nat): (r: Option<nat>)
    requires k <= |Names|
    ensures r.Some? ==> k <= r.value < |Names| && Names[r.value] == name
    ensures r.Some? ==> forall j :: k <= j < r.value ==> Names[j] != name
    ensures r.None? ==> forall j :: k <= j < |Names| ==> Names[j] != name
    decreases |Names| - k
  {
    if k == |Names| then None
    else if Names[k] == name then Some(k)
    else IdFrom(name, k + 1)
  }

  /** No two ids share a name. */
  lemma NamesDistinct()
    ensures forall i, j :: 0 <= i < j < |Names| ==> Names[i] != Names[j]
  {
  }

  /** Name to id to name, and id to name to id. */
  lemma LanguageRoundTrip(id: int, name: string)
    ensures LanguageName(id).Some? ==> LanguageId(LanguageName(id).value) == Some(id)
    ensures LanguageId(name).Some? ==> LanguageName(LanguageId(name).value) == Some(name)
  {
    NamesDistinct();
  }

  /** A name ends in `_F` exactly when its id is odd (the female gender). */
  lemma FemaleIffOdd(id: int)
    requires 0 <= id < |Names|
    ensures |Names[id]| >= 2 && Names[id][|Names[id]| - 2..] == "_F" <==> id % 2 == 1
  {
  }

  /** `get_json_language_id`: the JSON key is the decimal id. */
  function JsonLanguageId(name: string): (r: Option<string>)
    ensures r.Some? <==> name in Names
  {
    match LanguageId(name)
    case Some(id) => Some(IntToString(id))
    case None => None
  }

  /** `get_ndugff_language_name` of the JSON loader: `int(key)` then lookup. */
  function JsonLanguageName(key: string): Option<string> {
    match PyInt(key)
    case Some(id) => LanguageName(id)
    case None => None
  }

  /** The JSON key of a language name reads back as that name. */
  lemma JsonLanguageRoundTrip(name: string)
    requires name in Names
    ensures JsonLanguageName(JsonLanguageId(name).value) == Some(name)
  {
    var id := LanguageId(name).value;
    IntRoundTrip(id);
  }
}
