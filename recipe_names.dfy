/**
 * The names the `.recipes` tokenizer recognises: the node types a line can
 * start with and the properties that can follow, as the alternatives of its
 * pattern, with the two facts about them the tokenizer relies on.
 */
module RecipeNames {
  /** The node types, in the order of the `type` alternative. */
  const NodeTypes: seq<string> := ["selected", "source", "recipe", "game", "match", "exclude"]

  /** The property names, in the order of the `property` alternative (first occurrences of each node's properties). */
  const Properties: seq<string> :=
    ["source_id", "recipe_id", "id", "description", "path", "keylist",
     "fullname", "name_start", "name_part", "name_end", "extension"]

  /**
   * `name` is one of the alternatives of the `property` group, which the
   * pattern tries in order.
   */
  predicate IsProperty(name: string) {
    Alternative(name, Properties)
  }

  predicate Alternative(name: string, names: seq<string>) {
    names != [] && (names[0] == name || Alternative(name, names[1..]))
  }

  /** Trying the alternatives in turn finds exactly the names of the list. */
  lemma {:induction false} AlternativeIff(name: string, names: seq<string>)
    ensures Alternative(name, names) <==> name in names
  {
    if names != [] {
      AlternativeIff(name, names[1..]);
      assert names == [names[0]] + names[1..];
    }
  }

  /** No property name holds `(`. */
  lemma NoParen(prop: string)
    requires IsProperty(prop)
    ensures '(' !in prop
  {
    assert forall k :: 0 <= k < |Properties| ==> '(' !in Properties[k];
    AlternativeWithout(prop, Properties, '(');
  }

  /** A name found among names without `c` has no `c`. */
  lemma {:induction false} AlternativeWithout(name: string, names: seq<string>, c: char)
    requires Alternative(name, names) && forall k :: 0 <= k < |names| ==> c !in names[k]
    ensures c !in name
  {
    if names[0] != name {
      AlternativeWithout(name, names[1..], c);
    }
  }

  /** Node types are prefix-free: no type name starts another. */
  lemma TypesPrefixFree(a: nat, b: nat)
    requires a < |NodeTypes| && b < |NodeTypes|
    requires |NodeTypes[a]| <= |NodeTypes[b]| && NodeTypes[a] == NodeTypes[b][..|NodeTypes[a]|]
    ensures a == b
  {
    assert NodeTypes[a][0] == NodeTypes[b][0] && NodeTypes[a][1] == NodeTypes[b][1];
  }
}
