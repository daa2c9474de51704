/**
 * `_get_structured_input`: the tokens of a recipe file grouped into source
 * and recipe blocks. A `selected` line picks the source and recipe ids; a
 * `source` or `recipe` line closes the open block (storing it only when its
 * id is truthy, so id 0 is dropped and a later block with the same id
 * replaces an earlier one) and opens a new one; `game`, `match` and
 * `exclude` lines attach to the open block when it admits them. The result
 * is the selected recipe id, the game of the selected source and the
 * selected recipe.
 */
module RecipeStructure {
  import opened Wrappers
  import opened PyStr
  import opened RecipeInput

  type Props = map<string, string>

  datatype BlockKind = SourceBlock | RecipeBlock

  /**
   * An open or stored block. `game` is `None` while it still holds the
   * empty list the block was opened with; `matches`/`excludes` are the
   * children of a recipe block, in order.
   */
  datatype Block = Block(
    kind: BlockKind,
    id: int,
    description: string,
    game: Option<Props>,
    matches: seq<Props>,
    excludes: seq<Props>)

  /** The `data` dictionary. */
  datatype Config = Config(
    sourceId: Option<int>,
    recipeId: Option<int>,
    sources: map<int, Block>,
    recipes: map<int, Block>)

  /**
   * `int()` of a property value fails (ValueError); a child line comes
   * before any block (KeyError on the empty `current_node`); the selected
   * source is missing (KeyError).
   */
  datatype InputError = NotAnInteger(text: string) | NoOpenBlock | SourceNotFound

  /** The loop state: `data` and `current_node` (`None` for the initial empty dict). */
  datatype State = State(data: Config, current: Option<Block>)

  const Init: State := State(Config(None, None, map[], map[]), None)

  /** `merge_node(current_node, data)` */
  function Merge(current: Option<Block>, data: Config): Config {
    match current
    case None => data
    case Some(b) =>
      if b.id == 0 then data
      else if b.kind == SourceBlock then data.(sources := data.sources[b.id := b])
      else data.(recipes := data.recipes[b.id := b])
  }

  /** `int(props[name])` when the property is present. */
  function IntProp(props: Props, name: string): (r: Result<Option<int>, InputError>)
    ensures name !in props ==> r == Success(None)
    ensures name in props ==> (r.Success? <==> PyInt(props[name]).Some?)
    ensures r.Success? && name in props ==> r.value == PyInt(props[name])
  {
    if name !in props then Success(None)
    else match PyInt(props[name])
      case None => Failure(NotAnInteger(props[name]))
      case Some(n) => Success(Some(n))
  }

  /** A `selected` line: `source_id`, then `recipe_id`, each set when present. */
  function Select(data: Config, props: Props): (r: Result<Config, InputError>)
    ensures r.Success? <==> IntProp(props, "source_id").Success? && IntProp(props, "recipe_id").Success?
    ensures r.Success? ==> r.value.sources == data.sources && r.value.recipes == data.recipes
    ensures r.Success? ==> r.value.sourceId == (if "source_id" in props then PyInt(props["source_id"]) else data.sourceId)
    ensures r.Success? ==> r.value.recipeId == (if "recipe_id" in props then PyInt(props["recipe_id"]) else data.recipeId)
  {
    match IntProp(props, "source_id")
    case Failure(e) => Failure(e)
    case Success(s) =>
      var d := if s.Some? then data.(sourceId := s) else data;
      match IntProp(props, "recipe_id")
      case Failure(e) => Failure(e)
      case Success(q) => Success(if q.Some? then d.(recipeId := q) else d)
  }

  /** The new `current_node` of a `source`/`recipe` line: id defaults to -1, description to "". */
  function Open(kind: BlockKind, props: Props): (r: Result<Block, InputError>)
    ensures "id" !in props ==> r.Success? && r.value.id == -1
    ensures "id" in props ==> (r.Success? <==> PyInt(props["id"]).Some?)
    ensures r.Success? && "id" in props ==> Some(r.value.id) == PyInt(props["id"])
    ensures r.Success? ==> r.value.kind == kind && r.value.game.None? && r.value.matches == [] && r.value.excludes == []
    ensures r.Success? ==> r.value.description == (if "description" in props then props["description"] else "")
  {
    var description := if "description" in props then props["description"] else "";
    if "id" !in props then Success(Block(kind, -1, description, None, [], []))
    else match PyInt(props["id"])
      case None => Failure(NotAnInteger(props["id"]))
      case Some(n) => Success(Block(kind, n, description, None, [], []))
  }

  /** `token_type in children[current_node["type"]]` */
  predicate IsChild(kind: BlockKind, tokenType: string) {
    match kind
    case SourceBlock => tokenType == "game"
    case RecipeBlock => tokenType == "match" || tokenType == "exclude"
  }

  /**
   * A child line attached to the open block: a second `game` line updates a
   * non-empty game, `match`/`exclude` lines are appended, and a type the
   * block does not admit is ignored.
   */
  function AddChild(b: Block, tokenType: string, props: Props): (r: Block)
    ensures !IsChild(b.kind, tokenType) ==> r == b
    ensures r.kind == b.kind && r.id == b.id && r.description == b.description
    ensures IsChild(b.kind, tokenType) && tokenType == "game" ==>
      r.matches == b.matches && r.excludes == b.excludes
      && r.game == Some(if b.game.Some? && b.game.value != map[] then b.game.value + props else props)
    ensures IsChild(b.kind, tokenType) && tokenType == "match" ==>
      r.matches == b.matches + [props] && r.excludes == b.excludes && r.game == b.game
    ensures IsChild(b.kind, tokenType) && tokenType == "exclude" ==>
      r.excludes == b.excludes + [props] && r.matches == b.matches && r.game == b.game
  {
    if !IsChild(b.kind, tokenType) then b
    else if tokenType == "game" then
      if b.game.Some? && b.game.value != map[] then b.(game := Some(b.game.value + props))
      else b.(game := Some(props))
    else if tokenType == "match" then b.(matches := b.matches + [props])
    else b.(excludes := b.excludes + [props])
  }

  /** One pass of the loop over the tokens. */
  function StepToken(st: State, t: Token): Result<State, InputError> {
    if t.kind == "selected" then
      match Select(st.data, t.props)
      case Failure(e) => Failure(e)
      case Success(d) => Success(State(d, st.current))
    else if t.kind == "source" || t.kind == "recipe" then
      var data := Merge(st.current, st.data);
      match Open(if t.kind == "source" then SourceBlock else RecipeBlock, t.props)
      case Failure(e) => Failure(e)
      case Success(b) => Success(State(data, Some(b)))
    else
      match st.current
      case None => Failure(NoOpenBlock)
      case Some(b) => Success(State(st.data, Some(AddChild(b, t.kind, t.props))))
  }

  /** The loop over the tokens; the first error ends it. */
  function Fold(st: State, tokens: seq<Token>): Result<State, InputError>
    decreases |tokens|
  {
    if tokens == [] then Success(st)
    else match StepToken(st, tokens[0])
      case Failure(e) => Failure(e)
      case Success(next) => Fold(next, tokens[1..])
  }

  /** What `_get_structured_input` returns: recipe id, the selected source's game, the selected recipe. */
  datatype Selection = Selection(recipeId: Option<int>, game: Option<Props>, recipe: Option<Block>)

  /** The final `merge_node` and the lookups of the `return` statement. */
  function Finish(st: State): (r: Result<Selection, InputError>) {
    var d := Merge(st.current, st.data);
    if d.sourceId.None? || d.sourceId.value !in d.sources then Failure(SourceNotFound)
    else
      var recipe := if d.recipeId.Some? && d.recipeId.value in d.recipes then Some(d.recipes[d.recipeId.value]) else None;
      Success(Selection(d.recipeId, d.sources[d.sourceId.value].game, recipe))
  }

  function StructuredInput(tokens: seq<Token>): Result<Selection, InputError> {
    match Fold(Init, tokens)
    case Failure(e) => Failure(e)
    case Success(st) => Finish(st)
  }

  /** `_get_structured_input(tokens)`, with `current_node` and `data` as loop variables. */
  method GetStructuredInput(tokens: seq<Token>) returns (r: Result<Selection, InputError>)
    ensures r == StructuredInput(tokens)
  {
    var data := Init.data;
    var current: Option<Block> := None;
    var i := 0;
    while i < |tokens|
      invariant i <= |tokens|
      invariant Fold(State(data, current), tokens[i..]) == Fold(Init, tokens)
    {
      assert tokens[i..][1..] == tokens[i + 1..];
      var t := tokens[i];
      if t.kind == "selected" {
        var s := Select(data, t.props);
        if s.Failure? {
          return Failure(s.error);
        }
        data := s.value;
      } else if t.kind == "source" || t.kind == "recipe" {
        data := Merge(current, data);
        var b := Open(if t.kind == "source" then SourceBlock else RecipeBlock, t.props);
        if b.Failure? {
          return Failure(b.error);
        }
        current := Some(b.value);
      } else {
        if current.None? {
          return Failure(NoOpenBlock);
        }
        current := Some(AddChild(current.value, t.kind, t.props));
      }
      i := i + 1;
    }
    assert tokens[i..] == [];
    r := Finish(State(data, current));
  }

  // ------------------------------------------------------------------ lemmas

  /** A block's id is never 0 once stored. */
  predicate NoZeroId(d: Config) {
    0 !in d.sources && 0 !in d.recipes
  }

  lemma MergeKeepsNoZero(current: Option<Block>, d: Config)
    requires NoZeroId(d)
    ensures NoZeroId(Merge(current, d))
  {
  }

  lemma {:induction false} FoldKeepsNoZero(st: State, tokens: seq<Token>)
    requires NoZeroId(st.data)
    ensures Fold(st, tokens).Success? ==> NoZeroId(Fold(st, tokens).value.data)
    decreases |tokens|
  {
    if tokens != [] {
      var s := StepToken(st, tokens[0]);
      if s.Success? {
        MergeKeepsNoZero(st.current, st.data);
        assert NoZeroId(s.value.data);
        FoldKeepsNoZero(s.value, tokens[1..]);
      }
    }
  }

  /**
   * Selecting source 0 always fails, and selecting recipe 0 always yields
   * no recipe, because a block with id 0 is never stored.
   */
  lemma ZeroIdNeverSelected(tokens: seq<Token>)
    ensures (Fold(Init, tokens).Success? &&
             Merge(Fold(Init, tokens).value.current, Fold(Init, tokens).value.data).sourceId == Some(0)) ==>
      StructuredInput(tokens) == Failure(SourceNotFound)
    ensures StructuredInput(tokens).Success? && StructuredInput(tokens).value.recipeId == Some(0) ==>
      StructuredInput(tokens).value.recipe == None
  {
    FoldKeepsNoZero(Init, tokens);
    if Fold(Init, tokens).Success? {
      var st := Fold(Init, tokens).value;
      MergeKeepsNoZero(st.current, st.data);
    }
  }

  /** A later block with the same non-zero id leaves no trace of the earlier one. */
  lemma LaterBlockReplaces(d: Config, earlier: Block, later: Block)
    requires earlier.kind == later.kind && earlier.id == later.id && later.id != 0
    ensures Merge(Some(later), Merge(Some(earlier), d)) == Merge(Some(later), d)
  {
  }

  /** The stored block of a given id is the last one that closed with it. */
  lemma MergedBlockFound(d: Config, b: Block)
    requires b.id != 0
    ensures b.kind == SourceBlock ==> b.id in Merge(Some(b), d).sources && Merge(Some(b), d).sources[b.id] == b
    ensures b.kind == RecipeBlock ==> b.id in Merge(Some(b), d).recipes && Merge(Some(b), d).recipes[b.id] == b
  {
  }

  /** A child line before any `source`/`recipe` line is a KeyError, after any number of `selected` lines. */
  lemma {:induction false} ChildBeforeBlockFails(st: State, tokens: seq<Token>, k: nat)
    requires st.current.None?
    requires k < |tokens| && tokens[k].kind !in ["selected", "source", "recipe"]
    requires forall i :: 0 <= i < k ==> tokens[i].kind == "selected"
    ensures Fold(st, tokens).Failure?
    decreases k
  {
    if k == 0 {
      assert tokens[0].kind != "selected" && tokens[0].kind != "source" && tokens[0].kind != "recipe";
    } else {
      assert tokens[0].kind == "selected";
      var s := StepToken(st, tokens[0]);
      if s.Success? {
        ChildBeforeBlockFails(s.value, tokens[1..], k - 1);
      }
    }
  }

  /** A file that opens with a child line does not resolve. */
  lemma ChildFirstFails(tokens: seq<Token>)
    requires tokens != [] && tokens[0].kind !in ["selected", "source", "recipe"]
    ensures StructuredInput(tokens) == Failure(NoOpenBlock)
  {
  }

  /** No token that picks a source id. */
  predicate NeverSelectsSource(tokens: seq<Token>) {
    forall i :: 0 <= i < |tokens| ==> tokens[i].kind != "selected" || "source_id" !in tokens[i].props
  }

  lemma {:induction false} FoldKeepsSourceId(st: State, tokens: seq<Token>)
    requires NeverSelectsSource(tokens)
    ensures Fold(st, tokens).Success? ==> Fold(st, tokens).value.data.sourceId == st.data.sourceId
    decreases |tokens|
  {
    if tokens != [] {
      var s := StepToken(st, tokens[0]);
      if s.Success? {
        assert s.value.data.sourceId == st.data.sourceId;
        assert NeverSelectsSource(tokens[1..]) by {
          forall i | 0 <= i < |tokens[1..]| ensures tokens[1..][i].kind != "selected" || "source_id" !in tokens[1..][i].props {
            assert tokens[1..][i] == tokens[i + 1];
          }
        }
        FoldKeepsSourceId(s.value, tokens[1..]);
      }
    }
  }

  /** Without a `selected` line naming a source the lookup of `data["sources"][None]` fails. */
  lemma NoSelectionFails(tokens: seq<Token>)
    requires NeverSelectsSource(tokens)
    ensures StructuredInput(tokens).Failure?
  {
    FoldKeepsSourceId(Init, tokens);
  }

  /** Two `game` lines in one source: the second updates the first, its keys winning. */
  lemma SecondGameUpdates(b: Block, first: Props, second: Props)
    requires b.kind == SourceBlock && b.game.None? && first != map[]
    ensures AddChild(AddChild(b, "game", first), "game", second).game == Some(first + second)
    ensures forall k :: k in first + second <==> k in first || k in second
    ensures forall k :: k in second ==> (first + second)[k] == second[k]
    ensures forall k :: k in first && k !in second ==> (first + second)[k] == first[k]
  {
  }

  /** A `selected` line whose `source_id` is not an integer is a ValueError. */
  lemma BadSelectionFails(st: State, t: Token)
    requires t.kind == "selected" && "source_id" in t.props && PyInt(t.props["source_id"]).None?
    ensures StepToken(st, t) == Failure(NotAnInteger(t.props["source_id"]))
  {
  }
}
