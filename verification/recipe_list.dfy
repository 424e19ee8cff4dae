/** The recipe list held by the home page: adding, replacing and deleting
    recipes, the setter handed to each card, and the search filter. */
module RecipeList {
  import opened Recipes
  import Seqs
  import Text

  /** Adding puts the new recipe, with the id and date supplied by the
      caller, in front of the existing list. */
  function Add(rs: seq<Recipe>, fields: RecipeFields, id: string, createdAt: Instant): (r: seq<Recipe>)
    ensures |r| == |rs| + 1
    ensures r[0].id == id && r[0].createdAt == createdAt && Fields(r[0]) == fields
    ensures r[1..] == rs
  {
    [WithIdentity(fields, id, createdAt)] + rs
  }

  /** Every recipe whose id is the updated recipe's id is replaced by it;
      all others stay where and as they were. */
  function Update(rs: seq<Recipe>, updated: Recipe): (r: seq<Recipe>)
    ensures |r| == |rs|
    ensures Ids(r) == Ids(rs)
    ensures forall i :: 0 <= i < |rs| && rs[i].id == updated.id ==> r[i] == updated
    ensures forall i :: 0 <= i < |rs| && rs[i].id != updated.id ==> r[i] == rs[i]
  {
    seq(|rs|, i requires 0 <= i < |rs| => if rs[i].id == updated.id then updated else rs[i])
  }

  /** The recipes whose id differs from the given one, in their original
      order. */
  function Delete(rs: seq<Recipe>, id: string): (r: seq<Recipe>)
    ensures Seqs.IsSubsequence(r, rs)
    ensures forall x :: x in r <==> x in rs && x.id != id
    ensures forall x :: multiset(r)[x] == if x.id != id then multiset(rs)[x] else 0
    ensures id !in Ids(r)
  {
    var r := Seqs.Filter(rs, (x: Recipe) => x.id != id);
    assert forall i :: 0 <= i < |r| ==> r[i] in r;
    r
  }

  /** The argument of the setter a card receives: a new recipe value, or an
      updater function. */
  datatype SetRecipeArg = NewValue(recipe: Recipe) | Updater(f: Recipe -> Recipe)

  /** A new value is handled as an update; an updater function is ignored
      and the list stays as it was. */
  function SetRecipe(rs: seq<Recipe>, arg: SetRecipeArg): (r: seq<Recipe>)
    ensures arg.NewValue? ==> r == Update(rs, arg.recipe)
    ensures arg.Updater? ==> r == rs
  {
    match arg
    case NewValue(recipe) => Update(rs, recipe)
    case Updater(_) => rs
  }

  /** The search predicate as computed: the lower-cased term occurs in the
      lower-cased name or in some lower-cased tag. */
  function Matches(r: Recipe, term: string): bool {
    var t := Text.Lower(term);
    Text.Includes(Text.Lower(r.name), t)
      || exists i | 0 <= i < |r.tags| :: Text.Includes(Text.Lower(r.tags[i]), t)
  }

  /** The same predicate stated with substring occurrence. */
  ghost predicate MatchesSpec(r: Recipe, term: string) {
    Text.IsSubstring(Text.Lower(term), Text.Lower(r.name))
      || exists i :: 0 <= i < |r.tags| && Text.IsSubstring(Text.Lower(term), Text.Lower(r.tags[i]))
  }

  /** The recipes shown for a search term, in list order. */
  function Search(rs: seq<Recipe>, term: string): (r: seq<Recipe>)
    ensures Seqs.IsSubsequence(r, rs)
    ensures forall x :: x in r <==> x in rs && MatchesSpec(x, term)
    ensures forall x :: multiset(r)[x] == if Matches(x, term) then multiset(rs)[x] else 0
  {
    Seqs.Filter(rs, (x: Recipe) => Matches(x, term))
  }

  /** Deleting a freshly added recipe by its id gives back the old list. */
  lemma DeleteUndoesAdd(rs: seq<Recipe>, fields: RecipeFields, id: string, createdAt: Instant)
    requires id !in Ids(rs)
    ensures Delete(Add(rs, fields, id, createdAt), id) == rs
  {
    forall i | 0 <= i < |rs|
      ensures rs[i].id != id
    {
      assert Ids(rs)[i] == rs[i].id;
    }
    var added := Add(rs, fields, id, createdAt);
    assert added == [added[0]] + rs;
    Seqs.FilterKeepsAll(rs, (x: Recipe) => x.id != id);
  }

  /** Updating with an id that is not in the list changes nothing. */
  lemma UpdateAbsentIsIdentity(rs: seq<Recipe>, updated: Recipe)
    requires updated.id !in Ids(rs)
    ensures Update(rs, updated) == rs
  {
    forall i | 0 <= i < |rs|
      ensures rs[i].id != updated.id
    {
      assert Ids(rs)[i] == rs[i].id;
    }
  }

  /** Applying the same update twice is applying it once. */
  lemma UpdateIdempotent(rs: seq<Recipe>, updated: Recipe)
    ensures Update(Update(rs, updated), updated) == Update(rs, updated)
  {
  }

  /** Deleting an id after updating it is the same as deleting it. */
  lemma {:induction false} DeleteAfterUpdate(rs: seq<Recipe>, updated: Recipe)
    ensures Delete(Update(rs, updated), updated.id) == Delete(rs, updated.id)
    decreases |rs|
  {
    if |rs| > 0 {
      var u := Update(rs, updated);
      assert u[1..] == Update(rs[1..], updated);
      DeleteAfterUpdate(rs[1..], updated);
    }
  }

  /** Deleting the same id twice is deleting it once. */
  lemma DeleteIdempotent(rs: seq<Recipe>, id: string)
    ensures Delete(Delete(rs, id), id) == Delete(rs, id)
  {
    Seqs.FilterIdempotent(rs, (x: Recipe) => x.id != id);
  }

  /** The computed match and the stated one agree. */
  lemma MatchesMeetsSpec(r: Recipe, term: string)
    ensures Matches(r, term) <==> MatchesSpec(r, term)
  {
  }

  /** An empty search term keeps every recipe. */
  lemma EmptySearchKeepsAll(rs: seq<Recipe>)
    ensures Search(rs, "") == rs
  {
    forall i | 0 <= i < |rs|
      ensures Matches(rs[i], "")
    {
      Text.EmptyIsSubstring(Text.Lower(rs[i].name));
    }
    Seqs.FilterKeepsAll(rs, (x: Recipe) => Matches(x, ""));
  }

  /** The search ignores the case of the term. */
  lemma SearchIgnoresTermCase(rs: seq<Recipe>, term: string)
    ensures Search(rs, Text.Lower(term)) == Search(rs, term)
  {
    Text.LowerIdempotent(term);
    Seqs.FilterCongruent(rs, (x: Recipe) => Matches(x, Text.Lower(term)), (x: Recipe) => Matches(x, term));
  }
}
