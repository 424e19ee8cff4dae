/** What a recipe card computes: checking off an ingredient, and the image
    it shows. */
module RecipeCard {
  import opened Recipes
  import RecipeList

  /** The image shown when a recipe has none of its own. */
  const Placeholder: string := "https://placehold.co/600x400.png"

  /** Flips the checked flag of every ingredient carrying the given id. */
  function Toggle(ings: seq<Ingredient>, ingredientId: string): (r: seq<Ingredient>)
    ensures |r| == |ings|
    ensures forall i :: 0 <= i < |ings| ==> r[i].id == ings[i].id && r[i].name == ings[i].name
    ensures forall i :: 0 <= i < |ings| && ings[i].id == ingredientId ==> r[i].checked == !ings[i].checked
    ensures forall i :: 0 <= i < |ings| && ings[i].id != ingredientId ==> r[i] == ings[i]
  {
    seq(|ings|, i requires 0 <= i < |ings| =>
      if ings[i].id == ingredientId then ings[i].(checked := !ings[i].checked) else ings[i])
  }

  /** The recipe a card hands to the list after a checkbox changes: only
      its ingredients differ. */
  function ToggleInRecipe(recipe: Recipe, ingredientId: string): (r: Recipe)
    ensures r.id == recipe.id && r.name == recipe.name && r.tags == recipe.tags
    ensures r.imageUrl == recipe.imageUrl && r.createdAt == recipe.createdAt
    ensures r.ingredients == Toggle(recipe.ingredients, ingredientId)
  {
    recipe.(ingredients := Toggle(recipe.ingredients, ingredientId))
  }

  /** The image source: the recipe's own URL, or the placeholder when that
      is empty. Never empty. */
  function ImageSource(recipe: Recipe): (src: string)
    ensures recipe.imageUrl == "" ==> src == Placeholder
    ensures recipe.imageUrl != "" ==> src == recipe.imageUrl
    ensures src != ""
  {
    if recipe.imageUrl != "" then recipe.imageUrl else Placeholder
  }

  /** Toggling the same ingredient twice restores the list. */
  lemma ToggleTwice(ings: seq<Ingredient>, ingredientId: string)
    ensures Toggle(Toggle(ings, ingredientId), ingredientId) == ings
  {
  }

  /** Toggling an id that no ingredient carries changes nothing. */
  lemma ToggleAbsent(ings: seq<Ingredient>, ingredientId: string)
    requires forall i :: 0 <= i < |ings| ==> ings[i].id != ingredientId
    ensures Toggle(ings, ingredientId) == ings
  {
  }

  /** Toggles of different ids commute. */
  lemma ToggleCommutes(ings: seq<Ingredient>, a: string, b: string)
    ensures Toggle(Toggle(ings, a), b) == Toggle(Toggle(ings, b), a)
  {
  }

  /** When recipe ids are unique, checking off an ingredient on one card
      changes only that card's recipe in the list, and only its
      ingredients. */
  lemma CardToggleChangesOneRecipe(rs: seq<Recipe>, k: nat, ingredientId: string)
    requires k < |rs|
    requires forall i, j :: 0 <= i < j < |rs| ==> rs[i].id != rs[j].id
    ensures var r := RecipeList.Update(rs, ToggleInRecipe(rs[k], ingredientId));
      && |r| == |rs|
      && r[k] == rs[k].(ingredients := Toggle(rs[k].ingredients, ingredientId))
      && forall i :: 0 <= i < |rs| && i != k ==> r[i] == rs[i]
  {
  }
}
