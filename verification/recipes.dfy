/** The app's records: an ingredient with its checked-off flag, and a
    recipe. The creation date is an opaque instant; ids are plain strings
    supplied by the caller. */
module Recipes {

  datatype Option<T> = None | Some(value: T)

  /** A point in time, kept only to be carried along. */
  datatype Instant = Instant(millis: int)

  datatype Ingredient = Ingredient(id: string, name: string, checked: bool)

  datatype Recipe = Recipe(
    id: string,
    name: string,
    ingredients: seq<Ingredient>,
    tags: seq<string>,
    imageUrl: string,
    createdAt: Instant)

  /** A recipe without its id and creation date, as the add form produces
      it. */
  datatype RecipeFields = RecipeFields(
    name: string,
    ingredients: seq<Ingredient>,
    tags: seq<string>,
    imageUrl: string)

  function WithIdentity(fields: RecipeFields, id: string, createdAt: Instant): (r: Recipe)
    ensures r.id == id && r.createdAt == createdAt
    ensures Fields(r) == fields
  {
    Recipe(id, fields.name, fields.ingredients, fields.tags, fields.imageUrl, createdAt)
  }

  /** The part of a recipe the user edits. */
  function Fields(r: Recipe): RecipeFields {
    RecipeFields(r.name, r.ingredients, r.tags, r.imageUrl)
  }

  function Ids(rs: seq<Recipe>): (ids: seq<string>)
    ensures |ids| == |rs|
    ensures forall i :: 0 <= i < |rs| ==> ids[i] == rs[i].id
  {
    seq(|rs|, i requires 0 <= i < |rs| => rs[i].id)
  }
}
