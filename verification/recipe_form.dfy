/** The add/edit recipe form: the validation schema, the values the form
    starts from, and the mapping of submitted values back into a recipe.
    Whether a string is a well-formed URL is left to the caller, as the
    predicate `isUrl`. */
module RecipeForm {
  import opened Recipes
  import Text

  datatype IngredientField = IngredientField(name: string)
  datatype TagField = TagField(value: string)

  datatype FormValues = FormValues(
    name: string,
    imageUrl: string,
    ingredients: seq<IngredientField>,
    tags: seq<TagField>)

  /** One failed rule of the schema; indices locate the offending row. */
  datatype FormError =
    | NameTooShort
    | InvalidImageUrl
    | NoIngredients
    | EmptyIngredientName(index: nat)
    | EmptyTag(index: nat)

  const MinNameLength: nat := 3

  /** The schema as a predicate: a name at least three UTF-16 code units
      long (the unit JavaScript's `length` counts), an image URL that is
      empty or well formed, at least one ingredient, no empty ingredient
      name and no empty tag. For the one-unit minimum of ingredient names
      and tags, counting characters gives the same answer. */
  ghost predicate Valid(v: FormValues, isUrl: string -> bool) {
    && Text.Utf16Length(v.name) >= MinNameLength
    && (isUrl(v.imageUrl) || v.imageUrl == "")
    && |v.ingredients| >= 1
    && (forall i :: 0 <= i < |v.ingredients| ==> |v.ingredients[i].name| >= 1)
    && (forall i :: 0 <= i < |v.tags| ==> |v.tags[i].value| >= 1)
  }

  /** Rows `from..` of the ingredient list whose name is empty. */
  function IngredientErrors(ings: seq<IngredientField>, from: nat): (errs: seq<FormError>)
    requires from <= |ings|
    ensures forall e :: e in errs ==> e.EmptyIngredientName?
    ensures forall i: nat :: EmptyIngredientName(i) in errs <==> from <= i < |ings| && ings[i].name == ""
    decreases |ings| - from
  {
    if from == |ings| then []
    else
      var rest := IngredientErrors(ings, from + 1);
      if ings[from].name == "" then [EmptyIngredientName(from)] + rest else rest
  }

  /** Rows `from..` of the tag list whose value is empty. */
  function TagErrors(tags: seq<TagField>, from: nat): (errs: seq<FormError>)
    requires from <= |tags|
    ensures forall e :: e in errs ==> e.EmptyTag?
    ensures forall i: nat :: EmptyTag(i) in errs <==> from <= i < |tags| && tags[i].value == ""
    decreases |tags| - from
  {
    if from == |tags| then []
    else
      var rest := TagErrors(tags, from + 1);
      if tags[from].value == "" then [EmptyTag(from)] + rest else rest
  }

  /** The errors of the single-valued fields and of the ingredient count. */
  function FieldErrors(v: FormValues, isUrl: string -> bool): (errs: seq<FormError>)
    ensures forall e :: e in errs ==> !e.EmptyIngredientName? && !e.EmptyTag?
    ensures NameTooShort in errs <==> Text.Utf16Length(v.name) < MinNameLength
    ensures InvalidImageUrl in errs <==> !isUrl(v.imageUrl) && v.imageUrl != ""
    ensures NoIngredients in errs <==> |v.ingredients| == 0
    ensures errs == [] <==> Text.Utf16Length(v.name) >= MinNameLength && (isUrl(v.imageUrl) || v.imageUrl == "") && |v.ingredients| >= 1
  {
    (if Text.Utf16Length(v.name) < MinNameLength then [NameTooShort] else [])
    + (if isUrl(v.imageUrl) || v.imageUrl == "" then [] else [InvalidImageUrl])
    + (if |v.ingredients| == 0 then [NoIngredients] else [])
  }

  /** Every rule the values break, field by field: the values are valid
      exactly when no rule is broken. */
  function Validate(v: FormValues, isUrl: string -> bool): (errs: seq<FormError>)
    ensures NameTooShort in errs <==> Text.Utf16Length(v.name) < MinNameLength
    ensures InvalidImageUrl in errs <==> !isUrl(v.imageUrl) && v.imageUrl != ""
    ensures NoIngredients in errs <==> |v.ingredients| == 0
    ensures forall i: nat :: EmptyIngredientName(i) in errs <==> i < |v.ingredients| && v.ingredients[i].name == ""
    ensures forall i: nat :: EmptyTag(i) in errs <==> i < |v.tags| && v.tags[i].value == ""
    ensures errs == [] <==> Valid(v, isUrl)
  {
    var fe := FieldErrors(v, isUrl);
    var ie := IngredientErrors(v.ingredients, 0);
    var te := TagErrors(v.tags, 0);
    NoIngredientErrors(v.ingredients);
    NoTagErrors(v.tags);
    InConcat(fe, ie, te);
    fe + ie + te
  }

  /** Membership in, and emptiness of, three lists joined together. */
  lemma InConcat(a: seq<FormError>, b: seq<FormError>, c: seq<FormError>)
    ensures forall e :: e in a + b + c <==> e in a || e in b || e in c
    ensures a + b + c == [] <==> a == [] && b == [] && c == []
  {
    assert |a + b + c| == |a| + |b| + |c|;
  }

  /** No ingredient row is reported exactly when every name is non-empty. */
  lemma NoIngredientErrors(ings: seq<IngredientField>)
    ensures IngredientErrors(ings, 0) == [] <==> forall i :: 0 <= i < |ings| ==> |ings[i].name| >= 1
  {
    var ie := IngredientErrors(ings, 0);
    if ie != [] {
      assert ie[0] in ie;
    } else {
      forall i | 0 <= i < |ings|
        ensures |ings[i].name| >= 1
      {
        assert EmptyIngredientName(i) !in ie;
      }
    }
  }

  /** No tag row is reported exactly when every tag is non-empty. */
  lemma NoTagErrors(tags: seq<TagField>)
    ensures TagErrors(tags, 0) == [] <==> forall i :: 0 <= i < |tags| ==> |tags[i].value| >= 1
  {
    var te := TagErrors(tags, 0);
    if te != [] {
      assert te[0] in te;
    } else {
      forall i | 0 <= i < |tags|
        ensures |tags[i].value| >= 1
      {
        assert EmptyTag(i) !in te;
      }
    }
  }

  /** The values the form opens with: an existing recipe's own fields, or a
      blank form with one empty ingredient row and no tags. An existing
      recipe's ingredient list is used as it is, even when it is empty. */
  function Defaults(existing: Option<Recipe>): (v: FormValues)
    ensures existing.None? ==> v == FormValues("", "", [IngredientField("")], [])
    ensures existing.Some? ==> v.name == existing.value.name && v.imageUrl == existing.value.imageUrl
    ensures existing.Some? ==> |v.ingredients| == |existing.value.ingredients|
    ensures existing.Some? ==>
      forall i :: 0 <= i < |v.ingredients| ==> v.ingredients[i].name == existing.value.ingredients[i].name
    ensures existing.Some? ==> |v.tags| == |existing.value.tags|
    ensures existing.Some? ==> forall i :: 0 <= i < |v.tags| ==> v.tags[i].value == existing.value.tags[i]
  {
    match existing
    case None => FormValues("", "", [IngredientField("")], [])
    case Some(r) =>
      FormValues(
        r.name,
        r.imageUrl,
        seq(|r.ingredients|, i requires 0 <= i < |r.ingredients| => IngredientField(r.ingredients[i].name)),
        seq(|r.tags|, i requires 0 <= i < |r.tags| => TagField(r.tags[i])))
  }

  /** What a successful submit hands on: a new recipe's fields, to which
      the list adds an id and a date, or the edited recipe. */
  datatype Submission = NewRecipe(fields: RecipeFields) | EditedRecipe(recipe: Recipe)

  /** Ingredient rows become unchecked ingredients with the fresh ids
      supplied, one per row. */
  function ToIngredients(rows: seq<IngredientField>, freshIds: seq<string>): (ings: seq<Ingredient>)
    requires |freshIds| == |rows|
    ensures |ings| == |rows|
    ensures forall i :: 0 <= i < |rows| ==> ings[i] == Ingredient(freshIds[i], rows[i].name, false)
  {
    seq(|rows|, i requires 0 <= i < |rows| => Ingredient(freshIds[i], rows[i].name, false))
  }

  function ToTags(rows: seq<TagField>): (tags: seq<string>)
    ensures |tags| == |rows|
    ensures forall i :: 0 <= i < |rows| ==> tags[i] == rows[i].value
  {
    seq(|rows|, i requires 0 <= i < |rows| => rows[i].value)
  }

  /** The submit handler on validated values: the form's fields override
      name, image, tags and ingredients; an existing recipe keeps its id
      and date. */
  function Submit(existing: Option<Recipe>, data: FormValues, freshIds: seq<string>): (s: Submission)
    requires |freshIds| == |data.ingredients|
    ensures existing.None? <==> s.NewRecipe?
    ensures existing.Some? ==> s.recipe.id == existing.value.id && s.recipe.createdAt == existing.value.createdAt
    ensures var f := if s.NewRecipe? then s.fields else Fields(s.recipe);
      && f.name == data.name && f.imageUrl == data.imageUrl
      && f.tags == ToTags(data.tags)
      && f.ingredients == ToIngredients(data.ingredients, freshIds)
  {
    var fields := RecipeFields(data.name, ToIngredients(data.ingredients, freshIds), ToTags(data.tags), data.imageUrl);
    match existing
    case None => NewRecipe(fields)
    case Some(r) => EditedRecipe(WithIdentity(fields, r.id, r.createdAt))
  }

  /** Pressing Save: values that break a rule are reported and nothing is
      submitted; valid values are submitted. */
  function HandleSubmit(existing: Option<Recipe>, values: FormValues, isUrl: string -> bool, freshIds: seq<string>)
    : (r: Result)
    requires |freshIds| == |values.ingredients|
    ensures r.Rejected? <==> !Valid(values, isUrl)
    ensures r.Rejected? ==> r.errors == Validate(values, isUrl) && r.errors != []
    ensures r.Accepted? ==> r.submission == Submit(existing, values, freshIds)
  {
    var errs := Validate(values, isUrl);
    if errs == [] then Accepted(Submit(existing, values, freshIds)) else Rejected(errs)
  }

  datatype Result = Accepted(submission: Submission) | Rejected(errors: seq<FormError>)

  /** The blank form never passes validation: its name is empty. */
  lemma BlankFormIsInvalid(isUrl: string -> bool)
    ensures !Valid(Defaults(None), isUrl)
    ensures NameTooShort in Validate(Defaults(None), isUrl)
    ensures EmptyIngredientName(0) in Validate(Defaults(None), isUrl)
  {
  }

  /** A name of two characters outside the Basic Multilingual Plane is four
      code units long and so passes the length rule. */
  lemma AstralNameIsLongEnough(isUrl: string -> bool)
    ensures NameTooShort !in Validate(FormValues("\U{1F355}\U{1F355}", "", [IngredientField("dough")], []), isUrl)
  {
    Text.Utf16LengthExamples();
  }

  /** The form opened on a recipe validates exactly when the recipe itself
      meets the schema. */
  lemma DefaultsValidIff(r: Recipe, isUrl: string -> bool)
    ensures Valid(Defaults(Some(r)), isUrl) <==>
      && Text.Utf16Length(r.name) >= MinNameLength
      && (isUrl(r.imageUrl) || r.imageUrl == "")
      && |r.ingredients| >= 1
      && (forall i :: 0 <= i < |r.ingredients| ==> r.ingredients[i].name != "")
      && (forall i :: 0 <= i < |r.tags| ==> r.tags[i] != "")
  {
    var v := Defaults(Some(r));
    assert (forall i :: 0 <= i < |v.ingredients| ==> |v.ingredients[i].name| >= 1)
       <==> (forall i :: 0 <= i < |r.ingredients| ==> r.ingredients[i].name != "");
    assert (forall i :: 0 <= i < |v.tags| ==> |v.tags[i].value| >= 1)
       <==> (forall i :: 0 <= i < |r.tags| ==> r.tags[i] != "");
  }

  /** Opening a valid recipe in the form and saving it unchanged gives back
      the same recipe, except that every ingredient carries a fresh id and
      is unchecked. */
  lemma SubmitDefaultsRoundTrip(r: Recipe, isUrl: string -> bool, freshIds: seq<string>)
    requires Valid(Defaults(Some(r)), isUrl)
    requires |freshIds| == |r.ingredients|
    ensures var result := HandleSubmit(Some(r), Defaults(Some(r)), isUrl, freshIds);
      && result.Accepted? && result.submission.EditedRecipe?
      && var e := result.submission.recipe;
      && e.id == r.id && e.createdAt == r.createdAt
      && e.name == r.name && e.imageUrl == r.imageUrl && e.tags == r.tags
      && |e.ingredients| == |r.ingredients|
      && forall i :: 0 <= i < |r.ingredients| ==>
           e.ingredients[i] == Ingredient(freshIds[i], r.ingredients[i].name, false)
  {
    var v := Defaults(Some(r));
    assert |freshIds| == |v.ingredients|;
    assert ToTags(v.tags) == r.tags;
  }

  /** When the ids handed in are the recipe's own and nothing was checked
      off, saving the unchanged form reproduces the recipe exactly. */
  lemma SubmitDefaultsIdentity(r: Recipe, isUrl: string -> bool)
    requires Valid(Defaults(Some(r)), isUrl)
    requires forall i :: 0 <= i < |r.ingredients| ==> !r.ingredients[i].checked
    ensures var ids := seq(|r.ingredients|, i requires 0 <= i < |r.ingredients| => r.ingredients[i].id);
      HandleSubmit(Some(r), Defaults(Some(r)), isUrl, ids) == Accepted(EditedRecipe(r))
  {
    var ids := seq(|r.ingredients|, i requires 0 <= i < |r.ingredients| => r.ingredients[i].id);
    SubmitDefaultsRoundTrip(r, isUrl, ids);
    var e := HandleSubmit(Some(r), Defaults(Some(r)), isUrl, ids).submission.recipe;
    assert e.ingredients == r.ingredients;
  }
}
