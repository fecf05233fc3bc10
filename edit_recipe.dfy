/** The edit page: the recipe whose id is in the route is copied into the form, edited
    with the same handlers as on the creation page, and saved back with `updateRecipe`. */
module EditRecipe {
  import opened Seqs
  import opened Recipes
  import opened RecipeForm
  import opened RecipeContext

  /** `recipes.find(r => r.id === id)`: the first recipe carrying the id, if any. */
  function Find(rs: seq<Recipe>, id: string): (r: Option<Recipe>)
    ensures r.None? <==> !HasId(rs, id)
    ensures r.Some? ==> exists k :: 0 <= k < |rs| && rs[k] == r.value && r.value.id == id
                                    && (forall j :: 0 <= j < k ==> rs[j].id != id)
  {
    if rs == [] then None
    else if rs[0].id == id then Some(rs[0])
    else
      var rest := Find(rs[1..], id);
      assert forall j :: 1 <= j < |rs| ==> rs[j] == rs[1..][j - 1];
      if rest.Some? then
        var k :| 0 <= k < |rs[1..]| && rs[1..][k] == rest.value && rest.value.id == id
          && forall j :: 0 <= j < k ==> rs[1..][j].id != id;
        assert rs[k + 1] == rest.value;
        rest
      else
        rest
  }

  /** A handler call on the form's recipe: the body changes, the id is carried over. */
  function ApplyToRecipe(r: Recipe, ev: FormEvent): (r': Recipe)
    requires Applicable(Body(r), ev)
    ensures r'.id == r.id
  {
    WithId(r.id, Apply(Body(r), ev))
  }

  class EditRecipeForm {
    /** `null` until the route's recipe has been found and copied. */
    var recipe: Option<Recipe>

    /** The page after its first effect: the copy of `recipeToEdit`, or nothing. */
    constructor (recipes: seq<Recipe>, routeId: string)
      ensures recipe == Find(recipes, routeId)
    {
      recipe := Find(recipes, routeId);
    }

    /** The page shows "Recipe not found." instead of the form. */
    predicate NotFound()
      reads this
    {
      recipe.None?
    }

    /** The inline handlers of the title, category, image, time, servings, directions
        and nutrition inputs, which exist only while the form is shown. */
    method SetField(e: FieldEdit)
      requires recipe.Some?
      modifies this
      ensures recipe == Some(ApplyToRecipe(old(recipe).value, FieldChanged(e)))
    {
      recipe := Some(WithId(recipe.value.id, ApplyField(Body(recipe.value), e)));
    }

    /** `handleIngredientChange`, which does nothing while there is no recipe. */
    method HandleIngredientChange(index: nat, field: IngredientField)
      requires recipe.Some? ==> index < |recipe.value.ingredients|
      modifies this
      ensures old(recipe).None? ==> recipe == old(recipe)
      ensures old(recipe).Some? ==> recipe == Some(ApplyToRecipe(old(recipe).value, IngredientChanged(index, field)))
    {
      if recipe.None? {
        return;
      }
      var updated := recipe.value.ingredients;
      updated := updated[index := WithIngredientField(updated[index], field)];
      recipe := Some(recipe.value.(ingredients := updated));
    }

    /** `handleAddIngredient`; `freshId` stands for the generated UUID. */
    method HandleAddIngredient(freshId: string)
      modifies this
      ensures old(recipe).None? ==> recipe == old(recipe)
      ensures old(recipe).Some? ==> recipe == Some(ApplyToRecipe(old(recipe).value, IngredientAdded(freshId)))
    {
      if recipe.None? {
        return;
      }
      var newIngredient := Ingredient(freshId, "", 0, "");
      recipe := Some(recipe.value.(ingredients := recipe.value.ingredients + [newIngredient]));
    }

    /** `handleRemoveIngredient`, which does nothing while there is no recipe. */
    method HandleRemoveIngredient(index: nat)
      modifies this
      ensures old(recipe).None? ==> recipe == old(recipe)
      ensures old(recipe).Some? ==> recipe == Some(ApplyToRecipe(old(recipe).value, IngredientRemoved(index)))
    {
      if recipe.None? {
        return;
      }
      var updated := recipe.value.ingredients;
      if index < |updated| {
        updated := updated[..index] + updated[index + 1..];
      }
      recipe := Some(recipe.value.(ingredients := updated));
    }

    /** `handleSave`: hands the form's recipe to `updateRecipe` when there is one. */
    method HandleSave(store: RecipeStore)
      modifies store
      ensures recipe.Some? ==> store.recipes == Replaced(old(store.recipes), recipe.value)
      ensures recipe.None? ==> store.recipes == old(store.recipes)
    {
      if recipe.Some? {
        store.UpdateRecipe(recipe.value);
      }
    }

    /** Pressing "Save": the form exists only while there is a recipe, and the
        browser runs `handleSave` only when its constraints hold. The title input of
        this form is not `required`. */
    method Submit(store: RecipeStore) returns (submitted: bool)
      modifies store
      ensures submitted <==> recipe.Some? && InputsValid(Body(recipe.value))
      ensures submitted ==> store.recipes == Replaced(old(store.recipes), recipe.value)
      ensures !submitted ==> store.recipes == old(store.recipes)
    {
      submitted := recipe.Some? && InputsValid(Body(recipe.value));
      if submitted {
        HandleSave(store);
      }
    }
  }

  /** Handler calls on a recipe, in order. */
  function ApplyAllToRecipe(r: Recipe, evs: seq<FormEvent>): (r': Recipe)
    requires ValidRun(Body(r), evs)
    ensures r'.id == r.id
  {
    WithId(r.id, ApplyAll(Body(r), evs))
  }

  /** An edit session: whatever the handlers did to the copy, saving it replaces the one
      store entry it was copied from (ids being unique) and nothing else, keeping the
      store's length and order. */
  lemma {:induction false} SaveReplacesOriginal(rs: seq<Recipe>, routeId: string, evs: seq<FormEvent>)
    requires UniqueIds(rs) && HasId(rs, routeId)
    requires ValidRun(Body(Find(rs, routeId).value), evs)
    ensures var original := Find(rs, routeId).value;
      var edited := ApplyAllToRecipe(original, evs);
      exists k :: 0 <= k < |rs| && rs[k] == original && Replaced(rs, edited) == rs[k := edited]
  {
    var original := Find(rs, routeId).value;
    var edited := ApplyAllToRecipe(original, evs);
    var k :| 0 <= k < |rs| && rs[k] == original && original.id == routeId
      && forall j :: 0 <= j < k ==> rs[j].id != routeId;
    UpdateReplacesOneEntry(rs, k, edited);
  }
}
