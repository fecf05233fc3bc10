/** The creation page: a draft recipe edited through the form, then added to the store
    under a new id once the browser's constraint validation lets the form submit. */
module AddRecipe {
  import opened Recipes
  import opened RecipeForm
  import opened RecipeContext

  /** The form's starting state: empty texts, zero times, one serving, no ingredient rows
      and zero for every nutrition fact. */
  function InitialDraft(): (d: Draft)
    ensures d.title == d.category == d.image == d.directions == ""
    ensures d.preparationTime == d.cookingTime == 0 && d.servings == 1 && d.ingredients == []
    ensures d.nutritionalInfo == Nutrition(0, 0, 0, 0, 0)
  {
    Draft("", "", "", 0, 0, 1, [], "", Nutrition(0, 0, 0, 0, 0))
  }

  /** The creation form submits only with a non-empty title (the title input is
      `required`) and every shared input constraint met. */
  predicate Submittable(d: Draft) {
    d.title != "" && InputsValid(d)
  }

  /** The empty form cannot be submitted; typing any title is all it then takes. */
  lemma InitialDraftNeedsTitle(t: string)
    ensures !Submittable(InitialDraft())
    ensures Submittable(Apply(InitialDraft(), FieldChanged(Title(t)))) <==> t != ""
  {
    var d := Apply(InitialDraft(), FieldChanged(Title(t)));
    assert forall k :: NutrientOf(d.nutritionalInfo, k) == 0;
  }

  class AddRecipeForm {
    var recipe: Draft

    /** Ingredient rows carry distinct ids, each drawn fresh when its row was added. */
    ghost predicate Valid()
      reads this
    {
      UniqueIngredientIds(recipe.ingredients)
    }

    constructor ()
      ensures Valid() && recipe == InitialDraft()
    {
      recipe := InitialDraft();
    }

    /** The inline handlers of the title, category, image, time, servings, directions
        and nutrition inputs. */
    method SetField(e: FieldEdit)
      requires Valid()
      modifies this
      ensures Valid() && recipe == Apply(old(recipe), FieldChanged(e))
    {
      recipe := ApplyField(recipe, e);
    }

    /** `handleIngredientChange`: copy the rows, rewrite row `index`, store the copy. */
    method HandleIngredientChange(index: nat, field: IngredientField)
      requires Valid() && index < |recipe.ingredients|
      modifies this
      ensures Valid() && recipe == Apply(old(recipe), IngredientChanged(index, field))
    {
      ApplyKeepsIngredientIdsUnique(recipe, IngredientChanged(index, field));
      var updated := recipe.ingredients;
      updated := updated[index := WithIngredientField(updated[index], field)];
      recipe := recipe.(ingredients := updated);
    }

    /** `handleAddIngredient`; `freshId` stands for the generated UUID. */
    method HandleAddIngredient(freshId: string)
      requires Valid() && !HasIngredientId(recipe.ingredients, freshId)
      modifies this
      ensures Valid() && recipe == Apply(old(recipe), IngredientAdded(freshId))
    {
      ApplyKeepsIngredientIdsUnique(recipe, IngredientAdded(freshId));
      var newIngredient := Ingredient(freshId, "", 0, "");
      recipe := recipe.(ingredients := recipe.ingredients + [newIngredient]);
    }

    /** `handleRemoveIngredient`: copy the rows, splice out row `index`, store the copy. */
    method HandleRemoveIngredient(index: nat)
      requires Valid()
      modifies this
      ensures Valid() && recipe == Apply(old(recipe), IngredientRemoved(index))
    {
      ApplyKeepsIngredientIdsUnique(recipe, IngredientRemoved(index));
      var updated := recipe.ingredients;
      if index < |updated| {
        updated := updated[..index] + updated[index + 1..];
      }
      recipe := recipe.(ingredients := updated);
    }

    /** `handleSubmit`: the store gains exactly one entry, the draft under the new id
        `freshId` (the generated UUID); store ids stay unique when they were. */
    method HandleSubmit(store: RecipeStore, freshId: string)
      requires !HasId(store.recipes, freshId)
      modifies store
      ensures store.recipes == old(store.recipes) + [WithId(freshId, recipe)]
      ensures |store.recipes| == |old(store.recipes)| + 1
      ensures UniqueIds(old(store.recipes)) ==> UniqueIds(store.recipes)
    {
      AddFreshKeepsUniqueness(store.recipes, WithId(freshId, recipe));
      store.AddRecipe(WithId(freshId, recipe));
    }

    /** Pressing "Save Recipe": the browser runs `handleSubmit` only when the form's
        constraints hold, and otherwise leaves the store as it was. */
    method Submit(store: RecipeStore, freshId: string) returns (submitted: bool)
      requires !HasId(store.recipes, freshId)
      modifies store
      ensures submitted <==> Submittable(recipe)
      ensures submitted ==> store.recipes == old(store.recipes) + [WithId(freshId, recipe)]
      ensures !submitted ==> store.recipes == old(store.recipes)
      ensures UniqueIds(old(store.recipes)) ==> UniqueIds(store.recipes)
    {
      submitted := Submittable(recipe);
      if submitted {
        HandleSubmit(store, freshId);
      }
    }
  }
}
