/** The records of the app: a recipe, its ingredients and its nutrition facts.
    Numbers are integers here; the app holds them as JavaScript numbers. */
module Recipes {

  datatype Ingredient = Ingredient(id: string, name: string, quantity: int, unit: string)

  datatype Nutrition = Nutrition(calories: int, proteins: int, fats: int, carbs: int, fiber: int)

  datatype Recipe = Recipe(
    id: string,
    title: string,
    category: string,
    image: string,
    preparationTime: int,
    cookingTime: int,
    servings: int,
    ingredients: seq<Ingredient>,
    directions: string,
    nutritionalInfo: Nutrition)

  /** A recipe without its id (`Omit<Recipe, "id">`): what the creation form edits. */
  datatype Draft = Draft(
    title: string,
    category: string,
    image: string,
    preparationTime: int,
    cookingTime: int,
    servings: int,
    ingredients: seq<Ingredient>,
    directions: string,
    nutritionalInfo: Nutrition)

  /** `{ id, ...draft }` */
  function WithId(id: string, d: Draft): (r: Recipe)
    ensures r.id == id && Body(r) == d
  {
    Recipe(id, d.title, d.category, d.image, d.preparationTime, d.cookingTime,
           d.servings, d.ingredients, d.directions, d.nutritionalInfo)
  }

  /** Everything of a recipe except its id. */
  function Body(r: Recipe): Draft {
    Draft(r.title, r.category, r.image, r.preparationTime, r.cookingTime,
          r.servings, r.ingredients, r.directions, r.nutritionalInfo)
  }

  predicate HasId(rs: seq<Recipe>, id: string) {
    exists i :: 0 <= i < |rs| && rs[i].id == id
  }

  /** No two recipes share an id. The store does not enforce this; fresh ids keep it. */
  predicate UniqueIds(rs: seq<Recipe>) {
    forall i, j :: 0 <= i < j < |rs| ==> rs[i].id != rs[j].id
  }

  predicate UniqueIngredientIds(ings: seq<Ingredient>) {
    forall i, j :: 0 <= i < j < |ings| ==> ings[i].id != ings[j].id
  }

  predicate HasIngredientId(ings: seq<Ingredient>, id: string) {
    exists i :: 0 <= i < |ings| && ings[i].id == id
  }
}
