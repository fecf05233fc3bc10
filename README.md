# Recipe app core in Dafny

A model of the collection logic of a small React recipe app. The logic is the part that sits
under the JSX markup:

- the shared recipe store with `addRecipe`, `updateRecipe` and `deleteRecipe`;
- the list page, which derives:
  - the category facets;
  - the search-and-category filter;
  - pages of six recipes;
  - the calorie statistics;
- the list page's own state: search text, selected categories and current page;
- the calorie highlight of a recipe card;
- the three chart series of the statistics panel;
- the creation and edit forms, with their ingredient-row handlers, submit and save.

Modules follow the source files:

| module | file | models |
|---|---|---|
| `Seqs` | `seqs.dfy` | generic helpers: JavaScript `filter` and `map`, first-occurrence `Set` order, subsequences |
| `Text` | `text.dfy` | `trim`, ASCII `toLowerCase` and `includes` |
| `Recipes` | `recipe.dfy` | the `Recipe`, `Ingredient` and `Nutrition` records, and the id-less draft |
| `RecipeContext` | `recipe_context.dfy` | the store |
| `RecipeList` | `recipe_list.dfy` | the list page |
| `RecipeCard` | `recipe_card.dfy` | `calColor` |
| `Statistics` | `statistics.dfy` | the chart series |
| `RecipeForm` | `recipe_form.dfy` | the field and ingredient edits both forms share |
| `AddRecipe` | `add_recipe.dfy` | the creation page |
| `EditRecipe` | `edit_recipe.dfy` | the edit page |

Stateful code is modelled as classes:

- The store is `RecipeStore`. Its `recipes` field is reassigned by the three operations, each to a pure function of the old list.
- The list page state is `RecipeListView`. Its methods are the search box, the category buttons, the "All" button and the page buttons. Each method includes the page-reset effect that follows it.
- The form states are `AddRecipeForm` and `EditRecipeForm`. Their handlers copy the ingredient rows, change the copy and store it. Each handler's contract ties the new state to one pure `RecipeForm.Apply` step.

Numbers are mathematical integers. The calorie average is a real number, so the card's test `|calories − avg| <= 20` keeps its literal form.

## Model

| member | source | states |
|---|---|---|
| `RecipeContext.RecipeStore.constructor` | src/context/RecipeContext.tsx:21 | the store starts from the given list of recipes |
| `RecipeContext.RecipeStore.AddRecipe` | src/context/RecipeContext.tsx:23-25 | the new list is the old list with the recipe appended: one longer, the old list is its prefix and the recipe is last |
| `RecipeContext.RecipeStore.UpdateRecipe` | src/context/RecipeContext.tsx:27-31 | the new list is `Replaced(old list, updated)` |
| `RecipeContext.RecipeStore.DeleteRecipe` | src/context/RecipeContext.tsx:33-35 | the new list is `Removed(old list, id)` |
| `RecipeContext.Replaced` | src/context/RecipeContext.tsx:28-30 | same length; entry i becomes `updated` exactly when its id matches and stays as it was otherwise |
| `RecipeContext.Removed` | src/context/RecipeContext.tsx:34 | no remaining entry has the id; a recipe remains exactly when it was in the list and carries another id |
| `RecipeContext.AddDuplicateBreaksUniqueness` | src/context/RecipeContext.tsx:24 | an add does not check ids: adding a recipe whose id is taken makes ids non-unique |
| `RecipeContext.AddFreshKeepsUniqueness` | src/context/RecipeContext.tsx:24 | adding a recipe with an unused id keeps ids unique |
| `RecipeContext.UpdateAbsentIsNoop` | src/context/RecipeContext.tsx:29 | an update with an id no entry carries leaves the list unchanged |
| `RecipeContext.UpdateIdempotent` | src/context/RecipeContext.tsx:29 | applying the same update twice gives the same list as applying it once |
| `RecipeContext.UpdateKeepsIds` | src/context/RecipeContext.tsx:29 | an update keeps every entry's id, so unique ids stay unique |
| `RecipeContext.UpdateReplacesOneEntry` | src/context/RecipeContext.tsx:29 | with unique ids, an update replaces exactly the one entry that carries the id |
| `RecipeContext.DeleteRemovesId` | src/context/RecipeContext.tsx:34 | after a delete, no entry has the id and the survivors keep their order (subsequence) |
| `RecipeContext.DeleteAbsentIsNoop` | src/context/RecipeContext.tsx:34 | deleting an id no entry carries leaves the list unchanged |
| `RecipeContext.DeleteIdempotent` | src/context/RecipeContext.tsx:34 | deleting twice gives the same list as deleting once |
| `RecipeContext.DeleteLength` | src/context/RecipeContext.tsx:34 | new length = old length − number of entries carrying the id |
| `RecipeContext.DeleteRemovesOneEntry` | src/context/RecipeContext.tsx:34 | with unique ids, deleting entry k's id gives the list without entry k |
| `RecipeContext.DeleteKeepsUniqueness` | src/context/RecipeContext.tsx:34 | deleting keeps ids unique |
| `Seqs.Filter` | src/context/RecipeContext.tsx:34 | JavaScript `filter`: every result element passes; each value occurs as often as in the input when it passes, and never when it fails |
| `Seqs.FilterIsSubsequence` | src/pages/RecipeList.tsx:22 | a filter's result is an order-preserving subsequence of its input |
| `Seqs.Distinct` | src/pages/RecipeList.tsx:17-19 | `Array.from(new Set(s))`: no duplicates, and the same members as `s` |
| `Seqs.DistinctFirstOccurrenceOrder` | src/pages/RecipeList.tsx:17-19 | the distinct values appear in order of their first occurrence in `s` |
| `Text.TrimStart` | src/pages/RecipeList.tsx:18 | the result is a suffix; only white space was dropped; it does not start with white space |
| `Text.TrimEnd` | src/pages/RecipeList.tsx:18 | the result is a prefix; only white space was dropped; it does not end with white space |
| `Text.Trim` | src/pages/RecipeList.tsx:23-24 | `trim`: the result is no longer than the input and neither starts nor ends with white space |
| `Text.TrimIdempotent` | src/pages/RecipeList.tsx:23-24 | trimming twice is trimming once |
| `Text.TrimEmptyIffBlank` | src/pages/RecipeList.tsx:24 | a string trims to empty exactly when it is all white space |
| `Text.TrimUnchanged` | src/pages/RecipeList.tsx:24 | trim leaves a string alone exactly when it neither starts nor ends with white space |
| `Text.Lower` | src/pages/RecipeList.tsx:23 | same length; character by character, upper-case ASCII letters become lower case |
| `Text.Includes` | src/pages/RecipeList.tsx:26-28 | `includes` holds exactly when some suffix of the text starts with the needle |
| `Text.IncludesPrefix` | src/pages/RecipeList.tsx:26 | a text includes every prefix of itself |
| `Text.MissingFirstChar` | src/pages/RecipeList.tsx:26 | a needle whose first character occurs at no position where it would fit is not included |
| `RecipeList.AllCategories` | src/pages/RecipeList.tsx:17-19 | every normalised category appears once, and a key is listed iff some recipe's trimmed lower-cased category is that key |
| `RecipeList.AllCategoriesOrder` | src/pages/RecipeList.tsx:17-19 | the keys are listed in order of their first occurrence among the recipes |
| `RecipeList.MatchesSearch` | src/pages/RecipeList.tsx:23-28 | definition: the trimmed lower-cased search text is in the trimmed lower-cased title or in some lower-cased ingredient name |
| `RecipeList.MatchesCategory` | src/pages/RecipeList.tsx:31-33 | with no category selected every recipe passes; otherwise the recipe's trimmed lower-cased category must be selected |
| `RecipeList.Filtered` | src/pages/RecipeList.tsx:22-36 | a recipe is kept iff (no selection or its trimmed lower-cased category is selected) and (the normalised search is in its trimmed lower-cased title or in a lower-cased ingredient name); multiplicities are kept |
| `RecipeList.FilteredIsSubsequence` | src/pages/RecipeList.tsx:22-36 | the filtered list is an order-preserving subsequence of the collection |
| `RecipeList.BlankSearchMatches` | src/pages/RecipeList.tsx:23-28 | every recipe passes a blank or whitespace-only search |
| `RecipeList.BlankSearchKeepsAll` | src/pages/RecipeList.tsx:24-35 | a blank or whitespace-only search with no selection keeps every recipe, in order |
| `RecipeList.SelectionNarrows` | src/pages/RecipeList.tsx:31-35 | selecting categories can only remove recipes from the result of the search alone |
| `RecipeList.SearchExample` | src/pages/RecipeList.tsx:22-36 | searching "pan" over Pancakes and Soup keeps only Pancakes |
| `RecipeList.TotalPages` | src/pages/RecipeList.tsx:42 | `totalPages` is `ceil(n / 6)`: six times it covers n, and one page fewer does not |
| `RecipeList.Page` | src/pages/RecipeList.tsx:39-41 | card k is filtered recipe 6·(page − 1) + k; the page is non-empty exactly when its number is at most `totalPages`, and then holds min(6, n − 6·(page − 1)) cards |
| `RecipeList.PagesArePrefix` | src/pages/RecipeList.tsx:39-41 | pages 1..k laid end to end are the first `min(6k, n)` filtered recipes |
| `RecipeList.PagesCoverFiltered` | src/pages/RecipeList.tsx:41-42 | pages 1..totalPages together are exactly the filtered list |
| `RecipeList.ThirteenRecipesPaging` | src/pages/RecipeList.tsx:39-42 | 13 matches make 3 pages of 6, 6 and 1 |
| `RecipeList.Calories` | src/pages/RecipeList.tsx:50 | the calorie values, one per recipe, in order |
| `RecipeList.MaxOf` | src/pages/RecipeList.tsx:51 | `Math.max`: bounds every value and is one of them |
| `RecipeList.MinOf` | src/pages/RecipeList.tsx:52 | `Math.min`: bounded by every value and is one of them |
| `RecipeList.Sum` | src/pages/RecipeList.tsx:53-54 | the total of n values lies between n times their minimum and n times their maximum |
| `RecipeList.AverageBetween` | src/pages/RecipeList.tsx:53-54 | an average of values in [lo, hi] lies in [lo, hi] |
| `RecipeList.CalorieStatsOf` | src/pages/RecipeList.tsx:50-54 | none exactly for an empty collection; otherwise min ≤ every calorie value ≤ max, both attained, avg is the sum of the calorie values over their count, and min ≤ avg ≤ max |
| `RecipeList.StatsExample` | src/pages/RecipeList.tsx:50-54 | calories 100, 200 and 300 give max 300, min 100 and avg 200 |
| `RecipeList.TierOf` | src/pages/RecipeList.tsx:120 | a card's tier uses the stats of the whole store, not of the filtered page: red iff its recipe has the most calories of the store, green iff it has the fewest while some recipe has more |
| `RecipeList.SomeRecipeIsMax` | src/pages/RecipeList.tsx:120 | in a non-empty store some recipe is classed as the maximum (its card is red whenever it is shown) |
| `RecipeList.MinTierIffSpread` | src/pages/RecipeList.tsx:120 | some recipe of the store is classed as the minimum (its card is green whenever it is shown) exactly when not all calorie values are equal |
| `RecipeList.NearAverageIsInterior` | src/pages/RecipeList.tsx:120 | a recipe classed near the average lies strictly between the store's min and max and within 20 of the mean |
| `RecipeList.Toggled` | src/pages/RecipeList.tsx:99-104 | a toggle adds the category when absent, removes it when present, and leaves the other categories alone |
| `RecipeList.ToggleKeepsNoDuplicates` | src/pages/RecipeList.tsx:99-104 | toggling keeps the selection free of duplicates |
| `RecipeList.ToggleTwice` | src/pages/RecipeList.tsx:99-104 | toggling twice restores the set of selected categories, and restores the exact list when the category was absent |
| `RecipeList.RecipeListView.constructor` | src/pages/RecipeList.tsx:8-15 | starts on page 1 with an empty search and no selection |
| `RecipeList.RecipeListView.SetSearchTerm` | src/pages/RecipeList.tsx:45-47 | stores the text; the page resets to 1 exactly when the text changed |
| `RecipeList.RecipeListView.ToggleCategory` | src/pages/RecipeList.tsx:99-104 | the selection becomes the toggled one and the page resets to 1 |
| `RecipeList.RecipeListView.ShowAll` | src/pages/RecipeList.tsx:86 | the selection becomes empty and the page resets to 1 |
| `RecipeList.RecipeListView.GoToPage` | src/pages/RecipeList.tsx:130 | sets the page and leaves the search and selection alone |
| `RecipeList.RecipeListView.CurrentRecipes` | src/pages/RecipeList.tsx:39-41 | the cards are page `currentPage` of the filtered list: card k is filtered recipe 6·(currentPage − 1) + k, at most six, each a matching store recipe, and none exactly when `currentPage` is past `totalPages` |
| `RecipeCard.CalColor` | src/components/RecipeCard.tsx:14-22 | max tier iff calories = max; min tier iff ≠ max and = min; near average iff neither and within 20 inclusive; neutral iff none of these |
| `RecipeCard.CalColorExamples` | src/components/RecipeCard.tsx:16-21 | 600 with stats (600, 300, 450) is max; with (300, 100, 200): 195 and 220 are near, 221 is neutral |
| `Statistics.CalorieSeries` | src/components/Statistics.tsx:47-50 | one point per recipe; point i is (title i, calories i) |
| `Statistics.ProteinSeries` | src/components/Statistics.tsx:52-55 | one point per recipe; point i is (title i, proteins i) |
| `Statistics.CookingSeries` | src/components/Statistics.tsx:57-60 | one point per recipe; point i is (title i, cookingTime i) |
| `Statistics.SeriesShareNames` | src/components/Statistics.tsx:47-60 | the three series carry the same names: the titles in store order |
| `Statistics.EmptyStoreEmptySeries` | src/components/Statistics.tsx:47-60 | an empty store gives three empty series |
| `Statistics.SeriesAfterAdd` | src/components/Statistics.tsx:47-60 | after an add, each series gains the new point at the end |
| `Statistics.SeriesOfSubsequence` | src/components/Statistics.tsx:47-50 | an order-preserving subsequence of recipes gives an order-preserving subsequence of points |
| `Statistics.SeriesAfterUpdate` | src/components/Statistics.tsx:47-50 | after an update, points of replaced recipes show the new values and every other point is unchanged |
| `Statistics.SeriesAfterDelete` | src/components/Statistics.tsx:47-50 | after a delete, the remaining points keep their order |
| `Recipes.WithId` | src/pages/AddRecipe.tsx:57-60 | `{ id, ...draft }` carries the given id and exactly the draft's fields |
| `AddRecipe.InitialDraft` | src/pages/AddRecipe.tsx:11-27 | empty texts, times 0, one serving, no ingredients, all nutrition facts 0 |
| `RecipeForm.ChangeIngredient` | src/pages/AddRecipe.tsx:29-37 | same length; other rows unchanged; the row keeps its id, shows the new value, and its other fields are unchanged |
| `RecipeForm.AddIngredient` | src/pages/AddRecipe.tsx:39-47 | the old rows are a prefix and a blank row (name "", quantity 0, unit "") is last |
| `RecipeForm.RemoveIngredient` | src/pages/AddRecipe.tsx:49-53 | an in-range index removes exactly that row, keeping the others in order; an out-of-range index changes nothing |
| `RecipeForm.SetNutrient` | src/pages/AddRecipe.tsx:229-238 | the input for the edited nutrition fact shows the new amount and the other four are unchanged |
| `RecipeForm.ApplyField` | src/pages/AddRecipe.tsx:75-240 | the edited input shows the new value, every other input shows what it showed, and the ingredient rows are untouched |
| `RecipeForm.Apply` | src/pages/AddRecipe.tsx:29-53 | ingredient handlers change only the rows; field inputs never change the rows |
| `RecipeForm.ChangeIngredientReadBack` | src/pages/AddRecipe.tsx:34-35 | writing the value a row already shows changes nothing; a second write to the same field overrides the first |
| `RecipeForm.RemoveUndoesAdd` | src/pages/AddRecipe.tsx:39-53 | removing the row just added restores the rows |
| `RecipeForm.RemoveIngredientMultiset` | src/pages/AddRecipe.tsx:49-53 | a removal drops exactly that row from the multiset of rows |
| `RecipeForm.ApplyKeepsIngredientIdsUnique` | src/pages/AddRecipe.tsx:29-53 | every handler keeps row ids unique, given a fresh id for a new row |
| `RecipeForm.InputsValid` | src/pages/AddRecipe.tsx:105-245 | definition: times ≥ 0, servings ≥ 1, every ingredient name non-empty and quantity ≥ 0, every nutrition fact ≥ 0 (the `min` and `required` attributes both forms share) |
| `RecipeForm.AddedRowBlocksSubmit` | src/pages/AddRecipe.tsx:39-47 | after adding a row the form cannot submit, because the new row's name is empty and the name input is `required` |
| `RecipeForm.RemoveKeepsInputsValid` | src/pages/AddRecipe.tsx:49-53 | removing a row keeps a valid form valid |
| `RecipeForm.ChangeIngredientInputsValid` | src/pages/AddRecipe.tsx:153-177 | from a valid form, a row edit keeps it valid exactly when a new name is non-empty or a new quantity is ≥ 0 (a unit is unconstrained) |
| `RecipeForm.TextEditKeepsInputsValid` | src/pages/AddRecipe.tsx:70-103 | editing the title, category, image or directions never changes whether the shared constraints hold |
| `AddRecipe.AddRecipeForm.constructor` | src/pages/AddRecipe.tsx:11-27 | the form starts from the initial draft |
| `AddRecipe.AddRecipeForm.SetField` | src/pages/AddRecipe.tsx:75-240 | the draft becomes one field edit of the old draft |
| `AddRecipe.AddRecipeForm.HandleIngredientChange` | src/pages/AddRecipe.tsx:29-37 | the draft becomes `Apply(old, IngredientChanged)`; row ids stay unique |
| `AddRecipe.AddRecipeForm.HandleAddIngredient` | src/pages/AddRecipe.tsx:39-47 | the draft becomes `Apply(old, IngredientAdded)`; row ids stay unique |
| `AddRecipe.AddRecipeForm.HandleRemoveIngredient` | src/pages/AddRecipe.tsx:49-53 | the draft becomes `Apply(old, IngredientRemoved)`; row ids stay unique |
| `AddRecipe.AddRecipeForm.HandleSubmit` | src/pages/AddRecipe.tsx:55-62 | the handler alone: the store gains exactly the draft under the fresh id at the end; unique ids stay unique |
| `AddRecipe.Submittable` | src/pages/AddRecipe.tsx:67-245 | definition: the title is non-empty (`required`) and the shared constraints hold |
| `AddRecipe.InitialDraftNeedsTitle` | src/pages/AddRecipe.tsx:11-27 | the empty form cannot submit (its title input is `required`), and after typing a title it can exactly when the title is non-empty |
| `AddRecipe.AddRecipeForm.Submit` | src/pages/AddRecipe.tsx:55-67 | submitted iff the draft is submittable; then the store gains the draft under the fresh id, otherwise it is unchanged; unique ids stay unique |
| `EditRecipe.Find` | src/pages/EditRecipe.tsx:11 | none iff no recipe carries the id; otherwise the first recipe carrying it |
| `EditRecipe.ApplyToRecipe` | src/pages/EditRecipe.tsx:20-50 | a handler on the edited recipe never changes its id |
| `EditRecipe.ApplyAllToRecipe` | src/pages/EditRecipe.tsx:20-50 | any sequence of handler calls keeps the id |
| `EditRecipe.EditRecipeForm.constructor` | src/pages/EditRecipe.tsx:11-18 | the form state is the found recipe, or nothing |
| `EditRecipe.EditRecipeForm.NotFound` | src/pages/EditRecipe.tsx:60 | definition: "Recipe not found." is shown instead of the form while there is no recipe |
| `EditRecipe.EditRecipeForm.SetField` | src/pages/EditRecipe.tsx:73-229 | the recipe becomes one field edit of the old one, with the same id |
| `EditRecipe.EditRecipeForm.HandleIngredientChange` | src/pages/EditRecipe.tsx:20-29 | no-op without a recipe; otherwise the same row edit as on the creation page |
| `EditRecipe.EditRecipeForm.HandleAddIngredient` | src/pages/EditRecipe.tsx:31-43 | no-op without a recipe; otherwise a blank row is appended |
| `EditRecipe.EditRecipeForm.HandleRemoveIngredient` | src/pages/EditRecipe.tsx:45-50 | no-op without a recipe; otherwise the splice removal |
| `EditRecipe.EditRecipeForm.HandleSave` | src/pages/EditRecipe.tsx:52-58 | with a recipe, the store becomes `Replaced(old, recipe)`; without one, the store is unchanged |
| `EditRecipe.EditRecipeForm.Submit` | src/pages/EditRecipe.tsx:52-65 | submitted iff there is a recipe and it meets the shared constraints (the title is not required here); then the store becomes `Replaced(old, recipe)`, otherwise it is unchanged |
| `EditRecipe.SaveReplacesOriginal` | src/pages/EditRecipe.tsx:11-58 | with unique ids, saving after any edits replaces exactly the store entry the form was copied from, keeping the length and order |

## Left out

- JSX, Tailwind classes, routing and the `navigate` calls (src/App.tsx) are not modelled. The tier is an enumeration, not a CSS class string.
- src/pages/RecipeView.tsx is not part of this model. It only renders a recipe found by the same lookup as `EditRecipe.Find`.
- The `setTimeout`/`clearTimeout` around the chart series in src/components/Statistics.tsx:45-68 is left out, as are the chart widgets. The series are what the timer eventually stores.
- `uuidv4()` and `crypto.randomUUID()` are foreign calls. Each is a `freshId` parameter. Where uniqueness matters, a `requires` says the id is not already in use.
- The sample data `mockRecipes` is not part of this model. The store starts from an arbitrary list.
- Floating point is not modelled. Numbers are integers, and `Number(e.target.value)` parsing happens before the model's inputs.
- RecipeList.CalorieStatsOf: returns `None` for an empty collection. The page's float arithmetic gives -Infinity, Infinity and NaN there, but no card is rendered, so nothing reads them.
- Text.Trim: the contract says the result is no longer than the input and has no white space at either end; that it is exactly the slice between the leading and the trailing white space follows from `Text.TrimStart` and `Text.TrimEnd` but is not stated for `Trim` itself.
- Text.Lower: only ASCII letters are lower-cased; the full Unicode case mapping of `toLowerCase` is not modelled.
- The error messages that the page tests expect ("Please fill in all required fields" and others) are not rendered by src/pages/AddRecipe.tsx. The forms rely on the browser's constraint validation of their `required` and `min` attributes, which `AddRecipe.AddRecipeForm.Submit` and `EditRecipe.EditRecipeForm.Submit` model.
- AddRecipe.AddRecipeForm.HandleSubmit: models the handler alone and adds whatever the draft holds. The browser calls it only when `AddRecipe.Submittable` holds, which `AddRecipe.AddRecipeForm.Submit` models.
- EditRecipe.EditRecipeForm.HandleSave: models the handler alone. The browser calls it only when the shared constraints hold, which `EditRecipe.EditRecipeForm.Submit` models.
- The other checks of the browser's constraint validation are not modelled: the number inputs' default `step` of 1 (the model's numbers are already integers) and input the browser cannot parse as a number.
- A page index clamped to the page count is not in the code, so it is not in the model. After a deletion the current page may lie past the last page, which then shows no cards.
- The `console.log` of the average (src/pages/RecipeList.tsx:56) is I/O and is left out.
- EditRecipe.EditRecipeForm.constructor: models the state after the first effect. The effect's later re-runs when `recipeToEdit` changes identity are not modelled. The JSON deep copy is a value copy here.
- RecipeForm.ChangeIngredient: requires an index in range, because only the inputs of existing rows call it. JavaScript would create a partial row past the end; the `keyof Ingredient` field `id` is never written by the inputs and is not modelled.
- RecipeList.RecipeListView.SetSearchTerm: resets the page only when the text changed. This follows React's bail-out for an equal state value; the effect's render timing is not modelled.
- RecipeList.RecipeListView.ToggleCategory: the toggle reads the selection at render time. The model uses the current selection, which is the same value when clicks are handled one render at a time.
