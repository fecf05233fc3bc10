/** The edits both recipe forms make to the recipe they hold: one input field at a time,
    and the ingredient rows (change one field of a row, append a blank row, remove a row).
    The creation and the edit page repeat the same handlers; they are defined once here. */
module RecipeForm {
  import opened Recipes

  datatype NutrientKey = Calories | Proteins | Fats | Carbs | Fiber

  /** What one of the form's inputs, other than an ingredient row, writes. */
  datatype FieldEdit =
    | Title(title: string)
    | Category(category: string)
    | Image(image: string)
    | PreparationTime(preparationTime: int)
    | CookingTime(cookingTime: int)
    | Servings(servings: int)
    | Directions(directions: string)
    | Nutrient(key: NutrientKey, amount: int)

  /** The ingredient field an ingredient row's input writes. */
  datatype IngredientField = Name(name: string) | Quantity(quantity: int) | Unit(unit: string)

  /** One handler call on the form. */
  datatype FormEvent =
    | FieldChanged(edit: FieldEdit)
    | IngredientChanged(index: nat, field: IngredientField)
    | IngredientAdded(freshId: string)
    | IngredientRemoved(index: nat)

  /** `recipe.nutritionalInfo[key]`: the value a nutrition input shows. */
  function NutrientOf(n: Nutrition, key: NutrientKey): int {
    match key
    case Calories => n.calories
    case Proteins => n.proteins
    case Fats => n.fats
    case Carbs => n.carbs
    case Fiber => n.fiber
  }

  /** `{ ...recipe.nutritionalInfo, [key]: value }`: the input for `key` now shows
      `amount` and the other four show what they showed. */
  function SetNutrient(n: Nutrition, key: NutrientKey, amount: int): (r: Nutrition)
    ensures NutrientOf(r, key) == amount
    ensures forall k :: k != key ==> NutrientOf(r, k) == NutrientOf(n, k)
  {
    match key
    case Calories => n.(calories := amount)
    case Proteins => n.(proteins := amount)
    case Fats => n.(fats := amount)
    case Carbs => n.(carbs := amount)
    case Fiber => n.(fiber := amount)
  }

  /** The value the input that `e` writes shows for the draft `d`. */
  function FieldValue(d: Draft, e: FieldEdit): FieldEdit {
    match e
    case Title(_) => Title(d.title)
    case Category(_) => Category(d.category)
    case Image(_) => Image(d.image)
    case PreparationTime(_) => PreparationTime(d.preparationTime)
    case CookingTime(_) => CookingTime(d.cookingTime)
    case Servings(_) => Servings(d.servings)
    case Directions(_) => Directions(d.directions)
    case Nutrient(k, _) => Nutrient(k, NutrientOf(d.nutritionalInfo, k))
  }

  /** The two edits are written by the same input. */
  predicate SameInput(e: FieldEdit, g: FieldEdit) {
    match e
    case Title(_) => g.Title?
    case Category(_) => g.Category?
    case Image(_) => g.Image?
    case PreparationTime(_) => g.PreparationTime?
    case CookingTime(_) => g.CookingTime?
    case Servings(_) => g.Servings?
    case Directions(_) => g.Directions?
    case Nutrient(k, _) => g.Nutrient? && g.key == k
  }

  /** `{ ...recipe, <field>: value }` for the inline input handlers: the edited input
      now shows the new value, every other input shows what it showed, and the
      ingredient rows are untouched. */
  function ApplyField(d: Draft, e: FieldEdit): (r: Draft)
    ensures FieldValue(r, e) == e
    ensures forall g :: !SameInput(e, g) ==> FieldValue(r, g) == FieldValue(d, g)
    ensures r.ingredients == d.ingredients
  {
    match e
    case Title(t) => d.(title := t)
    case Category(c) => d.(category := c)
    case Image(i) => d.(image := i)
    case PreparationTime(t) => d.(preparationTime := t)
    case CookingTime(t) => d.(cookingTime := t)
    case Servings(s) => d.(servings := s)
    case Directions(t) => d.(directions := t)
    case Nutrient(k, a) => d.(nutritionalInfo := SetNutrient(d.nutritionalInfo, k, a))
  }

  /** `{ ...updated[index], [field]: value }` */
  function WithIngredientField(ing: Ingredient, f: IngredientField): Ingredient {
    match f
    case Name(n) => ing.(name := n)
    case Quantity(q) => ing.(quantity := q)
    case Unit(u) => ing.(unit := u)
  }

  /** The value an ingredient row's input shows for a field. */
  function FieldOf(ing: Ingredient, f: IngredientField): IngredientField {
    match f
    case Name(_) => Name(ing.name)
    case Quantity(_) => Quantity(ing.quantity)
    case Unit(_) => Unit(ing.unit)
  }

  /** The two values are for the same field of a row. */
  predicate SameField(f: IngredientField, g: IngredientField) {
    f.Name? == g.Name? && f.Quantity? == g.Quantity? && f.Unit? == g.Unit?
  }

  /** `handleIngredientChange`: a copy of the rows with one field of row `index`
      rewritten and everything else as it was. The only callers are the inputs of
      existing rows, so `index` is in range. */
  function ChangeIngredient(ings: seq<Ingredient>, index: nat, f: IngredientField): (r: seq<Ingredient>)
    requires index < |ings|
    ensures |r| == |ings|
    ensures forall j :: 0 <= j < |ings| && j != index ==> r[j] == ings[j]
    ensures r[index].id == ings[index].id && FieldOf(r[index], f) == f
    ensures forall g :: !SameField(f, g) ==> FieldOf(r[index], g) == FieldOf(ings[index], g)
  {
    ings[index := WithIngredientField(ings[index], f)]
  }

  /** The blank row `handleAddIngredient` appends. */
  function BlankIngredient(id: string): Ingredient {
    Ingredient(id, "", 0, "")
  }

  /** `handleAddIngredient`: the rows with one blank row after them. */
  function AddIngredient(ings: seq<Ingredient>, freshId: string): (r: seq<Ingredient>)
    ensures |r| == |ings| + 1 && r[..|ings|] == ings && r[|ings|] == BlankIngredient(freshId)
  {
    ings + [BlankIngredient(freshId)]
  }

  /** `handleRemoveIngredient`: a copy of the rows after `splice(index, 1)`, which removes
      row `index` and does nothing when there is no such row. */
  function RemoveIngredient(ings: seq<Ingredient>, index: nat): (r: seq<Ingredient>)
    ensures |r| == if index < |ings| then |ings| - 1 else |ings|
    ensures forall j :: 0 <= j < index && j < |r| ==> r[j] == ings[j]
    ensures forall j :: index <= j < |r| ==> r[j] == ings[j + 1]
    ensures index >= |ings| ==> r == ings
  {
    if index < |ings| then ings[..index] + ings[index + 1..] else ings
  }

  /** The two drafts agree on every field except possibly the ingredient rows. */
  predicate SameExceptIngredients(a: Draft, b: Draft) {
    a.(ingredients := b.ingredients) == b
  }

  /** A handler may be called in this state: only existing rows can be edited. */
  predicate Applicable(d: Draft, ev: FormEvent) {
    ev.IngredientChanged? ==> ev.index < |d.ingredients|
  }

  /** The form state after one handler call. The ingredient handlers change the rows
      and nothing else; the field inputs change their field and never the rows. */
  function Apply(d: Draft, ev: FormEvent): (r: Draft)
    requires Applicable(d, ev)
    ensures !ev.FieldChanged? ==> SameExceptIngredients(d, r)
    ensures ev.FieldChanged? ==> r.ingredients == d.ingredients
  {
    match ev
    case FieldChanged(e) => ApplyField(d, e)
    case IngredientChanged(i, f) => d.(ingredients := ChangeIngredient(d.ingredients, i, f))
    case IngredientAdded(id) => d.(ingredients := AddIngredient(d.ingredients, id))
    case IngredientRemoved(i) => d.(ingredients := RemoveIngredient(d.ingredients, i))
  }

  /** A run of handler calls, each possible in the state the previous ones left. */
  predicate ValidRun(d: Draft, evs: seq<FormEvent>)
    decreases |evs|
  {
    evs == [] || (Applicable(d, evs[0]) && ValidRun(Apply(d, evs[0]), evs[1..]))
  }

  function ApplyAll(d: Draft, evs: seq<FormEvent>): Draft
    requires ValidRun(d, evs)
    decreases |evs|
  {
    if evs == [] then d else ApplyAll(Apply(d, evs[0]), evs[1..])
  }

  /** Writing a row's field with the value it already shows changes nothing, and a
      second write to the same field overrides the first. */
  lemma {:induction false} ChangeIngredientReadBack(ings: seq<Ingredient>, index: nat, f: IngredientField, g: IngredientField)
    requires index < |ings|
    ensures ChangeIngredient(ings, index, FieldOf(ings[index], f)) == ings
    ensures SameField(f, g) ==>
      ChangeIngredient(ChangeIngredient(ings, index, f), index, g) == ChangeIngredient(ings, index, g)
  {
    var r := ChangeIngredient(ings, index, FieldOf(ings[index], f));
    assert r[index] == ings[index];
  }

  /** Removing the row just appended gives back the rows before the append. */
  lemma {:induction false} RemoveUndoesAdd(ings: seq<Ingredient>, freshId: string)
    ensures RemoveIngredient(AddIngredient(ings, freshId), |ings|) == ings
  {
    var a := AddIngredient(ings, freshId);
    assert a[..|ings|] == ings;
  }

  /** Removing a row drops exactly that row's occurrence from the multiset of rows. */
  lemma {:induction false} RemoveIngredientMultiset(ings: seq<Ingredient>, index: nat)
    requires index < |ings|
    ensures multiset(RemoveIngredient(ings, index)) + multiset{ings[index]} == multiset(ings)
  {
    assert ings == ings[..index] + [ings[index]] + ings[index + 1..];
  }

  /** Row ids stay unique under every handler, given a fresh id for each new row. */
  lemma {:induction false} ApplyKeepsIngredientIdsUnique(d: Draft, ev: FormEvent)
    requires Applicable(d, ev) && UniqueIngredientIds(d.ingredients)
    requires ev.IngredientAdded? ==> !HasIngredientId(d.ingredients, ev.freshId)
    ensures UniqueIngredientIds(Apply(d, ev).ingredients)
  {
    var ings := d.ingredients;
    var r := Apply(d, ev).ingredients;
    match ev
    case FieldChanged(_) =>
    case IngredientChanged(i, f) =>
      forall a, b | 0 <= a < b < |r| ensures r[a].id != r[b].id {
        assert r[a].id == ings[a].id && r[b].id == ings[b].id;
      }
    case IngredientAdded(id) =>
      forall a, b | 0 <= a < b < |r| ensures r[a].id != r[b].id {
        assert r[a] == ings[a];
        if b < |ings| {
          assert r[b] == ings[b];
        }
      }
    case IngredientRemoved(i) =>
      forall a, b | 0 <= a < b < |r| ensures r[a].id != r[b].id {
        var a' := if a < i then a else a + 1;
        var b' := if b < i then b else b + 1;
        assert r[a] == ings[a'] && r[b] == ings[b'] && a' < b';
      }
  }

  // ----- constraint validation -----

  /** A row passes the browser's checks: the name input is `required` (not empty) and
      the quantity input has `min={0}`. */
  predicate RowValid(ing: Ingredient) {
    ing.name != "" && ing.quantity >= 0
  }

  /** The constraints both forms put on their inputs: `min={0}` on both times, every
      quantity and every nutrition fact, `min={1}` on the servings, and `required` on
      every ingredient name. The browser dispatches the form's submit event only when
      all of them hold. */
  predicate InputsValid(d: Draft) {
    && d.preparationTime >= 0 && d.cookingTime >= 0 && d.servings >= 1
    && (forall i :: 0 <= i < |d.ingredients| ==> RowValid(d.ingredients[i]))
    && (forall k :: NutrientOf(d.nutritionalInfo, k) >= 0)
  }

  /** A freshly added row has an empty name, so the form cannot be submitted until the
      row is filled in or removed. */
  lemma AddedRowBlocksSubmit(d: Draft, freshId: string)
    ensures !InputsValid(Apply(d, IngredientAdded(freshId)))
  {
    var r := Apply(d, IngredientAdded(freshId));
    assert r.ingredients[|d.ingredients|] == BlankIngredient(freshId);
  }

  /** Removing a row never makes a submittable form unsubmittable. */
  lemma {:induction false} RemoveKeepsInputsValid(d: Draft, index: nat)
    requires InputsValid(d)
    ensures InputsValid(Apply(d, IngredientRemoved(index)))
  {
    var r := Apply(d, IngredientRemoved(index)).ingredients;
    forall j | 0 <= j < |r| ensures RowValid(r[j]) {
      if j < index {
        assert r[j] == d.ingredients[j];
      } else {
        assert r[j] == d.ingredients[j + 1];
      }
    }
  }

  /** Filling in one field of a row keeps the constraints exactly when the new value
      passes its own check and the other rows and fields already did. */
  lemma {:induction false} ChangeIngredientInputsValid(d: Draft, index: nat, f: IngredientField)
    requires index < |d.ingredients|
    requires InputsValid(d)
    ensures InputsValid(Apply(d, IngredientChanged(index, f))) <==>
      match f
      case Name(n) => n != ""
      case Quantity(q) => q >= 0
      case Unit(_) => true
  {
    var r := Apply(d, IngredientChanged(index, f)).ingredients;
    assert forall j :: 0 <= j < |r| && j != index ==> r[j] == d.ingredients[j];
    assert r[index] == WithIngredientField(d.ingredients[index], f);
  }

  /** The text inputs other than the ingredient names carry no constraint. */
  lemma TextEditKeepsInputsValid(d: Draft, e: FieldEdit)
    requires e.Title? || e.Category? || e.Image? || e.Directions?
    ensures InputsValid(ApplyField(d, e)) <==> InputsValid(d)
  {
  }
}
