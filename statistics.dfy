/** The chart data of the statistics panel: one point per recipe, in store order, for
    calories, protein and cooking time. */
module Statistics {
  import opened Seqs
  import opened Recipes
  import opened RecipeContext

  datatype CalorieData = CalorieData(name: string, calories: int)
  datatype ProteinData = ProteinData(name: string, protein: int)
  datatype CookingData = CookingData(name: string, cookingTime: int)

  function CaloriePoint(r: Recipe): CalorieData {
    CalorieData(r.title, r.nutritionalInfo.calories)
  }

  function ProteinPoint(r: Recipe): ProteinData {
    ProteinData(r.title, r.nutritionalInfo.proteins)
  }

  function CookingPoint(r: Recipe): CookingData {
    CookingData(r.title, r.cookingTime)
  }

  /** `recipes.map(r => ({ name: r.title, calories: r.nutritionalInfo.calories }))` */
  function CalorieSeries(rs: seq<Recipe>): (r: seq<CalorieData>)
    ensures |r| == |rs|
    ensures forall i :: 0 <= i < |rs| ==> r[i].name == rs[i].title && r[i].calories == rs[i].nutritionalInfo.calories
  {
    Map(rs, CaloriePoint)
  }

  /** `recipes.map(r => ({ name: r.title, protein: r.nutritionalInfo.proteins }))` */
  function ProteinSeries(rs: seq<Recipe>): (r: seq<ProteinData>)
    ensures |r| == |rs|
    ensures forall i :: 0 <= i < |rs| ==> r[i].name == rs[i].title && r[i].protein == rs[i].nutritionalInfo.proteins
  {
    Map(rs, ProteinPoint)
  }

  /** `recipes.map(r => ({ name: r.title, cookingTime: r.cookingTime }))` */
  function CookingSeries(rs: seq<Recipe>): (r: seq<CookingData>)
    ensures |r| == |rs|
    ensures forall i :: 0 <= i < |rs| ==> r[i].name == rs[i].title && r[i].cookingTime == rs[i].cookingTime
  {
    Map(rs, CookingPoint)
  }

  function Titles(rs: seq<Recipe>): seq<string> {
    Map(rs, (r: Recipe) => r.title)
  }

  /** The three charts label their points with the same names: the recipe titles in
      store order. */
  lemma {:induction false} SeriesShareNames(rs: seq<Recipe>)
    ensures Map(CalorieSeries(rs), (p: CalorieData) => p.name) == Titles(rs)
    ensures Map(ProteinSeries(rs), (p: ProteinData) => p.name) == Titles(rs)
    ensures Map(CookingSeries(rs), (p: CookingData) => p.name) == Titles(rs)
  {
  }

  /** An empty store gives three empty charts. */
  lemma EmptyStoreEmptySeries()
    ensures CalorieSeries([]) == [] && ProteinSeries([]) == [] && CookingSeries([]) == []
  {
  }

  /** Adding a recipe to the store adds its point at the end of each chart and leaves the
      earlier points as they were. */
  lemma {:induction false} SeriesAfterAdd(rs: seq<Recipe>, recipe: Recipe)
    ensures CalorieSeries(rs + [recipe]) == CalorieSeries(rs) + [CaloriePoint(recipe)]
    ensures ProteinSeries(rs + [recipe]) == ProteinSeries(rs) + [ProteinPoint(recipe)]
    ensures CookingSeries(rs + [recipe]) == CookingSeries(rs) + [CookingPoint(recipe)]
  {
  }

  /** The chart points of the recipes on a list of recipes whose order is kept (a
      deletion, a filter) are themselves kept in order. */
  lemma {:induction false} SeriesOfSubsequence(a: seq<Recipe>, b: seq<Recipe>)
    requires IsSubsequence(a, b)
    ensures IsSubsequence(CalorieSeries(a), CalorieSeries(b))
    decreases |b|
  {
    if a != [] {
      assert CalorieSeries(b) == [CaloriePoint(b[0])] + CalorieSeries(b[1..]);
      assert CalorieSeries(a) == [CaloriePoint(a[0])] + CalorieSeries(a[1..]);
      if a[0] == b[0] && IsSubsequence(a[1..], b[1..]) {
        SeriesOfSubsequence(a[1..], b[1..]);
      } else {
        SeriesOfSubsequence(a, b[1..]);
      }
    }
  }

  /** After an update, the points of the replaced recipes show the new values and every
      other point stays where it was. */
  lemma {:induction false} SeriesAfterUpdate(rs: seq<Recipe>, updated: Recipe)
    ensures |CalorieSeries(Replaced(rs, updated))| == |CalorieSeries(rs)|
    ensures forall i :: 0 <= i < |rs| ==>
      CalorieSeries(Replaced(rs, updated))[i] ==
        (if rs[i].id == updated.id then CaloriePoint(updated) else CalorieSeries(rs)[i])
  {
  }

  /** After a deletion, the remaining points keep their order. */
  lemma {:induction false} SeriesAfterDelete(rs: seq<Recipe>, id: string)
    ensures IsSubsequence(CalorieSeries(Removed(rs, id)), CalorieSeries(rs))
  {
    DeleteRemovesId(rs, id);
    SeriesOfSubsequence(Removed(rs, id), rs);
  }
}
