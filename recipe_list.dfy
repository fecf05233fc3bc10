/** The list page: category facets, the search-and-category filter, pages of six
    recipes, the calorie statistics handed to each card, and the page's own state
    (search text, selected categories, current page). */
module RecipeList {
  import opened Seqs
  import opened Text
  import opened Recipes
  import opened RecipeCard

  const RecipesPerPage: nat := 6

  // ----- categories -----

  /** `r.category.trim().toLowerCase()` */
  function CategoryKey(r: Recipe): string {
    Lower(Trim(r.category))
  }

  /** `allCategories`: every normalised category of the collection once, in order of
      first appearance. */
  function AllCategories(rs: seq<Recipe>): (r: seq<string>)
    ensures NoDuplicates(r)
    ensures forall c :: c in r <==> exists i :: 0 <= i < |rs| && CategoryKey(rs[i]) == c
  {
    CategoryKeysOf(rs);
    Distinct(Map(rs, CategoryKey))
  }

  /** The buttons appear in the order in which their categories first occur. */
  lemma AllCategoriesOrder(rs: seq<Recipe>)
    ensures forall i, j :: 0 <= i < j < |AllCategories(rs)| ==>
      IndexOf(Map(rs, CategoryKey), AllCategories(rs)[i]) < IndexOf(Map(rs, CategoryKey), AllCategories(rs)[j])
  {
    DistinctFirstOccurrenceOrder(Map(rs, CategoryKey));
  }

  /** The normalised keys of the collection are exactly the keys of its recipes. */
  lemma {:induction false} CategoryKeysOf(rs: seq<Recipe>)
    ensures forall c :: c in Map(rs, CategoryKey) <==> exists i :: 0 <= i < |rs| && CategoryKey(rs[i]) == c
  {
    var keys := Map(rs, CategoryKey);
    forall c ensures c in keys <==> exists i :: 0 <= i < |rs| && CategoryKey(rs[i]) == c {
      if c in keys {
        var i :| 0 <= i < |keys| && keys[i] == c;
        assert CategoryKey(rs[i]) == c;
      } else {
        forall i | 0 <= i < |rs| ensures CategoryKey(rs[i]) != c {
          assert keys[i] == CategoryKey(rs[i]);
        }
      }
    }
  }

  // ----- filter -----

  /** Title or some ingredient name contains the trimmed, lower-cased search text.
      The title is trimmed before lower-casing; ingredient names are only lower-cased. */
  predicate MatchesSearch(r: Recipe, searchTerm: string) {
    var search := Lower(Trim(searchTerm));
    Includes(Lower(Trim(r.title)), search)
    || exists ing :: ing in r.ingredients && Includes(Lower(ing.name), search)
  }

  /** No category selected, or the recipe's normalised category is selected. */
  predicate MatchesCategory(r: Recipe, selected: seq<string>)
    ensures selected == [] ==> MatchesCategory(r, selected)
  {
    |selected| == 0 || CategoryKey(r) in selected
  }

  predicate Matches(r: Recipe, searchTerm: string, selected: seq<string>) {
    MatchesCategory(r, selected) && MatchesSearch(r, searchTerm)
  }

  /** `filteredRecipes`: an order-preserving subsequence of the collection that holds
      exactly the recipes passing both the category test and the search test. */
  function Filtered(rs: seq<Recipe>, searchTerm: string, selected: seq<string>): (r: seq<Recipe>)
    ensures |r| <= |rs|
    ensures forall x :: x in r <==> x in rs && MatchesCategory(x, selected) && MatchesSearch(x, searchTerm)
    ensures forall x {:trigger multiset(r)[x]} :: multiset(r)[x] == if Matches(x, searchTerm, selected) then multiset(rs)[x] else 0
  {
    Filter(rs, (x: Recipe) => Matches(x, searchTerm, selected))
  }

  lemma {:induction false} FilteredIsSubsequence(rs: seq<Recipe>, searchTerm: string, selected: seq<string>)
    ensures IsSubsequence(Filtered(rs, searchTerm, selected), rs)
  {
    FilterIsSubsequence(rs, (x: Recipe) => Matches(x, searchTerm, selected));
  }

  /** Every recipe passes a blank or whitespace-only search. */
  lemma {:induction false} BlankSearchMatches(r: Recipe, searchTerm: string)
    requires IsBlank(searchTerm)
    ensures MatchesSearch(r, searchTerm)
  {
    TrimEmptyIffBlank(searchTerm);
    assert Lower(Trim(searchTerm)) == [];
    IncludesEmpty(Lower(Trim(r.title)));
  }

  /** A blank search with no category selected shows the whole collection. */
  lemma {:induction false} BlankSearchKeepsAll(rs: seq<Recipe>, searchTerm: string)
    requires IsBlank(searchTerm)
    ensures Filtered(rs, searchTerm, []) == rs
  {
    forall x | x in rs ensures Matches(x, searchTerm, []) {
      BlankSearchMatches(x, searchTerm);
    }
    FilterAll(rs, (x: Recipe) => Matches(x, searchTerm, []));
  }

  /** Selecting categories only narrows the result of the search alone. */
  lemma {:induction false} SelectionNarrows(rs: seq<Recipe>, searchTerm: string, selected: seq<string>)
    ensures forall x :: x in Filtered(rs, searchTerm, selected) ==> x in Filtered(rs, searchTerm, [])
  {
  }

  /** The search text "pan" normalises to itself. */
  lemma PanKey(search: string)
    requires search == "pan"
    ensures Lower(Trim(search)) == "pan"
  {
    assert search[0] == 'p' && search[|search| - 1] == 'n';
    TrimUnchanged(search);
    LowerUnchanged(search);
  }

  /** The title "Pancakes" is already trimmed and lower-cases to a text starting "pan". */
  lemma PancakesKey(t: string)
    requires t == "Pancakes"
    ensures Trim(t) == t
    ensures |Lower(t)| == 8 && Lower(t)[0] == 'p' && Lower(t)[1] == 'a' && Lower(t)[2] == 'n'
  {
    assert t[0] == 'P' && t[|t| - 1] == 's';
    TrimUnchanged(t);
  }

  /** The title "Soup" is already trimmed and lower-cases to a text starting "so". */
  lemma SoupKey(t: string)
    requires t == "Soup"
    ensures Trim(t) == t
    ensures |Lower(t)| == 4 && Lower(t)[0] == 's' && Lower(t)[1] == 'o'
  {
    assert t[0] == 'S' && t[|t| - 1] == 'p';
    TrimUnchanged(t);
  }

  /** A recipe whose normalised title starts with the normalised search text passes the
      search. */
  lemma TitlePrefixMatches(r: Recipe, search: string)
    requires StartsWith(Lower(Trim(r.title)), Lower(Trim(search)))
    ensures Matches(r, search, [])
  {
    IncludesPrefix(Lower(Trim(r.title)), Lower(Trim(search)));
  }

  /** A recipe without ingredients fails the search when its normalised title does not
      include the normalised search text. */
  lemma NoMatchWithoutIngredients(r: Recipe, search: string)
    requires r.ingredients == []
    requires !Includes(Lower(Trim(r.title)), Lower(Trim(search)))
    ensures !Matches(r, search, [])
  {
  }

  lemma PancakesStartsPan(h: string, n: string)
    requires |h| == 8 && h[0] == 'p' && h[1] == 'a' && h[2] == 'n' && n == "pan"
    ensures StartsWith(h, n)
  {
    assert h[..3] == n;
  }

  lemma SoupMissesP(h: string, n: string)
    requires |h| == 4 && h[0] == 's' && h[1] == 'o' && n == "pan"
    ensures !Includes(h, n)
  {
    MissingFirstChar(h, n);
  }

  lemma PancakesMatchPan(pancakes: Recipe, search: string)
    requires search == "pan" && pancakes.title == "Pancakes"
    ensures Matches(pancakes, search, [])
  {
    PanKey(search);
    PancakesKey(pancakes.title);
    PancakesStartsPan(Lower(Trim(pancakes.title)), Lower(Trim(search)));
    TitlePrefixMatches(pancakes, search);
  }

  lemma SoupMissesPan(soup: Recipe, search: string)
    requires search == "pan" && soup.title == "Soup" && soup.ingredients == []
    ensures !Matches(soup, search, [])
  {
    PanKey(search);
    SoupKey(soup.title);
    SoupMissesP(Lower(Trim(soup.title)), Lower(Trim(search)));
    NoMatchWithoutIngredients(soup, search);
  }

  /** A search for "pan" keeps Pancakes and drops Soup. */
  lemma SearchExample(pancakes: Recipe, soup: Recipe, search: string)
    requires search == "pan"
    requires pancakes.title == "Pancakes" && pancakes.ingredients == []
    requires soup.title == "Soup" && soup.ingredients == []
    ensures Filtered([pancakes, soup], search, []) == [pancakes]
  {
    PancakesMatchPan(pancakes, search);
    SoupMissesPan(soup, search);
    KeepFirstOfTwo(pancakes, soup, (x: Recipe) => Matches(x, search, []));
  }

  lemma KeepFirstOfTwo(a: Recipe, b: Recipe, p: Recipe -> bool)
    requires p(a) && !p(b)
    ensures Filter([a, b], p) == [a]
  {
    assert [a, b][1..] == [b] && [b][1..] == [];
    assert Filter([b], p) == Filter([], p) == [];
  }

  // ----- pagination -----

  /** `Math.ceil(n / recipesPerPage)`: the fewest pages of six that hold n recipes. */
  function TotalPages(n: nat): (r: nat)
    ensures r * RecipesPerPage >= n
    ensures r > 0 ==> (r - 1) * RecipesPerPage < n
  {
    (n + RecipesPerPage - 1) / RecipesPerPage
  }

  /** `filteredRecipes.slice(indexOfFirst, indexOfLast)` for a page numbered from 1;
      `slice` stops at the end of the list. A page holds at most six recipes, the ones
      after the first six times (page - 1), and it is empty exactly when its number is
      past the page count. */
  function Page(filtered: seq<Recipe>, page: int): (r: seq<Recipe>)
    requires page >= 1
    ensures |r| <= RecipesPerPage
    ensures forall k :: 0 <= k < |r| ==> (page - 1) * RecipesPerPage + k < |filtered| && r[k] == filtered[(page - 1) * RecipesPerPage + k]
    ensures r != [] <==> page <= TotalPages(|filtered|)
    ensures page <= TotalPages(|filtered|) ==>
      |r| == if |filtered| - (page - 1) * RecipesPerPage < RecipesPerPage
             then |filtered| - (page - 1) * RecipesPerPage else RecipesPerPage
  {
    var indexOfLast := page * RecipesPerPage;
    var indexOfFirst := indexOfLast - RecipesPerPage;
    var n := |filtered|;
    filtered[if indexOfFirst < n then indexOfFirst else n .. if indexOfLast < n then indexOfLast else n]
  }

  /** Pages 1 to k laid end to end. */
  function Pages(filtered: seq<Recipe>, k: nat): seq<Recipe> {
    if k == 0 then [] else Pages(filtered, k - 1) + Page(filtered, k)
  }

  lemma {:induction false} PagesArePrefix(filtered: seq<Recipe>, k: nat)
    ensures Pages(filtered, k) == filtered[..if k * RecipesPerPage < |filtered| then k * RecipesPerPage else |filtered|]
  {
    if k > 0 {
      PagesArePrefix(filtered, k - 1);
    }
  }

  /** The page buttons 1..totalPages together show every filtered recipe once, in order. */
  lemma {:induction false} PagesCoverFiltered(filtered: seq<Recipe>)
    ensures Pages(filtered, TotalPages(|filtered|)) == filtered
  {
    PagesArePrefix(filtered, TotalPages(|filtered|));
  }

  /** Thirteen matching recipes make three pages, the last holding one recipe. */
  lemma ThirteenRecipesPaging(filtered: seq<Recipe>)
    requires |filtered| == 13
    ensures TotalPages(|filtered|) == 3
    ensures |Page(filtered, 1)| == 6 && |Page(filtered, 2)| == 6 && Page(filtered, 3) == [filtered[12]]
  {
  }

  // ----- calorie statistics -----

  function Calories(rs: seq<Recipe>): (cs: seq<int>)
    ensures |cs| == |rs| && forall i :: 0 <= i < |rs| ==> cs[i] == rs[i].nutritionalInfo.calories
  {
    Map(rs, (r: Recipe) => r.nutritionalInfo.calories)
  }

  /** `Math.max(...cs)`: an element no smaller than any other. */
  function MaxOf(cs: seq<int>): (m: int)
    requires |cs| > 0
    ensures forall i :: 0 <= i < |cs| ==> cs[i] <= m
    ensures exists i :: 0 <= i < |cs| && cs[i] == m
  {
    if |cs| == 1 then cs[0]
    else
      var rest := MaxOf(cs[1..]);
      assert forall i :: 1 <= i < |cs| ==> cs[i] == cs[1..][i - 1];
      if cs[0] >= rest then cs[0] else rest
  }

  /** `Math.min(...cs)`: an element no larger than any other. */
  function MinOf(cs: seq<int>): (m: int)
    requires |cs| > 0
    ensures forall i :: 0 <= i < |cs| ==> m <= cs[i]
    ensures exists i :: 0 <= i < |cs| && cs[i] == m
  {
    if |cs| == 1 then cs[0]
    else
      var rest := MinOf(cs[1..]);
      assert forall i :: 1 <= i < |cs| ==> cs[i] == cs[1..][i - 1];
      if cs[0] <= rest then cs[0] else rest
  }

  /** `cs.reduce((sum, val) => sum + val, 0)`, folded from the left: the total of n
      values lies between n times their minimum and n times their maximum. */
  function Sum(cs: seq<int>): (r: int)
    ensures cs != [] ==> |cs| * MinOf(cs) <= r <= |cs| * MaxOf(cs)
  {
    if cs == [] then 0
    else
      var init, last := cs[..|cs| - 1], cs[|cs| - 1];
      assert forall i :: 0 <= i < |init| ==> init[i] == cs[i];
      if init == [] then
        last
      else
        BoundsStep(|init|, MinOf(cs), MaxOf(cs), MinOf(init), MaxOf(init), Sum(init), last);
        Sum(init) + last
  }

  /** One more value between lo and hi keeps a total of n values, each between lo and
      hi, between n times lo and n times hi. */
  lemma BoundsStep(n: nat, lo: int, hi: int, lo': int, hi': int, sum: int, last: int)
    requires lo <= lo' && hi' <= hi && lo <= last <= hi
    requires n * lo' <= sum <= n * hi'
    ensures (n + 1) * lo <= sum + last <= (n + 1) * hi
  {
    assert n * lo' - n * lo == n * (lo' - lo);
    assert n * hi - n * hi' == n * (hi - hi');
  }

  /** The stats of the list page: `None` for an empty collection, where the page's
      floating-point arithmetic yields -Infinity, Infinity and NaN and no card is shown. */
  function CalorieStatsOf(rs: seq<Recipe>): (r: Option<CalorieStats>)
    ensures r.None? <==> rs == []
    ensures r.Some? ==>
      && (forall i :: 0 <= i < |rs| ==> r.value.min <= rs[i].nutritionalInfo.calories <= r.value.max)
      && (exists i :: 0 <= i < |rs| && rs[i].nutritionalInfo.calories == r.value.max)
      && (exists i :: 0 <= i < |rs| && rs[i].nutritionalInfo.calories == r.value.min)
      && r.value.min as real <= r.value.avg <= r.value.max as real
      && r.value.avg == Sum(Calories(rs)) as real / |rs| as real
  {
    if rs == [] then None
    else
      var cs := Calories(rs);
      var mx, mn := MaxOf(cs), MinOf(cs);
      var n := |cs|;
      var avg := Sum(cs) as real / n as real;
      AverageBetween(Sum(cs), n, mn, mx);
      Some(CalorieStats(mx, mn, avg))
  }

  lemma AverageBetween(sum: int, n: int, lo: int, hi: int)
    requires n > 0 && n * lo <= sum <= n * hi
    ensures lo as real <= sum as real / n as real <= hi as real
  {
    var avg := sum as real / n as real;
    assert avg * n as real == sum as real;
    assert (n * lo) as real == n as real * lo as real;
    assert (n * hi) as real == n as real * hi as real;
  }

  /** Calories 100, 200 and 300 give maximum 300, minimum 100 and average 200. */
  lemma StatsExample(rs: seq<Recipe>)
    requires Calories(rs) == [100, 200, 300]
    ensures CalorieStatsOf(rs) == Some(CalorieStats(300, 100, 200.0))
  {
    var cs := Calories(rs);
    assert CalorieStatsOf(rs) == Some(CalorieStats(MaxOf(cs), MinOf(cs), Sum(cs) as real / |cs| as real));
    ExtremesOfThree(cs);
    SumOfThree(cs);
    MeanOfThree(Sum(cs), |cs|);
  }

  lemma MeanOfThree(sum: int, n: int)
    requires sum == 600 && n == 3
    ensures sum as real / n as real == 200.0
  {
  }

  lemma ExtremesOfThree(cs: seq<int>)
    requires cs == [100, 200, 300]
    ensures MaxOf(cs) == 300 && MinOf(cs) == 100
  {
    assert cs[1..] == [200, 300] && cs[1..][1..] == [300];
  }

  lemma SumOfThree(cs: seq<int>)
    requires cs == [100, 200, 300]
    ensures Sum(cs) == 600
  {
    assert cs[..2] == [100, 200] && cs[..2][..1] == [100];
    assert Sum(cs[..2][..1]) == 100;
    assert Sum(cs[..2]) == 300;
  }

  // ----- highlights of the cards -----

  /** The highlight of recipe i's card whenever the card is shown. The stats come from
      the whole collection, not from the filtered page, so a card is red exactly when
      its recipe has the most calories of the collection, and green exactly when it has
      the fewest while some recipe has more. */
  function TierOf(rs: seq<Recipe>, i: nat): (r: Tier)
    requires i < |rs|
    ensures r == MaxTier <==>
      forall j :: 0 <= j < |rs| ==> rs[j].nutritionalInfo.calories <= rs[i].nutritionalInfo.calories
    ensures r == MinTier <==>
      && (forall j :: 0 <= j < |rs| ==> rs[i].nutritionalInfo.calories <= rs[j].nutritionalInfo.calories)
      && (exists j :: 0 <= j < |rs| && rs[i].nutritionalInfo.calories < rs[j].nutritionalInfo.calories)
  {
    CalColor(rs[i].nutritionalInfo.calories, CalorieStatsOf(rs).value)
  }

  /** Some recipe of a non-empty collection is classed as the maximum: its card is red
      whenever it is shown. */
  lemma {:induction false} SomeRecipeIsMax(rs: seq<Recipe>)
    requires rs != []
    ensures exists i :: 0 <= i < |rs| && TierOf(rs, i) == MaxTier
  {
    var i :| 0 <= i < |rs| && rs[i].nutritionalInfo.calories == CalorieStatsOf(rs).value.max;
    assert TierOf(rs, i) == MaxTier;
  }

  /** Some recipe of the collection is classed as the minimum (its card is green whenever
      it is shown) exactly when not all calorie values are equal: when they are, the
      maximum test wins for every recipe. */
  lemma {:induction false} MinTierIffSpread(rs: seq<Recipe>)
    requires rs != []
    ensures (exists i :: 0 <= i < |rs| && TierOf(rs, i) == MinTier)
      <==> CalorieStatsOf(rs).value.min < CalorieStatsOf(rs).value.max
  {
    var st := CalorieStatsOf(rs).value;
    if st.min < st.max {
      var i :| 0 <= i < |rs| && rs[i].nutritionalInfo.calories == st.min;
      assert TierOf(rs, i) == MinTier;
    }
  }

  /** A recipe classed as near the average (its card is yellow whenever it is shown)
      lies strictly between the extremes of the collection and within 20 of its mean. */
  lemma {:induction false} NearAverageIsInterior(rs: seq<Recipe>, i: nat)
    requires i < |rs| && TierOf(rs, i) == NearAverage
    ensures CalorieStatsOf(rs).value.min < rs[i].nutritionalInfo.calories < CalorieStatsOf(rs).value.max
    ensures Abs(rs[i].nutritionalInfo.calories as real - CalorieStatsOf(rs).value.avg) <= 20.0
  {
  }

  // ----- page state -----

  /** The selection after clicking a category button: removed when present, appended
      when absent. */
  function Toggled(selected: seq<string>, category: string): (r: seq<string>)
    ensures category in r <==> category !in selected
    ensures forall c :: c != category ==> (c in r <==> c in selected)
  {
    if category in selected then Filter(selected, (c: string) => c != category)
    else selected + [category]
  }

  lemma {:induction false} ToggleKeepsNoDuplicates(selected: seq<string>, category: string)
    requires NoDuplicates(selected)
    ensures NoDuplicates(Toggled(selected, category))
  {
    if category in selected {
      FilterKeepsNoDuplicates(selected, (c: string) => c != category);
    }
  }

  /** Clicking the same category twice restores which categories are selected, and
      restores the selection exactly when the category was not selected before. */
  lemma {:induction false} ToggleTwice(selected: seq<string>, category: string)
    ensures forall c :: c in Toggled(Toggled(selected, category), category) <==> c in selected
    ensures category !in selected ==> Toggled(Toggled(selected, category), category) == selected
  {
    if category !in selected {
      var p := (c: string) => c != category;
      FilterAppend(selected, [category], p);
      FilterAll(selected, p);
    }
  }

  /** The list page's state and the handlers that change it. */
  class RecipeListView {
    var searchTerm: string
    var selectedCategories: seq<string>
    var currentPage: int

    ghost predicate Valid()
      reads this
    {
      currentPage >= 1 && NoDuplicates(selectedCategories)
    }

    constructor ()
      ensures Valid()
      ensures searchTerm == [] && selectedCategories == [] && currentPage == 1
    {
      searchTerm := [];
      selectedCategories := [];
      currentPage := 1;
    }

    /** Typing in the search box. The reset effect runs only when the text really
        changed: setting a state cell to an equal string re-renders nothing. */
    method SetSearchTerm(term: string)
      requires Valid()
      modifies this
      ensures Valid()
      ensures searchTerm == term && selectedCategories == old(selectedCategories)
      ensures currentPage == if term == old(searchTerm) then old(currentPage) else 1
    {
      if term != searchTerm {
        searchTerm := term;
        currentPage := 1;
      }
    }

    /** A category button: toggles the category, then the reset effect sends the view
        back to page 1 (the selection is always a new array). */
    method ToggleCategory(category: string)
      requires Valid()
      modifies this
      ensures Valid()
      ensures selectedCategories == Toggled(old(selectedCategories), category)
      ensures searchTerm == old(searchTerm) && currentPage == 1
    {
      ToggleKeepsNoDuplicates(selectedCategories, category);
      var isSelected := category in selectedCategories;
      if isSelected {
        selectedCategories := Filter(selectedCategories, (c: string) => c != category);
      } else {
        selectedCategories := selectedCategories + [category];
      }
      currentPage := 1;
    }

    /** The "All" button clears the selection and the reset effect returns to page 1. */
    method ShowAll()
      requires Valid()
      modifies this
      ensures Valid()
      ensures selectedCategories == [] && searchTerm == old(searchTerm) && currentPage == 1
    {
      selectedCategories := [];
      currentPage := 1;
    }

    /** A page button; the buttons are numbered from 1. */
    method GoToPage(page: int)
      requires Valid() && page >= 1
      modifies this
      ensures Valid()
      ensures currentPage == page
      ensures searchTerm == old(searchTerm) && selectedCategories == old(selectedCategories)
    {
      currentPage := page;
    }

    /** `currentRecipes`: the cards shown for the store's current list. */
    function CurrentRecipes(recipes: seq<Recipe>): (r: seq<Recipe>)
      reads this
      requires Valid()
      ensures |r| <= RecipesPerPage
      ensures forall x :: x in r ==> x in recipes && Matches(x, searchTerm, selectedCategories)
      ensures forall k :: 0 <= k < |r| ==>
        && (currentPage - 1) * RecipesPerPage + k < |Filtered(recipes, searchTerm, selectedCategories)|
        && r[k] == Filtered(recipes, searchTerm, selectedCategories)[(currentPage - 1) * RecipesPerPage + k]
      ensures r != [] <==> currentPage <= TotalPages(|Filtered(recipes, searchTerm, selectedCategories)|)
    {
      Page(Filtered(recipes, searchTerm, selectedCategories), currentPage)
    }
  }
}
