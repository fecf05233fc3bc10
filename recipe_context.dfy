/** The recipe store shared by every page: one list of recipes, replaced wholesale by
    `addRecipe`, `updateRecipe` and `deleteRecipe`. */
module RecipeContext {
  import opened Seqs
  import opened Recipes

  /** The list `updateRecipe(updated)` computes: every entry whose id matches becomes
      `updated`, every other entry stays, in the same place. */
  function Replaced(rs: seq<Recipe>, updated: Recipe): (r: seq<Recipe>)
    ensures |r| == |rs|
    ensures forall i :: 0 <= i < |rs| ==> r[i] == if rs[i].id == updated.id then updated else rs[i]
  {
    Map(rs, (x: Recipe) => if x.id == updated.id then updated else x)
  }

  /** The list `deleteRecipe(id)` computes: the entries with another id, in order. */
  function Removed(rs: seq<Recipe>, id: string): (r: seq<Recipe>)
    ensures forall i :: 0 <= i < |r| ==> r[i].id != id
    ensures forall x :: x in r <==> x in rs && x.id != id
  {
    Filter(rs, (x: Recipe) => x.id != id)
  }

  /** The entries that carry `id`. */
  function EntriesCarrying(rs: seq<Recipe>, id: string): seq<Recipe> {
    Filter(rs, (x: Recipe) => x.id == id)
  }

  /** The store's list and its operations. */
  class RecipeStore {
    var recipes: seq<Recipe>

    /** The provider starts from a fixed list of sample recipes; any list will do here. */
    constructor (initial: seq<Recipe>)
      ensures recipes == initial
    {
      recipes := initial;
    }

    /** `[...prev, recipe]`: no check that the id is new. */
    method AddRecipe(recipe: Recipe)
      modifies this
      ensures recipes == old(recipes) + [recipe]
      ensures |recipes| == |old(recipes)| + 1
      ensures recipes[..|old(recipes)|] == old(recipes) && recipes[|old(recipes)|] == recipe
    {
      recipes := recipes + [recipe];
    }

    method UpdateRecipe(updated: Recipe)
      modifies this
      ensures recipes == Replaced(old(recipes), updated)
    {
      recipes := Replaced(recipes, updated);
    }

    method DeleteRecipe(id: string)
      modifies this
      ensures recipes == Removed(old(recipes), id)
    {
      recipes := Removed(recipes, id);
    }
  }

  // ----- addRecipe -----

  /** Adding a recipe whose id is already taken still appends it, so ids stop being unique. */
  lemma {:induction false} AddDuplicateBreaksUniqueness(rs: seq<Recipe>, recipe: Recipe)
    requires HasId(rs, recipe.id)
    ensures !UniqueIds(rs + [recipe])
  {
    var i :| 0 <= i < |rs| && rs[i].id == recipe.id;
    var s := rs + [recipe];
    assert s[i].id == s[|rs|].id;
  }

  /** Adding a recipe with a fresh id keeps ids unique. */
  lemma {:induction false} AddFreshKeepsUniqueness(rs: seq<Recipe>, recipe: Recipe)
    requires !HasId(rs, recipe.id)
    ensures UniqueIds(rs) ==> UniqueIds(rs + [recipe])
  {
    var s := rs + [recipe];
    forall i, j | 0 <= i < j < |s| && UniqueIds(rs) ensures s[i].id != s[j].id {
      if j == |rs| {
        assert s[i] == rs[i];
      } else {
        assert s[i] == rs[i] && s[j] == rs[j];
      }
    }
  }

  // ----- updateRecipe -----

  /** Updating with an id that no entry carries leaves the list as it was. */
  lemma {:induction false} UpdateAbsentIsNoop(rs: seq<Recipe>, updated: Recipe)
    requires !HasId(rs, updated.id)
    ensures Replaced(rs, updated) == rs
  {
    var r := Replaced(rs, updated);
    forall i | 0 <= i < |rs| ensures r[i] == rs[i] {
      assert rs[i].id != updated.id;
    }
  }

  /** Applying the same update twice is applying it once. */
  lemma {:induction false} UpdateIdempotent(rs: seq<Recipe>, updated: Recipe)
    ensures Replaced(Replaced(rs, updated), updated) == Replaced(rs, updated)
  {
    var once := Replaced(rs, updated);
    var twice := Replaced(once, updated);
    forall i | 0 <= i < |rs| ensures twice[i] == once[i] {
    }
  }

  /** Ids are untouched by an update, entry by entry, so uniqueness is kept. */
  lemma {:induction false} UpdateKeepsIds(rs: seq<Recipe>, updated: Recipe)
    ensures forall i :: 0 <= i < |rs| ==> Replaced(rs, updated)[i].id == rs[i].id
    ensures UniqueIds(rs) ==> UniqueIds(Replaced(rs, updated))
  {
    var r := Replaced(rs, updated);
    assert forall i :: 0 <= i < |rs| ==> r[i].id == rs[i].id;
  }

  /** With unique ids, an update replaces exactly the one entry that carries the id. */
  lemma {:induction false} UpdateReplacesOneEntry(rs: seq<Recipe>, k: nat, updated: Recipe)
    requires UniqueIds(rs) && k < |rs| && rs[k].id == updated.id
    ensures Replaced(rs, updated) == rs[k := updated]
  {
    var r := Replaced(rs, updated);
    forall i | 0 <= i < |rs| ensures r[i] == rs[k := updated][i] {
      if i != k {
        assert rs[i].id != rs[k].id;
      }
    }
  }

  // ----- deleteRecipe -----

  /** No entry keeps the deleted id, and the survivors keep their relative order. */
  lemma {:induction false} DeleteRemovesId(rs: seq<Recipe>, id: string)
    ensures !HasId(Removed(rs, id), id)
    ensures IsSubsequence(Removed(rs, id), rs)
  {
    FilterIsSubsequence(rs, (x: Recipe) => x.id != id);
  }

  /** Deleting an id that no entry carries leaves the list as it was. */
  lemma {:induction false} DeleteAbsentIsNoop(rs: seq<Recipe>, id: string)
    requires !HasId(rs, id)
    ensures Removed(rs, id) == rs
  {
    forall x | x in rs ensures x.id != id {
      var i :| 0 <= i < |rs| && rs[i] == x;
    }
    FilterAll(rs, (x: Recipe) => x.id != id);
  }

  /** Deleting twice is deleting once. */
  lemma {:induction false} DeleteIdempotent(rs: seq<Recipe>, id: string)
    ensures Removed(Removed(rs, id), id) == Removed(rs, id)
  {
    FilterIdempotent(rs, (x: Recipe) => x.id != id);
  }

  /** The list shrinks by exactly the number of entries that carried the id. */
  lemma {:induction false} DeleteLength(rs: seq<Recipe>, id: string)
    ensures |Removed(rs, id)| == |rs| - |EntriesCarrying(rs, id)|
  {
    FilterComplementLength(rs, (x: Recipe) => x.id != id, (x: Recipe) => x.id == id);
  }

  /** With unique ids, deleting a present id removes exactly that one entry. */
  lemma {:induction false} DeleteRemovesOneEntry(rs: seq<Recipe>, k: nat)
    requires UniqueIds(rs) && k < |rs|
    ensures Removed(rs, rs[k].id) == rs[..k] + rs[k + 1..]
  {
    var id := rs[k].id;
    var p := (x: Recipe) => x.id != id;
    var before, after := rs[..k], rs[k + 1..];
    assert rs == before + ([rs[k]] + after);
    OthersCarryOtherIds(rs, k);
    FilterAll(before, p);
    FilterAll(after, p);
    assert Filter([rs[k]], p) == [];
    FilterAppend([rs[k]], after, p);
    FilterAppend(before, [rs[k]] + after, p);
  }

  /** With unique ids, no entry other than entry k carries its id. */
  lemma {:induction false} OthersCarryOtherIds(rs: seq<Recipe>, k: nat)
    requires UniqueIds(rs) && k < |rs|
    ensures forall x :: x in rs[..k] ==> x.id != rs[k].id
    ensures forall x :: x in rs[k + 1..] ==> x.id != rs[k].id
  {
    forall x | x in rs[..k] ensures x.id != rs[k].id {
      var i :| 0 <= i < k && rs[..k][i] == x;
      assert rs[i] == x;
    }
    forall x | x in rs[k + 1..] ensures x.id != rs[k].id {
      var i :| 0 <= i < |rs[k + 1..]| && rs[k + 1..][i] == x;
      assert rs[k + 1 + i] == x;
    }
  }

  /** Deleting keeps ids unique. */
  lemma {:induction false} DeleteKeepsUniqueness(rs: seq<Recipe>, id: string)
    requires UniqueIds(rs)
    ensures UniqueIds(Removed(rs, id))
    decreases |rs|
  {
    if rs != [] {
      var p := (x: Recipe) => x.id != id;
      assert rs == [rs[0]] + rs[1..];
      FilterAppend([rs[0]], rs[1..], p);
      DeleteKeepsUniqueness(rs[1..], id);
      var rest := Removed(rs[1..], id);
      forall x | x in rest ensures x.id != rs[0].id {
        var i :| 0 <= i < |rs[1..]| && rs[1..][i] == x;
        assert rs[1 + i] == x;
      }
    }
  }
}
