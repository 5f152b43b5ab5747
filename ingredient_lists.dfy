/** Folds over a list of ingredients shared by recipes and meals: the total cost,
    the per-nutrient roll-up, removal of the first ingredient with an id, and
    scaling every quantity. */
module IngredientLists {
  import opened Outcomes
  import opened Ingredients

  ghost predicate AllWellFormed(xs: seq<IngredientValue>) {
    forall i :: 0 <= i < |xs| ==> xs[i].WellFormed()
  }

  ghost predicate HasId(xs: seq<IngredientValue>, id: string) {
    exists i :: 0 <= i < |xs| && xs[i].id == id
  }

  // ---------------------------------------------------------------------------
  // Cost
  // ---------------------------------------------------------------------------

  /** Sum of quantity × unit price, accumulated front to back. */
  function TotalCost(xs: seq<IngredientValue>): real {
    if xs == [] then 0.0 else TotalCost(xs[..|xs| - 1]) + xs[|xs| - 1].Cost()
  }

  /** With no negative quantity or price the total cost is never negative. */
  lemma {:induction false} TotalCostNonNegative(xs: seq<IngredientValue>)
    requires AllWellFormed(xs)
    ensures TotalCost(xs) >= 0.0
    decreases |xs|
  {
    if xs != [] {
      TotalCostNonNegative(xs[..|xs| - 1]);
      assert xs[|xs| - 1].WellFormed();
    }
  }

  lemma {:induction false} TotalCostConcat(a: seq<IngredientValue>, b: seq<IngredientValue>)
    ensures TotalCost(a + b) == TotalCost(a) + TotalCost(b)
    decreases |b|
  {
    if b == [] {
      assert a + b == a;
    } else {
      assert (a + b)[..|a + b| - 1] == a + b[..|b| - 1];
      TotalCostConcat(a, b[..|b| - 1]);
    }
  }

  /** Taking out the ingredient at `i` lowers the total cost by exactly its cost. */
  lemma TotalCostWithout(xs: seq<IngredientValue>, i: nat)
    requires i < |xs|
    ensures TotalCost(xs[..i] + xs[i + 1..]) == TotalCost(xs) - xs[i].Cost()
  {
    TotalCostSplit(xs[..i], xs[i], xs[i + 1..]);
    Rejoin(xs, i);
  }

  lemma Rejoin(xs: seq<IngredientValue>, i: nat)
    requires i < |xs|
    ensures xs[..i] + [xs[i]] + xs[i + 1..] == xs
  {
  }

  lemma TotalCostSplit(a: seq<IngredientValue>, x: IngredientValue, b: seq<IngredientValue>)
    ensures TotalCost(a + [x] + b) == TotalCost(a + b) + x.Cost()
  {
    TotalCostSnoc(a, x);
    TotalCostConcat(a + [x], b);
    TotalCostConcat(a, b);
  }

  lemma TotalCostSnoc(xs: seq<IngredientValue>, x: IngredientValue)
    ensures TotalCost(xs + [x]) == TotalCost(xs) + x.Cost()
  {
    assert (xs + [x])[..|xs|] == xs;
  }

  // ---------------------------------------------------------------------------
  // Scaling
  // ---------------------------------------------------------------------------

  /** Every ingredient scaled by the same factor, in the same sequence. */
  function ScaleAll(xs: seq<IngredientValue>, factor: real): seq<IngredientValue> {
    seq(|xs|, i requires 0 <= i < |xs| => xs[i].Scaled(factor))
  }

  /** Scaling every ingredient multiplies the total cost by the factor. */
  lemma {:induction false} ScaleAllCost(xs: seq<IngredientValue>, factor: real)
    ensures TotalCost(ScaleAll(xs, factor)) == factor * TotalCost(xs)
    decreases |xs|
  {
    if xs != [] {
      var n := |xs| - 1;
      ScaleAllLast(xs, factor);
      ScaleAllCost(xs[..n], factor);
      ScaledCost(xs[n], factor);
      Distribute(factor, TotalCost(xs[..n]), xs[n].Cost());
    }
  }

  lemma ScaleAllLast(xs: seq<IngredientValue>, factor: real)
    requires xs != []
    ensures ScaleAll(xs, factor)[..|xs| - 1] == ScaleAll(xs[..|xs| - 1], factor)
    ensures ScaleAll(xs, factor)[|xs| - 1] == xs[|xs| - 1].Scaled(factor)
  {
  }

  lemma Distribute(f: real, c: real, d: real)
    ensures f * c + f * d == f * (c + d)
  {
  }

  /** A positive factor keeps every ingredient well formed. */
  lemma ScaleAllWellFormed(xs: seq<IngredientValue>, factor: real)
    requires AllWellFormed(xs) && factor > 0.0
    ensures AllWellFormed(ScaleAll(xs, factor))
  {
    forall i | 0 <= i < |xs| ensures ScaleAll(xs, factor)[i].WellFormed() {
      ScaledCost(xs[i], factor);
    }
  }

  /** Scaling by `a` then by `b` is scaling by `a * b`. */
  lemma ScaleAllTwice(xs: seq<IngredientValue>, a: real, b: real)
    ensures ScaleAll(ScaleAll(xs, a), b) == ScaleAll(xs, a * b)
  {
    forall i | 0 <= i < |xs| ensures ScaleAll(ScaleAll(xs, a), b)[i] == ScaleAll(xs, a * b)[i] {
      ScaledTwice(xs[i], a, b);
    }
  }

  // ---------------------------------------------------------------------------
  // Removal by id
  // ---------------------------------------------------------------------------

  /** The first ingredient with id `id`, as `std::find_if` finds it. */
  function FirstWithId(xs: seq<IngredientValue>, id: string): (r: Option<nat>)
    ensures r.None? <==> !HasId(xs, id)
    ensures r.Some? ==> r.value < |xs| && xs[r.value].id == id
    ensures r.Some? ==> forall j :: 0 <= j < r.value ==> xs[j].id != id
  {
    if xs == [] then None
    else if xs[0].id == id then Some(0)
    else match FirstWithId(xs[1..], id)
      case None =>
        assert forall j :: 1 <= j < |xs| ==> xs[j] == xs[1..][j - 1];
        None
      case Some(i) => Some(i + 1)
  }

  /** `std::find_if` by id, as the loop it runs. */
  method FindById(xs: seq<IngredientValue>, id: string) returns (r: Option<nat>)
    ensures r == FirstWithId(xs, id)
  {
    var i := 0;
    while i < |xs|
      invariant 0 <= i <= |xs|
      invariant forall j :: 0 <= j < i ==> xs[j].id != id
    {
      if xs[i].id == id {
        return Some(i);
      }
      i := i + 1;
    }
    return None;
  }

  /** The list after erasing the first ingredient with id `id`, if there is one. */
  function RemoveFirstWithId(xs: seq<IngredientValue>, id: string): (r: seq<IngredientValue>)
    ensures !HasId(xs, id) ==> r == xs
    ensures HasId(xs, id) ==> |r| == |xs| - 1
  {
    match FirstWithId(xs, id)
    case None => xs
    case Some(i) => xs[..i] + xs[i + 1..]
  }

  /** An absent id changes nothing; otherwise exactly one ingredient, the first with
      that id, is taken out, the others keep their sequence, and any later ingredient
      with the same id stays. */
  lemma RemoveFirstWithIdSpec(xs: seq<IngredientValue>, id: string)
    ensures !HasId(xs, id) ==> RemoveFirstWithId(xs, id) == xs
    ensures HasId(xs, id) ==>
      var i := FirstWithId(xs, id).value;
      var r := RemoveFirstWithId(xs, id);
      |r| == |xs| - 1 &&
      multiset(r) + multiset{xs[i]} == multiset(xs) &&
      (forall j :: 0 <= j < i ==> r[j] == xs[j] && r[j].id != id) &&
      (forall j :: i < j < |xs| ==> r[j - 1] == xs[j])
  {
    var found := FirstWithId(xs, id);
    if found.Some? {
      SpliceOut(xs, found.value, RemoveFirstWithId(xs, id));
    }
  }

  /** Removal keeps every remaining ingredient well formed. */
  lemma RemoveFirstWithIdWellFormed(xs: seq<IngredientValue>, id: string)
    requires AllWellFormed(xs)
    ensures AllWellFormed(RemoveFirstWithId(xs, id))
  {
    var found := FirstWithId(xs, id);
    if found.Some? {
      SpliceOut(xs, found.value, RemoveFirstWithId(xs, id));
    }
  }

  /** `r` is `xs` with the element at `i` taken out: where each remaining element
      comes from. */
  lemma SpliceOut(xs: seq<IngredientValue>, i: nat, r: seq<IngredientValue>)
    requires i < |xs| && r == xs[..i] + xs[i + 1..]
    ensures |r| == |xs| - 1
    ensures forall j :: 0 <= j < i ==> r[j] == xs[j]
    ensures forall j :: i < j < |xs| ==> r[j - 1] == xs[j]
    ensures multiset(r) + multiset{xs[i]} == multiset(xs)
    ensures AllWellFormed(xs) ==> AllWellFormed(r)
  {
    assert xs == xs[..i] + [xs[i]] + xs[i + 1..];
  }

  // ---------------------------------------------------------------------------
  // Nutrient roll-up
  // ---------------------------------------------------------------------------

  /** A nutrient's value, or 0 where the map has no entry (what `operator[]` reads). */
  function Lookup(m: map<string, real>, k: string): real {
    if k in m then m[k] else 0.0
  }

  /** The reference definition: one nutrient summed over all ingredients. */
  function NutrientSum(xs: seq<IngredientValue>, k: string): real {
    if xs == [] then 0.0 else NutrientSum(xs[..|xs| - 1], k) + Lookup(xs[|xs| - 1].nutritionalInfo, k)
  }

  /** `base` with every entry of `m` added to it, key by key. */
  function AddNutrients(base: map<string, real>, m: map<string, real>): (r: map<string, real>)
    ensures r.Keys == base.Keys + m.Keys
    ensures forall k :: Lookup(r, k) == Lookup(base, k) + Lookup(m, k)
  {
    map k | k in base.Keys + m.Keys :: Lookup(base, k) + Lookup(m, k)
  }

  /** Recipe::recalculateNutritionalInfo's result: the maps of the ingredients added
      into an empty map one after the other. Every nutrient's entry, or 0 where it
      has none, is that nutrient summed over the ingredients. */
  function NutrientTotals(xs: seq<IngredientValue>): (m: map<string, real>)
    ensures forall k :: Lookup(m, k) == NutrientSum(xs, k)
  {
    if xs == [] then map[]
    else AddNutrients(NutrientTotals(xs[..|xs| - 1]), xs[|xs| - 1].nutritionalInfo)
  }

  /** A map with the keys of both and the sums of their values is their sum. */
  lemma AddNutrientsPointwise(r: map<string, real>, base: map<string, real>, m: map<string, real>)
    requires r.Keys == base.Keys + m.Keys
    requires forall k :: k in r ==> r[k] == Lookup(base, k) + Lookup(m, k)
    ensures r == AddNutrients(base, m)
  {
  }

  /** The roll-up of a longer prefix adds one more ingredient's nutrients. */
  lemma NutrientTotalsPrefix(xs: seq<IngredientValue>, i: nat)
    requires i < |xs|
    ensures NutrientTotals(xs[..i + 1]) == AddNutrients(NutrientTotals(xs[..i]), xs[i].nutritionalInfo)
  {
    assert xs[..i + 1][..i] == xs[..i];
  }

  /** The roll-up has an entry for exactly the nutrients some ingredient lists, and
      each entry is the sum of that nutrient over all ingredients: values for the
      same key add up, none overwrites another. */
  lemma {:induction false} NutrientTotalsSum(xs: seq<IngredientValue>, k: string)
    ensures k in NutrientTotals(xs) <==> exists i :: 0 <= i < |xs| && k in xs[i].nutritionalInfo
    ensures Lookup(NutrientTotals(xs), k) == NutrientSum(xs, k)
    decreases |xs|
  {
    if xs != [] {
      var n := |xs| - 1;
      var p := xs[..n];
      NutrientTotalsSum(p, k);
      assert forall i :: 0 <= i < n ==> p[i] == xs[i];
      if k in NutrientTotals(xs) && k !in xs[n].nutritionalInfo {
        var i :| 0 <= i < n && k in p[i].nutritionalInfo;
        assert k in xs[i].nutritionalInfo;
      }
    }
  }

  /** With no negative nutrient values, no total is negative. */
  lemma {:induction false} NutrientSumNonNegative(xs: seq<IngredientValue>, k: string)
    requires AllWellFormed(xs)
    ensures NutrientSum(xs, k) >= 0.0
    decreases |xs|
  {
    if xs != [] {
      NutrientSumNonNegative(xs[..|xs| - 1], k);
      assert xs[|xs| - 1].WellFormed();
    }
  }
}
