/** The meal aggregate: a planned meal with its own ingredient list (copied from a
    recipe or added one by one), a serving count the quantities are scaled to, and
    an estimated cost kept equal to the sum of the ingredient costs. */
module Meals {
  import opened Outcomes
  import opened Ingredients
  import opened IngredientLists
  import Recipes

  datatype MealType = Breakfast | Lunch | Dinner | Snack

  datatype MealStatus = Planned | Shopping | Preparing | Ready | Consumed

  /** The quantities after rescaling from `from` servings to `to`: untouched when the
      count does not change, otherwise each multiplied by `to / from`. */
  function Rescaled(xs: seq<IngredientValue>, from: int, to: int): (r: seq<IngredientValue>)
    requires from > 0
    ensures |r| == |xs|
    ensures forall i :: 0 <= i < |xs| ==>
      r[i] == xs[i].(quantity := xs[i].quantity * (to as real / from as real))
  {
    if to == from then xs else ScaleAll(xs, to as real / from as real)
  }

  /** The serving ratios compose: (n / s) · (m / n) = m / s. */
  lemma RatioChain(s: int, n: int, m: int)
    requires s > 0 && n > 0
    ensures (n as real / s as real) * (m as real / n as real) == m as real / s as real
  {
    var S, N, M := s as real, n as real, m as real;
    calc {
      (N / S) * (M / N);
      == { assert N / S * S == N; assert M / N * N == M; }
      (N * M) / (S * N);
      == { assert (M / S) * (S * N) == M * N; }
      M / S;
    }
  }

  lemma ScaleAllByOne(xs: seq<IngredientValue>)
    ensures ScaleAll(xs, 1.0) == xs
  {
    assert forall i :: 0 <= i < |xs| ==> ScaleAll(xs, 1.0)[i] == xs[i];
  }

  /** Rescaling through an intermediate serving count leaves the same quantities as
      rescaling directly: scaleServings(n) then scaleServings(m) is scaleServings(m). */
  lemma RescaledTwice(xs: seq<IngredientValue>, s: int, n: int, m: int)
    requires s > 0 && n > 0 && m > 0
    ensures Rescaled(Rescaled(xs, s, n), n, m) == Rescaled(xs, s, m)
  {
    var a, b := n as real / s as real, m as real / n as real;
    if n != s && m != n {
      RatioChain(s, n, m);
      ScaleAllTwice(xs, a, b);
      assert Rescaled(Rescaled(xs, s, n), n, m) == ScaleAll(xs, a * b);
      if m == s {
        assert a * b == 1.0;
        ScaleAllByOne(xs);
      } else {
        var c := m as real / s as real;
        assert a * b == c;
        assert ScaleAll(xs, a * b) == ScaleAll(xs, c);
      }
    }
  }

  /** Rescaling multiplies the total cost by the same ratio. */
  lemma RescaledCost(xs: seq<IngredientValue>, from: int, to: int)
    requires from > 0 && to > 0
    ensures TotalCost(Rescaled(xs, from, to)) == (to as real / from as real) * TotalCost(xs)
    ensures AllWellFormed(xs) ==> AllWellFormed(Rescaled(xs, from, to))
  {
    var f := to as real / from as real;
    if to == from {
      var r := from as real;
      assert r > 0.0 && f == r / r;
    } else {
      ScaleAllCost(xs, f);
      if AllWellFormed(xs) {
        assert f > 0.0;
        ScaleAllWellFormed(xs, f);
      }
    }
  }

  class Meal {
    var name: string
    var mealType: MealType
    var status: MealStatus
    /** A point in time, in seconds. */
    var plannedTime: int
    var recipe: Recipes.Recipe?
    /** The meal's own ingredient snapshots, in the sequence they were added. */
    var ingredients: seq<IngredientValue>
    var estimatedCost: real
    var servings: int

    /** Serving count positive and ingredients well formed, whatever the cost says. */
    ghost predicate Scalable()
      reads this
    {
      servings > 0 && AllWellFormed(ingredients)
    }

    /** What every public operation keeps: also the cost equal to the ingredients' sum. */
    ghost predicate Valid()
      reads this
    {
      Scalable() && estimatedCost == TotalCost(ingredients)
    }

    /** The default constructor; `now` is the clock reading it plans the meal at. */
    constructor Default(now: int)
      ensures Valid()
      ensures name == "New Meal" && mealType == Breakfast && status == Planned && plannedTime == now
      ensures recipe == null && ingredients == [] && estimatedCost == 0.0 && servings == 1
    {
      name := "New Meal";
      mealType := Breakfast;
      status := Planned;
      plannedTime := now;
      recipe := null;
      ingredients := [];
      estimatedCost := 0.0;
      servings := 1;
    }

    /** The constructors with a name (and a type, Breakfast when omitted); the name is
        not checked here. */
    constructor (name: string, mealType: MealType, now: int)
      ensures Valid()
      ensures this.name == name && this.mealType == mealType && status == Planned && plannedTime == now
      ensures recipe == null && ingredients == [] && estimatedCost == 0.0 && servings == 1
    {
      this.name := name;
      this.mealType := mealType;
      status := Planned;
      plannedTime := now;
      recipe := null;
      ingredients := [];
      estimatedCost := 0.0;
      servings := 1;
    }

    // -------------------------------------------------------------------------
    // Setters
    // -------------------------------------------------------------------------

    /** Meal::setName: an empty name throws and changes nothing. */
    method SetName(newName: string) returns (outcome: Outcome)
      modifies this`name
      ensures outcome == if newName == "" then InvalidArgument("Meal name cannot be empty") else Ok
      ensures name == if outcome.Ok? then newName else old(name)
    {
      if newName == "" {
        return InvalidArgument("Meal name cannot be empty");
      }
      name := newName;
      outcome := Ok;
    }

    method SetType(newType: MealType)
      modifies this`mealType
      ensures mealType == newType
    {
      mealType := newType;
    }

    method SetStatus(newStatus: MealStatus)
      modifies this`status
      ensures status == newStatus
    {
      status := newStatus;
    }

    method SetPlannedTime(time: int)
      modifies this`plannedTime
      ensures plannedTime == time
    {
      plannedTime := time;
    }

    /** Meal::setRecipe: for a recipe, the ingredient list is replaced by copies of the
        recipe's, same count and sequence and not rescaled (the rescale to the current
        serving count returns at once), and the cost is recomputed; for none, only the
        reference is cleared. */
    method SetRecipe(r: Recipes.Recipe?)
      requires Valid()
      requires r != null ==> r.ValidFields()
      modifies this`recipe, this`ingredients, this`servings, this`estimatedCost
      ensures Valid() && recipe == r && servings == old(servings)
      ensures r == null ==> ingredients == old(ingredients) && estimatedCost == old(estimatedCost)
      ensures r != null ==> ingredients == r.ingredients && estimatedCost == TotalCost(r.ingredients)
    {
      recipe := r;
      if recipe != null {
        ingredients := [];
        var i := 0;
        while i < |recipe.ingredients|
          invariant recipe == r && servings == old(servings)
          invariant 0 <= i <= |r.ingredients|
          invariant ingredients == r.ingredients[..i]
        {
          ingredients := ingredients + [recipe.ingredients[i]];
          i := i + 1;
        }
        assert ingredients == r.ingredients;
        assert AllWellFormed(ingredients);
        var _ := ScaleServings(servings);
        UpdateCost();
      }
    }

    /** Meal::setServings: a count that is not positive throws and changes nothing.
        Otherwise the count is assigned BEFORE the rescale is asked for, so the rescale
        sees no change and returns: quantities and cost stay as they were. */
    method SetServings(newServings: int) returns (outcome: Outcome)
      requires Valid()
      modifies this`servings, this`ingredients, this`estimatedCost
      ensures Valid()
      ensures outcome == if newServings <= 0 then InvalidArgument("Number of servings must be positive") else Ok
      ensures servings == if outcome.Ok? then newServings else old(servings)
      ensures ingredients == old(ingredients) && estimatedCost == old(estimatedCost)
    {
      if newServings <= 0 {
        return InvalidArgument("Number of servings must be positive");
      }
      servings := newServings;
      var _ := ScaleServings(newServings);
      outcome := Ok;
    }

    // -------------------------------------------------------------------------
    // Operations
    // -------------------------------------------------------------------------

    /** Meal::addIngredient: no ingredient throws; otherwise it is appended and the
        cost grows by exactly its cost. */
    method AddIngredient(ingredient: Ingredient?) returns (outcome: Outcome)
      requires Valid()
      requires ingredient != null ==> ingredient.Valid()
      modifies this`ingredients, this`estimatedCost
      ensures Valid()
      ensures outcome == if ingredient == null then InvalidArgument("Cannot add null ingredient") else Ok
      ensures ingredients == if ingredient == null then old(ingredients) else old(ingredients) + [ingredient.Value()]
      ensures estimatedCost == if ingredient == null then old(estimatedCost)
                               else old(estimatedCost) + ingredient.Value().Cost()
    {
      if ingredient == null {
        return InvalidArgument("Cannot add null ingredient");
      }
      var added := ingredient.Value();
      ingredients := ingredients + [added];
      assert ingredients[..|ingredients| - 1] == old(ingredients);
      assert TotalCost(ingredients) == old(estimatedCost) + added.Cost();
      assert forall t :: 0 <= t < |ingredients| ==> ingredients[t] == if t < |old(ingredients)| then old(ingredients)[t] else added;
      UpdateCost();
      outcome := Ok;
    }

    /** Meal::removeIngredient: erases the first ingredient with the id, and the cost
        drops by exactly its cost; an absent id changes nothing. */
    method RemoveIngredient(ingredientId: string)
      requires Valid()
      modifies this`ingredients, this`estimatedCost
      ensures Valid()
      ensures ingredients == RemoveFirstWithId(old(ingredients), ingredientId)
      ensures estimatedCost == match FirstWithId(old(ingredients), ingredientId)
                               case None => old(estimatedCost)
                               case Some(i) => old(estimatedCost) - old(ingredients)[i].Cost()
    {
      var found := FindById(ingredients, ingredientId);
      RemoveFirstWithIdWellFormed(ingredients, ingredientId);
      if found.Some? {
        var i := found.value;
        TotalCostWithout(ingredients, i);
        ingredients := ingredients[..i] + ingredients[i + 1..];
        UpdateCost();
      }
    }

    /** Meal::scaleServings: a count that is not positive throws and changes nothing;
        the current count changes nothing; otherwise every quantity is multiplied by
        new/old, the count becomes the new one and the cost is recomputed, which
        multiplies it by the same ratio. */
    method ScaleServings(newServings: int) returns (outcome: Outcome)
      requires Scalable()
      modifies this`ingredients, this`servings, this`estimatedCost
      ensures Scalable()
      ensures outcome == if newServings <= 0 then InvalidArgument("Number of servings must be positive") else Ok
      ensures newServings <= 0 || newServings == old(servings) ==>
        ingredients == old(ingredients) && servings == old(servings) && estimatedCost == old(estimatedCost)
      ensures newServings > 0 ==>
        servings == newServings && ingredients == Rescaled(old(ingredients), old(servings), newServings)
      ensures newServings > 0 && newServings != old(servings) ==> estimatedCost == TotalCost(ingredients)
      ensures old(Valid()) ==> Valid()
      ensures old(Valid()) && newServings > 0 ==>
        estimatedCost == (newServings as real / old(servings) as real) * old(estimatedCost)
    {
      if newServings <= 0 {
        return InvalidArgument("Number of servings must be positive");
      }
      RescaledCost(ingredients, servings, newServings);
      if servings == newServings {
        return Ok;
      }
      var scaleFactor := newServings as real / servings as real;
      ghost var xs := ingredients;
      var i := 0;
      while i < |ingredients|
        invariant 0 <= i <= |ingredients| == |xs|
        invariant forall t :: 0 <= t < i ==> ingredients[t] == xs[t].Scaled(scaleFactor)
        invariant forall t :: i <= t < |ingredients| ==> ingredients[t] == xs[t]
      {
        ingredients := ingredients[i := ingredients[i].Scaled(scaleFactor)];
        i := i + 1;
      }
      assert ingredients == ScaleAll(xs, scaleFactor);
      servings := newServings;
      UpdateCost();
      outcome := Ok;
    }

    /** Meal::updateCost: the sum of quantity × unit price over the ingredients. */
    method UpdateCost()
      modifies this`estimatedCost
      ensures estimatedCost == TotalCost(ingredients)
      ensures AllWellFormed(ingredients) ==> estimatedCost >= 0.0
    {
      estimatedCost := 0.0;
      var i := 0;
      while i < |ingredients|
        invariant 0 <= i <= |ingredients|
        invariant estimatedCost == TotalCost(ingredients[..i])
      {
        assert ingredients[..i + 1][..i] == ingredients[..i];
        estimatedCost := estimatedCost + ingredients[i].Cost();
        i := i + 1;
      }
      assert ingredients[..|ingredients|] == ingredients;
      if AllWellFormed(ingredients) {
        TotalCostNonNegative(ingredients);
      }
    }

    /** Meal::isComplete: it has an ingredient and has moved past planning, to
        shopping, preparing, ready or consumed. */
    predicate IsComplete()
      reads this
      ensures IsComplete() <==> |ingredients| > 0 && status in {Shopping, Preparing, Ready, Consumed}
    {
      ingredients != [] && status != Planned
    }

    /** Meal::calculateNutritionalValue: only the "calories" entries are summed, an
        ingredient without one adds nothing; the result is the calories entry a recipe
        with the same ingredients rolls up. */
    method CalculateNutritionalValue() returns (totalCalories: real)
      ensures totalCalories == NutrientSum(ingredients, "calories")
      ensures totalCalories == Lookup(NutrientTotals(ingredients), "calories")
      ensures AllWellFormed(ingredients) ==> totalCalories >= 0.0
    {
      totalCalories := 0.0;
      var i := 0;
      while i < |ingredients|
        invariant 0 <= i <= |ingredients|
        invariant totalCalories == NutrientSum(ingredients[..i], "calories")
      {
        assert ingredients[..i + 1][..i] == ingredients[..i];
        var nutritionInfo := ingredients[i].nutritionalInfo;
        if "calories" in nutritionInfo {
          totalCalories := totalCalories + nutritionInfo["calories"];
        }
        i := i + 1;
      }
      assert ingredients[..|ingredients|] == ingredients;
      NutrientTotalsSum(ingredients, "calories");
      if AllWellFormed(ingredients) {
        NutrientSumNonNegative(ingredients, "calories");
      }
    }
  }

  // ---------------------------------------------------------------------------
  // The behaviour the meal's unit tests assert, as client code
  // ---------------------------------------------------------------------------

  /** An ingredient of `quantity` grams that the caller knows was made. */
  method Grams(id: string, name: string, quantity: real) returns (ingredient: Ingredient)
    requires quantity >= 0.0
    ensures fresh(ingredient) && ingredient.Valid()
    ensures ingredient.Value() == IngredientValue(id, name, quantity, Gram, 0.0, 0, map[])
  {
    var _, made := Ingredient.Create(id, name, quantity, Gram);
    ingredient := made;
  }

  /** Adding an ingredient and removing it by its id leaves the meal empty. */
  method AddAndRemoveScenario() returns (afterAdd: nat, afterRemove: nat)
    ensures afterAdd == 1 && afterRemove == 0
  {
    var meal := new Meal("Test Meal", Lunch, 0);
    var ingredient := Grams("ing_1", "Test Ingredient", 100.0);
    var _ := meal.AddIngredient(ingredient);
    afterAdd := |meal.ingredients|;
    meal.RemoveIngredient(ingredient.id);
    afterRemove := |meal.ingredients|;
  }

  /** setServings(2) then scaleServings(4): the first only relabels, so 100 g stay
      100 g; the second scales by 4/2 and gives 200 g. */
  method ScaleServingsScenario() returns (servingsAfterSet: int, gramsAfterSet: real,
                                          servingsAfterScale: int, gramsAfterScale: real)
    ensures servingsAfterSet == 2 && gramsAfterSet == 100.0
    ensures servingsAfterScale == 4 && gramsAfterScale == 200.0
  {
    var meal := new Meal("Test Meal", Lunch, 0);
    var ingredient := Grams("ing_1", "Test Ingredient", 100.0);
    var _ := meal.AddIngredient(ingredient);
    var _ := meal.SetServings(2);
    servingsAfterSet, gramsAfterSet := meal.servings, meal.ingredients[0].quantity;
    var _ := meal.ScaleServings(4);
    assert meal.ingredients[0].quantity == 100.0 * (4 as real / 2 as real);
    servingsAfterScale, gramsAfterScale := meal.servings, meal.ingredients[0].quantity;
  }

  /** 100 g at 0.1 and 200 g at 0.2 cost 10 + 40 = 50. */
  method EstimatedCostScenario() returns (cost: real)
    ensures cost == 50.0
  {
    var meal := new Meal("Test Meal", Lunch, 0);
    var first := Grams("ing_1", "Ingredient 1", 100.0);
    var _ := first.SetUnitPrice(0.1);
    var second := Grams("ing_2", "Ingredient 2", 200.0);
    var _ := second.SetUnitPrice(0.2);
    var _ := meal.AddIngredient(first);
    var _ := meal.AddIngredient(second);
    assert meal.ingredients[..1] == [first.Value()];
    meal.UpdateCost();
    cost := meal.estimatedCost;
  }

  /** The rejected calls: an empty name, zero or negative servings, a zero or negative
      rescale, no ingredient; the meal is left as it was. */
  method InvalidOperationsScenario() returns (outcomes: seq<Outcome>, untouched: bool)
    ensures |outcomes| == 6 && forall i :: 0 <= i < |outcomes| ==> outcomes[i].InvalidArgument?
    ensures untouched
  {
    var meal := new Meal("Test Meal", Lunch, 0);
    var a := meal.SetName("");
    var b := meal.SetServings(0);
    var c := meal.SetServings(-1);
    var d := meal.ScaleServings(0);
    var e := meal.ScaleServings(-2);
    var f := meal.AddIngredient(null);
    outcomes := [a, b, c, d, e, f];
    untouched := meal.name == "Test Meal" && meal.servings == 1 && meal.ingredients == [] && meal.estimatedCost == 0.0;
  }

  /** A meal given a recipe with two ingredients holds that recipe and two ingredients. */
  method RecipeIntegrationScenario() returns (sameRecipe: bool, count: nat)
    ensures sameRecipe && count == 2
  {
    var _, recipe := Recipes.Recipe.Create("rec_1", "Test Recipe", "");
    var first := Grams("ing_1", "Ingredient 1", 100.0);
    var second := Grams("ing_2", "Ingredient 2", 200.0);
    var _ := recipe.AddIngredient(first);
    var _ := recipe.AddIngredient(second);
    var meal := new Meal("Test Meal", Lunch, 0);
    meal.SetRecipe(recipe);
    sameRecipe := meal.recipe == recipe;
    count := |meal.ingredients|;
  }

  /** 200 and 300 calories add up to 500. */
  method NutritionalScenario() returns (calories: real)
    ensures calories == 500.0
  {
    var meal := new Meal("Test Meal", Lunch, 0);
    var first := Grams("ing_1", "Ingredient 1", 100.0);
    var _ := first.AddNutritionalInfo("calories", 200.0);
    var a := first.Value();
    assert Lookup(a.nutritionalInfo, "calories") == 200.0;
    var second := Grams("ing_2", "Ingredient 2", 200.0);
    var _ := second.AddNutritionalInfo("calories", 300.0);
    var b := second.Value();
    assert Lookup(b.nutritionalInfo, "calories") == 300.0;
    var _ := meal.AddIngredient(first);
    var _ := meal.AddIngredient(second);
    assert meal.ingredients == [a, b];
    assert [a, b][..1] == [a] && [a][..0] == [];
    assert NutrientSum([a], "calories") == 200.0;
    calories := meal.CalculateNutritionalValue();
  }

  /** A planned meal without ingredients is not complete; with an ingredient and in
      preparation it is. */
  method CompletionScenario() returns (before: bool, after: bool)
    ensures !before && after
  {
    var meal := new Meal("Test Meal", Lunch, 0);
    before := meal.IsComplete();
    var ingredient := Grams("ing_1", "Test Ingredient", 100.0);
    var _ := meal.AddIngredient(ingredient);
    meal.SetStatus(Preparing);
    after := meal.IsComplete();
  }
}
