/** The recipe aggregate: its ingredients with their nutrient roll-up, and its
    preparation steps kept sorted by order. The step algorithms run in place here,
    loop for loop, and each is proved to produce what the matching function of
    `StepOrdering` computes. */
module Recipes {
  import opened Outcomes
  import opened StepOrdering
  import opened Ingredients
  import opened IngredientLists

  datatype Difficulty = Easy | Medium | Hard

  class Recipe {
    const id: string
    var name: string
    var description: string
    var difficulty: Difficulty
    var servings: int
    /** Snapshots of the ingredients, in the sequence they were added. */
    var ingredients: seq<IngredientValue>
    var steps: seq<Step>
    var nutritionalInfo: map<string, real>

    /** What every operation keeps: a name, a positive number of servings, steps in
        strictly increasing positive order, well-formed ingredients, and the nutrient
        map equal to the roll-up of the ingredients. */
    ghost predicate Valid()
      reads this
    {
      ValidFields() && nutritionalInfo == NutrientTotals(ingredients)
    }

    /** Everything `Valid` asks except the roll-up, which a stale nutrient map breaks
        until the next recomputation. */
    ghost predicate ValidFields()
      reads this
    {
      name != "" && servings > 0 &&
      StrictlySorted(steps) && Positive(steps) &&
      AllWellFormed(ingredients)
    }

    /** The default constructor. */
    constructor Default(id: string)
      ensures Valid()
      ensures this.id == id
      ensures name == "New Recipe" && description == "" && difficulty == Easy && servings == 1
      ensures ingredients == [] && steps == [] && nutritionalInfo == map[]
    {
      this.id := id;
      name := "New Recipe";
      description := "";
      difficulty := Easy;
      servings := 1;
      ingredients := [];
      steps := [];
      nutritionalInfo := map[];
    }

    /** The constructors with a name (and a description) once the name is checked. */
    constructor (id: string, name: string, description: string)
      requires name != ""
      ensures Valid()
      ensures this.id == id
      ensures this.name == name && this.description == description && difficulty == Easy && servings == 1
      ensures ingredients == [] && steps == [] && nutritionalInfo == map[]
    {
      this.id := id;
      this.name := name;
      this.description := description;
      difficulty := Easy;
      servings := 1;
      ingredients := [];
      steps := [];
      nutritionalInfo := map[];
    }

    /** The constructors with a name (and a description): an empty name throws and no
        recipe is made. */
    static method Create(id: string, name: string, description: string) returns (outcome: Outcome, recipe: Recipe?)
      ensures outcome == if name == "" then InvalidArgument("Recipe name cannot be empty") else Ok
      ensures recipe != null <==> outcome.Ok?
      ensures recipe != null ==>
        fresh(recipe) && recipe.Valid() && recipe.id == id && recipe.name == name &&
        recipe.description == description && recipe.difficulty == Easy &&
        recipe.servings == 1 && recipe.ingredients == [] && recipe.steps == [] && recipe.nutritionalInfo == map[]
    {
      if name == "" {
        return InvalidArgument("Recipe name cannot be empty"), null;
      }
      recipe := new Recipe(id, name, description);
      outcome := Ok;
    }

    // -------------------------------------------------------------------------
    // Setters
    // -------------------------------------------------------------------------

    /** Recipe::setName: an empty name throws and changes nothing. */
    method SetName(newName: string) returns (outcome: Outcome)
      requires Valid()
      modifies this`name
      ensures Valid()
      ensures outcome == if newName == "" then InvalidArgument("Recipe name cannot be empty") else Ok
      ensures name == if outcome.Ok? then newName else old(name)
    {
      if newName == "" {
        return InvalidArgument("Recipe name cannot be empty");
      }
      name := newName;
      outcome := Ok;
    }

    method SetDescription(newDescription: string)
      requires Valid()
      modifies this`description
      ensures Valid() && description == newDescription
    {
      description := newDescription;
    }

    method SetDifficulty(newDifficulty: Difficulty)
      requires Valid()
      modifies this`difficulty
      ensures Valid() && difficulty == newDifficulty
    {
      difficulty := newDifficulty;
    }

    /** Recipe::setServings: a count that is not positive throws and changes nothing;
        otherwise only the count changes, no quantity is rescaled. */
    method SetServings(newServings: int) returns (outcome: Outcome)
      requires Valid()
      modifies this`servings
      ensures Valid()
      ensures outcome == if newServings <= 0 then InvalidArgument("Number of servings must be positive") else Ok
      ensures servings == if outcome.Ok? then newServings else old(servings)
    {
      if newServings <= 0 {
        return InvalidArgument("Number of servings must be positive");
      }
      servings := newServings;
      outcome := Ok;
    }

    // -------------------------------------------------------------------------
    // Ingredients
    // -------------------------------------------------------------------------

    /** Recipe::addIngredient: no ingredient throws; otherwise a snapshot of it is
        appended and the nutrient map recomputed. */
    method AddIngredient(ingredient: Ingredient?) returns (outcome: Outcome)
      requires Valid()
      requires ingredient != null ==> ingredient.Valid()
      modifies this`ingredients, this`nutritionalInfo
      ensures Valid()
      ensures outcome == if ingredient == null then InvalidArgument("Cannot add null ingredient") else Ok
      ensures ingredients == if ingredient == null then old(ingredients) else old(ingredients) + [ingredient.Value()]
    {
      if ingredient == null {
        return InvalidArgument("Cannot add null ingredient");
      }
      ingredients := ingredients + [ingredient.Value()];
      RecalculateNutritionalInfo();
      outcome := Ok;
    }

    /** Recipe::removeIngredient: erases the first ingredient with the id and
        recomputes the nutrient map; an absent id changes nothing. */
    method RemoveIngredient(ingredientId: string)
      requires Valid()
      modifies this`ingredients, this`nutritionalInfo
      ensures Valid()
      ensures ingredients == RemoveFirstWithId(old(ingredients), ingredientId)
    {
      var found := FindById(ingredients, ingredientId);
      RemoveFirstWithIdWellFormed(ingredients, ingredientId);
      if found.Some? {
        var i := found.value;
        ingredients := ingredients[..i] + ingredients[i + 1..];
        RecalculateNutritionalInfo();
      }
    }

    /** Recipe::recalculateNutritionalInfo, a private step of AddIngredient,
        RemoveIngredient and UpdateNutritionalInfo: clear the map, then add every
        ingredient's nutrients into it key by key; a missing key starts from 0. It
        works from any map, a stale one included. */
    method RecalculateNutritionalInfo()
      modifies this`nutritionalInfo
      ensures nutritionalInfo == NutrientTotals(ingredients)
    {
      nutritionalInfo := map[];
      var i := 0;
      while i < |ingredients|
        invariant 0 <= i <= |ingredients|
        invariant nutritionalInfo == NutrientTotals(ingredients[..i])
      {
        var info := ingredients[i].nutritionalInfo;
        ghost var before := nutritionalInfo;
        var pending := info.Keys;
        while pending != {}
          invariant pending <= info.Keys
          invariant nutritionalInfo.Keys == before.Keys + (info.Keys - pending)
          invariant forall k :: k in nutritionalInfo ==>
            nutritionalInfo[k] == Lookup(before, k) + (if k in pending then 0.0 else Lookup(info, k))
          decreases pending
        {
          var nutrient :| nutrient in pending;
          nutritionalInfo := nutritionalInfo[nutrient := Lookup(nutritionalInfo, nutrient) + info[nutrient]];
          pending := pending - {nutrient};
        }
        AddNutrientsPointwise(nutritionalInfo, before, info);
        NutrientTotalsPrefix(ingredients, i);
        i := i + 1;
      }
      assert ingredients[..|ingredients|] == ingredients;
    }

    /** Recipe::updateNutritionalInfo: rebuilds the roll-up from whatever map the
        recipe holds; on a map that is already the roll-up it changes nothing. */
    method UpdateNutritionalInfo()
      requires ValidFields()
      modifies this`nutritionalInfo
      ensures Valid() && nutritionalInfo == NutrientTotals(ingredients)
      ensures old(Valid()) ==> nutritionalInfo == old(nutritionalInfo)
    {
      RecalculateNutritionalInfo();
    }

    /** Recipe::calculateTotalCost. */
    method CalculateTotalCost() returns (total: real)
      requires AllWellFormed(ingredients)
      ensures total == TotalCost(ingredients)
      ensures total >= 0.0
    {
      total := 0.0;
      var i := 0;
      while i < |ingredients|
        invariant 0 <= i <= |ingredients|
        invariant total == TotalCost(ingredients[..i])
      {
        assert ingredients[..i + 1][..i] == ingredients[..i];
        total := total + ingredients[i].Cost();
        i := i + 1;
      }
      assert ingredients[..|ingredients|] == ingredients;
      TotalCostNonNegative(ingredients);
    }

    // -------------------------------------------------------------------------
    // Steps
    // -------------------------------------------------------------------------

    /** Recipe::getTotalTime. */
    method GetTotalTime() returns (total: int)
      ensures total == TotalTime(steps)
    {
      total := 0;
      var i := 0;
      while i < |steps|
        invariant 0 <= i <= |steps|
        invariant total == TotalTime(steps[..i])
      {
        assert steps[..i + 1][..i] == steps[..i];
        total := total + steps[i].duration;
        i := i + 1;
      }
      assert steps[..|steps|] == steps;
    }

    /** Recipe::addStep: a step order that is not positive throws and changes nothing;
        otherwise, if the order is taken, every step at or past it moves up by one, and
        the new step goes in at its order. */
    method AddStep(step: Step) returns (outcome: Outcome)
      requires Valid()
      modifies this`steps
      ensures Valid()
      ensures outcome == StepOrdering.AddStep(old(steps), step).ToOutcome()
      ensures steps == StepOrdering.AddStep(old(steps), step).GetOr(old(steps))
    {
      if step.order <= 0 {
        return InvalidArgument("Step order must be positive");
      }
      ghost var s0 := steps;
      var found := FindOrder(steps, step.order);
      if found.Some? {
        BumpOrders(step.order);
      }
      assert steps == MakeRoom(s0, step.order);
      // push_back, then std::sort by order: the one strictly sorted arrangement.
      steps := InsertSorted(steps, step);
      AddStepSpec(s0, step);
      outcome := Ok;
    }

    /** The shifting loop of Recipe::addStep, written inline there and run only as a
        step of `AddStep` when the order is taken: every step at order `k` or above
        moves up by one. */
    method BumpOrders(k: int)
      modifies this`steps
      ensures steps == Bump(old(steps), k)
    {
      var j := 0;
      while j < |steps|
        invariant 0 <= j <= |steps| == |old(steps)|
        invariant forall t :: 0 <= t < j ==> steps[t] == Bumped(old(steps)[t], k)
        invariant forall t :: j <= t < |steps| ==> steps[t] == old(steps)[t]
      {
        if steps[j].order >= k {
          steps := steps[j := steps[j].(order := steps[j].order + 1)];
        }
        j := j + 1;
      }
    }

    /** Recipe::removeStep: erase the first step with the order and renumber the rest
        1, 2, 3, ...; an absent order changes nothing. */
    method RemoveStep(order: int)
      requires Valid()
      modifies this`steps
      ensures Valid()
      ensures steps == StepOrdering.RemoveStep(old(steps), order)
    {
      ghost var s0 := steps;
      var found := FindOrder(steps, order);
      if found.Some? {
        var i := found.value;
        steps := steps[..i] + steps[i + 1..];
        RenumberSteps();
      }
      RemoveStepSpec(s0, order);
    }

    /** Recipe::reorderStep: a non-positive order or a missing step throws and changes
        nothing; otherwise the step is taken out and given the new order, the steps
        between the two positions move one toward the vacated slot, and the step goes
        back in at its new order. */
    method ReorderStep(oldOrder: int, newOrder: int) returns (outcome: Outcome)
      requires Valid()
      modifies this`steps
      ensures Valid()
      ensures outcome == StepOrdering.ReorderStep(old(steps), oldOrder, newOrder).ToOutcome()
      ensures steps == StepOrdering.ReorderStep(old(steps), oldOrder, newOrder).GetOr(old(steps))
    {
      if oldOrder <= 0 || newOrder <= 0 {
        return InvalidArgument("Step orders must be positive");
      }
      ghost var s0 := steps;
      var found := FindOrder(steps, oldOrder);
      if found.None? {
        return InvalidArgument("Step with old order not found");
      }
      var i := found.value;
      var step := steps[i];
      steps := steps[..i] + steps[i + 1..];
      step := step.(order := newOrder);
      ghost var rest := steps;
      ShiftOthers(oldOrder, newOrder);
      assert rest == s0[..i] + s0[i + 1..] && step == s0[i].(order := newOrder);
      // push_back, then std::sort by order: the one strictly sorted arrangement.
      steps := InsertSorted(steps, step);
      ReorderStepAt(s0, oldOrder, newOrder, i);
      outcome := Ok;
    }

    /** The renumbering loop of Recipe::removeStep, written inline there and run only
        as a step of `RemoveStep` (after the erase): the steps get orders 1, 2, 3, ...
        in their current sequence. On its own it does not keep `Valid`. */
    method RenumberSteps()
      modifies this`steps
      ensures steps == Renumber(old(steps))
    {
      ghost var rest := steps;
      var newOrder := 1;
      var j := 0;
      while j < |steps|
        invariant 0 <= j <= |steps| == |rest|
        invariant newOrder == j + 1
        invariant forall t :: 0 <= t < j ==> steps[t] == rest[t].(order := t + 1)
        invariant forall t :: j <= t < |steps| ==> steps[t] == rest[t]
      {
        steps := steps[j := steps[j].(order := newOrder)];
        newOrder := newOrder + 1;
        j := j + 1;
      }
    }

    /** The adjusting loop of Recipe::reorderStep, written inline there and run only as
        a step of `ReorderStep` (with the moved step taken out): the steps between the
        two positions move one order toward the vacated slot. On its own it does not
        keep `Valid`: with the moved step still present, two steps can share an order. */
    method ShiftOthers(oldOrder: int, newOrder: int)
      modifies this`steps
      ensures steps == Shift(old(steps), oldOrder, newOrder)
    {
      ghost var rest := steps;
      var j := 0;
      while j < |steps|
        invariant 0 <= j <= |steps| == |rest|
        invariant forall t :: 0 <= t < j ==> steps[t] == rest[t].(order := ShiftOrder(rest[t].order, oldOrder, newOrder))
        invariant forall t :: j <= t < |steps| ==> steps[t] == rest[t]
      {
        var existing := steps[j];
        if oldOrder < newOrder {
          if existing.order > oldOrder && existing.order <= newOrder {
            steps := steps[j := existing.(order := existing.order - 1)];
          }
        } else {
          if existing.order >= newOrder && existing.order < oldOrder {
            steps := steps[j := existing.(order := existing.order + 1)];
          }
        }
        j := j + 1;
      }
    }

    // -------------------------------------------------------------------------
    // Validity
    // -------------------------------------------------------------------------

    /** Recipe::isValid: a name, positive servings, an ingredient and a step. Since
        every operation keeps a name and positive servings, a recipe is valid exactly
        when it has an ingredient and a step. */
    predicate IsValid()
      reads this
      ensures Valid() ==> (IsValid() <==> |ingredients| > 0 && |steps| > 0)
    {
      name != "" && servings > 0 && ingredients != [] && steps != []
    }
  }

  /** A named recipe is not valid until it has an ingredient and a step; one of each
      makes it valid, and then the total time is that step's duration and the total
      cost that ingredient's cost. */
  method ValidityScenario() returns (before: bool, afterIngredient: bool, after: bool, minutes: int, cost: real)
    ensures !before && !afterIngredient && after
    ensures minutes == 10 && cost == 2.5
  {
    var outcome, recipe := Recipe.Create("rec_1", "Soup", "");
    before := recipe.IsValid();
    var onion := new Ingredient("ing_1", "Onion");
    var _ := onion.SetQuantity(5.0);
    var _ := onion.SetUnitPrice(0.5);
    var _ := recipe.AddIngredient(onion);
    afterIngredient := recipe.IsValid();
    var onionValue := onion.Value();
    assert recipe.ingredients == [onionValue];
    var chop := Step(1, "Chop", 10);
    assert MakeRoom([], 1) == [] && InsertSorted([], chop) == [chop];
    assert StepOrdering.AddStep([], chop) == Success([chop]);
    var _ := recipe.AddStep(chop);
    after := recipe.IsValid();
    minutes := recipe.GetTotalTime();
    assert [chop][..0] == [] && TotalTime([chop]) == 10;
    cost := recipe.CalculateTotalCost();
    assert [onionValue][..0] == [] && TotalCost([onionValue]) == 2.5;
  }
}
