# Smart food manager core, modelled in Dafny

This project models the three domain aggregates of the smart food manager:

- **Recipe**: preparation steps kept sorted by their integer `order`, and ingredients with a per-nutrient roll-up.
- **Ingredient**: a quantity in a unit, with a unit price, an expiry date and a nutrient map.
- **Meal**: an ingredient list with an estimated cost, scaled by a serving count.

The files:

- `outcomes.dfy` holds `Option`, `Result` and `Outcome`. `Outcome` is `Ok` or `InvalidArgument(message)`, which stands for a thrown `std::invalid_argument`.
- `steps.dfy` (module `StepOrdering`) has a pure function for each of `addStep`, `removeStep` and `reorderStep`, together with the lemmas about them:
  - steps stay sorted with distinct orders;
  - `removeStep` renumbers to 1..N;
  - contiguity holds under its conditions;
  - payloads, durations and the total time are kept.
- `ingredient.dfy` (module `Ingredients`) holds:
  - the unit ↔ short-code table;
  - the low-quantity thresholds;
  - `IngredientValue`, the ingredient as a value;
  - class `Ingredient` with its validating setters.
- `ingredient_lists.dfy` (module `IngredientLists`) holds the folds over ingredient lists: total cost, nutrient roll-up, removal of the first ingredient with an id, and scaling.
- `recipe.dfy` (module `Recipes`) holds class `Recipe`.
  - Its step operations run in place with the same loops as the C++: find, bump, erase, renumber and shift.
  - Each is proved to leave exactly the list the matching `StepOrdering` function computes, and to keep the class invariant.
- `meal.dfy` (module `Meals`) holds:
  - class `Meal`;
  - the serving-rescale function and its lemmas;
  - client methods that replay the scenarios of the meal tests and prove their expected values.

How the model is set up:

- Quantities, prices and nutrient values are `real`, so the arithmetic laws hold exactly.
- Durations are whole minutes (`int`), and time points are `int` seconds.
- Ids and the current time are parameters supplied by the caller.
- A method that throws in C++ returns `InvalidArgument` with the same message and leaves the state unchanged. Every modelled operation does the same in C++, since on the states the model admits it throws before any mutation.
- `std::sort` after `push_back` is modelled by inserting the new step at its sorted place. `SortUnique` proves this is the only strictly sorted arrangement of those steps, so any correct sort gives the same list.

Where the documentation and the code disagree, the model follows the code:

- **Contiguity is conditional.** `addStep` with an order beyond N+1 leaves a gap (`AddStepPastEndLeavesGap`), and so does `reorderStep` to an order beyond N (`ReorderStepPastEndLeavesGap`). Orders are exactly 1..N only under the conditions in `AddStepKeepsContiguous` and `ReorderStepKeepsContiguous`.
- **`Meal::setServings` never rescales.** It assigns `servings_` before calling `scaleServings`, so that call always returns early. Only the count changes (`Meals.Meal.SetServings`).
- **`scaleServings(servings_)` inside `Meal::setRecipe` is a no-op whenever servings are positive, which every modelled operation keeps.** The copied ingredients are never scaled (`Meals.Meal.SetRecipe`).

## Model

| member | source | states |
|---|---|---|
| StepOrdering.FirstWithOrder | cpp/src/core/recipe.cpp:162-165 | `find_if` by order: none exactly when no step has that order; otherwise an index holding it with no earlier step holding it |
| StepOrdering.FindOrder | cpp/src/core/recipe.cpp:186-189 | the search loop returns exactly the first index with that order |
| StepOrdering.SlotFor | cpp/src/core/recipe.cpp:178-182 | the sorted slot for an order: every earlier step has a smaller order, and in a sorted list every later one has a larger or equal order |
| StepOrdering.InsertSorted | cpp/src/core/recipe.cpp:176-182 | push_back then sort yields the same steps plus the new one: one longer, and the same multiset with the new step added |
| StepOrdering.InsertSortedAtSlot | cpp/src/core/recipe.cpp:176-182 | push_back then sort places the new step at its slot and keeps all other steps in place |
| StepOrdering.InsertSortedSorts | cpp/src/core/recipe.cpp:176-182 | inserting a step whose order is not taken keeps the list strictly sorted, is a permutation of the list plus the step, and grows it by one |
| StepOrdering.SortUnique | cpp/src/core/recipe.cpp:178-182 | two strictly sorted lists with the same elements are equal, so the result of the sort is determined |
| StepOrdering.MakeRoomFreesSlot | cpp/src/core/recipe.cpp:161-174 | the collision bump keeps the steps strictly sorted and positive, keeps every description and duration, and frees the new order |
| StepOrdering.AddStep | cpp/src/core/recipe.cpp:156-183 | addStep throws exactly when the order is ≤ 0; otherwise the list is one longer and holds the new step |
| StepOrdering.AddStepSpec | cpp/src/core/recipe.cpp:156-183 | addStep fails exactly for order ≤ 0; otherwise one more step, strictly sorted, positive, and a permutation of the bumped list plus the new step |
| StepOrdering.AddStepCollision | cpp/src/core/recipe.cpp:161-176 | when order k is taken at index i, every step with order ≥ k is bumped by one, the new step sits at i, and the displaced step follows it with order k+1 |
| StepOrdering.AddStepKeepsContiguous | cpp/src/core/recipe.cpp:156-183 | orders 1..N with a new order in 1..N+1 give orders 1..N+1 |
| StepOrdering.AddStepPastEndLeavesGap | cpp/src/core/recipe.cpp:156-183 | orders 1..N with a new order beyond N+1: the step is appended and the orders are no longer contiguous |
| StepOrdering.AddStepTotalTime | cpp/src/core/recipe.cpp:156-183 | adding a step adds its duration to the total time |
| StepOrdering.RemoveStep | cpp/src/core/recipe.cpp:185-200 | the list is one shorter exactly when some step has the order, and keeps its length otherwise |
| StepOrdering.RemoveStepSpec | cpp/src/core/recipe.cpp:185-200 | a missing order changes nothing; otherwise one step fewer, orders exactly 1..N-1, and the remaining steps in their previous relative sequence |
| StepOrdering.RemoveStepTotalTime | cpp/src/core/recipe.cpp:185-200 | removing a step subtracts exactly its duration from the total time; a missing order keeps it |
| StepOrdering.ReorderStep | cpp/src/core/recipe.cpp:202-240 | reorderStep throws exactly when either order is ≤ 0 or no step has the old order; otherwise the list keeps its length and holds the first step with the old order, now carrying the new one |
| StepOrdering.ShiftFreesTarget | cpp/src/core/recipe.cpp:219-231 | the shift loop keeps the other steps strictly sorted and positive, keeps their payloads, and frees the new order |
| StepOrdering.ReorderStepSpec | cpp/src/core/recipe.cpp:216-239 | success keeps the count; the result is strictly sorted and positive; the moved step has the new order at its slot; the others are the shifted rest with the same payloads; the result is a permutation of them plus the moved step |
| StepOrdering.ReorderStepAt | cpp/src/core/recipe.cpp:202-240 | for the step found at index i, reorderStep's result is the shifted rest with that step inserted under the new order, strictly sorted and positive |
| StepOrdering.ShiftMovesGap | cpp/src/core/recipe.cpp:219-231 | with orders 1..N except the vacated one, the shift moves the gap to the new order |
| StepOrdering.ReorderStepKeepsContiguous | cpp/src/core/recipe.cpp:216-239 | orders 1..N, with both orders in 1..N, stay exactly 1..N |
| StepOrdering.ReorderStepPastEndLeavesGap | cpp/src/core/recipe.cpp:216-239 | orders 1..N, with a new order beyond N, succeed but leave the orders non-contiguous |
| StepOrdering.ReorderStepTotalTime | cpp/src/core/recipe.cpp:216-239 | reordering never changes the total time |
| StepOrdering.ReorderStepExample | cpp/src/core/recipe.cpp:202-240 | steps 1,2,3 with reorderStep(3,1) become old3→1, old1→2, old2→3 |
| StepOrdering.ReplayRebuilds | cpp/src/core/recipe.cpp:301-307 | replaying addStep over a strictly sorted positive step list rebuilds the same list |
| StepOrdering.TotalTimeConcat | cpp/src/core/recipe.cpp:92-98 | the total time of two lists joined is the sum of their totals |
| StepOrdering.TotalTimeSamePayloads | cpp/src/core/recipe.cpp:92-98 | the total time depends only on the durations, not on the orders |
| Recipes.Recipe.Default | cpp/src/core/recipe.cpp:14-20 | the given id, "New Recipe", empty description, Easy, one serving, nothing else; valid |
| Recipes.Recipe.constructor | cpp/src/core/recipe.cpp:42-53 | the given id, a non-empty name and a description, Easy, one serving, no ingredients or steps; valid |
| Recipes.Recipe.Create | cpp/src/core/recipe.cpp:26-53 | an empty name fails with the source's message and makes no recipe; otherwise a fresh valid recipe with the given id, name and description, Easy, one serving, no ingredients, steps or nutrients |
| Recipes.Recipe.SetName | cpp/src/core/recipe.cpp:113-118 | an empty name fails and keeps the old name; otherwise the name is assigned |
| Recipes.Recipe.SetDescription | cpp/src/core/recipe.cpp:120-122 | assigns the description and keeps the recipe valid |
| Recipes.Recipe.SetDifficulty | cpp/src/core/recipe.cpp:124-126 | assigns the difficulty and keeps the recipe valid |
| Recipes.Recipe.SetServings | cpp/src/core/recipe.cpp:128-133 | servings ≤ 0 fail and keep the old count; otherwise the count is assigned |
| Recipes.Recipe.AddIngredient | cpp/src/core/recipe.cpp:136-142 | a null ingredient fails with no change; otherwise it is appended and the nutrient map is the roll-up of all ingredients |
| Recipes.Recipe.RemoveIngredient | cpp/src/core/recipe.cpp:144-154 | the first ingredient with the id is erased, an absent id changes nothing, and the nutrient map stays the roll-up |
| Recipes.Recipe.RecalculateNutritionalInfo | cpp/src/core/recipe.cpp:327-336 | clearing and accumulating key by key leaves exactly the per-key sum over the ingredients' maps |
| Recipes.Recipe.UpdateNutritionalInfo | cpp/src/core/recipe.cpp:250-252 | from any nutrient map, a stale one included, the recipe ends valid with the map equal to the roll-up of its ingredients; a map that already was the roll-up is left unchanged |
| Recipes.Recipe.CalculateTotalCost | cpp/src/core/recipe.cpp:242-248 | the accumulator loop returns the sum of quantity × unit price, which is not negative |
| Recipes.Recipe.GetTotalTime | cpp/src/core/recipe.cpp:92-98 | the accumulator loop returns the sum of the step durations |
| Recipes.Recipe.AddStep | cpp/src/core/recipe.cpp:156-183 | the in-place find, bump loop and insertion give exactly `StepOrdering.AddStep`'s result and error, and keep the steps strictly sorted and positive |
| Recipes.Recipe.BumpOrders | cpp/src/core/recipe.cpp:167-173 | the collision loop raises by one exactly the steps whose order is at or above the new one |
| Recipes.Recipe.RemoveStep | cpp/src/core/recipe.cpp:185-200 | the in-place erase and renumbering loop give exactly `StepOrdering.RemoveStep`'s result |
| Recipes.Recipe.RenumberSteps | cpp/src/core/recipe.cpp:194-198 | the renumbering loop gives the steps orders 1, 2, 3, ... in their current sequence |
| Recipes.Recipe.ShiftOthers | cpp/src/core/recipe.cpp:220-231 | the adjusting loop moves exactly the steps between the two orders one order toward the vacated slot |
| Recipes.Recipe.ReorderStep | cpp/src/core/recipe.cpp:202-240 | validation before any change, then the extract, shift loop and reinsertion give exactly `StepOrdering.ReorderStep`'s result or error |
| Recipes.Recipe.IsValid | cpp/src/core/recipe.cpp:254-259 | on a recipe that keeps its invariant, valid exactly when it has at least one ingredient and one step |
| Recipes.ValidityScenario | cpp/src/core/recipe.cpp:254-259 | a new named recipe is not valid, nor is it with only an ingredient; with a step too it is valid, and its time and cost are that step's and that ingredient's |
| Ingredients.UnitToString | cpp/tests/core/ingredient.cpp:135-149 | every unit's code is non-empty and is read back as that unit |
| Ingredients.StringToUnit | cpp/tests/core/ingredient.cpp:151-163 | an unknown string fails with "Unknown unit string: " followed by it |
| Ingredients.CodeRoundTrip | cpp/tests/core/ingredient.cpp:135-163 | every accepted code is the code of the unit it names, and a string fails exactly when no unit has it as its code |
| Ingredients.UnitCodesDistinct | cpp/tests/core/ingredient.cpp:135-149 | no two units share a code |
| Ingredients.IngredientValue.Cost | cpp/tests/core/ingredient.cpp:97-99 | quantity × unit price is never negative for a well-formed ingredient |
| Ingredients.IngredientValue.IsLowQuantity | cpp/tests/core/ingredient.cpp:105-120 | low at or below 100 g or ml, 0.1 kg or l, or 2 pieces; teaspoons, tablespoons, cups, ounces and pounds are never low |
| Ingredients.ScaledCost | cpp/tests/core/ingredient.cpp:79-84 | scaling multiplies the cost by the factor, changes only the quantity, and keeps a well-formed ingredient well formed for a positive factor |
| Ingredients.ScaledTwice | cpp/tests/core/ingredient.cpp:79-84 | scaling by f then by g is scaling by f·g |
| Ingredients.Ingredient.constructor | cpp/tests/core/ingredient.cpp:13-26 | any name, the empty one included; quantity and price 0, grams, no nutrients |
| Ingredients.Ingredient.Create | cpp/tests/core/ingredient.cpp:28-37 | a negative quantity fails and makes no ingredient; otherwise a fresh valid ingredient with that quantity and unit and price 0 |
| Ingredients.Ingredient.SetName | cpp/tests/core/ingredient.cpp:49-54 | an empty name fails with no change; otherwise only the name changes |
| Ingredients.Ingredient.SetQuantity | cpp/tests/core/ingredient.cpp:56-61 | a negative quantity fails with no change; otherwise only the quantity changes, to exactly the value |
| Ingredients.Ingredient.SetUnit | cpp/tests/core/ingredient.cpp:63-65 | only the unit changes; the quantity is not converted |
| Ingredients.Ingredient.SetUnitPrice | cpp/tests/core/ingredient.cpp:67-72 | a negative price fails with no change; otherwise only the price changes, to exactly the value |
| Ingredients.Ingredient.SetExpiryDate | cpp/tests/core/ingredient.cpp:74-76 | only the expiry date changes |
| Ingredients.Ingredient.Scale | cpp/tests/core/ingredient.cpp:79-84 | a factor ≤ 0 fails with no change; otherwise the quantity, and with it the cost, is multiplied by the factor |
| Ingredients.Ingredient.AddNutritionalInfo | cpp/tests/core/ingredient.cpp:86-91 | a negative value fails with no change; otherwise the nutrient is set to the value, replacing any old one, and no other nutrient changes |
| Ingredients.Ingredient.RemoveNutritionalInfo | cpp/tests/core/ingredient.cpp:93-95 | only that nutrient is removed; an absent nutrient changes nothing |
| IngredientLists.TotalCostNonNegative | cpp/src/core/recipe.cpp:242-248 | the total cost, quantity × unit price summed front to back, is never negative for well-formed ingredients |
| IngredientLists.TotalCostWithout | cpp/tests/core/meal.cpp:97-107 | taking out one ingredient lowers the total cost by exactly its cost |
| IngredientLists.ScaleAllCost | cpp/tests/core/meal.cpp:118-124 | scaling every ingredient by a factor multiplies the total cost by it |
| IngredientLists.ScaleAllWellFormed | cpp/tests/core/meal.cpp:118-121 | a positive factor keeps every ingredient well formed |
| IngredientLists.ScaleAllTwice | cpp/tests/core/meal.cpp:118-121 | scaling by a then by b is scaling by a·b |
| IngredientLists.FirstWithId | cpp/src/core/recipe.cpp:145-148 | `find_if` by id: none exactly when no ingredient has the id; otherwise an index holding it with no earlier one holding it |
| IngredientLists.FindById | cpp/tests/core/meal.cpp:98-101 | the search loop returns exactly the first index with that id |
| IngredientLists.RemoveFirstWithId | cpp/src/core/recipe.cpp:144-154 | an absent id leaves the list as it is; a present one makes it exactly one shorter |
| IngredientLists.RemoveFirstWithIdSpec | cpp/src/core/recipe.cpp:144-154 | an absent id changes nothing; otherwise exactly the first match is taken out, the others keep their sequence, and later matches stay |
| IngredientLists.RemoveFirstWithIdWellFormed | cpp/tests/core/meal.cpp:97-107 | removal keeps every remaining ingredient well formed |
| IngredientLists.AddNutrients | cpp/src/core/recipe.cpp:331-334 | adding one map into another: the keys of both, each value the sum of the two |
| IngredientLists.NutrientTotals | cpp/src/core/recipe.cpp:327-336 | every nutrient's roll-up entry, read as 0 where absent, is that nutrient summed over all the ingredients |
| IngredientLists.NutrientTotalsSum | cpp/src/core/recipe.cpp:327-336 | the roll-up has a key exactly when some ingredient lists it, and its value is that nutrient summed over all ingredients, never overwritten |
| IngredientLists.NutrientSumNonNegative | cpp/tests/core/meal.cpp:138-148 | with no negative nutrient values, no nutrient sum is negative |
| Meals.Rescaled | cpp/tests/core/meal.cpp:109-125 | rescaling from s to n servings keeps the list's length and multiplies each quantity by n/s, leaving every other field alone; n = s changes nothing |
| Meals.RatioChain | cpp/tests/core/meal.cpp:118 | (n/s)·(m/n) = m/s |
| Meals.RescaledTwice | cpp/tests/core/meal.cpp:109-125 | rescaling s→n then n→m leaves the same quantities as rescaling s→m |
| Meals.RescaledCost | cpp/tests/core/meal.cpp:118-124 | rescaling multiplies the total cost by new/old and keeps the ingredients well formed |
| Meals.Meal.Default | cpp/tests/core/meal.cpp:10-17 | "New Meal", breakfast, planned at the given time, no recipe or ingredients, cost 0, one serving |
| Meals.Meal.constructor | cpp/tests/core/meal.cpp:28-35 | the given name and type, planned, no recipe or ingredients, cost 0, one serving |
| Meals.Meal.SetName | cpp/tests/core/meal.cpp:48-53 | an empty name fails and keeps the old name; otherwise the name is assigned |
| Meals.Meal.SetType | cpp/tests/core/meal.cpp:55-57 | assigns the type |
| Meals.Meal.SetStatus | cpp/tests/core/meal.cpp:59-61 | assigns the status |
| Meals.Meal.SetPlannedTime | cpp/tests/core/meal.cpp:63-65 | assigns the planned time |
| Meals.Meal.SetRecipe | cpp/tests/core/meal.cpp:67-78 | a recipe replaces the ingredients with copies of its own, in order and unscaled, and the cost becomes their sum; null only clears the recipe; servings are kept |
| Meals.Meal.SetServings | cpp/tests/core/meal.cpp:80-86 | servings ≤ 0 fail with no change; otherwise only the count changes, and ingredients and cost stay as they were |
| Meals.Meal.AddIngredient | cpp/tests/core/meal.cpp:89-95 | a null ingredient fails with no change; otherwise it is appended and the cost grows by its cost |
| Meals.Meal.RemoveIngredient | cpp/tests/core/meal.cpp:97-107 | the first ingredient with the id is erased and the cost drops by exactly its cost; an absent id changes nothing |
| Meals.Meal.ScaleServings | cpp/tests/core/meal.cpp:109-125 | n ≤ 0 fails with no change; the same count is a no-op; otherwise every quantity is multiplied by n/servings, servings becomes n, and the cost is the new sum, which is old cost × n/servings |
| Meals.Meal.UpdateCost | cpp/tests/core/meal.cpp:127-132 | the accumulator loop sets the cost to the sum of the ingredient costs, which is not negative |
| Meals.Meal.IsComplete | cpp/tests/core/meal.cpp:134-136 | complete exactly when there is an ingredient and the status is shopping, preparing, ready or consumed |
| Meals.Meal.CalculateNutritionalValue | cpp/tests/core/meal.cpp:138-148 | only "calories" entries are summed, a missing entry adds 0, the result equals the calories entry of the roll-up, and it is not negative |
| Meals.AddAndRemoveScenario | cpp/tests/core/test_meal.cpp:57-64 | adding an ingredient gives one, removing it by id leaves none |
| Meals.ScaleServingsScenario | cpp/tests/core/test_meal.cpp:66-72 | setServings(2) gives 2 servings and scaleServings(4) gives 4, the two counts the test checks; the 100 g before and 200 g after come from an ingredient the model adds, which the test does not |
| Meals.EstimatedCostScenario | cpp/tests/core/test_meal.cpp:74-87 | 100 g at 0.1 and 200 g at 0.2 cost 50 |
| Meals.InvalidOperationsScenario | cpp/tests/core/test_meal.cpp:110-124 | empty name, servings 0 and -1, rescale 0 and -2, and a null ingredient all fail and leave the meal unchanged |
| Meals.RecipeIntegrationScenario | cpp/tests/core/test_meal.cpp:126-137 | after setRecipe the meal holds that recipe and its two ingredients |
| Meals.NutritionalScenario | cpp/tests/core/test_meal.cpp:139-150 | 200 and 300 calories add up to 500 |
| Meals.CompletionScenario | cpp/tests/core/test_meal.cpp:152-159 | a planned meal without ingredients is not complete; with an ingredient and in preparation it is |

## Left out

- The storage repository (`storage.hpp`): it has declarations only, and it is a mutex-guarded singleton doing file I/O.
- JSON `serialize`/`deserialize` of recipes, ingredients and meals: they rely on the nlohmann::json library. Only the step replay in `Recipe::deserialize` is modelled (`ReplayRebuilds`). The later overwrite of the nutrient map from the JSON is not modelled. `Meal::deserialize` (cpp/tests/core/meal.cpp:178-179) copies `estimatedCost_` and `servings_` from the JSON unchecked, so a C++ meal can hold `servings_ <= 0` and a cost that is not the sum of its ingredients. On such a meal `scaleServings` divides by a non-positive count (meal.cpp:118), and `setRecipe` assigns the recipe and refills the ingredients before `scaleServings(servings_)` throws (meal.cpp:68-75), a partial update. The model's meal invariant excludes these states.
- Random id generation: ids are strings supplied by the caller.
- The clock: `Ingredient::isExpired` is not modelled. The meal constructors take the current time as a parameter.
- IEEE-754 rounding: `double` is `real`, and every equality is exact. `EXPECT_DOUBLE_EQ` tolerances are not needed.
- `shared_ptr` aliasing: recipes and meals hold ingredient values, not pointers. The C++ holds pointers, and the model misses these behaviours:
  - The same pointer added twice to a meal is scaled twice by `Meal::scaleServings`. With factor 2, both entries end at 4·q and the cost at 8·q·price; the model gives 2·q each and 4·q·price.
  - An ingredient changed after `Recipe::addIngredient` leaves the recipe's nutrient map stale until `updateNutritionalInfo`. `Meal::setRecipe` copies the objects as they are at that moment.
  - An ingredient shared by two meals: scaling one meal changes the other's quantities but not its estimated cost.
  - `Recipes.Recipe.Valid` (map equals the roll-up) and `Meals.Meal.Valid` (cost equals the sum) hold only because the model keeps the lists by value. Under aliasing the C++ does not keep them.
- Integer widths: step orders, servings and durations are unbounded `int`. The signed overflow of `existing.order++` at `INT_MAX` (cpp/src/core/recipe.cpp:171) and an overflowing `std::chrono::minutes` sum in `getTotalTime` are not modelled.
- Declared but never defined: `Recipe::scaleServings`, `Ingredient::convertUnit` and `Meal::recalculateEstimatedCost`.
- `std::sort` is not run step by step. The sorted result is the new step inserted at its slot, and `SortUnique` shows that no other arrangement is strictly sorted.
- Recipes.Recipe.RecalculateNutritionalInfo: the C++ iterates each `std::map` in key order. The model takes the keys in any order, which gives the same sums.
- Meals.Meal.constructor: `Meal(name)` is this constructor with type `Breakfast`.
- Ingredients.Ingredient.constructor: it stands for both the default and the name-only constructor. The default one leaves the name empty, which is the constructor called with `""`.
- Recipes.Recipe.Create: the name-only and the name-and-description recipe constructors throw on an empty name. `Create` models both, with an empty description for the name-only one.
- Meals.Meal.ScaleServings: it requires positive servings and well-formed ingredients. Every modelled operation keeps both, so no modelled caller reaches it without them; only the unmodelled `Meal::deserialize` can break them.
