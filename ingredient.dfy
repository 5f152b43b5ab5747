/** An ingredient: a named quantity in some unit, with a price per unit, an expiry
    date and a map of nutrient values. `IngredientValue` is the ingredient as a
    value (what a recipe or a meal holds); `Ingredient` is the object whose
    validating setters change it in place. */
module Ingredients {
  import opened Outcomes

  /** The units an ingredient is measured in. */
  datatype Unit = Gram | Kilogram | Milliliter | Liter | Piece | Teaspoon | Tablespoon | Cup | Ounce | Pound

  /** The short code a unit is stored and shown as. */
  function UnitToString(u: Unit): (code: string)
    ensures StringToUnit(code) == Success(u)
    ensures code != []
  {
    match u
    case Gram => "g"
    case Kilogram => "kg"
    case Milliliter => "ml"
    case Liter => "l"
    case Piece => "pc"
    case Teaspoon => "tsp"
    case Tablespoon => "tbsp"
    case Cup => "cup"
    case Ounce => "oz"
    case Pound => "lb"
  }

  /** The unit a short code names; any other string is rejected. */
  function StringToUnit(code: string): (r: Result<Unit>)
    ensures r.Failure? ==> r.message == "Unknown unit string: " + code
  {
    if code == "g" then Success(Gram)
    else if code == "kg" then Success(Kilogram)
    else if code == "ml" then Success(Milliliter)
    else if code == "l" then Success(Liter)
    else if code == "pc" then Success(Piece)
    else if code == "tsp" then Success(Teaspoon)
    else if code == "tbsp" then Success(Tablespoon)
    else if code == "cup" then Success(Cup)
    else if code == "oz" then Success(Ounce)
    else if code == "lb" then Success(Pound)
    else Failure("Unknown unit string: " + code)
  }

  /** Every accepted code is the code of the unit it names, and a string that is no
      unit's code is rejected: the two tables are inverse bijections. */
  lemma CodeRoundTrip(code: string)
    ensures StringToUnit(code).Success? ==> UnitToString(StringToUnit(code).value) == code
    ensures StringToUnit(code).Failure? <==> forall u: Unit :: UnitToString(u) != code
  {
    if StringToUnit(code).Failure? {
      forall u: Unit ensures UnitToString(u) != code {
        assert StringToUnit(UnitToString(u)).Success?;
      }
    } else {
      var u := StringToUnit(code).value;
      assert UnitToString(u) == code;
    }
  }

  /** Two units never share a code. */
  lemma UnitCodesDistinct(u: Unit, v: Unit)
    ensures UnitToString(u) == UnitToString(v) ==> u == v
  {
    assert StringToUnit(UnitToString(u)) == Success(u);
    assert StringToUnit(UnitToString(v)) == Success(v);
  }

  /** The quantities at or below which an ingredient counts as running low; units
      without an entry are never low. */
  const LowThresholds: map<Unit, real> :=
    map[Gram := 100.0, Kilogram := 0.1, Milliliter := 100.0, Liter := 0.1, Piece := 2.0]

  /** An ingredient as a value; `expiryDate` is a point in time, in seconds. */
  datatype IngredientValue = IngredientValue(
    id: string,
    name: string,
    quantity: real,
    unit: Unit,
    unitPrice: real,
    expiryDate: int,
    nutritionalInfo: map<string, real>)
  {
    /** What every setter keeps true: no negative quantity, price or nutrient value. */
    ghost predicate WellFormed() {
      quantity >= 0.0 && unitPrice >= 0.0 &&
      forall k :: k in nutritionalInfo ==> nutritionalInfo[k] >= 0.0
    }

    /** Ingredient::calculateCost. */
    function Cost(): (c: real)
      ensures WellFormed() ==> c >= 0.0
    {
      quantity * unitPrice
    }

    /** The quantity after Ingredient::scale with a positive factor. */
    function Scaled(factor: real): IngredientValue {
      this.(quantity := quantity * factor)
    }

    /** Ingredient::isLowQuantity: looked up in the threshold table. */
    function IsLowQuantity(): (low: bool)
      ensures unit == Gram || unit == Milliliter ==> (low <==> quantity <= 100.0)
      ensures unit == Kilogram || unit == Liter ==> (low <==> quantity <= 0.1)
      ensures unit == Piece ==> (low <==> quantity <= 2.0)
      ensures unit in {Teaspoon, Tablespoon, Cup, Ounce, Pound} ==> !low
    {
      if unit in LowThresholds then quantity <= LowThresholds[unit] else false
    }
  }

  /** Scaling multiplies the cost by the factor and leaves everything but the
      quantity alone; a positive factor keeps the ingredient well formed. */
  lemma ScaledCost(x: IngredientValue, factor: real)
    ensures x.Scaled(factor).Cost() == factor * x.Cost()
    ensures x.Scaled(factor).(quantity := x.quantity) == x
    ensures x.WellFormed() && factor > 0.0 ==> x.Scaled(factor).WellFormed()
  {
    assert x.quantity * factor * x.unitPrice == factor * (x.quantity * x.unitPrice);
  }

  /** Scaling by two positive factors in turn is scaling by their product. */
  lemma ScaledTwice(x: IngredientValue, f: real, g: real)
    ensures x.Scaled(f).Scaled(g) == x.Scaled(f * g)
  {
    assert x.quantity * f * g == x.quantity * (f * g);
  }

  /** The ingredient object. */
  class Ingredient {
    const id: string
    var name: string
    var quantity: real
    var unit: Unit
    var unitPrice: real
    var expiryDate: int
    var nutritionalInfo: map<string, real>

    ghost predicate Valid()
      reads this
    {
      Value().WellFormed()
    }

    /** The ingredient's current state as a value. */
    function Value(): IngredientValue
      reads this
    {
      IngredientValue(id, name, quantity, unit, unitPrice, expiryDate, nutritionalInfo)
    }

    /** The default and the name-only constructors: nothing measured yet, in grams, free.
        Any name is accepted here, the empty one included. */
    constructor (id: string, name: string)
      ensures Valid()
      ensures Value() == IngredientValue(id, name, 0.0, Gram, 0.0, 0, map[])
    {
      this.id := id;
      this.name := name;
      quantity := 0.0;
      unit := Gram;
      unitPrice := 0.0;
      expiryDate := 0;
      nutritionalInfo := map[];
    }

    /** The constructor taking a quantity and unit: a negative quantity throws and no
        ingredient is made. */
    static method Create(id: string, name: string, quantity: real, unit: Unit)
      returns (outcome: Outcome, ingredient: Ingredient?)
      ensures outcome == if quantity < 0.0 then InvalidArgument("Quantity cannot be negative") else Ok
      ensures ingredient != null <==> outcome.Ok?
      ensures ingredient != null ==>
        fresh(ingredient) && ingredient.Valid() &&
        ingredient.Value() == IngredientValue(id, name, quantity, unit, 0.0, 0, map[])
    {
      if quantity < 0.0 {
        return InvalidArgument("Quantity cannot be negative"), null;
      }
      ingredient := new Ingredient(id, name);
      ingredient.quantity := quantity;
      ingredient.unit := unit;
      outcome := Ok;
    }

    /** Ingredient::setName: an empty name throws and changes nothing. */
    method SetName(newName: string) returns (outcome: Outcome)
      modifies this`name
      ensures outcome == if newName == "" then InvalidArgument("Ingredient name cannot be empty") else Ok
      ensures Value() == if outcome.Ok? then old(Value()).(name := newName) else old(Value())
    {
      if newName == "" {
        return InvalidArgument("Ingredient name cannot be empty");
      }
      name := newName;
      outcome := Ok;
    }

    /** Ingredient::setQuantity: a negative quantity throws and changes nothing. */
    method SetQuantity(newQuantity: real) returns (outcome: Outcome)
      requires Valid()
      modifies this`quantity
      ensures Valid()
      ensures outcome == if newQuantity < 0.0 then InvalidArgument("Quantity cannot be negative") else Ok
      ensures Value() == if outcome.Ok? then old(Value()).(quantity := newQuantity) else old(Value())
    {
      if newQuantity < 0.0 {
        return InvalidArgument("Quantity cannot be negative");
      }
      quantity := newQuantity;
      outcome := Ok;
    }

    /** Ingredient::setUnit: the quantity is not converted. */
    method SetUnit(newUnit: Unit)
      modifies this`unit
      ensures Value() == old(Value()).(unit := newUnit)
    {
      unit := newUnit;
    }

    /** Ingredient::setUnitPrice: a negative price throws and changes nothing. */
    method SetUnitPrice(price: real) returns (outcome: Outcome)
      requires Valid()
      modifies this`unitPrice
      ensures Valid()
      ensures outcome == if price < 0.0 then InvalidArgument("Price cannot be negative") else Ok
      ensures Value() == if outcome.Ok? then old(Value()).(unitPrice := price) else old(Value())
    {
      if price < 0.0 {
        return InvalidArgument("Price cannot be negative");
      }
      unitPrice := price;
      outcome := Ok;
    }

    /** Ingredient::setExpiryDate. */
    method SetExpiryDate(date: int)
      modifies this`expiryDate
      ensures Value() == old(Value()).(expiryDate := date)
    {
      expiryDate := date;
    }

    /** Ingredient::scale: a factor that is not positive throws and changes nothing;
        otherwise the quantity, and with it the cost, is multiplied by the factor. */
    method Scale(factor: real) returns (outcome: Outcome)
      requires Valid()
      modifies this`quantity
      ensures Valid()
      ensures outcome == if factor <= 0.0 then InvalidArgument("Scale factor must be positive") else Ok
      ensures Value() == if outcome.Ok? then old(Value()).Scaled(factor) else old(Value())
      ensures Value().Cost() == if outcome.Ok? then factor * old(Value().Cost()) else old(Value().Cost())
    {
      if factor <= 0.0 {
        return InvalidArgument("Scale factor must be positive");
      }
      ScaledCost(Value(), factor);
      quantity := quantity * factor;
      outcome := Ok;
    }

    /** Ingredient::addNutritionalInfo: a negative value throws and changes nothing;
        otherwise the nutrient is set to the value, replacing any earlier one, and no
        other nutrient changes. */
    method AddNutritionalInfo(nutrient: string, value: real) returns (outcome: Outcome)
      requires Valid()
      modifies this`nutritionalInfo
      ensures Valid()
      ensures outcome == if value < 0.0 then InvalidArgument("Nutritional value cannot be negative") else Ok
      ensures outcome.Ok? ==> nutrient in nutritionalInfo && nutritionalInfo[nutrient] == value
      ensures forall k :: k != nutrient ==>
        (k in nutritionalInfo <==> k in old(nutritionalInfo)) &&
        (k in nutritionalInfo ==> nutritionalInfo[k] == old(nutritionalInfo)[k])
      ensures Value() == if outcome.Ok? then old(Value()).(nutritionalInfo := old(nutritionalInfo)[nutrient := value])
                         else old(Value())
    {
      if value < 0.0 {
        return InvalidArgument("Nutritional value cannot be negative");
      }
      nutritionalInfo := nutritionalInfo[nutrient := value];
      outcome := Ok;
    }

    /** Ingredient::removeNutritionalInfo: removes that one nutrient; absent, nothing
        changes. */
    method RemoveNutritionalInfo(nutrient: string)
      requires Valid()
      modifies this`nutritionalInfo
      ensures Valid()
      ensures nutrient !in nutritionalInfo
      ensures nutrient !in old(nutritionalInfo) ==> nutritionalInfo == old(nutritionalInfo)
      ensures forall k :: k != nutrient ==>
        (k in nutritionalInfo <==> k in old(nutritionalInfo)) &&
        (k in nutritionalInfo ==> nutritionalInfo[k] == old(nutritionalInfo)[k])
      ensures Value() == old(Value()).(nutritionalInfo := old(nutritionalInfo) - {nutrient})
    {
      nutritionalInfo := nutritionalInfo - {nutrient};
    }
  }
}
