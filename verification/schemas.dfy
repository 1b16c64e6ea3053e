/**
 * The request and response shapes of the API (backend/schemas.py): the three
 * stock levels, create bodies with their defaults, update bodies whose every
 * field may be left out, and the responses that add a computed flag.
 */
module Schemas {
  import opened Wrappers
  import opened Dates

  /** `StockLevel`: 多い (plenty), 普通 (normal), 少ない (low). */
  datatype StockLevel = High | Normal | Low

  /** The string value of each level, as sent and stored. */
  function StockLevelText(level: StockLevel): string {
    match level
    case High => "多い"
    case Normal => "普通"
    case Low => "少ない"
  }

  /** Validation of a request string against the enum: exactly the three values are accepted. */
  function ParseStockLevel(s: string): (r: Option<StockLevel>)
    ensures r.Some? <==> s == "多い" || s == "普通" || s == "少ない"
    ensures r.Some? ==> StockLevelText(r.value) == s
  {
    if s == "多い" then Some(High)
    else if s == "普通" then Some(Normal)
    else if s == "少ない" then Some(Low)
    else None
  }

  /** Every level is accepted back from its own text, and no two levels share a text. */
  lemma StockLevelRoundTrip(level: StockLevel, other: StockLevel)
    ensures ParseStockLevel(StockLevelText(level)) == Some(level)
    ensures StockLevelText(level) == StockLevelText(other) ==> level == other
  {
  }

  const DefaultQuantity: int := 1
  const DefaultStockLevel: StockLevel := Normal

  datatype FoodCreate = FoodCreate(name: string, quantity: int, expiry: Date)

  /** `FoodItemCreate(...)`: a body without a quantity gets 1; any integer quantity is taken as sent. */
  function NewFoodCreate(name: string, quantity: Option<int>, expiry: Date): (r: FoodCreate)
    ensures r.name == name && r.expiry == expiry
    ensures quantity.None? ==> r.quantity == 1
    ensures quantity.Some? ==> r.quantity == quantity.value
  {
    FoodCreate(name, if quantity.Some? then quantity.value else DefaultQuantity, expiry)
  }

  /** `FoodItemUpdate`: `None` is a field the request left unset. */
  datatype FoodUpdate = FoodUpdate(name: Option<string>, quantity: Option<int>, expiry: Option<Date>)

  datatype FoodResponse = FoodResponse(id: int, name: string, quantity: int, expiry: Date, isExpiringSoon: bool)

  datatype SupplyCreate = SupplyCreate(name: string, stockLevel: StockLevel)

  /** `SupplyItemCreate(...)`: a body without a stock level gets 普通. */
  function NewSupplyCreate(name: string, stockLevel: Option<StockLevel>): (r: SupplyCreate)
    ensures r.name == name
    ensures stockLevel.None? ==> r.stockLevel == Normal
    ensures stockLevel.Some? ==> r.stockLevel == stockLevel.value
  {
    SupplyCreate(name, if stockLevel.Some? then stockLevel.value else DefaultStockLevel)
  }

  /** `SupplyItemUpdate`: `None` is a field the request left unset. */
  datatype SupplyUpdate = SupplyUpdate(name: Option<string>, stockLevel: Option<StockLevel>)

  datatype SupplyResponse = SupplyResponse(id: int, name: string, stockLevel: StockLevel, isLow: bool)

  /** The status and `detail` of an `HTTPException`. */
  datatype HttpError = HttpError(status: int, detail: string)

  /** `RecipeResponse`: the recipe text. */
  datatype RecipeResponse = RecipeResponse(recipe: string)
}
