/**
 * The stored rows (backend/models.py). `id` is each table's primary key; name,
 * quantity and expiry date of a food and name and stock level of a supply are
 * never null.
 */
module Models {
  import opened Dates
  import opened Schemas

  datatype FoodItem = FoodItem(id: int, name: string, quantity: int, expiry: Date)

  datatype SupplyItem = SupplyItem(id: int, name: string, stockLevel: StockLevel)

  /** `FoodItem(**data.model_dump())` once the database has assigned `id`. */
  function NewFoodItem(id: int, data: FoodCreate): FoodItem {
    FoodItem(id, data.name, data.quantity, data.expiry)
  }

  /** `SupplyItem(**data.model_dump())` once the database has assigned `id`. */
  function NewSupplyItem(id: int, data: SupplyCreate): SupplyItem {
    SupplyItem(id, data.name, data.stockLevel)
  }
}
