/**
 * The inventory backend (backend/main.py): the two tables, the two classifiers
 * with the response builders `_food_response` and `_supply_response`, and the
 * list, create, update and delete endpoints. `today` is always a parameter, the
 * ordinal of `date.today()`.
 */
module Store {
  import opened Wrappers
  import opened Text
  import opened Dates
  import opened Sequences
  import opened Schemas
  import opened Models

  /**
   * `(f.expiry_date - today).days`: positive while today is before the expiry
   * date, zero on that date, negative once it has passed.
   */
  function DaysLeft(f: FoodItem, today: int): (d: int)
    ensures forall t: Date :: Ordinal(t) == today ==>
      && (d > 0 <==> Before(t, f.expiry))
      && (d == 0 <==> t == f.expiry)
      && (d < 0 <==> Before(f.expiry, t))
  {
    OrdinalOrderAll(f.expiry);
    Ordinal(f.expiry) - today
  }

  /** `item.expiry_date <= date.today() + timedelta(days=3)`: three days or fewer are left, a past date included. */
  predicate IsExpiringSoon(f: FoodItem, today: int)
    ensures IsExpiringSoon(f, today) <==> DaysLeft(f, today) <= 3
  {
    Ordinal(f.expiry) <= today + 3
  }

  /** `item.stock_level == "少ない"`: only the low level, of the three, is low. */
  predicate IsLow(s: SupplyItem)
    ensures IsLow(s) <==> s.stockLevel == Low
  {
    StockLevelRoundTrip(s.stockLevel, Low);
    StockLevelText(s.stockLevel) == "少ない"
  }

  /** `_food_response`: the stored fields and the expiring-soon flag. */
  function FoodResponseOf(f: FoodItem, today: int): (r: FoodResponse)
    ensures r.id == f.id && r.name == f.name && r.quantity == f.quantity && r.expiry == f.expiry
    ensures r.isExpiringSoon <==> DaysLeft(f, today) <= 3
  {
    FoodResponse(f.id, f.name, f.quantity, f.expiry, IsExpiringSoon(f, today))
  }

  /** `_supply_response`: the stored fields and the low flag, which only 少ない raises. */
  function SupplyResponseOf(s: SupplyItem): (r: SupplyResponse)
    ensures r.id == s.id && r.name == s.name && r.stockLevel == s.stockLevel
    ensures r.isLow <==> s.stockLevel == Low
  {
    SupplyResponse(s.id, s.name, s.stockLevel, IsLow(s))
  }

  /**
   * The flag agrees with Python's own comparison of `date` values: a food is
   * expiring soon iff its expiry date is not after the date three days from today.
   */
  lemma ExpiringSoonIsDateComparison(f: FoodItem, today: Date, threshold: Date)
    requires Ordinal(threshold) == Ordinal(today) + 3
    ensures IsExpiringSoon(f, Ordinal(today)) <==> !Before(threshold, f.expiry)
  {
    OrdinalOrder(threshold, f.expiry);
  }

  /** Foods ordered by expiry date (`order_by(FoodItem.expiry_date)`). */
  predicate ExpiryLe(a: FoodItem, b: FoodItem) {
    Ordinal(a.expiry) <= Ordinal(b.expiry)
  }

  /** Supplies ordered by name (`order_by(SupplyItem.name)`). */
  predicate NameLe(a: SupplyItem, b: SupplyItem) {
    TextLe(a.name, b.name)
  }

  lemma ExpiryOrder()
    ensures TotalPreorder(ExpiryLe)
  {
  }

  lemma NameOrder()
    ensures TotalPreorder(NameLe)
  {
    forall a: SupplyItem, b: SupplyItem
      ensures NameLe(a, b) || NameLe(b, a)
    {
      TextLeTotal(a.name, b.name);
    }
    forall a: SupplyItem, b: SupplyItem, c: SupplyItem | NameLe(a, b) && NameLe(b, c)
      ensures NameLe(a, c)
    {
      TextLeTransitive(a.name, b.name, c.name);
    }
  }

  /** The setattr loop of `update_food`: every field the request set is written, no other. */
  function ApplyFoodUpdate(f: FoodItem, u: FoodUpdate): (r: FoodItem)
    ensures r.id == f.id
    ensures r.name == if u.name.Some? then u.name.value else f.name
    ensures r.quantity == if u.quantity.Some? then u.quantity.value else f.quantity
    ensures r.expiry == if u.expiry.Some? then u.expiry.value else f.expiry
  {
    f.(name := if u.name.Some? then u.name.value else f.name,
       quantity := if u.quantity.Some? then u.quantity.value else f.quantity,
       expiry := if u.expiry.Some? then u.expiry.value else f.expiry)
  }

  /** The setattr loop of `update_supply`. */
  function ApplySupplyUpdate(s: SupplyItem, u: SupplyUpdate): (r: SupplyItem)
    ensures r.id == s.id
    ensures r.name == if u.name.Some? then u.name.value else s.name
    ensures r.stockLevel == if u.stockLevel.Some? then u.stockLevel.value else s.stockLevel
  {
    s.(name := if u.name.Some? then u.name.value else s.name,
       stockLevel := if u.stockLevel.Some? then u.stockLevel.value else s.stockLevel)
  }

  /** An update that sets no field changes nothing, and sending the same update twice is the same as once. */
  lemma UpdatesAreIdempotent(f: FoodItem, u: FoodUpdate, s: SupplyItem, v: SupplyUpdate)
    ensures ApplyFoodUpdate(f, FoodUpdate(None, None, None)) == f
    ensures ApplyFoodUpdate(ApplyFoodUpdate(f, u), u) == ApplyFoodUpdate(f, u)
    ensures ApplySupplyUpdate(s, SupplyUpdate(None, None)) == s
    ensures ApplySupplyUpdate(ApplySupplyUpdate(s, v), v) == ApplySupplyUpdate(s, v)
  {
  }

  /** `rows` lists every food of `table` once: what a full scan of the table returns. */
  ghost predicate ListsFoods(rows: seq<FoodItem>, table: map<int, FoodItem>) {
    && |rows| == |table|
    && (forall i :: 0 <= i < |rows| ==> rows[i].id in table && table[rows[i].id] == rows[i])
    && (forall i, j :: 0 <= i < j < |rows| ==> rows[i].id != rows[j].id)
    && (forall id :: id in table ==> exists i :: 0 <= i < |rows| && rows[i].id == id)
  }

  /** `rows` lists every supply of `table` once. */
  ghost predicate ListsSupplies(rows: seq<SupplyItem>, table: map<int, SupplyItem>) {
    && |rows| == |table|
    && (forall i :: 0 <= i < |rows| ==> rows[i].id in table && table[rows[i].id] == rows[i])
    && (forall i, j :: 0 <= i < j < |rows| ==> rows[i].id != rows[j].id)
    && (forall id :: id in table ==> exists i :: 0 <= i < |rows| && rows[i].id == id)
  }

  /** Rows with distinct ids are distinct rows. */
  lemma FoodRowsDistinct(rows: seq<FoodItem>, table: map<int, FoodItem>)
    requires ListsFoods(rows, table)
    ensures Distinct(rows)
  {
  }

  lemma SupplyRowsDistinct(rows: seq<SupplyItem>, table: map<int, SupplyItem>)
    requires ListsSupplies(rows, table)
    ensures Distinct(rows)
  {
  }

  /** A table scan in ascending key order, the order this model takes for an unordered query: each key once, with its row. */
  method ScanRows<T>(table: map<int, T>, bound: int) returns (ids: seq<int>, rows: seq<T>)
    requires 1 <= bound
    requires forall id :: id in table ==> 1 <= id < bound
    ensures |ids| == |rows| == |table|
    ensures forall i :: 0 <= i < |ids| ==> ids[i] in table && rows[i] == table[ids[i]]
    ensures forall i, j :: 0 <= i < j < |ids| ==> ids[i] < ids[j]
    ensures forall id :: id in table ==> id in ids
  {
    ids, rows := [], [];
    for k := 1 to bound
      invariant |ids| == |rows|
      invariant forall i :: 0 <= i < |ids| ==> ids[i] in table && rows[i] == table[ids[i]] && ids[i] < k
      invariant forall i, j :: 0 <= i < j < |ids| ==> ids[i] < ids[j]
      invariant forall id :: id in table && id < k ==> id in ids
    {
      if k in table {
        ids, rows := ids + [k], rows + [table[k]];
      }
    }
    assert Distinct(ids);
    DistinctCardinality(ids);
    assert (set id | id in ids) == table.Keys;
    assert |table.Keys| == |table|;
  }

  /** A listing ordered by `le` and holding exactly the rows of a scan lists the table too. */
  lemma SortedFoodsListed(rows: seq<FoodItem>, sorted: seq<FoodItem>, table: map<int, FoodItem>)
    requires ListsFoods(rows, table)
    requires multiset(sorted) == multiset(rows)
    ensures ListsFoods(sorted, table)
  {
    assert Distinct(rows);
    SubmultisetDistinct(rows, sorted);
    forall i | 0 <= i < |sorted|
      ensures sorted[i].id in table && table[sorted[i].id] == sorted[i]
    {
      assert sorted[i] in multiset(rows);
    }
    forall id | id in table
      ensures exists i :: 0 <= i < |sorted| && sorted[i].id == id
    {
      var k :| 0 <= k < |rows| && rows[k].id == id;
      assert rows[k] in multiset(sorted);
    }
  }

  lemma SortedSuppliesListed(rows: seq<SupplyItem>, sorted: seq<SupplyItem>, table: map<int, SupplyItem>)
    requires ListsSupplies(rows, table)
    requires multiset(sorted) == multiset(rows)
    ensures ListsSupplies(sorted, table)
  {
    assert Distinct(rows);
    SubmultisetDistinct(rows, sorted);
    forall i | 0 <= i < |sorted|
      ensures sorted[i].id in table && table[sorted[i].id] == sorted[i]
    {
      assert sorted[i] in multiset(rows);
    }
    forall id | id in table
      ensures exists i :: 0 <= i < |sorted| && sorted[i].id == id
    {
      var k :| 0 <= k < |rows| && rows[k].id == id;
      assert rows[k] in multiset(sorted);
    }
  }

  /** `[_food_response(i) for i in items]`. */
  function FoodResponses(rows: seq<FoodItem>, today: int): (r: seq<FoodResponse>)
    ensures |r| == |rows|
    ensures forall i :: 0 <= i < |r| ==> r[i] == FoodResponseOf(rows[i], today)
  {
    seq(|rows|, i requires 0 <= i < |rows| => FoodResponseOf(rows[i], today))
  }

  /** `[_supply_response(i) for i in items]`. */
  function SupplyResponses(rows: seq<SupplyItem>): (r: seq<SupplyResponse>)
    ensures |r| == |rows|
    ensures forall i :: 0 <= i < |r| ==> r[i] == SupplyResponseOf(rows[i])
  {
    seq(|rows|, i requires 0 <= i < |rows| => SupplyResponseOf(rows[i]))
  }

  /** A key-ordered scan of a table whose rows sit under their own ids lists every food once. */
  lemma ScannedFoods(ids: seq<int>, rows: seq<FoodItem>, table: map<int, FoodItem>)
    requires forall id :: id in table ==> table[id].id == id
    requires |ids| == |rows| == |table|
    requires forall i :: 0 <= i < |ids| ==> ids[i] in table && rows[i] == table[ids[i]]
    requires forall i, j :: 0 <= i < j < |ids| ==> ids[i] < ids[j]
    requires forall id :: id in table ==> id in ids
    ensures ListsFoods(rows, table)
  {
    forall id | id in table
      ensures exists i :: 0 <= i < |rows| && rows[i].id == id
    {
      var i :| 0 <= i < |ids| && ids[i] == id;
    }
  }

  /** A key-ordered scan of a table whose rows sit under their own ids lists every supply once. */
  lemma ScannedSupplies(ids: seq<int>, rows: seq<SupplyItem>, table: map<int, SupplyItem>)
    requires forall id :: id in table ==> table[id].id == id
    requires |ids| == |rows| == |table|
    requires forall i :: 0 <= i < |ids| ==> ids[i] in table && rows[i] == table[ids[i]]
    requires forall i, j :: 0 <= i < j < |ids| ==> ids[i] < ids[j]
    requires forall id :: id in table ==> id in ids
    ensures ListsSupplies(rows, table)
  {
    forall id | id in table
      ensures exists i :: 0 <= i < |rows| && rows[i].id == id
    {
      var i :| 0 <= i < |ids| && ids[i] == id;
    }
  }

  /** The responses to an ordered listing of the foods of a table. */
  lemma FoodListing(sorted: seq<FoodItem>, table: map<int, FoodItem>, today: int)
    requires ListsFoods(sorted, table) && SortedBy(sorted, ExpiryLe)
    ensures var r := FoodResponses(sorted, today);
      && |r| == |table|
      && (forall i :: 0 <= i < |r| ==> r[i].id in table && r[i] == FoodResponseOf(table[r[i].id], today))
      && (forall i, j :: 0 <= i < j < |r| ==> r[i].id != r[j].id)
      && (forall id :: id in table ==> exists i :: 0 <= i < |r| && r[i].id == id)
      && (forall i, j :: 0 <= i < j < |r| ==> Ordinal(r[i].expiry) <= Ordinal(r[j].expiry))
  {
    var r := FoodResponses(sorted, today);
    forall id | id in table
      ensures exists i :: 0 <= i < |r| && r[i].id == id
    {
      var i :| 0 <= i < |sorted| && sorted[i].id == id;
      assert r[i].id == id;
    }
    forall i, j | 0 <= i < j < |r|
      ensures Ordinal(r[i].expiry) <= Ordinal(r[j].expiry)
    {
      assert ExpiryLe(sorted[i], sorted[j]);
    }
  }

  /** The responses to an ordered listing of the supplies of a table. */
  lemma SupplyListing(sorted: seq<SupplyItem>, table: map<int, SupplyItem>)
    requires ListsSupplies(sorted, table) && SortedBy(sorted, NameLe)
    ensures var r := SupplyResponses(sorted);
      && |r| == |table|
      && (forall i :: 0 <= i < |r| ==> r[i].id in table && r[i] == SupplyResponseOf(table[r[i].id]))
      && (forall i, j :: 0 <= i < j < |r| ==> r[i].id != r[j].id)
      && (forall id :: id in table ==> exists i :: 0 <= i < |r| && r[i].id == id)
      && (forall i, j :: 0 <= i < j < |r| ==> TextLe(r[i].name, r[j].name))
  {
    var r := SupplyResponses(sorted);
    forall id | id in table
      ensures exists i :: 0 <= i < |r| && r[i].id == id
    {
      var i :| 0 <= i < |sorted| && sorted[i].id == id;
      assert r[i].id == id;
    }
    forall i, j | 0 <= i < j < |r|
      ensures TextLe(r[i].name, r[j].name)
    {
      assert NameLe(sorted[i], sorted[j]);
    }
  }

  /** The two tables, each keyed by its primary key, and the keys the database hands out next. */
  class Inventory {
    var foods: map<int, FoodItem>
    var supplies: map<int, SupplyItem>
    var nextFoodId: int
    var nextSupplyId: int

    /** Every row sits under its own id, and every id in use is below the next one to be handed out. */
    ghost predicate Valid()
      reads this
    {
      && 1 <= nextFoodId && 1 <= nextSupplyId
      && (forall id :: id in foods ==> foods[id].id == id && 1 <= id < nextFoodId)
      && (forall id :: id in supplies ==> supplies[id].id == id && 1 <= id < nextSupplyId)
    }

    constructor ()
      ensures Valid()
      ensures foods == map[] && supplies == map[]
    {
      foods, supplies := map[], map[];
      nextFoodId, nextSupplyId := 1, 1;
    }

    /** `create_food`: one new row under an id not in use, built from the body. */
    method CreateFood(data: FoodCreate, today: int) returns (r: FoodResponse)
      requires Valid()
      modifies this
      ensures Valid()
      ensures r.id !in old(foods)
      ensures foods == old(foods)[r.id := NewFoodItem(r.id, data)]
      ensures r == FoodResponseOf(NewFoodItem(r.id, data), today)
      ensures supplies == old(supplies)
      ensures nextFoodId == old(nextFoodId) + 1 && nextSupplyId == old(nextSupplyId)
    {
      var item := NewFoodItem(nextFoodId, data);
      foods := foods[nextFoodId := item];
      nextFoodId := nextFoodId + 1;
      r := FoodResponseOf(item, today);
    }

    /** `update_food`: 404 for an unknown id, with nothing changed; otherwise only the set fields of that row change. */
    method UpdateFood(id: int, data: FoodUpdate, today: int) returns (r: Result<FoodResponse, HttpError>)
      requires Valid()
      modifies this
      ensures Valid()
      ensures id !in old(foods) ==> r == Failure(HttpError(404, "食材が見つかりません")) && foods == old(foods)
      ensures id in old(foods) ==>
        && foods == old(foods)[id := ApplyFoodUpdate(old(foods)[id], data)]
        && r == Success(FoodResponseOf(foods[id], today))
      ensures supplies == old(supplies)
      ensures nextFoodId == old(nextFoodId) && nextSupplyId == old(nextSupplyId)
    {
      if id !in foods {
        return Failure(HttpError(404, "食材が見つかりません"));
      }
      var item := ApplyFoodUpdate(foods[id], data);
      foods := foods[id := item];
      r := Success(FoodResponseOf(item, today));
    }

    /** `delete_food`: 404 for an unknown id, with nothing changed; otherwise exactly that row goes. */
    method DeleteFood(id: int) returns (r: Result<(), HttpError>)
      requires Valid()
      modifies this
      ensures Valid()
      ensures id !in old(foods) ==> r == Failure(HttpError(404, "食材が見つかりません")) && foods == old(foods)
      ensures id in old(foods) ==> r == Success(()) && foods == old(foods) - {id}
      ensures supplies == old(supplies)
      ensures nextFoodId == old(nextFoodId) && nextSupplyId == old(nextSupplyId)
    {
      if id !in foods {
        return Failure(HttpError(404, "食材が見つかりません"));
      }
      foods := foods - {id};
      r := Success(());
    }

    /** `create_supply`: one new row under an id not in use, built from the body. */
    method CreateSupply(data: SupplyCreate) returns (r: SupplyResponse)
      requires Valid()
      modifies this
      ensures Valid()
      ensures r.id !in old(supplies)
      ensures supplies == old(supplies)[r.id := NewSupplyItem(r.id, data)]
      ensures r == SupplyResponseOf(NewSupplyItem(r.id, data))
      ensures foods == old(foods)
      ensures nextSupplyId == old(nextSupplyId) + 1 && nextFoodId == old(nextFoodId)
    {
      var item := NewSupplyItem(nextSupplyId, data);
      supplies := supplies[nextSupplyId := item];
      nextSupplyId := nextSupplyId + 1;
      r := SupplyResponseOf(item);
    }

    /** `update_supply`: 404 for an unknown id, with nothing changed; otherwise only the set fields of that row change. */
    method UpdateSupply(id: int, data: SupplyUpdate) returns (r: Result<SupplyResponse, HttpError>)
      requires Valid()
      modifies this
      ensures Valid()
      ensures id !in old(supplies) ==> r == Failure(HttpError(404, "日用品が見つかりません")) && supplies == old(supplies)
      ensures id in old(supplies) ==>
        && supplies == old(supplies)[id := ApplySupplyUpdate(old(supplies)[id], data)]
        && r == Success(SupplyResponseOf(supplies[id]))
      ensures foods == old(foods)
      ensures nextFoodId == old(nextFoodId) && nextSupplyId == old(nextSupplyId)
    {
      if id !in supplies {
        return Failure(HttpError(404, "日用品が見つかりません"));
      }
      var item := ApplySupplyUpdate(supplies[id], data);
      supplies := supplies[id := item];
      r := Success(SupplyResponseOf(item));
    }

    /** `delete_supply`: 404 for an unknown id, with nothing changed; otherwise exactly that row goes. */
    method DeleteSupply(id: int) returns (r: Result<(), HttpError>)
      requires Valid()
      modifies this
      ensures Valid()
      ensures id !in old(supplies) ==> r == Failure(HttpError(404, "日用品が見つかりません")) && supplies == old(supplies)
      ensures id in old(supplies) ==> r == Success(()) && supplies == old(supplies) - {id}
      ensures foods == old(foods)
      ensures nextFoodId == old(nextFoodId) && nextSupplyId == old(nextSupplyId)
    {
      if id !in supplies {
        return Failure(HttpError(404, "日用品が見つかりません"));
      }
      supplies := supplies - {id};
      r := Success(());
    }

    /** The rows of both tables as the queries read them, each row once. */
    method Snapshot() returns (foodRows: seq<FoodItem>, supplyRows: seq<SupplyItem>)
      requires Valid()
      ensures ListsFoods(foodRows, foods)
      ensures ListsSupplies(supplyRows, supplies)
    {
      var foodIds, supplyIds;
      foodIds, foodRows := ScanRows(foods, nextFoodId);
      ScannedFoods(foodIds, foodRows, foods);
      supplyIds, supplyRows := ScanRows(supplies, nextSupplyId);
      ScannedSupplies(supplyIds, supplyRows, supplies);
    }

    /** `db.query(FoodItem).order_by(FoodItem.expiry_date).all()`: every stored food once, by expiry date. */
    method FoodsByExpiry() returns (rows: seq<FoodItem>)
      requires Valid()
      ensures ListsFoods(rows, foods)
      ensures SortedBy(rows, ExpiryLe)
    {
      var scanned, _ := Snapshot();
      ExpiryOrder();
      rows := SortBy(scanned, ExpiryLe);
      SortedFoodsListed(scanned, rows, foods);
    }

    /** `list_foods`: every stored food exactly once, in order of expiry date, each with its flag. */
    method ListFoods(today: int) returns (r: seq<FoodResponse>)
      requires Valid()
      ensures |r| == |foods|
      ensures forall i :: 0 <= i < |r| ==> r[i].id in foods && r[i] == FoodResponseOf(foods[r[i].id], today)
      ensures forall i, j :: 0 <= i < j < |r| ==> r[i].id != r[j].id
      ensures forall id :: id in foods ==> exists i :: 0 <= i < |r| && r[i].id == id
      ensures forall i, j :: 0 <= i < j < |r| ==> Ordinal(r[i].expiry) <= Ordinal(r[j].expiry)
    {
      var sorted := FoodsByExpiry();
      r := FoodResponses(sorted, today);
      FoodListing(sorted, foods, today);
    }

    /** `list_supplies`: every stored supply exactly once, in order of name, each with its flag. */
    method ListSupplies() returns (r: seq<SupplyResponse>)
      requires Valid()
      ensures |r| == |supplies|
      ensures forall i :: 0 <= i < |r| ==> r[i].id in supplies && r[i] == SupplyResponseOf(supplies[r[i].id])
      ensures forall i, j :: 0 <= i < j < |r| ==> r[i].id != r[j].id
      ensures forall id :: id in supplies ==> exists i :: 0 <= i < |r| && r[i].id == id
      ensures forall i, j :: 0 <= i < j < |r| ==> TextLe(r[i].name, r[j].name)
    {
      var _, rows := Snapshot();
      NameOrder();
      var sorted := SortBy(rows, NameLe);
      SortedSuppliesListed(rows, sorted, supplies);
      r := SupplyResponses(sorted);
      SupplyListing(sorted, supplies);
    }
  }
}
