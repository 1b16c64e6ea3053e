/**
 * The two read-only summaries of backend/main.py: the dashboard, which pairs the
 * foods expiring soon with the supplies running low, and the shopping list,
 * which turns the same two selections into one list of entries.
 */
module Views {
  import opened Wrappers
  import opened Dates
  import opened Sequences
  import opened Schemas
  import opened Models
  import opened Store

  /** `filter(expiry_date <= threshold).order_by(expiry_date)` over a table scan. */
  function ExpiringFoods(rows: seq<FoodItem>, today: int): (r: seq<FoodItem>)
    ensures SortedBy(r, ExpiryLe)
    ensures forall f :: multiset(r)[f] == if IsExpiringSoon(f, today) then multiset(rows)[f] else 0
  {
    ExpiryOrder();
    SortBy(Filter(rows, f => IsExpiringSoon(f, today)), ExpiryLe)
  }

  /** `filter(stock_level == "少ない").order_by(name)` over a table scan. */
  function LowSupplies(rows: seq<SupplyItem>): (r: seq<SupplyItem>)
    ensures SortedBy(r, NameLe)
    ensures forall s :: multiset(r)[s] == if IsLow(s) then multiset(rows)[s] else 0
  {
    NameOrder();
    SortBy(Filter(rows, s => IsLow(s)), NameLe)
  }

  /** The ids of the foods of `table` that are expiring soon. */
  ghost function ExpiringIds(table: map<int, FoodItem>, today: int): set<int> {
    set id | id in table && IsExpiringSoon(table[id], today)
  }

  /** The ids of the supplies of `table` that are running low. */
  ghost function LowIds(table: map<int, SupplyItem>): set<int> {
    set id | id in table && IsLow(table[id])
  }

  /** `rows` lists exactly the foods of `table` that are expiring soon, each once. */
  ghost predicate ListsExpiring(rows: seq<FoodItem>, table: map<int, FoodItem>, today: int) {
    && (forall i :: 0 <= i < |rows| ==> rows[i].id in table && table[rows[i].id] == rows[i] && IsExpiringSoon(rows[i], today))
    && (forall i, j :: 0 <= i < j < |rows| ==> rows[i].id != rows[j].id)
    && (forall id :: id in ExpiringIds(table, today) ==> exists i :: 0 <= i < |rows| && rows[i].id == id)
  }

  /** `rows` lists exactly the supplies of `table` that are running low, each once. */
  ghost predicate ListsLow(rows: seq<SupplyItem>, table: map<int, SupplyItem>) {
    && (forall i :: 0 <= i < |rows| ==> rows[i].id in table && table[rows[i].id] == rows[i] && IsLow(rows[i]))
    && (forall i, j :: 0 <= i < j < |rows| ==> rows[i].id != rows[j].id)
    && (forall id :: id in LowIds(table) ==> exists i :: 0 <= i < |rows| && rows[i].id == id)
  }

  /** A selection of the expiring foods from a full scan of the table lists every expiring food once. */
  lemma ExpiringSelection(rows: seq<FoodItem>, r: seq<FoodItem>, table: map<int, FoodItem>, today: int)
    requires ListsFoods(rows, table)
    requires multiset(r) <= multiset(rows)
    requires forall i :: 0 <= i < |r| ==> r[i] in rows && IsExpiringSoon(r[i], today)
    requires forall k :: 0 <= k < |rows| && IsExpiringSoon(rows[k], today) ==> rows[k] in r
    ensures ListsExpiring(r, table, today)
  {
    FoodRowsDistinct(rows, table);
    SubmultisetDistinct(rows, r);
    forall i | 0 <= i < |r|
      ensures r[i].id in table && table[r[i].id] == r[i]
    {
      var k :| 0 <= k < |rows| && rows[k] == r[i];
    }
    forall id | id in ExpiringIds(table, today)
      ensures exists i :: 0 <= i < |r| && r[i].id == id
    {
      var k :| 0 <= k < |rows| && rows[k].id == id;
      assert rows[k] in r;
      var i :| 0 <= i < |r| && r[i] == rows[k];
    }
  }

  /** A selection of the low supplies from a full scan of the table lists every low supply once. */
  lemma LowSelection(rows: seq<SupplyItem>, r: seq<SupplyItem>, table: map<int, SupplyItem>)
    requires ListsSupplies(rows, table)
    requires multiset(r) <= multiset(rows)
    requires forall i :: 0 <= i < |r| ==> r[i] in rows && IsLow(r[i])
    requires forall k :: 0 <= k < |rows| && IsLow(rows[k]) ==> rows[k] in r
    ensures ListsLow(r, table)
  {
    SupplyRowsDistinct(rows, table);
    SubmultisetDistinct(rows, r);
    forall i | 0 <= i < |r|
      ensures r[i].id in table && table[r[i].id] == r[i]
    {
      var k :| 0 <= k < |rows| && rows[k] == r[i];
    }
    forall id | id in LowIds(table)
      ensures exists i :: 0 <= i < |r| && r[i].id == id
    {
      var k :| 0 <= k < |rows| && rows[k].id == id;
      assert rows[k] in r;
      var i :| 0 <= i < |r| && r[i] == rows[k];
    }
  }

  /** The dashboard query over a full scan of the table gives every expiring food once, and no other food. */
  lemma ExpiringListed(rows: seq<FoodItem>, table: map<int, FoodItem>, today: int)
    requires ListsFoods(rows, table)
    ensures ListsExpiring(ExpiringFoods(rows, today), table, today)
    ensures |ExpiringFoods(rows, today)| == |ExpiringIds(table, today)|
  {
    var r := ExpiringFoods(rows, today);
    SelectedMembers(rows, r, f => IsExpiringSoon(f, today));
    ExpiringSelection(rows, r, table, today);
    KeyCount(r, (f: FoodItem) => f.id, ExpiringIds(table, today));
  }

  /** The dashboard query over a full scan of the table gives every low supply once, and no other supply. */
  lemma LowListed(rows: seq<SupplyItem>, table: map<int, SupplyItem>)
    requires ListsSupplies(rows, table)
    ensures ListsLow(LowSupplies(rows), table)
    ensures |LowSupplies(rows)| == |LowIds(table)|
  {
    var r := LowSupplies(rows);
    SelectedMembers(rows, r, s => IsLow(s));
    LowSelection(rows, r, table);
    KeyCount(r, (s: SupplyItem) => s.id, LowIds(table));
  }

  /** The body of the `dashboard` reply. */
  datatype Dashboard = Dashboard(expiringFoods: seq<FoodResponse>, lowSupplies: seq<SupplyResponse>)

  /**
   * `dashboard`: the responses of exactly the expiring foods, by expiry date, and
   * of exactly the low supplies, by name; every one of them carries its flag.
   */
  method GetDashboard(inv: Inventory, today: int) returns (d: Dashboard, ghost expiring: seq<FoodItem>, ghost low: seq<SupplyItem>)
    requires inv.Valid()
    ensures ListsExpiring(expiring, inv.foods, today) && SortedBy(expiring, ExpiryLe)
    ensures ListsLow(low, inv.supplies) && SortedBy(low, NameLe)
    ensures d.expiringFoods == FoodResponses(expiring, today)
    ensures d.lowSupplies == SupplyResponses(low)
    ensures forall i :: 0 <= i < |d.expiringFoods| ==> d.expiringFoods[i].isExpiringSoon
    ensures forall i :: 0 <= i < |d.lowSupplies| ==> d.lowSupplies[i].isLow
  {
    var foodRows, supplyRows := inv.Snapshot();
    var foods, supplies := ExpiringFoods(foodRows, today), LowSupplies(supplyRows);
    ExpiringListed(foodRows, inv.foods, today);
    LowListed(supplyRows, inv.supplies);
    d := Dashboard(FoodResponses(foods, today), SupplyResponses(supplies));
    expiring, low := foods, supplies;
  }

  /** One entry of the shopping list: its `type`, `name` and `detail`. */
  datatype ShoppingEntry = ShoppingEntry(kind: string, name: string, detail: string)

  const ExpiryLabel: string := "期限: "

  /**
   * The entry of an expiring food: kind `food`, its name, and as detail
   * `期限: ` followed by ten characters that read back as the expiry date.
   */
  function FoodEntry(f: FoodItem): (e: ShoppingEntry)
    ensures e.kind == "food" && e.name == f.name
    ensures |e.detail| == |ExpiryLabel| + 10 && e.detail[..|ExpiryLabel|] == ExpiryLabel
    ensures ParseIso(e.detail[|ExpiryLabel|..]) == Some(f.expiry)
  {
    var iso := IsoFormat(f.expiry);
    IsoRoundTrip(f.expiry);
    assert (ExpiryLabel + iso)[|ExpiryLabel|..] == iso;
    assert (ExpiryLabel + iso)[..|ExpiryLabel|] == ExpiryLabel;
    ShoppingEntry("food", f.name, ExpiryLabel + iso)
  }

  /** The entry of a low supply: kind `supply`, its name, and as detail `残量: ` and its (low) level. */
  function SupplyEntry(s: SupplyItem): (e: ShoppingEntry)
    ensures e.kind == "supply" && e.name == s.name
    ensures IsLow(s) ==> e.detail == "残量: " + StockLevelText(s.stockLevel)
  {
    ShoppingEntry("supply", s.name, "残量: 少ない")
  }

  /** The two append loops of `shopping_list`: the food entries in order, then the supply entries in order. */
  method ShoppingItems(expiring: seq<FoodItem>, low: seq<SupplyItem>) returns (items: seq<ShoppingEntry>)
    ensures |items| == |expiring| + |low|
    ensures forall i :: 0 <= i < |expiring| ==> items[i] == FoodEntry(expiring[i])
    ensures forall j :: 0 <= j < |low| ==> items[|expiring| + j] == SupplyEntry(low[j])
  {
    items := [];
    for i := 0 to |expiring|
      invariant items == Map(expiring[..i], FoodEntry)
    {
      MapStep(expiring, i, FoodEntry);
      items := items + [FoodEntry(expiring[i])];
    }
    assert expiring[..|expiring|] == expiring;
    for j := 0 to |low|
      invariant items == Map(expiring, FoodEntry) + Map(low[..j], SupplyEntry)
    {
      MapStep(low, j, SupplyEntry);
      items := items + [SupplyEntry(low[j])];
    }
    assert low[..|low|] == low;
  }

  /** A shopping list is read back by its tags: the food entries come first and are exactly the first ones. */
  lemma ShoppingKinds(expiring: seq<FoodItem>, low: seq<SupplyItem>, items: seq<ShoppingEntry>)
    requires |items| == |expiring| + |low|
    requires forall i :: 0 <= i < |expiring| ==> items[i] == FoodEntry(expiring[i])
    requires forall j :: 0 <= j < |low| ==> items[|expiring| + j] == SupplyEntry(low[j])
    ensures forall i :: 0 <= i < |items| ==> (items[i].kind == "food" <==> i < |expiring|)
    ensures forall i :: 0 <= i < |items| ==> (items[i].kind == "supply" <==> |expiring| <= i)
  {
    forall i | |expiring| <= i < |items|
      ensures items[i] == SupplyEntry(low[i - |expiring|])
    {
      var j := i - |expiring|;
      assert items[|expiring| + j] == SupplyEntry(low[j]);
    }
  }

  /**
   * `shopping_list`: one entry per expiring food, by expiry date, then one per
   * low supply, by name, so as many entries as the two selections together.
   */
  method GetShoppingList(inv: Inventory, today: int) returns (items: seq<ShoppingEntry>, ghost expiring: seq<FoodItem>, ghost low: seq<SupplyItem>)
    requires inv.Valid()
    ensures ListsExpiring(expiring, inv.foods, today) && SortedBy(expiring, ExpiryLe)
    ensures ListsLow(low, inv.supplies) && SortedBy(low, NameLe)
    ensures |items| == |expiring| + |low| == |ExpiringIds(inv.foods, today)| + |LowIds(inv.supplies)|
    ensures forall i :: 0 <= i < |expiring| ==> items[i] == FoodEntry(expiring[i])
    ensures forall j :: 0 <= j < |low| ==> items[|expiring| + j] == SupplyEntry(low[j])
  {
    var foodRows, supplyRows := inv.Snapshot();
    var foods, supplies := ExpiringFoods(foodRows, today), LowSupplies(supplyRows);
    ExpiringListed(foodRows, inv.foods, today);
    LowListed(supplyRows, inv.supplies);
    items := ShoppingItems(foods, supplies);
    expiring, low := foods, supplies;
  }
}
