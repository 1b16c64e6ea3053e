/**
 * The recipe endpoint of backend/main.py: the choice of foods for the demo
 * recipe, the demo recipe text, the per-food lines handed to the language
 * model, and `suggest_recipe` itself. The language model is the parameter `ask`.
 */
module Recipe {
  import opened Wrappers
  import opened Text
  import opened Sequences
  import opened Schemas
  import opened Models
  import opened Store

  /** `[f for f in foods if (f.expiry_date - today).days <= 3]`. */
  function ExpiringOf(foods: seq<FoodItem>, today: int): seq<FoodItem> {
    Filter(foods, f => DaysLeft(f, today) <= 3)
  }

  /** `use_foods = expiring if expiring else foods[:3]`. */
  function DemoIngredients(foods: seq<FoodItem>, today: int): (r: seq<FoodItem>)
    ensures foods != [] ==> r != []
    ensures (exists i :: 0 <= i < |foods| && DaysLeft(foods[i], today) <= 3) ==>
      forall f :: multiset(r)[f] == if DaysLeft(f, today) <= 3 then multiset(foods)[f] else 0
    ensures (forall i :: 0 <= i < |foods| ==> DaysLeft(foods[i], today) > 3) ==>
      r == foods[..if |foods| < 3 then |foods| else 3]
  {
    var expiring := ExpiringOf(foods, today);
    if expiring != [] then expiring
    else
      FilterRejectsOnlyNone(foods, f => DaysLeft(f, today) <= 3);
      foods[..if |foods| < 3 then |foods| else 3]
  }

  /** An empty selection means no element passes. */
  lemma FilterRejectsOnlyNone<T(!new)>(s: seq<T>, p: T -> bool)
    requires Filter(s, p) == []
    ensures forall i :: 0 <= i < |s| ==> !p(s[i])
  {
    forall i | 0 <= i < |s|
      ensures !p(s[i])
    {
      assert s[i] in multiset(s);
    }
  }

  /**
   * Over foods in expiry order, the demo uses the earliest-expiring foods: its
   * ingredients are always a prefix of the list.
   */
  lemma DemoIngredientsEarliest(foods: seq<FoodItem>, today: int)
    requires SortedBy(foods, ExpiryLe)
    ensures var r := DemoIngredients(foods, today); r == foods[..|r|]
  {
    var p := (f: FoodItem) => DaysLeft(f, today) <= 3;
    FilterSortedIsPrefix(foods, ExpiryLe, p);
  }

  const DemoTagName: string := "提案レシピ"
  const DemoTag: string := "【" + DemoTagName + "】"
  const DemoSuffix: string := "の簡単炒め物（デモモード）"

  function FoodNames(foods: seq<FoodItem>): (r: seq<string>)
    ensures |r| == |foods| && forall i :: 0 <= i < |r| ==> r[i] == foods[i].name
  {
    seq(|foods|, i requires 0 <= i < |foods| => foods[i].name)
  }

  /** `・{name} … {quantity}個`. */
  function MaterialLine(f: FoodItem): string {
    "・" + f.name + " … " + IntToString(f.quantity) + "個"
  }

  function MaterialLines(foods: seq<FoodItem>): (r: seq<string>)
    ensures |r| == |foods| && forall i :: 0 <= i < |r| ==> r[i] == MaterialLine(foods[i])
  {
    seq(|foods|, i requires 0 <= i < |foods| => MaterialLine(foods[i]))
  }

  /** The first line of the demo recipe: the tag, the names joined by `、`, and the suffix. */
  function DemoTitleLine(use: seq<FoodItem>): string {
    DemoTag + Join("、", FoodNames(use)) + DemoSuffix
  }

  /**
   * `_generate_mock_recipe`: the title line, then the fixed body with the
   * materials and the names filled in; the recipe starts with its title line
   * and a line break.
   */
  function DemoRecipe(use: seq<FoodItem>): (r: string)
    ensures var t := DemoTitleLine(use); |t| < |r| && r[..|t|] == t && r[|t|] == '\n'
  {
    var t := DemoTitleLine(use);
    var rest := DemoBody(Join("、", FoodNames(use)), Join("\n", MaterialLines(use)));
    assert t + "\n" + rest == t + ("\n" + rest);
    t + "\n" + rest
  }

  const DemoNote: string := "\n※ これはデモ用のレシピです。ANTHROPIC_API_KEYを設定するとAIが在庫に合わせたレシピを提案します。\n\n■ 材料\n"
  const DemoSeasoning: string := "\n・塩こしょう … 適量\n・サラダ油 … 大さじ1\n\n■ 手順\n1. "
  const DemoSteps: string := "を食べやすい大きさに切る\n2. フライパンにサラダ油を熱し、中火で炒める\n3. 塩こしょうで味を調えて完成\n\n■ ポイント\n・賞味期限が近い食材（"
  const DemoClosing: string := "）を優先的に使っています\n・お好みで醤油やめんつゆを加えても美味しいです"

  /** The rest of the demo recipe after its title line: fixed prose with the materials and the names filled in. */
  function DemoBody(names: string, materials: string): string {
    DemoNote + materials + DemoSeasoning + names + DemoSteps + names + DemoClosing
  }

  const UrgentTag: string := "【期限切れ間近！】"
  const QuantityLabel: string := " (数量: "
  const DaysLabel: string := ", 期限まで: "
  const DaysUnit: string := "日)"

  /** The part of a `food_list` entry after the tag: name, quantity and days left. */
  function FoodFacts(f: FoodItem, today: int): string {
    f.name + FactsAfterName(f, today)
  }

  /** What follows the name in a `food_list` entry: ` (数量: {quantity}, 期限まで: {days}日)`. */
  function FactsAfterName(f: FoodItem, today: int): string {
    QuantityLabel + IntToString(f.quantity) + DaysLabel + IntToString(DaysLeft(f, today)) + DaysUnit
  }

  /**
   * One entry of `food_list`: the urgency tag when three days or fewer are
   * left, then the facts; so a food expiring soon opens with the tag, any
   * other with its own name.
   */
  function PromptLine(f: FoodItem, today: int): (r: string)
    ensures IsExpiringSoon(f, today) ==> StartsWith(r, UrgentTag)
    ensures !IsExpiringSoon(f, today) ==> StartsWith(r, f.name)
  {
    var facts := FoodFacts(f, today);
    StartsWithConcat(f.name, FactsAfterName(f, today));
    StartsWithConcat(UrgentTag, facts);
    if DaysLeft(f, today) <= 3 then UrgentTag + facts else facts
  }

  /** `PromptLine` for a fixed day. */
  function LineFor(today: int): FoodItem -> string {
    f => PromptLine(f, today)
  }

  /** The `food_list` of a list of foods, one line per food in the same order. */
  function PromptLinesOf(foods: seq<FoodItem>, today: int): (r: seq<string>)
    ensures |r| == |foods| && forall i :: 0 <= i < |r| ==> r[i] == PromptLine(foods[i], today)
  {
    Map(foods, LineFor(today))
  }

  /** The loop of `suggest_recipe` that builds `food_list`. */
  method PromptLines(foods: seq<FoodItem>, today: int) returns (lines: seq<string>)
    ensures lines == PromptLinesOf(foods, today)
  {
    lines := [];
    for i := 0 to |foods|
      invariant lines == Map(foods[..i], LineFor(today))
    {
      MapStep(foods, i, LineFor(today));
      lines := lines + [PromptLine(foods[i], today)];
    }
    assert foods[..|foods|] == foods;
  }

  /**
   * A line carries the urgency tag exactly when the food is flagged expiring
   * soon, provided the name does not itself begin with the tag.
   */
  lemma UrgentTagMarksExpiring(f: FoodItem, today: int)
    requires !StartsWith(f.name, UrgentTag)
    ensures StartsWith(PromptLine(f, today), UrgentTag) <==> IsExpiringSoon(f, today)
  {
    var rest := FoodFacts(f, today);
    if IsExpiringSoon(f, today) {
      assert (UrgentTag + rest)[..|UrgentTag|] == UrgentTag;
    } else {
      assert PromptLine(f, today) == rest;
      FactsNotTagged(f, today);
    }
  }

  /** The facts of a food whose name does not begin with the tag do not begin with it either. */
  lemma FactsNotTagged(f: FoodItem, today: int)
    requires !StartsWith(f.name, UrgentTag)
    ensures !StartsWith(FoodFacts(f, today), UrgentTag)
  {
    var tail := FactsAfterName(f, today);
    assert tail[0] == ' ';
    assert ' ' !in UrgentTag;
    NotPrefixPastName(f.name, tail, UrgentTag);
  }


  /** `if not api_key`: an unset or empty key selects the demo recipe. */
  predicate HasKey(apiKey: Option<string>) {
    apiKey.Some? && apiKey.value != ""
  }

  const NoFoods: HttpError := HttpError(400, "食材が登録されていません")

  /**
   * `suggest_recipe`: 400 without foods; otherwise the demo recipe over the
   * foods in expiry order when no key is set, or the model's reply to the
   * lines of all foods in expiry order.
   */
  method SuggestRecipe(inv: Inventory, today: int, apiKey: Option<string>, ask: seq<string> -> string)
    returns (r: Result<RecipeResponse, HttpError>, ghost foods: seq<FoodItem>)
    requires inv.Valid()
    ensures ListsFoods(foods, inv.foods) && SortedBy(foods, ExpiryLe)
    ensures r.Failure? <==> inv.foods == map[]
    ensures r.Failure? ==> r.error == NoFoods
    ensures r.Success? && !HasKey(apiKey) ==> r.value == RecipeResponse(DemoRecipe(DemoIngredients(foods, today)))
    ensures r.Success? && HasKey(apiKey) ==> r.value == RecipeResponse(ask(PromptLinesOf(foods, today)))
  {
    var rows := inv.FoodsByExpiry();
    foods := rows;
    if rows == [] {
      assert inv.foods.Keys == {};
      return Failure(NoFoods), foods;
    }
    assert rows[0].id in inv.foods;
    if !HasKey(apiKey) {
      return Success(RecipeResponse(DemoRecipe(DemoIngredients(rows, today)))), foods;
    }
    var lines := PromptLines(rows, today);
    r := Success(RecipeResponse(ask(lines)));
  }
}
