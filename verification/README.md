# Home inventory — a Dafny model

The home-inventory application keeps two tables:

- **foods**: a name, a quantity and an expiry date;
- **household supplies**: a name and a stock level of 多い, 普通 or 少ない.

Its web service offers the following endpoints:

- create, list, update and delete for each table;
- a **dashboard** of the foods that expire within three days and the supplies that are running low;
- a **shopping list** built from the same two selections;
- a **recipe suggestion**. It fails with HTTP 400 when there are no foods. Without an API key it returns a templated demo recipe built from the ingredients' names and quantities. With a key it asks a language model, giving it one line per food.

The browser front end covers three things:

- It shows foods and supplies as cards. Each card has an emoji picked by keyword, an expiry bar, a badge and stock dots.
- It shows the recipe under a title taken from its first line.
- It offers two versions of the shopping page. Each keeps a map of checked positions and shows the unchecked and checked items.

The model is split into these modules:

- **`Store`**: the service's persistent state. It is a class `Inventory` holding the two tables as maps from id to row, and its methods change those maps as the endpoints do.
- **`Views`** and **`Recipe`**: the read-only endpoints. They are written against a snapshot of the rows.
- **`Cards`**, **`FoodCard`**, **`DailyCard`** and **`RecipeCard`**: the pure display logic of the cards.
- **`Checklist`**, **`ShoppingPage`** and **`LegacyShopping`**: the two shopping pages. Each page is a class whose `checked` map is updated in place.

Some helper modules stand in for runtime primitives:

- **`Dates`**: Python's proleptic Gregorian ordinal and `date.isoformat`.
- **`Text`**: decimal rendering, `join`, substring search and a code-point string order, taken as the order of `ORDER BY name`.
- **`Sequences`**: filter and a stable insertion sort, specified as "sorted permutation".

`today` is an ordinal day number passed in as a parameter. "Within three days" is `Ordinal(expiry) <= today + 3`. `Store.ExpiringSoonIsDateComparison` shows this is the same test as comparing dates against `today + timedelta(days=3)`.

The recipe card takes its title from the recipe's first line. It removes the whole `【…】` tag, trims the rest, and falls back to `おすすめレシピ` when nothing is left. So a first line made only of a tag, such as `【豚肉とキャベツの味噌炒め】`, leaves nothing after the tag, and the card shows `おすすめレシピ`; `RecipeCard.TagOnlyLineFallsBack` proves this. The demo recipe's first line, `【提案レシピ】<names>の簡単炒め物（デモモード）`, does yield a real title when no ingredient name holds a line feed; `RecipeCard.DemoTitleShown` proves that.

## Model

| member | source | states |
|---|---|---|
| Dates.OrdinalOrder | backend/main.py:37 | Comparing dates by their day ordinal agrees with calendar order, and equal ordinals mean equal dates. |
| Dates.OrdinalOrderAll | backend/main.py:184 | For a fixed date, every other date is before, equal to or after it exactly as its ordinal is smaller, equal or larger. |
| Dates.IsoRoundTrip | backend/main.py:174 | A date's ISO text is exactly 10 characters long and parses back to the same date. |
| Text.NatToStringRoundTrip | backend/main.py:193 | The decimal text of a number consists only of digits and reads back as that number. |
| Text.IntToStringRoundTrip | backend/main.py:222 | The printed form of any integer, negative day counts included, reads back as that integer. |
| Text.IntToStringInjective | backend/main.py:222 | Distinct integers (including negative day counts) render as distinct texts. |
| Text.TextLeTotal | backend/main.py:98 | Any two names are comparable in the string order used for sorting supplies. |
| Text.TextLeTransitive | backend/main.py:98 | The name order is transitive. |
| Text.TextLeAntisymmetric | backend/main.py:98 | Names that are ordered both ways are equal. |
| Sequences.SortBy | backend/main.py:60 | The result is sorted by the given total preorder and is a permutation of the input. |
| Sequences.Filter | backend/main.py:137-142 | Every kept element satisfies the predicate, and each satisfying element is kept as often as it occurs in the input. |
| Sequences.FilterSortedIsPrefix | backend/main.py:184-185 | When the predicate is closed downwards in the sort order, filtering a sorted list keeps a prefix of it. |
| Schemas.ParseStockLevel | backend/schemas.py:6-9 | A text is accepted exactly when it is 多い, 普通 or 少ない, and the level read back renders as that text. |
| Schemas.StockLevelRoundTrip | backend/schemas.py:6-9 | Rendering a level and parsing it gives the level back, and distinct levels render differently. |
| Schemas.NewFoodCreate | backend/schemas.py:12-15 | A missing quantity defaults to 1; name, expiry and a given quantity are kept. |
| Schemas.NewSupplyCreate | backend/schemas.py:34-36 | A missing stock level defaults to 普通; name and a given level are kept. |
| Store.DaysLeft | backend/main.py:184 | The days left are positive exactly while today is before the expiry date, zero exactly on it, and negative exactly once it has passed. |
| Store.IsExpiringSoon | backend/main.py:37 | A food is expiring soon exactly when at most 3 days are left, a past expiry date included. |
| Store.IsLow | backend/main.py:52 | A supply is low exactly when its level is 少ない. |
| Store.FoodResponseOf | backend/main.py:36-44 | The response copies id, name, quantity and expiry, and is_expiring_soon holds exactly when at most 3 days are left. |
| Store.SupplyResponseOf | backend/main.py:47-53 | The response copies id, name and stock level, and is_low holds exactly when the level is 少ない. |
| Store.FoodResponses | backend/main.py:61 | One response per row, in the rows' order, each built from its own row. |
| Store.SupplyResponses | backend/main.py:99 | One response per row, in the rows' order, each built from its own row. |
| Store.ExpiringSoonIsDateComparison | backend/main.py:37 | "At most 3 days left" is the same as "expiry not after today + 3 days". |
| Store.ExpiryOrder | backend/main.py:60 | Ordering foods by expiry date is a total preorder. |
| Store.NameOrder | backend/main.py:98 | Ordering supplies by name is a total preorder. |
| Store.ApplyFoodUpdate | backend/main.py:78-79 | The id is kept; each field given in the update replaces the stored one, and every other field is unchanged. |
| Store.ApplySupplyUpdate | backend/main.py:116-117 | The id is kept; a given name or stock level replaces the stored one, and the rest is unchanged. |
| Store.UpdatesAreIdempotent | backend/schemas.py:18-21 | An empty update changes nothing, and applying the same update twice equals applying it once. |
| Store.ScanRows | backend/main.py:60 | A table scan yields every stored row once, each under its own id, in increasing id order. |
| Store.SortedFoodsListed | backend/main.py:60 | Any permutation of a full scan still lists every food exactly once under its id. |
| Store.SortedSuppliesListed | backend/main.py:98 | Any permutation of a full scan still lists every supply exactly once under its id. |
| Store.FoodListing | backend/main.py:58-61 | The responses of a sorted listing cover every stored food once, each built from its row, in expiry order. |
| Store.SupplyListing | backend/main.py:96-99 | The responses of a sorted listing cover every stored supply once, each built from its row, in name order. |
| Store.Inventory.constructor | backend/models.py:5-21 | A new store has two empty tables. |
| Store.Inventory.CreateFood | backend/main.py:64-70 | Adds the new food under an id not in the table, leaves the supplies alone, and returns the row's response. |
| Store.Inventory.UpdateFood | backend/main.py:73-82 | An unknown id gives 404 食材が見つかりません and no change; otherwise only that row is replaced by the updated row, which is returned. |
| Store.Inventory.DeleteFood | backend/main.py:85-91 | An unknown id gives 404 and no change; otherwise exactly that id is removed. |
| Store.Inventory.CreateSupply | backend/main.py:102-108 | Adds the new supply under an id not in the table, leaves the foods alone, and returns the row's response. |
| Store.Inventory.UpdateSupply | backend/main.py:111-120 | An unknown id gives 404 日用品が見つかりません and no change; otherwise only that row is replaced by the updated row. |
| Store.Inventory.DeleteSupply | backend/main.py:123-129 | An unknown id gives 404 and no change; otherwise exactly that id is removed. |
| Store.Inventory.Snapshot | backend/models.py:8 | Reading both tables yields every row once, under its primary key. |
| Store.Inventory.FoodsByExpiry | backend/main.py:209 | All foods are listed once each, sorted by expiry date. |
| Store.Inventory.ListFoods | backend/main.py:58-61 | Returns one response per stored food, each built from that food, with distinct ids, in expiry order. |
| Store.Inventory.ListSupplies | backend/main.py:96-99 | Returns one response per stored supply, each built from that supply, with distinct ids, in name order. |
| Views.ExpiringFoods | backend/main.py:137-142 | Keeps exactly the foods within three days of expiry, with their multiplicities, sorted by expiry. |
| Views.LowSupplies | backend/main.py:143-148 | Keeps exactly the supplies at 少ない, with their multiplicities, sorted by name. |
| Views.ExpiringListed | backend/main.py:136-142 | On a table scan, the selection lists every expiring food once and nothing else, and its length is the number of expiring ids. |
| Views.LowListed | backend/main.py:143-148 | On a table scan, the selection lists every low supply once and nothing else, and its length is the number of low ids. |
| Views.GetDashboard | backend/main.py:134-152 | The dashboard holds the responses of exactly the expiring foods in expiry order and of exactly the low supplies in name order. |
| Views.FoodEntry | backend/main.py:174 | A food entry has kind food and the food's name, and its detail is 期限: followed by ten characters that parse back to the expiry date. |
| Views.SupplyEntry | backend/main.py:176 | A supply entry has kind supply and the supply's name; for a low supply its detail is 残量: followed by the supply's own level. |
| Views.ShoppingItems | backend/main.py:172-176 | One food entry per expiring food, followed by one supply entry per low supply, in order. |
| Views.ShoppingKinds | backend/main.py:173-176 | An entry has kind food exactly when it comes before all supply entries; every later entry has kind supply. |
| Views.GetShoppingList | backend/main.py:157-177 | The list has one entry per expiring food and per low supply, and each entry carries the name and detail of its row. |
| Recipe.DemoIngredients | backend/main.py:184-185 | Uses the expiring foods when there are any, otherwise the first three foods; never empty when foods exist. |
| Recipe.DemoIngredientsEarliest | backend/main.py:184-185 | With foods sorted by expiry, the demo ingredients are a prefix of the food list. |
| Recipe.DemoRecipe | backend/main.py:182-204 | The demo recipe starts with its title line (【提案レシピ】, the names joined by 、 and the demo suffix) followed by a newline. |
| Recipe.PromptLine | backend/main.py:220-222 | A food with at most 3 days left gets a line opening with 【期限切れ間近！】; any other food's line opens with its name. |
| Recipe.PromptLines | backend/main.py:218-222 | Builds one prompt line per food, in order, each with the food's name, quantity and days left. |
| Recipe.UrgentTagMarksExpiring | backend/main.py:220-222 | A prompt line starts with 【期限切れ間近！】 exactly when the food has at most 3 days left (for names not themselves starting with that tag). |
| Recipe.SuggestRecipe | backend/main.py:207-242 | Fails with 400 食材が登録されていません exactly when there are no foods; otherwise returns the demo recipe without a key and the model's answer to the food lines with one. |
| Cards.FirstHit | frontend/src/components/ui/FoodCard.jsx:11-16 | Returns the first table entry whose keyword occurs in the name, or None exactly when no keyword occurs in it. |
| Cards.FallbackShownWhen | frontend/src/components/ui/DailyCard.jsx:11-16 | When one keyed entry repeats the fallback emoji, the fallback shows exactly when no key before that entry matches and either it matches or no key after it does. |
| Cards.GetEmoji | frontend/src/components/ui/FoodCard.jsx:11-16 | The loop returns the emoji of the first matching keyword, or the fallback when no keyword matches. |
| FoodCard.FoodEmoji | frontend/src/components/ui/FoodCard.jsx:3-16 | The salad emoji shows exactly when no keyword occurs in the name. |
| FoodCard.MeatHasPriority | frontend/src/components/ui/FoodCard.jsx:3-16 | A name containing 肉 always shows the meat emoji, whatever else it contains. |
| FoodCard.MilkBeforeBeef | frontend/src/components/ui/FoodCard.jsx:5-8 | A name containing 牛乳 finds a keyword at or before the milk entry, so never reaches the beef entry 牛 listed later. |
| FoodCard.MilkIsMilk | frontend/src/components/ui/FoodCard.jsx:3-16 | The name 牛乳 shows the milk emoji. |
| FoodCard.BarColor | frontend/src/components/ui/FoodCard.jsx:25-29 | Terracotta exactly when at most 2 days are left, amber exactly for 3 to 6 days, and sage exactly from 7 days on. |
| FoodCard.BarColorMonotone | frontend/src/components/ui/FoodCard.jsx:25-29 | With more days left the colour is never more urgent. |
| FoodCard.BarWidth | frontend/src/components/ui/FoodCard.jsx:34 | The width lies between 5 and 100: 100 from 14 days on and 5 at 0 days or fewer. |
| FoodCard.BarWidthMonotone | frontend/src/components/ui/FoodCard.jsx:34 | The bar never gets shorter as days left grow. |
| FoodCard.Badge | frontend/src/components/ui/FoodCard.jsx:54 | The badge reads 期限切れ exactly when no day is left (on or after the expiry date, days ≤ 0); otherwise it is あと, then the number, then 日. |
| FoodCard.BadgeReadsBack | frontend/src/components/ui/FoodCard.jsx:54 | When days are left, the number between あと and 日 is all digits and reads back as the days left. |
| DailyCard.SupplyEmoji | frontend/src/components/ui/DailyCard.jsx:3-16 | The 📦 box shows exactly when no key before ラップ matches and either ラップ matches or no later key does; any other match shows its own emoji. |
| DailyCard.DefaultKeyNeverMatches | frontend/src/components/ui/DailyCard.jsx:3-16 | A name containing none of the keywords gets the 📦 fallback; the table's `default` row is never taken as a match. |
| DailyCard.ConfigFor | frontend/src/components/ui/DailyCard.jsx:18-25 | A level the schema accepts gets its own entry of the level table; any other text gets the 普通 entry. |
| DailyCard.UnknownLevelShowsNormal | frontend/src/components/ui/DailyCard.jsx:25 | A stock level outside the three known ones is displayed like 普通. |
| DailyCard.LevelConfigs | frontend/src/components/ui/DailyCard.jsx:18-22 | 少ない shows fewer dots than 普通, which shows fewer than 多い, none shows more than 5, and the captions are 十分, 普通 and 少ない. |
| DailyCard.Dots | frontend/src/components/ui/DailyCard.jsx:36-41 | There are five dots; dot k is filled exactly when k is below the level's count, so the filled ones come first and there are as many as the count (five at most). |
| DailyCard.CountFilled | frontend/src/components/ui/DailyCard.jsx:39 | The number of filled dots is the number of true entries. |
| RecipeCard.FirstLine | frontend/src/components/ui/RecipeCard.jsx:4-5 | The first line is a prefix of the text with no newline, ended by the text's end or a newline. |
| RecipeCard.OnlyFirstLineMatters | frontend/src/components/ui/RecipeCard.jsx:4-5 | Text after the first newline never changes the title. |
| RecipeCard.StripTag | frontend/src/components/ui/RecipeCard.jsx:5 | Removing the first 【…】 tag leaves a suffix of the line. |
| RecipeCard.TaggedLine | frontend/src/components/ui/RecipeCard.jsx:5 | A line made of a tag and a rest, with no line terminator in the tag, loses exactly the tag. |
| RecipeCard.UntaggedLine | frontend/src/components/ui/RecipeCard.jsx:5 | A line that does not start with 【, or that contains no 】, is left unchanged. |
| RecipeCard.Trim | frontend/src/components/ui/RecipeCard.jsx:5 | The trimmed text is a slice of the input with only whitespace cut from either end; it is empty exactly when the input is all whitespace, and otherwise neither starts nor ends with whitespace. |
| RecipeCard.TrimNoop | frontend/src/components/ui/RecipeCard.jsx:5 | Trimming text that has no whitespace at either end changes nothing. |
| RecipeCard.RecipeTitle | frontend/src/components/ui/RecipeCard.jsx:4-5 | The title is never empty: it is either おすすめレシピ or a text with no whitespace at either end. |
| RecipeCard.TitleOfLine | frontend/src/components/ui/RecipeCard.jsx:4-5 | The title is the first line with its leading 【…】 tag removed and then trimmed, when that is not empty, and おすすめレシピ when it is. |
| RecipeCard.TagOnlyLineFallsBack | frontend/src/components/ui/RecipeCard.jsx:4-5 | A first line that is only a 【…】 tag gives the title おすすめレシピ. |
| RecipeCard.DemoTitleShown | frontend/src/components/ui/RecipeCard.jsx:4-5 | The demo recipe's title is the trimmed ingredient names plus the demo suffix, never the default, when no ingredient name contains a line feed. |
| Checklist.Toggled | frontend/src/components/pages/ShoppingPage.jsx:17-19 | Only position i flips; every other position keeps its checked state. |
| Checklist.ToggleTwice | frontend/src/components/pages/ShoppingPage.jsx:17-19 | Toggling the same position twice restores its checked state. |
| Checklist.Positions | frontend/src/components/pages/ShoppingPage.jsx:27-28 | Lists, in increasing order, exactly the positions whose checked state is the wanted one. |
| Checklist.Pick | frontend/src/components/pages/ShoppingPage.jsx:27-28 | The selection has no more entries than the list, and each is one of its items. |
| Checklist.PickIsPositions | frontend/src/components/pages/ShoppingPage.jsx:27-28 | Filtering the items by checked state picks exactly the items at those positions, in order. |
| Checklist.PickPartition | frontend/src/components/pages/ShoppingPage.jsx:27-29 | The unchecked and checked items together are the whole list, as counts and as multisets. |
| Checklist.PickNonEmpty | frontend/src/components/pages/ShoppingPage.jsx:40 | Some item is selected exactly when some position has the wanted state. |
| Checklist.IndexOf | frontend/src/components/pages/ShoppingPage.jsx:57 | Returns the first position holding the item, or -1 exactly when the item is absent. |
| Checklist.IndexOfDistinct | frontend/src/components/pages/ShoppingPage.jsx:57 | In a list without repeats, such as the list of fetched objects, indexOf of the element at each position p is p. |
| ShoppingPage.Page.constructor | frontend/src/components/pages/ShoppingPage.jsx:7-8 | A new page holds the fetched items and has nothing checked. |
| ShoppingPage.Page.Toggle | frontend/src/components/pages/ShoppingPage.jsx:17-19 | The checked map becomes the toggled map and the items are unchanged. |
| ShoppingPage.Page.ClearAll | frontend/src/components/pages/ShoppingPage.jsx:21 | The checked map is emptied, so no position is checked, and the items are unchanged. |
| ShoppingPage.Page.UncheckedItems | frontend/src/components/pages/ShoppingPage.jsx:27 | The unchecked list holds exactly the items at the unchecked positions, in list order. |
| ShoppingPage.Page.CheckedItems | frontend/src/components/pages/ShoppingPage.jsx:28 | The checked list holds exactly the items at the checked positions, in list order. |
| ShoppingPage.Page.Subtitle | frontend/src/components/pages/ShoppingPage.jsx:36-38 | Shows 買い物なし exactly for an empty list; otherwise 残り N件, where N is the number of unchecked items. |
| ShoppingPage.RemainingIsUnchecked | frontend/src/components/pages/ShoppingPage.jsx:27-37 | The remaining count is the number of unchecked items, and together with the checked count it gives the list length. |
| ShoppingPage.Page.ShowsClearButton | frontend/src/components/pages/ShoppingPage.jsx:40 | The clear button is shown exactly when some item is checked. |
| ShoppingPage.Page.Refs | frontend/src/components/pages/ShoppingPage.jsx:7-13 | The fetched entries are separate objects: one identity per position, no two alike. |
| ShoppingPage.Page.Rows | frontend/src/components/pages/ShoppingPage.jsx:27-28 | The row objects of either list are exactly the positions with that mark, in order, each showing the entry the list shows at that place. |
| ShoppingPage.Page.RowTargets | frontend/src/components/pages/ShoppingPage.jsx:56-63 | indexOf of a row object in the fetched array is that object's own position, or -1 for an object not in it. |
| ShoppingPage.RowsToggleOwnPosition | frontend/src/components/pages/ShoppingPage.jsx:56-63 | The unchecked rows toggle exactly the unchecked positions and the checked rows exactly the checked ones, even when entries are equal in value. |
| LegacyShopping.KindBadge | frontend/src/pages/Shopping.jsx:58-63 | The badge reads 食材 exactly for food entries and 日用品 for all others. |
| LegacyShopping.Page.constructor | frontend/src/pages/Shopping.jsx:5-6 | A new page holds the fetched items and has nothing checked. |
| LegacyShopping.Page.Toggle | frontend/src/pages/Shopping.jsx:13-15 | The checked map becomes the toggled map and the items are unchanged. |
| LegacyShopping.Page.UncheckedCount | frontend/src/pages/Shopping.jsx:19 | The unchecked count never exceeds the number of items. |
| LegacyShopping.Page.CountLabel | frontend/src/pages/Shopping.jsx:25-27 | A count label is shown exactly when the list is non-empty. |
| LegacyShopping.Page.RowAt | frontend/src/pages/Shopping.jsx:37-63 | Each row shows its item's name, detail and badge; its box is ticked and its text struck through exactly when that position is checked. |
| LegacyShopping.UncheckedCountIsPositions | frontend/src/pages/Shopping.jsx:19 | The unchecked count is the number of unchecked positions. |
| LegacyShopping.PagesAgree | frontend/src/pages/Shopping.jsx:19-27 | For the same items and checked map, the older page's count label equals the newer page's subtitle, and its empty message appears exactly for an empty list. |

## Left out

- HTTP routing, the database session, commits, CORS, environment loading and the `created_at` and `updated_at` timestamps are not modelled. The endpoints are the methods of `Store.Inventory`, and a database error is not a case.
- The database engine is not part of this model. It is taken to hand out a fresh id that is absent from the table (the model uses a per-table counter), to compare names by code point for `ORDER BY name`, and to scan a table in ascending id order.
- Store.Inventory.CreateFood: the contract promises only an id absent from the table, not which id the engine picks.
- Recipe.SuggestRecipe: the language-model call is the parameter `ask`, applied to the food lines only. The fixed prompt prose around those lines, the model name, the token limit and a reply without text content are not modelled.
- Recipe.DemoRecipe: only the demo recipe's first line is stated. The rest of the fixed demo text is built by the model but not described by a lemma.
- The separate `date.today()` calls in one request are collapsed into a single `today` parameter.
- The response fields `is_expiring_soon` and `is_low` are always computed, so their schema default of false never appears. For the same reason the database defaults for quantity and stock level are never reached: the request schema always supplies them.
- An update that sends an explicit null: the source's `setattr` writes `None` into a NOT NULL column, so the request fails. The model does not capture this and treats the null like an omitted field.
- `getDaysLeft` reads the browser clock and the time of day, so the cards take the number of days left as an input. FoodCard.BarWidth uses exact reals rather than floating point.
- The object-prototype keys of the stock-level table (a level named `constructor` or `toString`) are not modelled; only the three known levels and unknown plain texts are.
- JavaScript strings are UTF-16. The model works on code points for `includes`, `trim` and the title regular expression, so characters outside the Basic Multilingual Plane are not distinguished.
- Object identity on the shopping page is modelled by position: an entry's identity is its index in the fetched array (`ShoppingPage.Page.Refs`). References themselves, and aliasing between them, are not modelled.
- LegacyShopping.Page.Toggle models one toggle per click. On the older page both the row's `onClick` and the checkbox's `onChange` call `toggle(index)` (frontend/src/pages/Shopping.jsx:40, 48), so a click on the box itself toggles twice and changes nothing; this event dispatch is not modelled.
- The recipe card renders the recipe text as given below the title; that step is the identity and has no member.
- Fetching, loading indicators, navigation, styling and the remaining pages (home, inventory and recipe pages, header, bottom navigation) are not part of this model.
- `date.today() + timedelta(days=3)` raises `OverflowError` within three days of 9999-12-31 (backend/main.py:37, 136, 159); the model's `Store.IsExpiringSoon` is total. An exception from the language-model client (backend/main.py:236-241) surfaces as an HTTP 500; the model's `ask` always answers.
- Concurrency between requests is not modelled: each method runs to completion on its own.
