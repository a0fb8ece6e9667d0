# FoodSaver in Dafny

A model of the logic of FoodSaver, a client-side food-inventory app. The app
keeps three lists in one store:

- the **inventory** of food items, each with a category and an expiry date;
- the **recipes**, produced by a fixed mock generator from selected ingredients;
- the **shopping list**, whose items can be checked off.

It also keeps a derived list, **expiringItems**: the inventory items that expire
within three days. Four pages read and change this state:

- the inventory page filters by category, flags items as expiring soon or
  expired, and has an add-item form;
- the shopping-list page groups items by category and has its own add form;
- the recipes page selects ingredients, generates recipes, shows them under a
  core tab and an extended tab, and can put an extra ingredient on the
  shopping list;
- the analytics page counts items per category, shows the five largest
  categories and gives each category's percentage of the inventory.

Modules, one per source file:

| module | file | form |
|---|---|---|
| `Types` | `types.dfy` | the category enum and the record shapes, as datatypes |
| `Ids` | `ids.dfy` | record ids: the decimal numeral of a clock reading, with its parse and round trip |
| `Lists` | `lists.dfy` | the sequence operations the app relies on: `filter`, the id-keyed `map`, key order and per-key counts of a `reduce`, `split(' ').pop()`, `join` |
| `Store` | `store.dfy` | the store. Pure functions build each replacement list; the class `AppStore` holds the four lists and its methods reassign them |
| `InventoryView` | `inventory.dfy` | the category filter and the two expiry flags as functions; the form state as the class `InventoryPage` |
| `ShoppingView` | `shopping.dfy` | the grouping reduce as a loop over a map; the form state as the class `ShoppingListPage` |
| `RecipesView` | `recipes.dfy` | the selection toggle, the tab filter and the add-button rule as functions; the page state as the class `RecipesPage` |
| `AnalyticsView` | `analytics.dfy` | the counting reduce as a loop; the stable sort, the top-five cut and the percentage as functions |

Conventions:

- Time is integer milliseconds, and a day is 86400000 ms.
- The clock is a parameter:
  - `clock: nat` is the `Date.now()` reading an id is made from; recipe generation reads the clock twice, so it takes two readings, `clock` and `clock2`;
  - `now: int` is the `new Date()` of the expiry effect or the page.
- A `Partial<T>` is a record of `Option` fields, where `None` is a key the patch does not carry.
- JavaScript numbers in quantities are `real`.
- `AppStore.Valid()` says that `expiringItems` is the expiry window of the current
  inventory, taken at `checkedAt`. That is the last time the inventory
  changed, since the effect runs only then. Every store method keeps this invariant.

## Model

| member | source | states |
|---|---|---|
| Types.ParseCategory | src/types.ts:12-27 | a parsed display string names the category it came from |
| Types.CategoryNameRoundTrip | src/types.ts:12-27 | every category's display string parses back to that category |
| Types.CategoryNamesDistinct | src/types.ts:12-27 | two categories share a display string exactly when they are the same category |
| Types.AllCategoriesExact | src/types.ts:12-27 | `Object.values(FoodCategory)` has 14 entries, contains every category and repeats none |
| Ids.DecimalString | src/context/AppContext.tsx:112 | an id is a non-empty string of decimal digits with no leading zero |
| Ids.DecimalRoundTrip | src/context/AppContext.tsx:112 | reading an id back as a number gives the clock value it was made from |
| Ids.DecimalStringInjective | src/context/AppContext.tsx:136-151 | two ids are equal exactly when their clock values are |
| Lists.Filter | src/context/AppContext.tsx:126 | `filter` keeps exactly the elements that pass, and no more of them than the input has |
| Lists.FilterConcat | src/context/AppContext.tsx:126 | filtering distributes over concatenation, so order is kept |
| Lists.FilterKeepsAll | src/pages/Recipes.tsx:13 | a filter returns its input unchanged exactly when every element passes |
| Lists.FilterIdempotent | src/pages/Recipes.tsx:13 | filtering twice by the same test is filtering once |
| Lists.FilterNoDuplicates | src/pages/Recipes.tsx:13 | filtering a duplicate-free sequence leaves it duplicate-free |
| Lists.MapMatching | src/context/AppContext.tsx:119-121 | the id-keyed `map` keeps the length, rewrites every element with the id and leaves the rest |
| Lists.MapMatchingAbsent | src/context/AppContext.tsx:119-121 | the id-keyed `map` is the identity when no element has the id |
| Lists.RemoveMatching | src/context/AppContext.tsx:126 | removal by id keeps exactly the elements with another id |
| Lists.RemoveMatchingConcat | src/context/AppContext.tsx:126 | removal by id distributes over concatenation |
| Lists.RemoveMatchingAbsent | src/context/AppContext.tsx:126 | removing an id no element has changes nothing |
| Lists.RemoveMatchingTwice | src/context/AppContext.tsx:126 | removing the same id twice is removing it once |
| Lists.FirstKeys | src/pages/ShoppingList.tsx:41-47 | the reduce's keys are exactly the keys that occur, each listed once |
| Lists.FirstKeysPrefix | src/pages/ShoppingList.tsx:69 | keys are listed in first-occurrence order: the keys of a prefix are a prefix of the keys |
| Lists.KeyFilter | src/pages/ShoppingList.tsx:41-47 | the elements with key `k` are exactly those in the input with that key; none exist exactly when no element has it |
| Lists.CountKey | src/pages/Analytics.tsx:14-20 | a per-key count is at most the length, and is positive exactly when the key occurs |
| Lists.CountsSumToLength | src/pages/Analytics.tsx:14-20 | the per-key counts over the distinct keys add up to the length |
| Lists.LastWord | src/pages/Recipes.tsx:131 | the text after the last space (`split(' ').pop()`) is a space-free suffix that is either the whole string or preceded by a space |
| Lists.LastWordAfterSpace | src/pages/Recipes.tsx:131 | a prefix that ends in a space does not change the last word |
| Lists.LastWordOfWord | src/pages/Recipes.tsx:131 | a space-free word after such a prefix is the last word |
| Lists.Join | src/context/AppContext.tsx:137 | `join(sep)` of the recipe titles: no parts give the empty string, and one part gives that part unchanged |
| Lists.JoinConcat | src/context/AppContext.tsx:137 | joining two non-empty runs of parts is each run joined with exactly one separator between them; with `Join`'s empty and one-part cases this fixes every join |
| Lists.JoinLength | src/context/AppContext.tsx:152 | a join's length is the parts' total length plus one separator between each two neighbours |
| Store.NewFoodItem | src/context/AppContext.tsx:109-113 | the new item has the draft's fields and the given id |
| Store.MergeFoodLaws | src/context/AppContext.tsx:117-123 | the spread merge: the empty patch changes nothing, the same patch twice is once, two merges are one merge of the combined patch |
| Store.UpdateFoodItems | src/context/AppContext.tsx:117-123 | update keeps the length and order, leaves other ids alone and merges the patch into every item with the id |
| Store.UpdateFoodAbsent | src/context/AppContext.tsx:117-123 | updating an absent id changes nothing |
| Store.UpdateFoodTwice | src/context/AppContext.tsx:117-123 | the same update twice is the same as once |
| Store.RemoveFoodItems | src/context/AppContext.tsx:125-127 | removal keeps exactly the items with another id |
| Store.RemoveFoodOrdered | src/context/AppContext.tsx:125-127 | removal keeps the survivors in order (distributes over `+`) |
| Store.RemoveFoodThenNoOp | src/context/AppContext.tsx:117-127 | removing an absent id, or the same id a second time, changes nothing; an update after the removal is a no-op |
| Store.ExpiringItems | src/context/AppContext.tsx:97-107 | the expiring list holds exactly the inventory items with `now < expiry < now + 3 days`, and is empty exactly when none qualify |
| Store.ExpiringItemsOrdered | src/context/AppContext.tsx:101-104 | the expiring list is an ordered sub-list: it distributes over `+` and keeps or drops each single item |
| Store.ExpiringItemsExample | src/context/AppContext.tsx:101-104 | of items due in 1 day, in 4 days and 1 day ago, only the first is expiring |
| Store.SeedExpiring | src/context/AppContext.tsx:23-51 | with the seed inventory, within two days of loading only the chicken is expiring |
| Store.IngredientLines | src/context/AppContext.tsx:138 | ingredient line `i` is `"1 "` followed by ingredient `i` |
| Store.IngredientLinesInverse | src/context/AppContext.tsx:138 | cutting the `"1 "` off a line gives back its ingredient |
| Store.GeneratedRecipes | src/context/AppContext.tsx:135-172 | the core recipe's lines come from the inputs in order; the extended recipe's lines are those plus exactly the three fixed extras; the extended recipe carries `["Onion","Garlic","Olive Oil"]`; the titles join the names with `", "`; the ids come from two clock readings, `clock` and `clock2 + 1`, and are equal exactly when `clock == clock2 + 1`, so they differ whenever the clock has not stepped back between the readings |
| Store.NewShoppingItem | src/context/AppContext.tsx:177-182 | the new item has the draft's fields, the given id and `checked = false` |
| Store.UpdateShoppingItems | src/context/AppContext.tsx:186-192 | update keeps the length and order, leaves other ids alone and merges the patch into every item with the id |
| Store.UpdateShoppingLaws | src/context/AppContext.tsx:186-192 | updating an absent id changes nothing; the same update twice is once |
| Store.RemoveShoppingItems | src/context/AppContext.tsx:194-196 | removal keeps exactly the items with another id |
| Store.RemoveShoppingLaws | src/context/AppContext.tsx:194-196 | removal keeps order; removing an absent id or removing twice changes nothing |
| Store.ToggleShoppingItems | src/context/AppContext.tsx:198-204 | toggle keeps the length, flips `checked` on every item with the id and changes nothing else |
| Store.ToggleTwice | src/context/AppContext.tsx:198-204 | toggling the same id twice restores the list |
| Store.AppStore.constructor | src/context/AppContext.tsx:90-107 | the store starts from the seed lists, and the effect's first run sets the expiring list |
| Store.AppStore.CheckExpiring | src/context/AppContext.tsx:97-107 | the effect recomputes the expiring list at `now` and changes nothing else |
| Store.AppStore.AddFoodItem | src/context/AppContext.tsx:109-115 | appends exactly one item with the draft's fields and the new id; the effect runs again; the other lists are unchanged |
| Store.AppStore.UpdateFoodItem | src/context/AppContext.tsx:117-123 | the inventory becomes the id-keyed update of the old one; the effect runs again; the other lists are unchanged |
| Store.AppStore.RemoveFoodItem | src/context/AppContext.tsx:125-127 | the inventory becomes the old one without the id; the effect runs again; the other lists are unchanged |
| Store.AppStore.GenerateRecipes | src/context/AppContext.tsx:130-175 | appends the core recipe and then the extended recipe, with ids from the first reading `clock` and from `clock2 + 1`, where `clock2` is the second reading; nothing else changes |
| Store.AppStore.AddToShoppingList | src/context/AppContext.tsx:177-184 | appends exactly one unchecked item with the draft's fields and the new id; nothing else changes |
| Store.AppStore.UpdateShoppingListItem | src/context/AppContext.tsx:186-192 | the shopping list becomes the id-keyed update of the old one; nothing else changes |
| Store.AppStore.RemoveFromShoppingList | src/context/AppContext.tsx:194-196 | the shopping list becomes the old one without the id; nothing else changes |
| Store.AppStore.ToggleShoppingListItem | src/context/AppContext.tsx:198-204 | the shopping list becomes the old one with the id's items flipped; nothing else changes |
| InventoryView.FilteredInventory | src/pages/Inventory.tsx:39-41 | with `'all'` the view is the inventory; otherwise it holds exactly the items whose category string equals the filter |
| InventoryView.FilteredInventoryOrdered | src/pages/Inventory.tsx:39-41 | the filtered view keeps inventory order (distributes over `+`), and a single item shows once exactly when the filter is `'all'` or its category's name, otherwise not at all |
| InventoryView.FilterByCategory | src/pages/Inventory.tsx:39-41 | a category button's filter shows exactly that category's items |
| InventoryView.UnknownFilterShowsNothing | src/pages/Inventory.tsx:39-41 | a filter that is neither `'all'` nor a category string shows nothing |
| InventoryView.DaysCeil | src/pages/Inventory.tsx:46-47 | the rounded-up day count `d` satisfies `(d-1)*Day < ms <= d*Day` |
| InventoryView.ExpiringSoonWindow | src/pages/Inventory.tsx:43-49 | expiring soon holds exactly when `-1 day < expiry - now <= 3 days` |
| InventoryView.RecentlyExpiredFlaggedTwice | src/pages/Inventory.tsx:47-55 | an item that expired less than a day ago is flagged both expiring soon and expired |
| InventoryView.ViewAndStoreRules | src/pages/Inventory.tsx:48 | every item in the store's window is flagged on the page; the page also flags exactly the items at 3 days or in `(-1 day, 0]`, which the store leaves out |
| InventoryView.ApplyFoodEdit | src/pages/Inventory.tsx:34-37 | an input's edit changes the field it names and no other; the four `handleInputChange` fields, plus the two date inputs whose own handlers sit at lines 223-227 and 241-245 of the same file |
| InventoryView.FoodEditsCompose | src/pages/Inventory.tsx:34-37 | edits of different fields commute; a later edit of the same field overrides the earlier one |
| InventoryView.InventoryPage.constructor | src/pages/Inventory.tsx:9-18 | the form starts closed, the filter is `'all'` and the draft is blank |
| InventoryView.InventoryPage.HandleAddItem | src/pages/Inventory.tsx:20-32 | the old draft is added to the store, then the draft is reset to blank and the form closes |
| InventoryView.InventoryPage.HandleInputChange | src/pages/Inventory.tsx:34-37 | the draft takes the edit, and the form and filter state are unchanged; this also covers the date inputs' handlers at lines 223-227 and 241-245 of the same file |
| ShoppingView.GroupMap | src/pages/ShoppingList.tsx:41-47 | the grouping has a key exactly for each category that occurs |
| ShoppingView.GroupMapStep | src/pages/ShoppingList.tsx:42-45 | reading one more item pushes it onto its category's group, after creating an empty group if the key is missing |
| ShoppingView.GroupMapComplete | src/pages/ShoppingList.tsx:41-47 | each group is its category's items in list order and is non-empty; every item is in its own category's group; groups hold only their own category |
| ShoppingView.GroupSizeIsCount | src/pages/ShoppingList.tsx:41-47 | a group's size is the number of items of its category |
| ShoppingView.GroupMapCount | src/pages/ShoppingList.tsx:41-47 | the group sizes add up to the length of the list |
| ShoppingView.GroupedIsGroupMap | src/pages/ShoppingList.tsx:41-47 | the item-by-item reduce builds the grouping |
| ShoppingView.GroupByCategory | src/pages/ShoppingList.tsx:41-47 | the loop returns the grouping, with the categories in first-occurrence order |
| ShoppingView.ApplyShoppingEdit | src/pages/ShoppingList.tsx:35-38 | an input's edit changes the field it names and no other |
| ShoppingView.ShoppingEditsCompose | src/pages/ShoppingList.tsx:35-38 | edits of different fields commute; a later edit of the same field overrides the earlier one |
| ShoppingView.ShoppingListPage.constructor | src/pages/ShoppingList.tsx:15-21 | the form starts closed with the blank draft |
| ShoppingView.ShoppingListPage.HandleAddItem | src/pages/ShoppingList.tsx:23-33 | the old draft is added to the store, then the draft is reset to blank and the form closes |
| ShoppingView.ShoppingListPage.HandleInputChange | src/pages/ShoppingList.tsx:35-38 | the draft takes the edit, and the form state is unchanged |
| RecipesView.ToggleIngredient | src/pages/Recipes.tsx:11-17 | the toggled name is selected afterwards exactly when it was not before; other names keep their state; an absent name is appended at the end |
| RecipesView.ToggleAbsentTwice | src/pages/Recipes.tsx:11-17 | toggling an unselected name twice restores the selection |
| RecipesView.TogglePresentTwice | src/pages/Recipes.tsx:11-17 | toggling a selected name removes every copy of it; toggling it again appends it at the end |
| RecipesView.ToggleKeepsDistinct | src/pages/Recipes.tsx:11-17 | a duplicate-free selection stays duplicate-free |
| RecipesView.FilteredRecipes | src/pages/Recipes.tsx:39 | a tab shows exactly the recipes of its type |
| RecipesView.FilteredRecipesAppend | src/pages/Recipes.tsx:39 | each tab keeps list order (distributes over `+`), and a single recipe shows once under its own tab and not at all under the other |
| RecipesView.GeneratedRecipesByTab | src/pages/Recipes.tsx:39 | a generation run adds its core recipe at the end of the core tab and its extended recipe at the end of the extended tab |
| RecipesView.GeneratedTotalTimes | src/pages/Recipes.tsx:116 | generated recipes show 25 and 35 minutes |
| RecipesView.CoreShowsNoButton | src/pages/Recipes.tsx:130-131 | a core recipe never shows the add button |
| RecipesView.ExtendedButton | src/pages/Recipes.tsx:130-131 | on an extended recipe, a line shows the button exactly when its last word is one of the extra names |
| RecipesView.ExtraLineWords | src/context/AppContext.tsx:155-157 | the last words of the extra lines are `"Onion"`, `"Garlic"` and `"Oil"` |
| RecipesView.ExtraIngredientButtons | src/pages/Recipes.tsx:130-133 | the onion and garlic lines show the button; the olive oil line does not |
| RecipesView.IngredientLineButton | src/pages/Recipes.tsx:130-131 | a line made from a selected ingredient shows the button exactly when the ingredient's last word is `"Onion"` or `"Garlic"` |
| RecipesView.ExtraLinesEndWithNames | src/context/AppContext.tsx:155-157 | each extra line ends, as whole words, with its extra ingredient's name |
| RecipesView.ExtraIngredientButtonsByName | src/pages/Recipes.tsx:130-131 | under the whole-name rule all three extra lines show the button |
| RecipesView.ByNameKeepsLastWordButtons | src/pages/Recipes.tsx:130-131 | the whole-name rule shows every button the last-word rule shows on a line of several words |
| RecipesView.CoreShowsNoButtonByName | src/pages/Recipes.tsx:130-131 | under the whole-name rule a core recipe still shows no button |
| RecipesView.IngredientDraft | src/pages/Recipes.tsx:30-37 | the draft is the ingredient, quantity 1, unit `'item'`, category `Other` |
| RecipesView.RecipesPage.constructor | src/pages/Recipes.tsx:7-9 | nothing is selected, the core tab is active and no generation is running |
| RecipesView.RecipesPage.HandleIngredientToggle | src/pages/Recipes.tsx:11-17 | the selection becomes the toggle of the old one; the tab and generating flag are unchanged |
| RecipesView.RecipesPage.HandleGenerateRecipes | src/pages/Recipes.tsx:19-28 | with an empty selection nothing changes; otherwise the store appends the two recipes made from the selection (ids from two clock readings), and the tab on view gains exactly the new recipe of its type, at the end |
| RecipesView.RecipesPage.HandleAddToShoppingList | src/pages/Recipes.tsx:30-37 | appends one unchecked item named after the ingredient, with quantity 1, unit `'item'` and category `Other` |
| AnalyticsView.CountMap | src/pages/Analytics.tsx:14-20 | the distribution has a key exactly for each category that occurs |
| AnalyticsView.CountMapStep | src/pages/Analytics.tsx:15-18 | reading one more item bumps its category's count, starting from 0 when the key is missing |
| AnalyticsView.CountMapTotal | src/pages/Analytics.tsx:14-28 | the counts add up to `totalItems` |
| AnalyticsView.CountMapEntries | src/pages/Analytics.tsx:15-18 | only categories in the inventory get an entry, and each count is at least 1 and equals that category's number of items |
| AnalyticsView.TallyIsCountMap | src/pages/Analytics.tsx:14-20 | the item-by-item reduce builds the distribution |
| AnalyticsView.CategoryDistribution | src/pages/Analytics.tsx:14-20 | the loop returns the distribution, with its keys in first-occurrence order |
| AnalyticsView.CategoryEntries | src/pages/Analytics.tsx:23 | the entries list each category once, in key order, with its count, and every count lies between 1 and the inventory size |
| AnalyticsView.InsertByCount | src/pages/Analytics.tsx:24 | one insertion step of the sort adds exactly one entry |
| AnalyticsView.InsertByCountSorted | src/pages/Analytics.tsx:24 | inserting into a sorted list keeps it sorted by count, largest first |
| AnalyticsView.SortByCount | src/pages/Analytics.tsx:24 | the sort is a permutation and is sorted by count, largest first |
| AnalyticsView.InsertByCountStable | src/pages/Analytics.tsx:24 | an inserted entry lands after every entry with the same count |
| AnalyticsView.SortByCountStable | src/pages/Analytics.tsx:24 | among equal counts the sort keeps the entries' order |
| AnalyticsView.SortByCountLength | src/pages/Analytics.tsx:24 | the sort keeps the length |
| AnalyticsView.SortByCountMembers | src/pages/Analytics.tsx:24 | the sort keeps the members |
| AnalyticsView.SortedCategories | src/pages/Analytics.tsx:23-25 | at most five entries, sorted by count, largest first; they are the front of the stable sort of the inventory's own `(category, count)` entries, so each shown entry is a real entry and ties are cut in first-occurrence order |
| AnalyticsView.FirstFive | src/pages/Analytics.tsx:25 | `slice(0, 5)`: the first five entries, or all when there are fewer, as a prefix that keeps the order |
| AnalyticsView.SortedCategoriesLength | src/pages/Analytics.tsx:25 | five entries, or every category when there are fewer |
| AnalyticsView.SortedCategoriesCounts | src/pages/Analytics.tsx:23-25 | each shown count lies between 1 and the inventory size |
| AnalyticsView.SortedCategoriesEmpty | src/pages/Analytics.tsx:72-75 | the list is empty exactly when the inventory is, so the percentage divides only by a positive total |
| AnalyticsView.SortedCategoriesAreLargest | src/pages/Analytics.tsx:23-25 | no category left out has a larger count than a category shown |
| AnalyticsView.Percentage | src/pages/Analytics.tsx:75 | the result is the nearest whole percentage, halves up, and lies in 0..100 when the count is at most the total |
| AnalyticsView.PercentageBounds | src/pages/Analytics.tsx:75 | integer half-up rounding of `100*count/total` is within half a unit of the exact value, and at most 100 when `count <= total` |

## Left out

- Rendering is not modelled: JSX, CSS classes, icons, routing, the layout and its badges, and the notifications page. The notifications page only renders `expiringItems` and repeats the add-to-list call of the recipes page.
- Clicks that only set a flag are not modelled: opening and closing the forms, choosing a filter or a tab. The filter and tab values are parameters of the functions that use them. Remove and check buttons call the store methods directly.
- The 1.5-second `setTimeout` in the generate handler is not modelled. Stale closures and React's batching of state updates are left out too. `HandleGenerateRecipes` runs the generation synchronously, so its `isGenerating` flag is back to false when the method returns.
- Id uniqueness is not claimed. Ids are `DecimalString(clock)`, and two additions in the same millisecond get the same id, as in the source. The two recipe ids of one generation run differ only when the clock does not step back between its two readings; `Store.GeneratedRecipes` states exactly when they collide.
- Dates are not ISO strings. `parseISO`, `format`, `toISOString` and the `split('T')` of the date inputs are left out. Dates are integer milliseconds, and `addDays` is `+ k * Day`, ignoring daylight-saving changes. A date edit always carries a date. Clearing a date input in the source makes `new Date("").toISOString()` throw a RangeError in the handler, and the draft stays as it was; the model has no such edit.
- InventoryView.ApplyFoodEdit: the source stores the raw input text in the draft (`[name]: value` is always a string), so a typed-in quantity becomes a string. The model stores the typed value instead.
- ShoppingView.ApplyShoppingEdit: likewise stores the typed value where the source stores the raw input text.
- Explicit `undefined` in a `Partial` patch is not modelled: it overwrites a field in the source, while a patch here only carries present keys.
- The draft's `notes` field has no input on the page. The model keeps it as it is.
- Floating point is not modelled, and the hard-coded analytics metrics (waste reduction, money saved, CO2) are left out.
- AnalyticsView.Percentage: exact half-up rounding of `100*count/total`; the float division before `Math.round` in the source can land on the other side of a half.
- `console.log` is left out. The `useAppContext` throw outside a provider is left out too: every method receives an `AppStore` directly.
- The user record in types.ts is not part of the model; no core operation uses it.

## Findings

| source | as written | input that shows it | evidently intended | confidence | as-written member | corrected member |
|---|---|---|---|---|---|---|
| src/pages/Recipes.tsx:130-133 | the add button compares only the last space-separated word of a line with `additionalIngredients` | the generated line `"1 tbsp Olive Oil"` has last word `"Oil"`, which is not in `["Onion","Garlic","Olive Oil"]`, so olive oil never gets a button | every additional ingredient, including the two-word `"Olive Oil"`, gets the button | high, not executed | RecipesView.ExtraIngredientButtons | RecipesView.ExtraIngredientButtonsByName |
