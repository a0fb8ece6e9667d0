/** The application store (src/context/AppContext.tsx): the inventory, the
    recipes, the shopping list and the derived list of items about to
    expire. Each operation replaces a whole sequence, as the source's state
    setters do; the functions below compute the replacement and the class
    `AppStore` holds the state. The clock is a parameter: `clock` is the
    `Date.now()` reading an id is made from, `now` the time at which the
    expiry effect runs. */
module Store {
  import opened Types
  import opened Lists
  import opened Ids

  /** Milliseconds in a day; `addDays(d, k)` is `d + k * Day`. */
  const Day: int := 86400000

  // ---------------------------------------------------------------------
  // Inventory

  /** `{ ...item, id }` for an `Omit<FoodItem, 'id'>`. */
  function NewFoodItem(draft: FoodDraft, id: string): (r: FoodItem)
    ensures r.id == id
    ensures r.name == draft.name && r.category == draft.category && r.quantity == draft.quantity
    ensures r.unit == draft.unit && r.purchaseDate == draft.purchaseDate
    ensures r.expiryDate == draft.expiryDate && r.notes == draft.notes
  {
    FoodItem(id, draft.name, draft.category, draft.quantity, draft.unit,
             draft.purchaseDate, draft.expiryDate, draft.notes)
  }

  /** The shallow merge `{ ...item, ...patch }`. */
  function MergeFood(item: FoodItem, patch: FoodPatch): FoodItem {
    FoodItem(
      patch.id.GetOr(item.id),
      patch.name.GetOr(item.name),
      patch.category.GetOr(item.category),
      patch.quantity.GetOr(item.quantity),
      patch.unit.GetOr(item.unit),
      patch.purchaseDate.GetOr(item.purchaseDate),
      patch.expiryDate.GetOr(item.expiryDate),
      if patch.notes.Some? then patch.notes else item.notes)
  }

  /** The empty patch `{}`. */
  const NoFoodChange: FoodPatch := FoodPatch(None, None, None, None, None, None, None, None)

  /** `{ ...p, ...q }`: the later patch wins field by field. */
  function ThenFood(p: FoodPatch, q: FoodPatch): FoodPatch {
    FoodPatch(
      if q.id.Some? then q.id else p.id,
      if q.name.Some? then q.name else p.name,
      if q.category.Some? then q.category else p.category,
      if q.quantity.Some? then q.quantity else p.quantity,
      if q.unit.Some? then q.unit else p.unit,
      if q.purchaseDate.Some? then q.purchaseDate else p.purchaseDate,
      if q.expiryDate.Some? then q.expiryDate else p.expiryDate,
      if q.notes.Some? then q.notes else p.notes)
  }

  /** Shallow merge: the empty patch changes nothing, merging the same patch
      again changes nothing more, and two merges are one merge of the
      combined patch. */
  lemma MergeFoodLaws(item: FoodItem, p: FoodPatch, q: FoodPatch)
    ensures MergeFood(item, NoFoodChange) == item
    ensures MergeFood(MergeFood(item, p), p) == MergeFood(item, p)
    ensures MergeFood(MergeFood(item, p), q) == MergeFood(item, ThenFood(p, q))
  {
  }

  /** `inventory.map(x => x.id === id ? { ...x, ...patch } : x)`. */
  function UpdateFoodItems(inventory: seq<FoodItem>, id: string, patch: FoodPatch): (r: seq<FoodItem>)
    ensures |r| == |inventory|
    ensures forall i :: 0 <= i < |inventory| && inventory[i].id != id ==> r[i] == inventory[i]
    ensures forall i :: 0 <= i < |inventory| && inventory[i].id == id ==> r[i] == MergeFood(inventory[i], patch)
  {
    MapMatching(inventory, FoodId, id, (x: FoodItem) => MergeFood(x, patch))
  }

  /** Updating an id that no item carries changes nothing. */
  lemma UpdateFoodAbsent(inventory: seq<FoodItem>, id: string, patch: FoodPatch)
    requires forall i :: 0 <= i < |inventory| ==> inventory[i].id != id
    ensures UpdateFoodItems(inventory, id, patch) == inventory
  {
  }

  /** Applying the same update twice gives the same list as applying it once. */
  lemma UpdateFoodTwice(inventory: seq<FoodItem>, id: string, patch: FoodPatch)
    ensures UpdateFoodItems(UpdateFoodItems(inventory, id, patch), id, patch)
         == UpdateFoodItems(inventory, id, patch)
  {
    var once := UpdateFoodItems(inventory, id, patch);
    var twice := UpdateFoodItems(once, id, patch);
    forall i | 0 <= i < |inventory| ensures twice[i] == once[i] {
      if inventory[i].id == id {
        MergeFoodLaws(inventory[i], patch, patch);
      }
    }
  }

  /** `inventory.filter(x => x.id !== id)`. */
  function RemoveFoodItems(inventory: seq<FoodItem>, id: string): (r: seq<FoodItem>)
    ensures forall x :: x in r <==> x in inventory && x.id != id
  {
    RemoveMatching(inventory, FoodId, id)
  }

  /** Removal keeps the survivors in order: it distributes over `+`. */
  lemma RemoveFoodOrdered(a: seq<FoodItem>, b: seq<FoodItem>, id: string)
    ensures RemoveFoodItems(a + b, id) == RemoveFoodItems(a, id) + RemoveFoodItems(b, id)
  {
    RemoveMatchingConcat(a, b, FoodId, id);
  }

  /** Removing an absent id, or removing the same id a second time, leaves
      the list unchanged; an update after the removal is a no-op too. */
  lemma RemoveFoodThenNoOp(inventory: seq<FoodItem>, id: string, patch: FoodPatch)
    ensures (forall i :: 0 <= i < |inventory| ==> inventory[i].id != id) ==>
              RemoveFoodItems(inventory, id) == inventory
    ensures RemoveFoodItems(RemoveFoodItems(inventory, id), id) == RemoveFoodItems(inventory, id)
    ensures UpdateFoodItems(RemoveFoodItems(inventory, id), id, patch) == RemoveFoodItems(inventory, id)
  {
    if forall i :: 0 <= i < |inventory| ==> inventory[i].id != id {
      RemoveMatchingAbsent(inventory, FoodId, id);
    }
    RemoveMatchingTwice(inventory, FoodId, id);
    var r := RemoveFoodItems(inventory, id);
    assert forall i :: 0 <= i < |r| ==> r[i].id != id by {
      forall i | 0 <= i < |r| ensures r[i].id != id {
        assert r[i] in r;
      }
    }
    UpdateFoodAbsent(r, id, patch);
  }

  // ---------------------------------------------------------------------
  // Expiring items

  /** The expiry effect's test, `isAfter(expiry, today) &&
      isBefore(expiry, addDays(today, 3))`: both bounds strict. */
  predicate InExpiryWindow(expiry: int, now: int) {
    now < expiry < now + 3 * Day
  }

  /** The value the effect stores in `expiringItems`. */
  function ExpiringItems(inventory: seq<FoodItem>, now: int): (r: seq<FoodItem>)
    ensures forall x :: x in r <==> x in inventory && InExpiryWindow(x.expiryDate, now)
    ensures r == [] <==> forall i :: 0 <= i < |inventory| ==> !InExpiryWindow(inventory[i].expiryDate, now)
  {
    var r := Filter(inventory, (x: FoodItem) => InExpiryWindow(x.expiryDate, now));
    assert r != [] ==> r[0] in r;
    assert forall i :: 0 <= i < |inventory| ==> inventory[i] in inventory;
    r
  }

  /** The expiring list is the ordered sub-list of the inventory: it
      distributes over `+` and keeps or drops each single item. */
  lemma ExpiringItemsOrdered(a: seq<FoodItem>, b: seq<FoodItem>, x: FoodItem, now: int)
    ensures ExpiringItems(a + b, now) == ExpiringItems(a, now) + ExpiringItems(b, now)
    ensures ExpiringItems([x], now) == if InExpiryWindow(x.expiryDate, now) then [x] else []
  {
    FilterConcat(a, b, (y: FoodItem) => InExpiryWindow(y.expiryDate, now));
    FilterSingleton(x, (y: FoodItem) => InExpiryWindow(y.expiryDate, now));
  }

  lemma ExpiringOfThree(a: FoodItem, b: FoodItem, c: FoodItem, now: int)
    ensures ExpiringItems([a, b, c], now) ==
      ExpiringItems([a], now) + ExpiringItems([b], now) + ExpiringItems([c], now)
  {
    var ea, eb, ec := ExpiringItems([a], now), ExpiringItems([b], now), ExpiringItems([c], now);
    calc {
      ExpiringItems([a, b, c], now);
      { assert [a, b, c] == [a] + [b, c]; }
      ExpiringItems([a] + [b, c], now);
      { ExpiringItemsOrdered([a], [b, c], a, now); }
      ea + ExpiringItems([b, c], now);
      { assert [b, c] == [b] + [c]; ExpiringItemsOrdered([b], [c], b, now); }
      ea + (eb + ec);
    }
    assert ea + (eb + ec) == ea + eb + ec;
  }

  /** An item due in one day qualifies; items due in four days or expired a
      day ago do not. */
  lemma ExpiringItemsExample(a: FoodItem, b: FoodItem, c: FoodItem, now: int)
    requires a.expiryDate == now + Day
    requires b.expiryDate == now + 4 * Day
    requires c.expiryDate == now - Day
    ensures ExpiringItems([a, b, c], now) == [a]
  {
    ExpiringOfThree(a, b, c, now);
    ExpiringItemsOrdered([], [], a, now);
    ExpiringItemsOrdered([], [], b, now);
    ExpiringItemsOrdered([], [], c, now);
  }

  // ---------------------------------------------------------------------
  // Seed state

  /** The mock inventory, stamped at load time `t`. */
  function SeedInventory(t: int): seq<FoodItem> {
    [FoodItem("1", "Apples", Fruits, 5.0, "pcs", t, t + 7 * Day, None),
     FoodItem("2", "Milk", Dairy, 1.0, "liter", t, t + 5 * Day, None),
     FoodItem("3", "Chicken Breast", Meat, 500.0, "g", t, t + 2 * Day, None)]
  }

  function SeedRecipes(): seq<Recipe> {
    [Recipe("1", "Apple Milk Smoothie", ["2 Apples", "1 cup Milk"],
            ["Wash and core the apples.", "Cut apples into chunks.",
             "Blend apples and milk until smooth.", "Serve chilled."],
            5, 0, 2, Core, None)]
  }

  function SeedShoppingList(): seq<ShoppingListItem> {
    [ShoppingListItem("1", "Bananas", 6.0, "pcs", Fruits, false),
     ShoppingListItem("2", "Bread", 1.0, "loaf", Bakery, false)]
  }

  /** When the effect runs within two days of loading, only the chicken
      (due at +2 days) is in the window; milk (+5) and apples (+7) are not. */
  lemma SeedExpiring(t: int, now: int)
    requires t - Day < now < t + 2 * Day
    ensures ExpiringItems(SeedInventory(t), now) == [SeedInventory(t)[2]]
  {
    var s := SeedInventory(t);
    var apples, milk, chicken := s[0], s[1], s[2];
    assert s == [apples, milk, chicken];
    ExpiringOfThree(apples, milk, chicken, now);
    ExpiringItemsOrdered([], [], apples, now);
    ExpiringItemsOrdered([], [], milk, now);
    ExpiringItemsOrdered([], [], chicken, now);
  }

  // ---------------------------------------------------------------------
  // Recipe generation (a fixed mock, not a recommender)

  const ExtraIngredientLines: seq<string> := ["1 Onion", "2 cloves Garlic", "1 tbsp Olive Oil"]
  const ExtraIngredientNames: seq<string> := ["Onion", "Garlic", "Olive Oil"]

  const CoreInstructions: seq<string> :=
    ["Mix all ingredients together.", "Cook for 10 minutes.", "Serve hot."]

  /** The third step keeps the source's own spelling of "Saute". */
  const ExtendedInstructions: seq<string> :=
    ["Chop all vegetables.", "Heat oil in a pan.",
     "Saut\U{221A}\U{00A9} garlic and onion until fragrant.",
     "Add remaining ingredients.", "Cook for 15 minutes.", "Season to taste and serve."]

  /** `ingredients.map(ing => `1 ${ing}`)`. */
  function IngredientLines(names: seq<string>): (r: seq<string>)
    ensures |r| == |names|
    ensures forall i :: 0 <= i < |names| ==> r[i] == "1 " + names[i]
  {
    seq(|names|, i requires 0 <= i < |names| => "1 " + names[i])
  }

  /** Each line gives back its ingredient once the `"1 "` quantity is cut off. */
  lemma IngredientLinesInverse(names: seq<string>)
    ensures forall i :: 0 <= i < |names| ==> IngredientLines(names)[i][2..] == names[i]
  {
    var r := IngredientLines(names);
    forall i | 0 <= i < |names| ensures r[i][2..] == names[i] {
      assert r[i] == "1 " + names[i];
    }
  }

  function CoreRecipe(names: seq<string>, id: string): Recipe {
    Recipe(id, "Recipe with " + Join(names, ", "), IngredientLines(names),
           CoreInstructions, 10, 15, 4, Core, None)
  }

  function ExtendedRecipe(names: seq<string>, id: string): Recipe {
    Recipe(id, "Enhanced Recipe with " + Join(names, ", "),
           IngredientLines(names) + ExtraIngredientLines,
           ExtendedInstructions, 15, 20, 4, Extended, Some(ExtraIngredientNames))
  }

  /** What one call of `generateRecipes` adds: a core recipe, then an
      extended one whose ingredient lines are the core lines followed by
      exactly three fixed extras. The two ids come from two clock readings,
      `clock` and then `clock2`; they differ whenever the clock has not
      stepped back between the readings. */
  lemma GeneratedRecipes(names: seq<string>, clock: nat, clock2: nat)
    ensures var core := CoreRecipe(names, DecimalString(clock));
            var ext := ExtendedRecipe(names, DecimalString(clock2 + 1));
            && core.recipeType == Core && ext.recipeType == Extended
            && |core.ingredients| == |names|
            && (forall i :: 0 <= i < |names| ==> core.ingredients[i] == "1 " + names[i])
            && ext.ingredients[..|names|] == core.ingredients
            && ext.ingredients[|names|..] == ["1 Onion", "2 cloves Garlic", "1 tbsp Olive Oil"]
            && ext.additionalIngredients == Some(["Onion", "Garlic", "Olive Oil"])
            && core.title == "Recipe with " + Join(names, ", ")
            && ext.title == "Enhanced Recipe with " + Join(names, ", ")
            && (core.id == ext.id <==> clock == clock2 + 1)
  {
    var core := CoreRecipe(names, DecimalString(clock));
    var ext := ExtendedRecipe(names, DecimalString(clock2 + 1));
    assert ext.ingredients[..|names|] == core.ingredients;
    DecimalStringInjective(clock, clock2 + 1);
  }

  // ---------------------------------------------------------------------
  // Shopping list

  /** `{ ...item, id, checked: false }`. */
  function NewShoppingItem(draft: ShoppingDraft, id: string): (r: ShoppingListItem)
    ensures r.id == id && !r.checked
    ensures r.name == draft.name && r.quantity == draft.quantity
    ensures r.unit == draft.unit && r.category == draft.category
  {
    ShoppingListItem(id, draft.name, draft.quantity, draft.unit, draft.category, false)
  }

  /** `{ ...item, ...patch }`. */
  function MergeShopping(item: ShoppingListItem, patch: ShoppingPatch): ShoppingListItem {
    ShoppingListItem(
      patch.id.GetOr(item.id),
      patch.name.GetOr(item.name),
      patch.quantity.GetOr(item.quantity),
      patch.unit.GetOr(item.unit),
      patch.category.GetOr(item.category),
      patch.checked.GetOr(item.checked))
  }

  /** `{ ...item, checked: !item.checked }`. */
  function FlipChecked(item: ShoppingListItem): ShoppingListItem {
    item.(checked := !item.checked)
  }

  /** `shoppingList.map(x => x.id === id ? { ...x, ...patch } : x)`. */
  function UpdateShoppingItems(list: seq<ShoppingListItem>, id: string, patch: ShoppingPatch)
    : (r: seq<ShoppingListItem>)
    ensures |r| == |list|
    ensures forall i :: 0 <= i < |list| && list[i].id != id ==> r[i] == list[i]
    ensures forall i :: 0 <= i < |list| && list[i].id == id ==> r[i] == MergeShopping(list[i], patch)
  {
    MapMatching(list, ShoppingId, id, (x: ShoppingListItem) => MergeShopping(x, patch))
  }

  /** Updating an absent id changes nothing; the same update twice is the
      same as once. */
  lemma UpdateShoppingLaws(list: seq<ShoppingListItem>, id: string, patch: ShoppingPatch)
    ensures (forall i :: 0 <= i < |list| ==> list[i].id != id) ==> UpdateShoppingItems(list, id, patch) == list
    ensures UpdateShoppingItems(UpdateShoppingItems(list, id, patch), id, patch)
         == UpdateShoppingItems(list, id, patch)
  {
    var once := UpdateShoppingItems(list, id, patch);
    var twice := UpdateShoppingItems(once, id, patch);
    forall i | 0 <= i < |list| ensures twice[i] == once[i] {
    }
  }

  /** `shoppingList.filter(x => x.id !== id)`. */
  function RemoveShoppingItems(list: seq<ShoppingListItem>, id: string): (r: seq<ShoppingListItem>)
    ensures forall x :: x in r <==> x in list && x.id != id
  {
    RemoveMatching(list, ShoppingId, id)
  }

  /** Removal keeps the survivors in order, and removing an absent id or
      removing twice changes nothing. */
  lemma RemoveShoppingLaws(a: seq<ShoppingListItem>, b: seq<ShoppingListItem>, id: string)
    ensures RemoveShoppingItems(a + b, id) == RemoveShoppingItems(a, id) + RemoveShoppingItems(b, id)
    ensures (forall i :: 0 <= i < |a| ==> a[i].id != id) ==> RemoveShoppingItems(a, id) == a
    ensures RemoveShoppingItems(RemoveShoppingItems(a, id), id) == RemoveShoppingItems(a, id)
  {
    RemoveMatchingConcat(a, b, ShoppingId, id);
    if forall i :: 0 <= i < |a| ==> a[i].id != id {
      RemoveMatchingAbsent(a, ShoppingId, id);
    }
    RemoveMatchingTwice(a, ShoppingId, id);
  }

  /** `shoppingList.map(x => x.id === id ? { ...x, checked: !x.checked } : x)`. */
  function ToggleShoppingItems(list: seq<ShoppingListItem>, id: string): (r: seq<ShoppingListItem>)
    ensures |r| == |list|
    ensures forall i :: 0 <= i < |list| && list[i].id != id ==> r[i] == list[i]
    ensures forall i :: 0 <= i < |list| && list[i].id == id ==>
              r[i].checked == !list[i].checked && r[i] == list[i].(checked := r[i].checked)
  {
    MapMatching(list, ShoppingId, id, FlipChecked)
  }

  /** Toggling the same id twice restores the list. */
  lemma ToggleTwice(list: seq<ShoppingListItem>, id: string)
    ensures ToggleShoppingItems(ToggleShoppingItems(list, id), id) == list
  {
    var once := ToggleShoppingItems(list, id);
    var twice := ToggleShoppingItems(once, id);
    forall i | 0 <= i < |list| ensures twice[i] == list[i] {
    }
  }

  // ---------------------------------------------------------------------
  // The store object

  class AppStore {
    var inventory: seq<FoodItem>
    var recipes: seq<Recipe>
    var shoppingList: seq<ShoppingListItem>
    var expiringItems: seq<FoodItem>
    /** The time at which the expiry effect last ran. */
    ghost var checkedAt: int

    /** `expiringItems` is the window filter of the current inventory, taken
        at the last time the inventory changed. */
    ghost predicate Valid()
      reads this
    {
      expiringItems == ExpiringItems(inventory, checkedAt)
    }

    /** The provider mounting: the mock seed, built at `loadTime`, then the
        expiry effect's first run at `now`. */
    constructor (loadTime: int, now: int)
      ensures Valid() && checkedAt == now
      ensures inventory == SeedInventory(loadTime)
      ensures recipes == SeedRecipes() && shoppingList == SeedShoppingList()
    {
      inventory := SeedInventory(loadTime);
      recipes := SeedRecipes();
      shoppingList := SeedShoppingList();
      expiringItems := ExpiringItems(SeedInventory(loadTime), now);
      checkedAt := now;
    }

    /** The effect that follows every change of `inventory`. */
    method CheckExpiring(now: int)
      modifies this
      ensures Valid() && checkedAt == now
      ensures expiringItems == ExpiringItems(inventory, now)
      ensures inventory == old(inventory) && recipes == old(recipes)
      ensures shoppingList == old(shoppingList)
    {
      expiringItems := ExpiringItems(inventory, now);
      checkedAt := now;
    }

    method AddFoodItem(draft: FoodDraft, clock: nat, now: int)
      modifies this
      ensures Valid() && checkedAt == now
      ensures inventory == old(inventory) + [NewFoodItem(draft, DecimalString(clock))]
      ensures recipes == old(recipes) && shoppingList == old(shoppingList)
    {
      inventory := inventory + [NewFoodItem(draft, DecimalString(clock))];
      CheckExpiring(now);
    }

    method UpdateFoodItem(id: string, patch: FoodPatch, now: int)
      modifies this
      ensures Valid() && checkedAt == now
      ensures inventory == UpdateFoodItems(old(inventory), id, patch)
      ensures recipes == old(recipes) && shoppingList == old(shoppingList)
    {
      inventory := UpdateFoodItems(inventory, id, patch);
      CheckExpiring(now);
    }

    method RemoveFoodItem(id: string, now: int)
      modifies this
      ensures Valid() && checkedAt == now
      ensures inventory == RemoveFoodItems(old(inventory), id)
      ensures recipes == old(recipes) && shoppingList == old(shoppingList)
    {
      inventory := RemoveFoodItems(inventory, id);
      CheckExpiring(now);
    }

    /** Appends the core recipe (id from the reading `clock`) and then the
        extended one (id from `clock2 + 1`, where `clock2` is the second
        reading of the clock). */
    method GenerateRecipes(ingredients: seq<string>, clock: nat, clock2: nat)
      requires Valid()
      modifies this
      ensures Valid() && checkedAt == old(checkedAt)
      ensures recipes == old(recipes) + [CoreRecipe(ingredients, DecimalString(clock)),
                                         ExtendedRecipe(ingredients, DecimalString(clock2 + 1))]
      ensures inventory == old(inventory) && expiringItems == old(expiringItems)
      ensures shoppingList == old(shoppingList)
    {
      recipes := recipes + [CoreRecipe(ingredients, DecimalString(clock)),
                            ExtendedRecipe(ingredients, DecimalString(clock2 + 1))];
    }

    method AddToShoppingList(draft: ShoppingDraft, clock: nat)
      requires Valid()
      modifies this
      ensures Valid() && checkedAt == old(checkedAt)
      ensures shoppingList == old(shoppingList) + [NewShoppingItem(draft, DecimalString(clock))]
      ensures inventory == old(inventory) && expiringItems == old(expiringItems)
      ensures recipes == old(recipes)
    {
      shoppingList := shoppingList + [NewShoppingItem(draft, DecimalString(clock))];
    }

    method UpdateShoppingListItem(id: string, patch: ShoppingPatch)
      requires Valid()
      modifies this
      ensures Valid() && checkedAt == old(checkedAt)
      ensures shoppingList == UpdateShoppingItems(old(shoppingList), id, patch)
      ensures inventory == old(inventory) && expiringItems == old(expiringItems)
      ensures recipes == old(recipes)
    {
      shoppingList := UpdateShoppingItems(shoppingList, id, patch);
    }

    method RemoveFromShoppingList(id: string)
      requires Valid()
      modifies this
      ensures Valid() && checkedAt == old(checkedAt)
      ensures shoppingList == RemoveShoppingItems(old(shoppingList), id)
      ensures inventory == old(inventory) && expiringItems == old(expiringItems)
      ensures recipes == old(recipes)
    {
      shoppingList := RemoveShoppingItems(shoppingList, id);
    }

    method ToggleShoppingListItem(id: string)
      requires Valid()
      modifies this
      ensures Valid() && checkedAt == old(checkedAt)
      ensures shoppingList == ToggleShoppingItems(old(shoppingList), id)
      ensures inventory == old(inventory) && expiringItems == old(expiringItems)
      ensures recipes == old(recipes)
    {
      shoppingList := ToggleShoppingItems(shoppingList, id);
    }
  }
}
