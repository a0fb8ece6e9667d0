/** The inventory page (src/pages/Inventory.tsx): the category filter, the
    two expiry flags shown beside each item, and the add-item form, whose
    draft is page state. `now` stands for `new Date()` at the moment the
    page evaluates it. */
module InventoryView {
  import opened Types
  import opened Lists
  import opened Ids
  import opened Store

  // ---------------------------------------------------------------------
  // Category filter

  /** `filter === 'all' ? inventory : inventory.filter(item => item.category === filter)`;
      the filter is the string the category buttons set. */
  function FilteredInventory(inventory: seq<FoodItem>, filter: string): (r: seq<FoodItem>)
    ensures filter == "all" ==> r == inventory
    ensures filter != "all" ==>
              forall x :: x in r <==> x in inventory && CategoryName(x.category) == filter
  {
    if filter == "all" then inventory
    else Filter(inventory, (x: FoodItem) => CategoryName(x.category) == filter)
  }

  /** The filtered view keeps inventory order: it distributes over `+`, and
      a single item shows once or not at all. */
  lemma FilteredInventoryOrdered(a: seq<FoodItem>, b: seq<FoodItem>, x: FoodItem, filter: string)
    ensures FilteredInventory(a + b, filter) == FilteredInventory(a, filter) + FilteredInventory(b, filter)
    ensures FilteredInventory([x], filter) ==
              if filter == "all" || CategoryName(x.category) == filter then [x] else []
  {
    if filter != "all" {
      FilterConcat(a, b, (y: FoodItem) => CategoryName(y.category) == filter);
      FilterSingleton(x, (y: FoodItem) => CategoryName(y.category) == filter);
    }
  }

  /** Selecting a category's button shows exactly the items of that category. */
  lemma FilterByCategory(inventory: seq<FoodItem>, c: FoodCategory)
    ensures forall x: FoodItem :: x in FilteredInventory(inventory, CategoryName(c)) <==> x in inventory && x.category == c
  {
    assert CategoryName(c) != "all";
    forall x: FoodItem ensures CategoryName(x.category) == CategoryName(c) <==> x.category == c {
      CategoryNamesDistinct(x.category, c);
    }
  }

  /** A filter that is neither `'all'` nor a category name shows nothing. */
  lemma UnknownFilterShowsNothing(inventory: seq<FoodItem>, filter: string)
    requires filter != "all" && ParseCategory(filter) == None
    ensures FilteredInventory(inventory, filter) == []
  {
    var r := FilteredInventory(inventory, filter);
    if r != [] {
      assert r[0] in r;
      CategoryNameRoundTrip(r[0].category);
      assert false;
    }
  }

  // ---------------------------------------------------------------------
  // Expiry flags

  /** `Math.ceil(ms / (1000 * 60 * 60 * 24))` for a whole number of milliseconds. */
  function DaysCeil(ms: int): (d: int)
    ensures (d - 1) * Day < ms <= d * Day
  {
    -((-ms) / Day)
  }

  /** `isExpiringSoon`: the rounded-up day difference lies in [0, 3]. */
  predicate IsExpiringSoon(expiry: int, now: int) {
    0 <= DaysCeil(expiry - now) <= 3
  }

  /** `isExpired`: the expiry instant lies strictly before now. */
  predicate IsExpired(expiry: int, now: int) {
    expiry < now
  }

  /** The expiring-soon flag in milliseconds: more than one day past expiry
      is not flagged, up to exactly three days ahead is. */
  lemma ExpiringSoonWindow(expiry: int, now: int)
    ensures IsExpiringSoon(expiry, now) <==> -Day < expiry - now <= 3 * Day
  {
    var d := DaysCeil(expiry - now);
    if d < 0 {
      assert d * Day <= -Day;
    } else if d > 3 {
      assert (d - 1) * Day >= 3 * Day;
    }
  }

  /** An item that expired less than a day ago carries both flags, because
      the rounded-up day difference is 0. */
  lemma RecentlyExpiredFlaggedTwice(expiry: int, now: int)
    requires now - Day < expiry < now
    ensures IsExpiringSoon(expiry, now) && IsExpired(expiry, now)
    ensures DaysCeil(expiry - now) == 0
  {
    ExpiringSoonWindow(expiry, now);
  }

  /** Every item in the store's expiring list is flagged on this page too,
      but the page also flags items at exactly three days and items up to a
      day past expiry, which the store leaves out. */
  lemma ViewAndStoreRules(expiry: int, now: int)
    ensures InExpiryWindow(expiry, now) ==> IsExpiringSoon(expiry, now)
    ensures IsExpiringSoon(expiry, now) && !InExpiryWindow(expiry, now) <==>
              expiry - now == 3 * Day || -Day < expiry - now <= 0
  {
    ExpiringSoonWindow(expiry, now);
  }

  // ---------------------------------------------------------------------
  // The add-item form

  /** One change to the draft: the four fields wired to `handleInputChange`
      and the two date inputs with handlers of their own. */
  datatype FoodDraftEdit =
    | EditName(newName: string)
    | EditCategory(newCategory: FoodCategory)
    | EditQuantity(newQuantity: real)
    | EditUnit(newUnit: string)
    | EditPurchaseDate(newPurchaseDate: int)
    | EditExpiryDate(newExpiryDate: int)

  /** `{ ...newItem, [name]: value }`. */
  function ApplyFoodEdit(draft: FoodDraft, edit: FoodDraftEdit): (r: FoodDraft)
    ensures r.name == if edit.EditName? then edit.newName else draft.name
    ensures r.category == if edit.EditCategory? then edit.newCategory else draft.category
    ensures r.quantity == if edit.EditQuantity? then edit.newQuantity else draft.quantity
    ensures r.unit == if edit.EditUnit? then edit.newUnit else draft.unit
    ensures r.purchaseDate == if edit.EditPurchaseDate? then edit.newPurchaseDate else draft.purchaseDate
    ensures r.expiryDate == if edit.EditExpiryDate? then edit.newExpiryDate else draft.expiryDate
    ensures r.notes == draft.notes
  {
    match edit
    case EditName(v) => draft.(name := v)
    case EditCategory(v) => draft.(category := v)
    case EditQuantity(v) => draft.(quantity := v)
    case EditUnit(v) => draft.(unit := v)
    case EditPurchaseDate(v) => draft.(purchaseDate := v)
    case EditExpiryDate(v) => draft.(expiryDate := v)
  }

  /** Which field an edit names. */
  function EditedField(edit: FoodDraftEdit): nat {
    match edit
    case EditName(_) => 0
    case EditCategory(_) => 1
    case EditQuantity(_) => 2
    case EditUnit(_) => 3
    case EditPurchaseDate(_) => 4
    case EditExpiryDate(_) => 5
  }

  /** Edits of different fields commute; a later edit of the same field
      overrides an earlier one. */
  lemma FoodEditsCompose(draft: FoodDraft, e1: FoodDraftEdit, e2: FoodDraftEdit)
    ensures EditedField(e1) != EditedField(e2) ==>
              ApplyFoodEdit(ApplyFoodEdit(draft, e1), e2) == ApplyFoodEdit(ApplyFoodEdit(draft, e2), e1)
    ensures EditedField(e1) == EditedField(e2) ==>
              ApplyFoodEdit(ApplyFoodEdit(draft, e1), e2) == ApplyFoodEdit(draft, e2)
  {
  }

  /** The draft the form starts from and returns to. */
  function BlankFoodDraft(now: int): FoodDraft {
    FoodDraft("", Other, 1.0, "pcs", now, now, None)
  }

  class InventoryPage {
    var showAddForm: bool
    var filter: string
    var draft: FoodDraft

    constructor (now: int)
      ensures !showAddForm && filter == "all" && draft == BlankFoodDraft(now)
    {
      showAddForm := false;
      filter := "all";
      draft := BlankFoodDraft(now);
    }

    /** Submit: the draft goes to the store, then the form is reset and closed. */
    method HandleAddItem(store: AppStore, clock: nat, now: int)
      modifies this, store
      ensures store.Valid() && store.checkedAt == now
      ensures store.inventory == old(store.inventory) + [NewFoodItem(old(draft), DecimalString(clock))]
      ensures store.recipes == old(store.recipes) && store.shoppingList == old(store.shoppingList)
      ensures draft == BlankFoodDraft(now) && !showAddForm && filter == old(filter)
    {
      store.AddFoodItem(draft, clock, now);
      draft := BlankFoodDraft(now);
      showAddForm := false;
    }

    /** An input's change event: only the field it names changes. */
    method HandleInputChange(edit: FoodDraftEdit)
      modifies this
      ensures draft == ApplyFoodEdit(old(draft), edit)
      ensures showAddForm == old(showAddForm) && filter == old(filter)
    {
      draft := ApplyFoodEdit(draft, edit);
    }
  }
}
