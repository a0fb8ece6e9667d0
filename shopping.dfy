/** The shopping-list page (src/pages/ShoppingList.tsx): the list grouped by
    category for display, and the add-item form, whose draft is page
    state. */
module ShoppingView {
  import opened Types
  import opened Lists
  import opened Ids
  import opened Store

  /** The items of category `c`, in shopping-list order. */
  function ItemsIn(list: seq<ShoppingListItem>, c: FoodCategory): seq<ShoppingListItem> {
    KeyFilter(list, ShoppingCategoryOf, c)
  }

  /** Total size of the groups listed in `categories`. */
  function GroupedCount(categories: seq<FoodCategory>, groups: map<FoodCategory, seq<ShoppingListItem>>): int {
    SumOver(categories, (c: FoodCategory) => if c in groups then |groups[c]| else 0)
  }

  /** What the reduce has built after reading `s`: one group per category
      met, holding that category's items in list order. */
  function GroupMap(s: seq<ShoppingListItem>): (m: map<FoodCategory, seq<ShoppingListItem>>)
    ensures forall c :: c in m <==> c in FirstKeys(s, ShoppingCategoryOf)
  {
    map c | c in FirstKeys(s, ShoppingCategoryOf) :: ItemsIn(s, c)
  }

  /** One reduce step: `if (!acc[c]) acc[c] = []; acc[c].push(item)`. An
      array, even an empty one, is truthy, so only a missing key starts a
      fresh group. */
  function PushItem(m: map<FoodCategory, seq<ShoppingListItem>>, x: ShoppingListItem): map<FoodCategory, seq<ShoppingListItem>> {
    var c := x.category;
    var g := if c in m then m else m[c := []];
    g[c := g[c] + [x]]
  }

  lemma GroupMapStepAt(s: seq<ShoppingListItem>, x: ShoppingListItem, d: FoodCategory)
    requires d in PushItem(GroupMap(s), x)
    ensures d in GroupMap(s + [x]) && GroupMap(s + [x])[d] == PushItem(GroupMap(s), x)[d]
  {
    FirstKeysAppend(s, x, ShoppingCategoryOf);
    KeyFilterAppend(s, x, ShoppingCategoryOf, d);
    if d == x.category && d !in GroupMap(s) {
      KeyFilterUnmet(s, ShoppingCategoryOf, d);
    }
  }

  /** Reading one more item: a fresh empty group the first time its
      category is met, then the item is pushed onto that group. */
  lemma GroupMapStep(s: seq<ShoppingListItem>, x: ShoppingListItem)
    ensures GroupMap(s + [x]) == PushItem(GroupMap(s), x)
  {
    var m' := PushItem(GroupMap(s), x);
    GroupMapKeysStep(s, x);
    forall d | d in m' ensures GroupMap(s + [x])[d] == m'[d] {
      GroupMapStepAt(s, x, d);
    }
  }

  lemma GroupMapKeysStep(s: seq<ShoppingListItem>, x: ShoppingListItem)
    ensures GroupMap(s + [x]).Keys == PushItem(GroupMap(s), x).Keys
  {
    FirstKeysAppend(s, x, ShoppingCategoryOf);
  }

  /** The finished map: every item is in the group of its own category and
      in no other, and no group is empty. */
  lemma GroupMapComplete(list: seq<ShoppingListItem>)
    ensures var groups := GroupMap(list);
            && (forall c :: c in groups ==> groups[c] == ItemsIn(list, c) && groups[c] != [])
            && (forall i :: 0 <= i < |list| ==> list[i].category in groups && list[i] in groups[list[i].category])
            && (forall c, x :: c in groups && x in groups[c] ==> x.category == c)
  {
    var groups := GroupMap(list);
    forall c | c in groups ensures groups[c] != [] {
      var x :| x in list && ShoppingCategoryOf(x) == c;
      assert x in ItemsIn(list, c);
    }
    forall j | 0 <= j < |list| ensures list[j].category in groups && list[j] in groups[list[j].category] {
      assert list[j] in list;
      assert ShoppingCategoryOf(list[j]) == list[j].category;
    }
  }

  /** A group holds as many items as the list has of its category. */
  lemma GroupSizeIsCount(list: seq<ShoppingListItem>, c: FoodCategory)
    requires c in FirstKeys(list, ShoppingCategoryOf)
    ensures c in GroupMap(list) && |GroupMap(list)[c]| == CountKey(list, ShoppingCategoryOf, c)
  {
  }

  /** The group sizes add up to the length of the list: grouping loses and
      duplicates nothing. */
  lemma GroupMapCount(list: seq<ShoppingListItem>)
    ensures GroupedCount(FirstKeys(list, ShoppingCategoryOf), GroupMap(list)) == |list|
  {
    var groups := GroupMap(list);
    var keys := FirstKeys(list, ShoppingCategoryOf);
    var f := (c: FoodCategory) => if c in groups then |groups[c]| else 0;
    var g := (c: FoodCategory) => CountKey(list, ShoppingCategoryOf, c);
    assert forall i :: 0 <= i < |keys| ==> f(keys[i]) == g(keys[i]) by {
      forall i | 0 <= i < |keys| ensures f(keys[i]) == g(keys[i]) {
        GroupSizeIsCount(list, keys[i]);
      }
    }
    SumOverAgree(keys, f, g);
    assert SumOver(keys, g) == |list| by { CountsSumToLength(list, ShoppingCategoryOf); }
  }

  /** The reduce itself: one `PushItem` per item, in list order. */
  function Grouped(s: seq<ShoppingListItem>): map<FoodCategory, seq<ShoppingListItem>>
    decreases |s|
  {
    if s == [] then map[] else PushItem(Grouped(s[..|s| - 1]), s[|s| - 1])
  }

  /** The reduce computes the reference grouping. */
  lemma {:induction false} GroupedIsGroupMap(s: seq<ShoppingListItem>)
    ensures Grouped(s) == GroupMap(s)
    decreases |s|
  {
    if s != [] {
      var s' := s[..|s| - 1];
      GroupedIsGroupMap(s');
      SplitLast(s);
      GroupMapStep(s', s[|s| - 1]);
    }
  }

  lemma GroupingStep(list: seq<ShoppingListItem>, i: nat)
    requires i < |list|
    ensures var c := list[i].category;
            var m := Grouped(list[..i]);
            var keys := FirstKeys(list[..i], ShoppingCategoryOf);
            && Grouped(list[..i + 1]) == PushItem(m, list[i])
            && FirstKeys(list[..i + 1], ShoppingCategoryOf) == if c in m then keys else keys + [c]
  {
    assert list[..i + 1][..i] == list[..i];
    assert list[..i + 1] == list[..i] + [list[i]];
    GroupedIsGroupMap(list[..i]);
    FirstKeysAppend(list[..i], list[i], ShoppingCategoryOf);
  }

  /** The `groupedItems` reduce, one `PushItem` per item. `categories` is
      the key order `Object.entries` reports, which is insertion order. */
  method GroupByCategory(list: seq<ShoppingListItem>)
    returns (categories: seq<FoodCategory>, groups: map<FoodCategory, seq<ShoppingListItem>>)
    ensures categories == FirstKeys(list, ShoppingCategoryOf)
    ensures groups == GroupMap(list)
  {
    categories, groups := [], map[];
    var i := 0;
    while i < |list|
      invariant 0 <= i <= |list|
      invariant categories == FirstKeys(list[..i], ShoppingCategoryOf)
      invariant groups == Grouped(list[..i])
    {
      var item := list[i];
      GroupingStep(list, i);
      categories := if item.category in groups then categories else categories + [item.category];
      groups := PushItem(groups, item);
      i := i + 1;
    }
    assert list[..i] == list;
    GroupedIsGroupMap(list);
  }

  // ---------------------------------------------------------------------
  // The add-item form

  /** One change to the draft, by the input's `name`. */
  datatype ShoppingDraftEdit =
    | EditItemName(newName: string)
    | EditItemQuantity(newQuantity: real)
    | EditItemUnit(newUnit: string)
    | EditItemCategory(newCategory: FoodCategory)

  /** `{ ...newItem, [name]: value }`. */
  function ApplyShoppingEdit(draft: ShoppingDraft, edit: ShoppingDraftEdit): (r: ShoppingDraft)
    ensures r.name == if edit.EditItemName? then edit.newName else draft.name
    ensures r.quantity == if edit.EditItemQuantity? then edit.newQuantity else draft.quantity
    ensures r.unit == if edit.EditItemUnit? then edit.newUnit else draft.unit
    ensures r.category == if edit.EditItemCategory? then edit.newCategory else draft.category
  {
    match edit
    case EditItemName(v) => draft.(name := v)
    case EditItemQuantity(v) => draft.(quantity := v)
    case EditItemUnit(v) => draft.(unit := v)
    case EditItemCategory(v) => draft.(category := v)
  }

  /** Which field an edit names. */
  function EditedShoppingField(edit: ShoppingDraftEdit): nat {
    match edit
    case EditItemName(_) => 0
    case EditItemQuantity(_) => 1
    case EditItemUnit(_) => 2
    case EditItemCategory(_) => 3
  }

  /** Edits of different fields commute; a later edit of the same field
      overrides an earlier one. */
  lemma ShoppingEditsCompose(draft: ShoppingDraft, e1: ShoppingDraftEdit, e2: ShoppingDraftEdit)
    ensures EditedShoppingField(e1) != EditedShoppingField(e2) ==>
              ApplyShoppingEdit(ApplyShoppingEdit(draft, e1), e2) == ApplyShoppingEdit(ApplyShoppingEdit(draft, e2), e1)
    ensures EditedShoppingField(e1) == EditedShoppingField(e2) ==>
              ApplyShoppingEdit(ApplyShoppingEdit(draft, e1), e2) == ApplyShoppingEdit(draft, e2)
  {
  }

  /** The draft the form starts from and returns to. */
  const BlankShoppingDraft: ShoppingDraft := ShoppingDraft("", 1.0, "pcs", Other)

  class ShoppingListPage {
    var showAddForm: bool
    var draft: ShoppingDraft

    constructor ()
      ensures !showAddForm && draft == BlankShoppingDraft
    {
      showAddForm := false;
      draft := BlankShoppingDraft;
    }

    /** Submit: the draft goes to the store, then the form is reset and closed. */
    method HandleAddItem(store: AppStore, clock: nat)
      requires store.Valid()
      modifies this, store
      ensures store.Valid() && store.checkedAt == old(store.checkedAt)
      ensures store.shoppingList == old(store.shoppingList) + [NewShoppingItem(old(draft), DecimalString(clock))]
      ensures store.inventory == old(store.inventory) && store.recipes == old(store.recipes)
      ensures store.expiringItems == old(store.expiringItems)
      ensures draft == BlankShoppingDraft && !showAddForm
    {
      store.AddToShoppingList(draft, clock);
      draft := BlankShoppingDraft;
      showAddForm := false;
    }

    /** An input's change event: only the field it names changes. */
    method HandleInputChange(edit: ShoppingDraftEdit)
      modifies this
      ensures draft == ApplyShoppingEdit(old(draft), edit)
      ensures showAddForm == old(showAddForm)
    {
      draft := ApplyShoppingEdit(draft, edit);
    }
  }
}
