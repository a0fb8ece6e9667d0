/** The record shapes of the application (src/types.ts). Calendar timestamps
    are integer milliseconds; quantities are JavaScript numbers (`real`). */
module Types {

  /** A field marked `?` in the source: absent or present. */
  datatype Option<T> = None | Some(value: T) {
    function GetOr(default: T): T {
      match this
      case Some(v) => v
      case None => default
    }
  }

  /** The closed set of 14 food categories. */
  datatype FoodCategory =
    | Fruits | Vegetables | Dairy | Meat | Seafood | Grains | Bakery
    | Canned | Frozen | Snacks | Beverages | Condiments | Spices | Other

  /** The string each enum member stands for; this is what the views
      display, what the category `<select>` yields and what the inventory
      filter compares against. */
  function CategoryName(c: FoodCategory): string {
    match c
    case Fruits => "Fruits"
    case Vegetables => "Vegetables"
    case Dairy => "Dairy"
    case Meat => "Meat"
    case Seafood => "Seafood"
    case Grains => "Grains"
    case Bakery => "Bakery"
    case Canned => "Canned Goods"
    case Frozen => "Frozen Foods"
    case Snacks => "Snacks"
    case Beverages => "Beverages"
    case Condiments => "Condiments"
    case Spices => "Spices"
    case Other => "Other"
  }

  /** `Object.values(FoodCategory)`, in declaration order. */
  const AllCategories: seq<FoodCategory> :=
    [Fruits, Vegetables, Dairy, Meat, Seafood, Grains, Bakery,
     Canned, Frozen, Snacks, Beverages, Condiments, Spices, Other]

  /** Reading a category back from its display string. */
  function ParseCategory(s: string): (r: Option<FoodCategory>)
    ensures r.Some? ==> CategoryName(r.value) == s
  {
    if s == "Fruits" then Some(Fruits)
    else if s == "Vegetables" then Some(Vegetables)
    else if s == "Dairy" then Some(Dairy)
    else if s == "Meat" then Some(Meat)
    else if s == "Seafood" then Some(Seafood)
    else if s == "Grains" then Some(Grains)
    else if s == "Bakery" then Some(Bakery)
    else if s == "Canned Goods" then Some(Canned)
    else if s == "Frozen Foods" then Some(Frozen)
    else if s == "Snacks" then Some(Snacks)
    else if s == "Beverages" then Some(Beverages)
    else if s == "Condiments" then Some(Condiments)
    else if s == "Spices" then Some(Spices)
    else if s == "Other" then Some(Other)
    else None
  }

  lemma CategoryNameRoundTrip(c: FoodCategory)
    ensures ParseCategory(CategoryName(c)) == Some(c)
  {
  }

  /** The 14 members carry pairwise-distinct display strings. */
  lemma CategoryNamesDistinct(a: FoodCategory, b: FoodCategory)
    ensures CategoryName(a) == CategoryName(b) <==> a == b
  {
    CategoryNameRoundTrip(a);
    CategoryNameRoundTrip(b);
  }

  /** `Object.values(FoodCategory)` lists every member exactly once. */
  lemma AllCategoriesExact()
    ensures |AllCategories| == 14
    ensures forall c :: c in AllCategories
    ensures forall i, j :: 0 <= i < j < |AllCategories| ==> AllCategories[i] != AllCategories[j]
  {
    forall c: FoodCategory ensures c in AllCategories {
      match c
      case Fruits => assert AllCategories[0] == c;
      case Vegetables => assert AllCategories[1] == c;
      case Dairy => assert AllCategories[2] == c;
      case Meat => assert AllCategories[3] == c;
      case Seafood => assert AllCategories[4] == c;
      case Grains => assert AllCategories[5] == c;
      case Bakery => assert AllCategories[6] == c;
      case Canned => assert AllCategories[7] == c;
      case Frozen => assert AllCategories[8] == c;
      case Snacks => assert AllCategories[9] == c;
      case Beverages => assert AllCategories[10] == c;
      case Condiments => assert AllCategories[11] == c;
      case Spices => assert AllCategories[12] == c;
      case Other => assert AllCategories[13] == c;
    }
  }

  /** A stock item. */
  datatype FoodItem = FoodItem(
    id: string,
    name: string,
    category: FoodCategory,
    quantity: real,
    unit: string,
    purchaseDate: int,
    expiryDate: int,
    notes: Option<string>)

  /** `Omit<FoodItem, 'id'>`: what a caller passes to `addFoodItem`. */
  datatype FoodDraft = FoodDraft(
    name: string,
    category: FoodCategory,
    quantity: real,
    unit: string,
    purchaseDate: int,
    expiryDate: int,
    notes: Option<string>)

  /** `Partial<FoodItem>`: `None` is a key the patch does not carry. */
  datatype FoodPatch = FoodPatch(
    id: Option<string>,
    name: Option<string>,
    category: Option<FoodCategory>,
    quantity: Option<real>,
    unit: Option<string>,
    purchaseDate: Option<int>,
    expiryDate: Option<int>,
    notes: Option<string>)

  /** The literal `"core" | "extended"` union. */
  datatype RecipeType = Core | Extended

  datatype Recipe = Recipe(
    id: string,
    title: string,
    ingredients: seq<string>,
    instructions: seq<string>,
    prepTime: int,
    cookTime: int,
    servings: int,
    recipeType: RecipeType,
    additionalIngredients: Option<seq<string>>)

  datatype ShoppingListItem = ShoppingListItem(
    id: string,
    name: string,
    quantity: real,
    unit: string,
    category: FoodCategory,
    checked: bool)

  /** `Omit<ShoppingListItem, 'id' | 'checked'>`. */
  datatype ShoppingDraft = ShoppingDraft(
    name: string,
    quantity: real,
    unit: string,
    category: FoodCategory)

  /** `Partial<ShoppingListItem>`. */
  datatype ShoppingPatch = ShoppingPatch(
    id: Option<string>,
    name: Option<string>,
    quantity: Option<real>,
    unit: Option<string>,
    category: Option<FoodCategory>,
    checked: Option<bool>)

  // Named key functions, passed to the generic list operations.
  function FoodId(x: FoodItem): string { x.id }
  function FoodCategoryOf(x: FoodItem): FoodCategory { x.category }
  function ShoppingId(x: ShoppingListItem): string { x.id }
  function ShoppingCategoryOf(x: ShoppingListItem): FoodCategory { x.category }
}
