/** The recipes page (src/pages/Recipes.tsx): the ingredient selection, the
    generate button, the core/extended tabs, and the per-ingredient button
    that puts a recipe's extra ingredient on the shopping list. */
module RecipesView {
  import opened Types
  import opened Lists
  import opened Ids
  import opened Store

  // ---------------------------------------------------------------------
  // Ingredient selection

  /** `handleIngredientToggle`: a selected name is dropped (every copy of it),
      an unselected one is appended at the end. */
  function ToggleIngredient(selected: seq<string>, name: string): (r: seq<string>)
    ensures name in r <==> name !in selected
    ensures forall y :: y != name ==> (y in r <==> y in selected)
    ensures name !in selected ==> r == selected + [name]
  {
    if name in selected then
      var r := Filter(selected, (y: string) => y != name);
      assert name !in r;
      r
    else selected + [name]
  }

  /** Toggling an unselected name twice gives the selection back. */
  lemma ToggleAbsentTwice(selected: seq<string>, name: string)
    requires name !in selected
    ensures ToggleIngredient(ToggleIngredient(selected, name), name) == selected
  {
    var p := (y: string) => y != name;
    FilterConcat(selected, [name], p);
    FilterSingleton(name, p);
    assert forall i :: 0 <= i < |selected| ==> p(selected[i]) by {
      forall i | 0 <= i < |selected| ensures p(selected[i]) {
        assert selected[i] in selected;
      }
    }
    FilterKeepsAll(selected, p);
  }

  /** Toggling a selected name twice moves it to the end of the selection. */
  lemma TogglePresentTwice(selected: seq<string>, name: string)
    requires name in selected
    ensures ToggleIngredient(ToggleIngredient(selected, name), name) ==
              ToggleIngredient(selected, name) + [name]
    ensures ToggleIngredient(selected, name) == Filter(selected, (y: string) => y != name)
  {
  }

  /** The selection never holds a name twice. */
  lemma ToggleKeepsDistinct(selected: seq<string>, name: string)
    requires NoDuplicates(selected)
    ensures NoDuplicates(ToggleIngredient(selected, name))
  {
    if name in selected {
      FilterNoDuplicates(selected, (y: string) => y != name);
    } else {
      AppendNoDuplicates(selected, name);
    }
  }

  // ---------------------------------------------------------------------
  // Tabs and the recipe card

  /** `recipes.filter(recipe => recipe.type === activeTab)`. */
  function FilteredRecipes(recipes: seq<Recipe>, tab: RecipeType): (r: seq<Recipe>)
    ensures forall x :: x in r <==> x in recipes && x.recipeType == tab
  {
    Filter(recipes, (x: Recipe) => x.recipeType == tab)
  }

  /** The tabs split the recipe list: each recipe shows under exactly one
      tab, and each tab keeps list order, so a generation run adds its core
      recipe to the core tab and its extended recipe to the extended tab. */
  lemma FilteredRecipesAppend(recipes: seq<Recipe>, added: seq<Recipe>, x: Recipe, tab: RecipeType)
    ensures FilteredRecipes(recipes + added, tab) == FilteredRecipes(recipes, tab) + FilteredRecipes(added, tab)
    ensures FilteredRecipes([x], tab) == if x.recipeType == tab then [x] else []
  {
    FilterConcat(recipes, added, (y: Recipe) => y.recipeType == tab);
    FilterSingleton(x, (y: Recipe) => y.recipeType == tab);
  }

  lemma GeneratedRecipesByTab(recipes: seq<Recipe>, core: Recipe, ext: Recipe)
    requires core.recipeType == Core && ext.recipeType == Extended
    ensures FilteredRecipes(recipes + [core, ext], Core) == FilteredRecipes(recipes, Core) + [core]
    ensures FilteredRecipes(recipes + [core, ext], Extended) == FilteredRecipes(recipes, Extended) + [ext]
  {
    PairByTab(core, ext);
    FilteredRecipesAppend(recipes, [core, ext], core, Core);
    FilteredRecipesAppend(recipes, [core, ext], core, Extended);
  }

  lemma PairByTab(core: Recipe, ext: Recipe)
    requires core.recipeType == Core && ext.recipeType == Extended
    ensures FilteredRecipes([core, ext], Core) == [core]
    ensures FilteredRecipes([core, ext], Extended) == [ext]
  {
    assert [core] + [ext] == [core, ext];
    FilteredRecipesAppend([core], [ext], core, Core);
    FilteredRecipesAppend([core], [ext], ext, Core);
    FilteredRecipesAppend([core], [ext], core, Extended);
    FilteredRecipesAppend([core], [ext], ext, Extended);
  }

  /** The minutes shown on a recipe card. */
  function TotalTime(recipe: Recipe): int {
    recipe.prepTime + recipe.cookTime
  }

  lemma GeneratedTotalTimes(names: seq<string>, coreId: string, extId: string)
    ensures TotalTime(CoreRecipe(names, coreId)) == 25
    ensures TotalTime(ExtendedRecipe(names, extId)) == 35
  {
  }

  /** The add-to-list button beside an ingredient line: only on extended
      recipes, and only when the line's last space-separated word is one of
      the recipe's additional ingredients. */
  predicate ShowsAddButton(recipe: Recipe, line: string) {
    recipe.recipeType == Extended &&
    recipe.additionalIngredients.Some? &&
    LastWord(line) in recipe.additionalIngredients.value
  }

  /** A core recipe never shows the button. */
  lemma CoreShowsNoButton(names: seq<string>, id: string, line: string)
    ensures !ShowsAddButton(CoreRecipe(names, id), line)
  {
  }

  /** On a generated extended recipe the button shows exactly for the
      lines whose last word is one of the three extra ingredient names. */
  lemma ExtendedButton(names: seq<string>, id: string, line: string)
    ensures ShowsAddButton(ExtendedRecipe(names, id), line) <==> LastWord(line) in ExtraIngredientNames
  {
  }

  /** The last words of the three fixed extra lines. */
  lemma ExtraLineWords()
    ensures LastWord("1 Onion") == "Onion"
    ensures LastWord("2 cloves Garlic") == "Garlic"
    ensures LastWord("1 tbsp Olive Oil") == "Oil"
  {
    assert "1 Onion" == "1 " + "Onion";
    LastWordOfWord("1 ", "Onion");
    assert "2 cloves Garlic" == "2 cloves " + "Garlic";
    LastWordOfWord("2 cloves ", "Garlic");
    assert "1 tbsp Olive Oil" == "1 tbsp Olive " + "Oil";
    LastWordOfWord("1 tbsp Olive ", "Oil");
  }

  /** On a generated extended recipe, the onion and garlic lines get the
      button and add `"Onion"` and `"Garlic"`; the olive oil line does not,
      because its last word is `"Oil"`, not `"Olive Oil"`. */
  lemma ExtraIngredientButtons(names: seq<string>, id: string)
    ensures var ext := ExtendedRecipe(names, id);
            && ShowsAddButton(ext, "1 Onion") && LastWord("1 Onion") == "Onion"
            && ShowsAddButton(ext, "2 cloves Garlic") && LastWord("2 cloves Garlic") == "Garlic"
            && !ShowsAddButton(ext, "1 tbsp Olive Oil") && LastWord("1 tbsp Olive Oil") == "Oil"
  {
    ExtraLineWords();
    ExtendedButton(names, id, "1 Onion");
    ExtendedButton(names, id, "2 cloves Garlic");
    ExtendedButton(names, id, "1 tbsp Olive Oil");
    assert "Oil" !in ExtraIngredientNames;
  }

  /** A line generated from a selected ingredient gets the button exactly
      when the ingredient's own last word is `"Onion"` or `"Garlic"`;
      `"Olive Oil"` can never match, since a last word holds no space. */
  lemma IngredientLineButton(names: seq<string>, id: string, i: nat)
    requires i < |names|
    ensures var ext := ExtendedRecipe(names, id);
            ShowsAddButton(ext, ext.ingredients[i]) <==> LastWord(names[i]) in ["Onion", "Garlic"]
  {
    var line := ExtendedRecipe(names, id).ingredients[i];
    assert line == "1 " + names[i];
    LastWordAfterSpace("1 ", names[i]);
    ExtendedButton(names, id, line);
    assert "Olive Oil"[5] == ' ';
  }

  /** `line` ends with `name` as whole words: `name` is preceded by a space. */
  predicate EndsWithWords(line: string, name: string) {
    |name| < |line| && line[|line| - |name|..] == name && line[|line| - |name| - 1] == ' '
  }

  /** The rule the extra ingredients call for: the button shows when the
      line ends, as whole words, with one of the additional ingredient
      names, so multi-word names such as `"Olive Oil"` can match too. */
  predicate ShowsAddButtonByName(recipe: Recipe, line: string) {
    recipe.recipeType == Extended &&
    recipe.additionalIngredients.Some? &&
    exists k :: 0 <= k < |recipe.additionalIngredients.value| &&
      EndsWithWords(line, recipe.additionalIngredients.value[k])
  }

  /** Each fixed extra line ends, as whole words, with its extra name. */
  lemma ExtraLinesEndWithNames()
    ensures EndsWithWords("1 Onion", "Onion")
    ensures EndsWithWords("2 cloves Garlic", "Garlic")
    ensures EndsWithWords("1 tbsp Olive Oil", "Olive Oil")
  {
    assert "1 Onion"[2..] == "Onion";
    assert "2 cloves Garlic"[9..] == "Garlic";
    assert "1 tbsp Olive Oil"[7..] == "Olive Oil";
  }

  /** Under the whole-name rule every fixed extra line of a generated
      extended recipe gets its button, the olive oil line included. */
  lemma ExtraIngredientButtonsByName(names: seq<string>, id: string)
    ensures var ext := ExtendedRecipe(names, id);
            && ShowsAddButtonByName(ext, "1 Onion")
            && ShowsAddButtonByName(ext, "2 cloves Garlic")
            && ShowsAddButtonByName(ext, "1 tbsp Olive Oil")
  {
    var extras := ExtendedRecipe(names, id).additionalIngredients.value;
    assert extras == ExtraIngredientNames;
    ExtraLinesEndWithNames();
    assert EndsWithWords("1 Onion", extras[0]);
    assert EndsWithWords("2 cloves Garlic", extras[1]);
    assert EndsWithWords("1 tbsp Olive Oil", extras[2]);
  }

  /** The whole-name rule keeps every button the last-word rule shows on a
      line of more than one word. */
  lemma ByNameKeepsLastWordButtons(recipe: Recipe, line: string)
    requires ShowsAddButton(recipe, line) && LastWord(line) != line
    ensures ShowsAddButtonByName(recipe, line)
  {
    var extras := recipe.additionalIngredients.value;
    var k :| 0 <= k < |extras| && extras[k] == LastWord(line);
    assert EndsWithWords(line, extras[k]);
  }

  /** A core recipe shows no button under the whole-name rule either. */
  lemma CoreShowsNoButtonByName(names: seq<string>, id: string, line: string)
    ensures !ShowsAddButtonByName(CoreRecipe(names, id), line)
  {
  }

  // ---------------------------------------------------------------------
  // Page state

  /** The draft `handleAddToShoppingList` sends for an ingredient. */
  function IngredientDraft(ingredient: string): (r: ShoppingDraft)
    ensures r.name == ingredient && r.quantity == 1.0 && r.unit == "item" && r.category == Other
  {
    ShoppingDraft(ingredient, 1.0, "item", Other)
  }

  class RecipesPage {
    var selected: seq<string>
    var activeTab: RecipeType
    var isGenerating: bool

    constructor ()
      ensures selected == [] && activeTab == Core && !isGenerating
    {
      selected := [];
      activeTab := Core;
      isGenerating := false;
    }

    /** The recipes the active tab lists. */
    function Shown(store: AppStore): seq<Recipe>
      reads this, store
    {
      FilteredRecipes(store.recipes, activeTab)
    }

    method HandleIngredientToggle(name: string)
      modifies this
      ensures selected == ToggleIngredient(old(selected), name)
      ensures activeTab == old(activeTab) && isGenerating == old(isGenerating)
    {
      selected := ToggleIngredient(selected, name);
    }

    /** With nothing selected the click does nothing; otherwise the store
        generates from the current selection. The delay is not modelled, so
        the call completes and `isGenerating` is back to false. The active
        tab gains exactly the new recipe of its type, at the end. */
    method HandleGenerateRecipes(store: AppStore, clock: nat, clock2: nat)
      requires store.Valid()
      modifies this, store
      ensures store.Valid() && store.checkedAt == old(store.checkedAt)
      ensures old(selected) == [] ==> store.recipes == old(store.recipes)
      ensures old(selected) != [] ==>
                store.recipes == old(store.recipes) +
                  [CoreRecipe(old(selected), DecimalString(clock)),
                   ExtendedRecipe(old(selected), DecimalString(clock2 + 1))]
      ensures old(selected) != [] ==>
                Shown(store) == old(Shown(store)) +
                  [if activeTab == Core then CoreRecipe(old(selected), DecimalString(clock))
                   else ExtendedRecipe(old(selected), DecimalString(clock2 + 1))]
      ensures store.inventory == old(store.inventory) && store.shoppingList == old(store.shoppingList)
      ensures store.expiringItems == old(store.expiringItems)
      ensures selected == old(selected) && activeTab == old(activeTab)
      ensures isGenerating == (old(selected) == [] && old(isGenerating))
    {
      if |selected| == 0 {
        return;
      }
      isGenerating := true;
      ghost var before := store.recipes;
      store.GenerateRecipes(selected, clock, clock2);
      GeneratedRecipesByTab(before, CoreRecipe(selected, DecimalString(clock)),
                            ExtendedRecipe(selected, DecimalString(clock2 + 1)));
      isGenerating := false;
    }

    /** The button beside an extra ingredient puts one of it on the list. */
    method HandleAddToShoppingList(store: AppStore, ingredient: string, clock: nat)
      requires store.Valid()
      modifies store
      ensures store.Valid() && store.checkedAt == old(store.checkedAt)
      ensures store.shoppingList ==
                old(store.shoppingList) + [NewShoppingItem(IngredientDraft(ingredient), DecimalString(clock))]
      ensures store.inventory == old(store.inventory) && store.recipes == old(store.recipes)
      ensures store.expiringItems == old(store.expiringItems)
    {
      store.AddToShoppingList(IngredientDraft(ingredient), clock);
    }
  }
}
