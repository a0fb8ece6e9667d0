/** The analytics page (src/pages/Analytics.tsx): items per category, the
    five largest categories, and the share of the inventory each holds. */
module AnalyticsView {
  import opened Types
  import opened Lists

  // ---------------------------------------------------------------------
  // Category distribution

  /** What the reduce has built after reading `s`: a count for every
      category met so far. */
  function CountMap(s: seq<FoodItem>): (m: map<FoodCategory, nat>)
    ensures forall c :: c in m <==> c in FirstKeys(s, FoodCategoryOf)
  {
    map c | c in FirstKeys(s, FoodCategoryOf) :: CountKey(s, FoodCategoryOf, c)
  }

  /** One reduce step: `if (!acc[c]) acc[c] = 0; acc[c]++`. A missing key
      and a stored 0 are both falsy. */
  function Bump(m: map<FoodCategory, nat>, c: FoodCategory): map<FoodCategory, nat> {
    var g := if c !in m || m[c] == 0 then m[c := 0] else m;
    g[c := g[c] + 1]
  }

  lemma CountMapStepAt(s: seq<FoodItem>, x: FoodItem, d: FoodCategory)
    requires d in Bump(CountMap(s), x.category)
    ensures d in CountMap(s + [x]) && CountMap(s + [x])[d] == Bump(CountMap(s), x.category)[d]
  {
    FirstKeysAppend(s, x, FoodCategoryOf);
    CountKeyAppend(s, x, FoodCategoryOf, d);
    if d == x.category && d !in CountMap(s) {
      KeyFilterUnmet(s, FoodCategoryOf, d);
    }
  }

  lemma CountMapKeysStep(s: seq<FoodItem>, x: FoodItem)
    ensures CountMap(s + [x]).Keys == Bump(CountMap(s), x.category).Keys
  {
    FirstKeysAppend(s, x, FoodCategoryOf);
  }

  /** Reading one more item bumps its category's count, starting it at 1
      the first time the category is met. */
  lemma CountMapStep(s: seq<FoodItem>, x: FoodItem)
    ensures CountMap(s + [x]) == Bump(CountMap(s), x.category)
  {
    var m' := Bump(CountMap(s), x.category);
    CountMapKeysStep(s, x);
    forall d | d in m' ensures CountMap(s + [x])[d] == m'[d] {
      CountMapStepAt(s, x, d);
    }
  }

  /** Total of the counts listed under `categories`. */
  function CountTotal(categories: seq<FoodCategory>, counts: map<FoodCategory, nat>): int {
    SumOver(categories, (c: FoodCategory) => if c in counts then counts[c] else 0)
  }

  /** The counts add up to `totalItems`, the length of the inventory. */
  lemma CountMapTotal(inventory: seq<FoodItem>)
    ensures CountTotal(FirstKeys(inventory, FoodCategoryOf), CountMap(inventory)) == |inventory|
  {
    var counts := CountMap(inventory);
    var keys := FirstKeys(inventory, FoodCategoryOf);
    var f := (c: FoodCategory) => if c in counts then counts[c] else 0;
    var g := (c: FoodCategory) => CountKey(inventory, FoodCategoryOf, c);
    assert forall i :: 0 <= i < |keys| ==> f(keys[i]) == g(keys[i]) by {
      forall i | 0 <= i < |keys| ensures f(keys[i]) == g(keys[i]) {
        assert keys[i] in counts;
      }
    }
    SumOverAgree(keys, f, g);
    assert SumOver(keys, g) == |inventory| by { CountsSumToLength(inventory, FoodCategoryOf); }
  }

  /** Only categories present in the inventory get an entry, and each
      entry counts that category's items, so it is at least 1. */
  lemma CountMapEntries(inventory: seq<FoodItem>)
    ensures forall c :: c in CountMap(inventory) <==> exists x :: x in inventory && x.category == c
    ensures forall c :: c in CountMap(inventory) ==>
              1 <= CountMap(inventory)[c] == CountKey(inventory, FoodCategoryOf, c)
  {
    forall c | c in CountMap(inventory) ensures CountKey(inventory, FoodCategoryOf, c) >= 1 {
      var x :| x in inventory && FoodCategoryOf(x) == c;
    }
  }

  /** The reduce itself: one `Bump` per item, in inventory order. */
  function Tally(s: seq<FoodItem>): map<FoodCategory, nat>
    decreases |s|
  {
    if s == [] then map[] else Bump(Tally(s[..|s| - 1]), s[|s| - 1].category)
  }

  /** The reduce computes the reference counts. */
  lemma {:induction false} TallyIsCountMap(s: seq<FoodItem>)
    ensures Tally(s) == CountMap(s)
    decreases |s|
  {
    if s != [] {
      var s' := s[..|s| - 1];
      TallyIsCountMap(s');
      SplitLast(s);
      CountMapStep(s', s[|s| - 1]);
    }
  }

  lemma DistributionStep(inventory: seq<FoodItem>, i: nat)
    requires i < |inventory|
    ensures var c := inventory[i].category;
            var m := Tally(inventory[..i]);
            var keys := FirstKeys(inventory[..i], FoodCategoryOf);
            && Tally(inventory[..i + 1]) == Bump(m, c)
            && FirstKeys(inventory[..i + 1], FoodCategoryOf) == if c in m then keys else keys + [c]
  {
    assert inventory[..i + 1][..i] == inventory[..i];
    assert inventory[..i + 1] == inventory[..i] + [inventory[i]];
    TallyIsCountMap(inventory[..i]);
    FirstKeysAppend(inventory[..i], inventory[i], FoodCategoryOf);
  }

  /** The `categoryDistribution` reduce, one `Bump` per item.
      `categories` is the key order `Object.entries` reports, which is
      insertion order. */
  method CategoryDistribution(inventory: seq<FoodItem>)
    returns (categories: seq<FoodCategory>, counts: map<FoodCategory, nat>)
    ensures categories == FirstKeys(inventory, FoodCategoryOf)
    ensures counts == CountMap(inventory)
  {
    categories, counts := [], map[];
    var i := 0;
    while i < |inventory|
      invariant 0 <= i <= |inventory|
      invariant categories == FirstKeys(inventory[..i], FoodCategoryOf)
      invariant counts == Tally(inventory[..i])
    {
      var item := inventory[i];
      DistributionStep(inventory, i);
      categories := if item.category in counts then categories else categories + [item.category];
      counts := Bump(counts, item.category);
      i := i + 1;
    }
    assert inventory[..i] == inventory;
    TallyIsCountMap(inventory);
  }

  // ---------------------------------------------------------------------
  // The five largest categories

  /** One `[category, count]` pair of `Object.entries`. */
  datatype Entry = Entry(category: FoodCategory, count: int)

  function EntryCount(e: Entry): int { e.count }

  /** `Object.entries(categoryDistribution)`. */
  function CategoryEntries(inventory: seq<FoodItem>): (r: seq<Entry>)
    ensures |r| == |FirstKeys(inventory, FoodCategoryOf)|
    ensures forall i :: 0 <= i < |r| ==>
              r[i].category == FirstKeys(inventory, FoodCategoryOf)[i] &&
              r[i].count == CountMap(inventory)[r[i].category]
    ensures forall e :: e in r ==> 1 <= e.count <= |inventory|
  {
    var keys := FirstKeys(inventory, FoodCategoryOf);
    var r := seq(|keys|, i requires 0 <= i < |keys| => Entry(keys[i], CountKey(inventory, FoodCategoryOf, keys[i])));
    assert forall e :: e in r ==> 1 <= e.count <= |inventory| by {
      forall e | e in r ensures 1 <= e.count <= |inventory| {
        var i :| 0 <= i < |r| && r[i] == e;
        assert keys[i] in keys;
      }
    }
    r
  }

  /** Non-increasing by count. */
  ghost predicate SortedByCount(s: seq<Entry>) {
    forall i, j :: 0 <= i < j < |s| ==> s[i].count >= s[j].count
  }

  /** Insert `x` after every entry whose count is at least its own, as a
      stable sort does with `(a, b) => b[1] - a[1]`. */
  function InsertByCount(t: seq<Entry>, x: Entry): (r: seq<Entry>)
    ensures multiset(r) == multiset(t) + multiset{x}
    decreases |t|
  {
    if t == [] then [x]
    else
      assert t[..|t| - 1] + [t[|t| - 1]] == t;
      if t[|t| - 1].count >= x.count then t + [x]
      else InsertByCount(t[..|t| - 1], x) + [t[|t| - 1]]
  }

  /** Every entry of a sorted sequence has at least the count of its last. */
  lemma SortedAboveLast(t: seq<Entry>, e: Entry)
    requires SortedByCount(t) && t != [] && e in t
    ensures e.count >= t[|t| - 1].count
  {
    var k :| 0 <= k < |t| && t[k] == e;
  }

  lemma SortedAppend(t: seq<Entry>, x: Entry)
    requires SortedByCount(t)
    requires forall e :: e in t ==> e.count >= x.count
    ensures SortedByCount(t + [x])
  {
    forall i, j | 0 <= i < j < |t + [x]| ensures (t + [x])[i].count >= (t + [x])[j].count {
      if j == |t| {
        assert t[i] in t;
      }
    }
  }

  lemma {:induction false} InsertByCountSorted(t: seq<Entry>, x: Entry)
    requires SortedByCount(t)
    ensures SortedByCount(InsertByCount(t, x))
    decreases |t|
  {
    if t == [] {
    } else if t[|t| - 1].count >= x.count {
      forall e | e in t ensures e.count >= x.count {
        SortedAboveLast(t, e);
      }
      SortedAppend(t, x);
    } else {
      var last := t[|t| - 1];
      var t' := t[..|t| - 1];
      assert SortedByCount(t');
      InsertByCountSorted(t', x);
      var r' := InsertByCount(t', x);
      forall e | e in r' ensures e.count >= last.count {
        assert e in multiset(r');
        if e != x {
          assert e in multiset(t');
          assert e in t;
          SortedAboveLast(t, e);
        }
      }
      SortedAppend(r', last);
    }
  }

  /** `entries.sort((a, b) => b[1] - a[1])` (a stable sort). */
  function SortByCount(s: seq<Entry>): (r: seq<Entry>)
    ensures multiset(r) == multiset(s)
    ensures SortedByCount(r)
    decreases |s|
  {
    if s == [] then []
    else
      assert s[..|s| - 1] + [s[|s| - 1]] == s;
      var t := SortByCount(s[..|s| - 1]);
      InsertByCountSorted(t, s[|s| - 1]);
      InsertByCount(t, s[|s| - 1])
  }

  /** Inserting keeps the relative order of equal counts: `x` lands after
      every entry with the same count. */
  lemma {:induction false} InsertByCountStable(t: seq<Entry>, x: Entry, v: int)
    ensures KeyFilter(InsertByCount(t, x), EntryCount, v) ==
              KeyFilter(t, EntryCount, v) + if x.count == v then [x] else []
    decreases |t|
  {
    if t == [] {
      KeyFilterSingleton(x, EntryCount, v);
      assert KeyFilter([], EntryCount, v) == [];
    } else if t[|t| - 1].count >= x.count {
      KeyFilterAppend(t, x, EntryCount, v);
    } else {
      var last := t[|t| - 1];
      var t' := t[..|t| - 1];
      InsertByCountStable(t', x, v);
      InsertPastLast(t, x);
      KeyFilterStep(t, EntryCount, v);
      PastSmallerLast(InsertByCount(t', x), KeyFilter(t', EntryCount, v), x, last, v);
    }
  }

  /** When `x` outranks the last entry, it is inserted into the front part
      and the last entry stays last. */
  lemma InsertPastLast(t: seq<Entry>, x: Entry)
    requires t != [] && t[|t| - 1].count < x.count
    ensures InsertByCount(t, x) == InsertByCount(t[..|t| - 1], x) + [t[|t| - 1]]
  {
  }

  /** Appending an entry of smaller count than `x` after `x`: the two
      cannot both have count `v`, so their order among count-`v` entries
      is the reverse of the appending order only when neither shows. */
  lemma PastSmallerLast(r: seq<Entry>, k: seq<Entry>, x: Entry, last: Entry, v: int)
    requires last.count < x.count
    requires KeyFilter(r, EntryCount, v) == k + if x.count == v then [x] else []
    ensures KeyFilter(r + [last], EntryCount, v) ==
              (k + if last.count == v then [last] else []) + if x.count == v then [x] else []
  {
    KeyFilterAppend(r, last, EntryCount, v);
    if x.count == v {
      assert last.count != v;
    }
  }

  /** Stability: among entries with equal counts the sorted order is the
      entries' own order. With `SortedByCount` and the multiset equality
      this determines the result of the sort completely. */
  lemma {:induction false} SortByCountStable(s: seq<Entry>, v: int)
    ensures KeyFilter(SortByCount(s), EntryCount, v) == KeyFilter(s, EntryCount, v)
    decreases |s|
  {
    if s != [] {
      var s' := s[..|s| - 1];
      var x := s[|s| - 1];
      assert s' + [x] == s;
      SortByCountStable(s', v);
      InsertByCountStable(SortByCount(s'), x, v);
      KeyFilterAppend(s', x, EntryCount, v);
    }
  }

  lemma SortByCountLength(s: seq<Entry>)
    ensures |SortByCount(s)| == |s|
  {
    assert |multiset(SortByCount(s))| == |multiset(s)|;
  }

  lemma SortByCountMembers(s: seq<Entry>, e: Entry)
    ensures e in SortByCount(s) <==> e in s
  {
    assert e in SortByCount(s) <==> e in multiset(SortByCount(s));
  }

  /** A non-empty inventory has at least one category. */
  lemma SomeCategory(inventory: seq<FoodItem>)
    requires inventory != []
    ensures FirstKeys(inventory, FoodCategoryOf) != []
  {
    assert inventory[0] in inventory;
    assert FoodCategoryOf(inventory[0]) in FirstKeys(inventory, FoodCategoryOf);
  }

  /** The first five entries of a list, or all of them when there are fewer. */
  function FirstFive(t: seq<Entry>): (r: seq<Entry>)
    ensures |r| == if |t| < 5 then |t| else 5
    ensures r <= t
    ensures SortedByCount(t) ==> SortedByCount(r)
  {
    t[..if |t| < 5 then |t| else 5]
  }

  /** `sortedCategories`: the sorted entries, cut to the first five. What is
      shown is the front of the stable sort of the inventory's own
      `(category, count)` entries, so ties are cut in first-occurrence order,
      and every entry shown is one of those entries. */
  function SortedCategories(inventory: seq<FoodItem>): (r: seq<Entry>)
    ensures |r| <= 5
    ensures SortedByCount(r)
    ensures r <= SortByCount(CategoryEntries(inventory))
    ensures forall e :: e in r ==> e in CategoryEntries(inventory)
  {
    var entries := CategoryEntries(inventory);
    var r := FirstFive(SortByCount(entries));
    FrontMembers(SortByCount(entries), entries, |r|);
    r
  }

  /** The front of a permutation of `s` holds only members of `s`. */
  lemma FrontMembers(t: seq<Entry>, s: seq<Entry>, k: nat)
    requires multiset(t) == multiset(s) && k <= |t|
    ensures forall e :: e in t[..k] ==> e in s
  {
    forall e | e in t[..k] ensures e in s {
      assert e in multiset(t);
    }
  }

  /** Five entries, or every category when there are fewer. */
  lemma SortedCategoriesLength(inventory: seq<FoodItem>)
    ensures var n := |FirstKeys(inventory, FoodCategoryOf)|;
            |SortedCategories(inventory)| == if n < 5 then n else 5
  {
    SortByCountLength(CategoryEntries(inventory));
  }

  /** Every entry shown counts at least one item and at most all of them,
      so each percentage lies between 0 and 100. */
  lemma SortedCategoriesCounts(inventory: seq<FoodItem>, e: Entry)
    requires e in SortedCategories(inventory)
    ensures 1 <= e.count <= |inventory|
  {
    var entries := CategoryEntries(inventory);
    SortByCountMembers(entries, e);
  }

  /** The list is empty exactly when the inventory is, so the percentage
      division runs only with `totalItems > 0`. */
  lemma SortedCategoriesEmpty(inventory: seq<FoodItem>)
    ensures SortedCategories(inventory) == [] <==> inventory == []
  {
    SortedCategoriesLength(inventory);
    if inventory != [] {
      SomeCategory(inventory);
    }
  }

  /** The five kept are the largest: no category left out has a higher
      count than any category shown. */
  lemma SortedCategoriesAreLargest(inventory: seq<FoodItem>, e: Entry, d: Entry)
    requires e in SortedCategories(inventory)
    requires d in multiset(CategoryEntries(inventory))
    requires d !in SortedCategories(inventory)
    ensures d.count <= e.count
  {
    var sorted := SortByCount(CategoryEntries(inventory));
    var r := SortedCategories(inventory);
    assert d in sorted by {
      assert d in multiset(sorted);
    }
    var j :| 0 <= j < |sorted| && sorted[j] == d;
    var i :| 0 <= i < |r| && r[i] == e;
    assert sorted[i] == e;
  }

  /** `Math.round((count / totalItems) * 100)` over exact arithmetic: the
      nearest whole percentage, halves rounded up. */
  function Percentage(count: nat, total: nat): (p: int)
    requires total > 0
    ensures (2 * p - 1) * total <= 200 * count < (2 * p + 1) * total
    ensures count <= total ==> 0 <= p <= 100
  {
    var p := (200 * count + total) / (2 * total);
    PercentageBounds(count, total, p);
    p
  }

  lemma PercentageBounds(count: nat, total: nat, p: int)
    requires total > 0 && p == (200 * count + total) / (2 * total)
    ensures (2 * p - 1) * total <= 200 * count < (2 * p + 1) * total
    ensures count <= total ==> 0 <= p <= 100
  {
    var d := 2 * total;
    var n := 200 * count + total;
    var rem := n % d;
    assert n == p * d + rem && 0 <= rem < d;
    assert p * d == 2 * (p * total);
    assert (2 * p - 1) * total == 2 * (p * total) - total;
    assert (2 * p + 1) * total == 2 * (p * total) + total;
    if count <= total {
      assert p * total < 101 * total;
      ProductBelow(p, 101, total);
    }
  }

  lemma ProductBelow(a: int, b: int, t: int)
    requires t > 0 && a * t < b * t
    ensures a < b
  {
  }
}
