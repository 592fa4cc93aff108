/** The restaurant menu page: the search filter over the menu, grouping the
    matches by category, and the collapsible category sections. */
module Menu {
  import opened Wrappers
  import opened Entities
  import Text
  import Seqs

  /** A menu section: a category name and its foods. */
  datatype FoodCategory = FoodCategory(name: string, foods: seq<Food>)

  // ---------------------------------------------------------------- search

  /** A food passes the search when its name, or its (non-empty) description,
      contains the term, ignoring case. */
  predicate MatchesSearch(f: Food, term: string)
  {
    var t := Text.ToLower(term);
    Text.Contains(Text.ToLower(f.foodName), t) ||
    (f.description.Some? && f.description.value != "" && Text.Contains(Text.ToLower(f.description.value), t))
  }

  function SearchFilter(term: string): Food -> bool
  {
    (f: Food) => MatchesSearch(f, term)
  }

  /** `filteredFoods`. */
  function FilterFoods(foods: seq<Food>, term: string): (r: seq<Food>)
    ensures Seqs.IsSubseq(r, foods)
    ensures forall i :: 0 <= i < |r| ==> MatchesSearch(r[i], term)
    ensures forall i :: 0 <= i < |foods| && MatchesSearch(foods[i], term) ==> foods[i] in r
    ensures forall f :: multiset(r)[f] == if MatchesSearch(f, term) then multiset(foods)[f] else 0
    ensures term == "" ==> r == foods
  {
    Seqs.FilterIsSubseq(foods, SearchFilter(term));
    Seqs.FilterCounts(foods, SearchFilter(term));
    EmptyTermKeepsAll(foods, term);
    Seqs.Filter(foods, SearchFilter(term))
  }

  lemma EmptyTermKeepsAll(foods: seq<Food>, term: string)
    ensures term == "" ==> Seqs.Filter(foods, SearchFilter(term)) == foods
  {
    if term == "" {
      forall i | 0 <= i < |foods| ensures MatchesSearch(foods[i], term) {
        Text.ContainsEmpty(Text.ToLower(foods[i].foodName));
      }
      Seqs.FilterAll(foods, SearchFilter(term));
    }
  }

  // ---------------------------------------------------------------- grouping, as the page computes it

  /** `food.category || "Other"`: a missing or empty category is "Other". */
  function CategoryName(f: Food): string
  {
    if f.category.Some? && f.category.value != "" then f.category.value else "Other"
  }

  /** `acc.find(cat => cat.name === name)`, as a position. */
  function FindCategory(acc: seq<FoodCategory>, name: string): (r: Option<nat>)
    ensures r.None? <==> forall i :: 0 <= i < |acc| ==> acc[i].name != name
    ensures r.Some? ==> r.value < |acc| && acc[r.value].name == name
  {
    if |acc| == 0 then None
    else if acc[0].name == name then Some(0)
    else match FindCategory(acc[1..], name)
      case None => None
      case Some(k) => Some(k + 1)
  }

  /** One step of the reduce: append to the food's section, or open a new one. */
  function Place(acc: seq<FoodCategory>, f: Food): seq<FoodCategory>
  {
    var name := CategoryName(f);
    match FindCategory(acc, name)
    case Some(k) => acc[k := acc[k].(foods := acc[k].foods + [f])]
    case None => acc + [FoodCategory(name, [f])]
  }

  /** `categories`: the left-to-right reduce of `Place` over the foods. */
  function GroupByCategory(foods: seq<Food>): seq<FoodCategory>
  {
    if |foods| == 0 then [] else Place(GroupByCategory(foods[..|foods| - 1]), foods[|foods| - 1])
  }

  // ---------------------------------------------------------------- grouping, by definition

  /** The distinct category names in order of first occurrence. */
  function Names(foods: seq<Food>): seq<string>
  {
    if |foods| == 0 then []
    else
      var ns := Names(foods[..|foods| - 1]);
      var n := CategoryName(foods[|foods| - 1]);
      if n in ns then ns else ns + [n]
  }

  function InCategoryFilter(name: string): Food -> bool
  {
    (f: Food) => CategoryName(f) == name
  }

  /** The foods of one category, in menu order. */
  function InCategory(foods: seq<Food>, name: string): seq<Food>
  {
    Seqs.Filter(foods, InCategoryFilter(name))
  }

  /** One section per distinct name, holding exactly that category's foods. */
  function Sections(foods: seq<Food>): seq<FoodCategory>
  {
    var ns := Names(foods);
    seq(|ns|, i requires 0 <= i < |ns| => FoodCategory(ns[i], InCategory(foods, ns[i])))
  }

  predicate Distinct(ns: seq<string>)
  {
    forall i, j :: 0 <= i < j < |ns| ==> ns[i] != ns[j]
  }

  /** Index of the first food of category `name`, or `|foods|` when none has it. */
  function FirstOf(foods: seq<Food>, name: string): (k: nat)
    ensures k <= |foods|
    ensures k < |foods| ==> CategoryName(foods[k]) == name
    ensures forall j :: 0 <= j < k ==> CategoryName(foods[j]) != name
  {
    if |foods| == 0 then 0
    else if CategoryName(foods[0]) == name then 0
    else 1 + FirstOf(foods[1..], name)
  }

  // ---------------------------------------------------------------- lemmas

  /** The names are distinct and are exactly the categories that occur. */
  lemma {:induction false} NamesFacts(foods: seq<Food>)
    ensures Distinct(Names(foods))
    ensures forall n :: n in Names(foods) <==> exists i :: 0 <= i < |foods| && CategoryName(foods[i]) == n
  {
    if |foods| > 0 {
      var p := foods[..|foods| - 1];
      NamesFacts(p);
      forall n ensures (exists i :: 0 <= i < |foods| && CategoryName(foods[i]) == n) <==>
        (n in Names(p) || n == CategoryName(foods[|foods| - 1]))
      {
        if exists i :: 0 <= i < |foods| && CategoryName(foods[i]) == n {
          var i :| 0 <= i < |foods| && CategoryName(foods[i]) == n;
          if i < |p| {
            assert CategoryName(p[i]) == n;
          }
        }
        if n in Names(p) {
          var i :| 0 <= i < |p| && CategoryName(p[i]) == n;
          assert CategoryName(foods[i]) == n;
        }
      }
    }
  }

  /** Appending one food to the menu extends its category's list by that food. */
  lemma InCategorySnoc(p: seq<Food>, x: Food, name: string)
    ensures InCategory(p + [x], name) == InCategory(p, name) + (if CategoryName(x) == name then [x] else [])
  {
    Seqs.FilterAppend(p, [x], InCategoryFilter(name));
    assert Seqs.Filter([x], InCategoryFilter(name)) == (if CategoryName(x) == name then [x] else []) + Seqs.Filter([], InCategoryFilter(name));
  }

  /** A category that does not occur has no foods. */
  lemma InCategoryAbsent(p: seq<Food>, name: string)
    requires name !in Names(p)
    ensures InCategory(p, name) == []
  {
    NamesFacts(p);
    assert forall i :: 0 <= i < |p| ==> !InCategoryFilter(name)(p[i]);
    Seqs.FilterNone(p, InCategoryFilter(name));
  }

  /** A food of an already-open category joins that section. */
  lemma PlaceIntoExisting(p: seq<Food>, x: Food, k: nat)
    requires k < |Names(p)| && Names(p)[k] == CategoryName(x)
    ensures Place(Sections(p), x) == Sections(p + [x])
  {
    NamesFacts(p);
    var g, ns, n := Sections(p), Names(p), CategoryName(x);
    assert (p + [x])[..|p|] == p;
    assert Names(p + [x]) == ns;
    assert g[k].name == n;
    var k' := FindCategory(g, n).value;
    assert k' == k;
    var s := Sections(p + [x]);
    forall j | 0 <= j < |g| ensures Place(g, x)[j] == s[j] {
      InCategorySnoc(p, x, ns[j]);
    }
  }

  /** A food of a new category opens a section at the end. */
  lemma PlaceIntoNew(p: seq<Food>, x: Food)
    requires CategoryName(x) !in Names(p)
    ensures Place(Sections(p), x) == Sections(p + [x])
  {
    var g, ns, n := Sections(p), Names(p), CategoryName(x);
    assert (p + [x])[..|p|] == p;
    assert Names(p + [x]) == ns + [n];
    assert FindCategory(g, n).None?;
    InCategoryAbsent(p, n);
    var s := Sections(p + [x]);
    forall j | 0 <= j < |s| ensures Place(g, x)[j] == s[j] {
      InCategorySnoc(p, x, (ns + [n])[j]);
    }
  }

  /** The page's reduce computes exactly the reference sections. */
  lemma {:induction false} GroupingMatchesSections(foods: seq<Food>)
    ensures GroupByCategory(foods) == Sections(foods)
  {
    if |foods| > 0 {
      var p, x := foods[..|foods| - 1], foods[|foods| - 1];
      assert foods == p + [x];
      GroupingMatchesSections(p);
      var ns := Names(p);
      if CategoryName(x) in ns {
        var k :| 0 <= k < |ns| && ns[k] == CategoryName(x);
        PlaceIntoExisting(p, x, k);
      } else {
        PlaceIntoNew(p, x);
      }
    }
  }

  /** Every section is non-empty and lists its foods in menu order. */
  lemma SectionsNonEmptyInOrder(foods: seq<Food>)
    ensures var g := Sections(foods);
      forall i :: 0 <= i < |g| ==> |g[i].foods| > 0 && Seqs.IsSubseq(g[i].foods, foods)
  {
    NamesFacts(foods);
    var g := Sections(foods);
    forall i | 0 <= i < |g| ensures |g[i].foods| > 0 && Seqs.IsSubseq(g[i].foods, foods) {
      Seqs.FilterIsSubseq(foods, InCategoryFilter(g[i].name));
      assert g[i].name in Names(foods);
      var k :| 0 <= k < |foods| && CategoryName(foods[k]) == g[i].name;
      assert foods[k] in g[i].foods;
    }
  }

  /** Every food lies in the section named after its category. */
  lemma EveryFoodHasItsSection(foods: seq<Food>)
    ensures var g := Sections(foods);
      forall k :: 0 <= k < |foods| ==>
        exists i :: 0 <= i < |g| && g[i].name == CategoryName(foods[k]) && foods[k] in g[i].foods
  {
    NamesFacts(foods);
    var g := Sections(foods);
    forall k | 0 <= k < |foods|
      ensures exists i :: 0 <= i < |g| && g[i].name == CategoryName(foods[k]) && foods[k] in g[i].foods
    {
      var n := CategoryName(foods[k]);
      assert n in Names(foods);
      var i :| 0 <= i < |Names(foods)| && Names(foods)[i] == n;
      assert g[i].name == n && foods[k] in g[i].foods;
    }
  }

  /** Grouping partitions the menu: section names are distinct, every section
      holds exactly the foods of its name in menu order, and every food lies
      in the section of its category. */
  lemma GroupingPartitions(foods: seq<Food>)
    ensures var g := GroupByCategory(foods);
      && (forall i, j :: 0 <= i < j < |g| ==> g[i].name != g[j].name)
      && (forall i :: 0 <= i < |g| ==> g[i].foods == InCategory(foods, g[i].name))
      && (forall i :: 0 <= i < |g| ==> |g[i].foods| > 0 && Seqs.IsSubseq(g[i].foods, foods))
      && (forall k :: 0 <= k < |foods| ==>
            exists i :: 0 <= i < |g| && g[i].name == CategoryName(foods[k]) && foods[k] in g[i].foods)
  {
    GroupingMatchesSections(foods);
    NamesFacts(foods);
    SectionsNonEmptyInOrder(foods);
    EveryFoodHasItsSection(foods);
  }

  /** Every name occurs in `foods`, and earlier names occur first earlier. */
  predicate InFirstOccurrenceOrder(foods: seq<Food>, ns: seq<string>)
  {
    forall i, j :: 0 <= i < j < |ns| ==> FirstOf(foods, ns[i]) < FirstOf(foods, ns[j]) < |foods|
  }

  /** Sections appear in the order their categories first occur in the menu. */
  lemma {:induction false} SectionsInFirstOccurrenceOrder(foods: seq<Food>)
    ensures InFirstOccurrenceOrder(foods, Names(foods))
  {
    if |foods| > 0 {
      var p, x := foods[..|foods| - 1], foods[|foods| - 1];
      SectionsInFirstOccurrenceOrder(p);
      NamesFacts(p);
      var ns, np := Names(foods), Names(p);
      assert InFirstOccurrenceOrder(p, np);
      forall n | n in np ensures FirstOf(foods, n) == FirstOf(p, n) < |p| {
        FirstOfPrefix(p, foods, n);
      }
      forall i, j | 0 <= i < j < |ns| ensures FirstOf(foods, ns[i]) < FirstOf(foods, ns[j]) < |foods| {
        assert ns[i] in np;
        if j < |np| {
          assert ns[j] == np[j] && ns[i] == np[i];
          assert FirstOf(p, np[i]) < FirstOf(p, np[j]) < |p|;
          assert np[j] in np;
        } else {
          var n := ns[j];
          assert n == CategoryName(x) && n !in np;
          assert forall m :: 0 <= m < |p| ==> CategoryName(foods[m]) != n by {
            assert forall m :: 0 <= m < |p| ==> foods[m] == p[m];
          }
          assert CategoryName(foods[|p|]) == n;
          assert FirstOf(foods, n) == |p|;
        }
      }
    }
  }

  lemma FirstOfPrefix(p: seq<Food>, foods: seq<Food>, n: string)
    requires |p| <= |foods| && p == foods[..|p|]
    requires FirstOf(p, n) < |p|
    ensures FirstOf(foods, n) == FirstOf(p, n)
  {
    var a, b := FirstOf(foods, n), FirstOf(p, n);
    assert CategoryName(foods[b]) == n;
    assert forall m :: 0 <= m < b ==> foods[m] == p[m];
  }

  /** The section names, in display order. */
  function SectionNames(g: seq<FoodCategory>): (ns: seq<string>)
    ensures |ns| == |g| && forall i :: 0 <= i < |g| ==> ns[i] == g[i].name
  {
    seq(|g|, i requires 0 <= i < |g| => g[i].name)
  }

  /** The page lists its sections in the order their categories first occur. */
  lemma GroupsInFirstOccurrenceOrder(foods: seq<Food>)
    ensures InFirstOccurrenceOrder(foods, SectionNames(GroupByCategory(foods)))
  {
    GroupingMatchesSections(foods);
    SectionsInFirstOccurrenceOrder(foods);
    assert SectionNames(Sections(foods)) == Names(foods);
  }

  /** Number of foods across sections. */
  function TotalFoods(gs: seq<FoodCategory>): nat
  {
    if |gs| == 0 then 0 else |gs[0].foods| + TotalFoods(gs[1..])
  }

  lemma {:induction false} TotalGrowsAt(gs: seq<FoodCategory>, k: nat, f: Food)
    requires k < |gs|
    ensures TotalFoods(gs[k := gs[k].(foods := gs[k].foods + [f])]) == TotalFoods(gs) + 1
  {
    if k > 0 {
      TotalGrowsAt(gs[1..], k - 1, f);
      assert gs[k := gs[k].(foods := gs[k].foods + [f])][1..] == gs[1..][k - 1 := gs[k].(foods := gs[k].foods + [f])];
    }
  }

  lemma {:induction false} TotalGrowsAtEnd(gs: seq<FoodCategory>, c: FoodCategory)
    ensures TotalFoods(gs + [c]) == TotalFoods(gs) + |c.foods|
  {
    if |gs| > 0 {
      TotalGrowsAtEnd(gs[1..], c);
      assert (gs + [c])[1..] == gs[1..] + [c];
    }
  }

  /** Grouping neither drops nor duplicates a food. */
  lemma {:induction false} GroupingKeepsEveryFood(foods: seq<Food>)
    ensures TotalFoods(GroupByCategory(foods)) == |foods|
  {
    if |foods| > 0 {
      var p, x := foods[..|foods| - 1], foods[|foods| - 1];
      GroupingKeepsEveryFood(p);
      var g := GroupByCategory(p);
      match FindCategory(g, CategoryName(x))
      case Some(k) => TotalGrowsAt(g, k, x);
      case None => TotalGrowsAtEnd(g, FoodCategory(CategoryName(x), [x]));
    }
  }

  /** A food without a category is shown in the "Other" section. */
  lemma UncategorizedGoesToOther(foods: seq<Food>, k: nat)
    requires k < |foods| && foods[k].category.None?
    ensures var g := GroupByCategory(foods);
      exists i :: 0 <= i < |g| && g[i].name == "Other" && foods[k] in g[i].foods
  {
    GroupingPartitions(foods);
  }

  /** The menu on display: the fetched foods, or the built-in sample menu when
      none came back. */
  function CurrentFoods(fetched: seq<Food>, sample: seq<Food>): seq<Food>
  {
    if |fetched| > 0 then fetched else sample
  }

  /** The sections the page renders for a search term. */
  function PageSections(fetched: seq<Food>, sample: seq<Food>, term: string): seq<FoodCategory>
  {
    GroupByCategory(FilterFoods(CurrentFoods(fetched, sample), term))
  }

  /** Each section holds every food of its category exactly as often as the
      grouped list does, and nothing else. */
  lemma SectionCounts(foods: seq<Food>)
    ensures var g := GroupByCategory(foods);
      forall i, f :: 0 <= i < |g| ==>
        multiset(g[i].foods)[f] == if CategoryName(f) == g[i].name then multiset(foods)[f] else 0
  {
    GroupingMatchesSections(foods);
    var ns := Names(foods);
    forall i | 0 <= i < |ns|
      ensures forall f :: multiset(InCategory(foods, ns[i]))[f] == if CategoryName(f) == ns[i] then multiset(foods)[f] else 0
    {
      Seqs.FilterCounts(foods, InCategoryFilter(ns[i]));
    }
  }

  /** A section of the page shows each matching food of its category as often
      as the current menu `cur` lists it. */
  lemma PageSectionCounts(cur: seq<Food>, term: string)
    ensures var g := GroupByCategory(FilterFoods(cur, term));
      forall i, f :: 0 <= i < |g| ==>
        multiset(g[i].foods)[f] == if MatchesSearch(f, term) && CategoryName(f) == g[i].name then multiset(cur)[f] else 0
  {
    SectionCounts(FilterFoods(cur, term));
  }

  /** Every food in a section of the page is a matching food of the current
      menu `cur`, filed under its own category. */
  lemma PageSectionsSound(cur: seq<Food>, term: string)
    ensures var g := GroupByCategory(FilterFoods(cur, term));
      forall i, k :: 0 <= i < |g| && 0 <= k < |g[i].foods| ==>
        g[i].foods[k] in cur && MatchesSearch(g[i].foods[k], term) && CategoryName(g[i].foods[k]) == g[i].name
  {
    var shown := FilterFoods(cur, term);
    GroupingPartitions(shown);
    var g := GroupByCategory(shown);
    forall i, k | 0 <= i < |g| && 0 <= k < |g[i].foods|
      ensures g[i].foods[k] in cur && MatchesSearch(g[i].foods[k], term) && CategoryName(g[i].foods[k]) == g[i].name
    {
      var f := g[i].foods[k];
      assert f in shown;
      var m :| 0 <= m < |shown| && shown[m] == f;
    }
  }

  /** Every matching food of the current menu `cur` appears in the section of
      its category. */
  lemma PageSectionsComplete(cur: seq<Food>, term: string)
    ensures var g := GroupByCategory(FilterFoods(cur, term));
      forall k :: 0 <= k < |cur| && MatchesSearch(cur[k], term) ==>
        exists i :: 0 <= i < |g| && g[i].name == CategoryName(cur[k]) && cur[k] in g[i].foods
  {
    var shown := FilterFoods(cur, term);
    GroupingPartitions(shown);
    var g := GroupByCategory(shown);
    forall k | 0 <= k < |cur| && MatchesSearch(cur[k], term)
      ensures exists i :: 0 <= i < |g| && g[i].name == CategoryName(cur[k]) && cur[k] in g[i].foods
    {
      assert cur[k] in shown;
      var m :| 0 <= m < |shown| && shown[m] == cur[k];
    }
  }

  /** The sections hold exactly the foods of the current menu that match the
      search, each under its own category; the sample menu is used only when
      nothing was fetched. */
  lemma PageShowsExactlyMatches(fetched: seq<Food>, sample: seq<Food>, term: string)
    ensures var cur, g := CurrentFoods(fetched, sample), PageSections(fetched, sample, term);
      && (|fetched| > 0 ==> cur == fetched)
      && (|fetched| == 0 ==> cur == sample)
      && (forall i, k :: 0 <= i < |g| && 0 <= k < |g[i].foods| ==>
            g[i].foods[k] in cur && MatchesSearch(g[i].foods[k], term) && CategoryName(g[i].foods[k]) == g[i].name)
      && (forall k :: 0 <= k < |cur| && MatchesSearch(cur[k], term) ==>
            exists i :: 0 <= i < |g| && g[i].name == CategoryName(cur[k]) && cur[k] in g[i].foods)
  {
    PageSectionsSound(CurrentFoods(fetched, sample), term);
    PageSectionsComplete(CurrentFoods(fetched, sample), term);
  }

  // ---------------------------------------------------------------- sections on screen

  /** `toggleCategory`: collapse the active section, or focus another. */
  function ToggleCategory(active: Option<string>, c: string): (r: Option<string>)
    ensures r == Some(c) <==> active != Some(c)
    ensures r.None? <==> active == Some(c)
  {
    if active == Some(c) then None else Some(c)
  }

  /** A section's foods are shown when it is active or none is. */
  predicate SectionVisible(active: Option<string>, name: string)
  {
    active == Some(name) || active.None?
  }

  /** Toggling the same section twice restores the prior value when nothing,
      or that same section, was active. */
  lemma ToggleTwice(active: Option<string>, c: string)
    requires active.None? || active == Some(c)
    ensures ToggleCategory(ToggleCategory(active, c), c) == active
  {
  }

  /** With another section active, toggling twice collapses everything. */
  lemma ToggleTwiceFromOtherSection(d: string, c: string)
    requires d != c
    ensures ToggleCategory(ToggleCategory(Some(d), c), c) == None
  {
  }

  /** After toggling `c`, section `c` is shown, and every other section is shown
      exactly when `c` was the active one. */
  lemma ToggleVisibility(active: Option<string>, c: string, other: string)
    requires other != c
    ensures SectionVisible(ToggleCategory(active, c), c)
    ensures SectionVisible(ToggleCategory(active, c), other) <==> active == Some(c)
  {
  }
}
