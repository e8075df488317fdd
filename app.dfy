/** The shopper view (App.tsx): the `filteredDeals` pipeline -- category, store and text
    filters applied to a copy of the deal list, then an in-place stable sort -- and the
    "Reset all filters" handler. */
module App {
  import opened Types
  import opened Text
  import opened Seqs

  // ---------------------------------------------------------------------------
  // The three filters (App.tsx:21-39)
  // ---------------------------------------------------------------------------

  /** The category filter lets `d` through: `All` restricts nothing. */
  predicate CategoryOk(d: Deal, category: Category) {
    category == All || d.category == category
  }

  /** The store filter lets `d` through: `'All'` restricts nothing. */
  predicate StoreOk(d: Deal, store: StoreSelection) {
    store.AnyStore? || d.store == store.store
  }

  /** The lower-cased query `q` occurs in the lower-cased title, store or category of `d`. */
  predicate Mentions(d: Deal, q: string) {
    || Contains(Lower(d.title), q)
    || Contains(Lower(StoreName(d.store)), q)
    || Contains(Lower(CategoryName(d.category)), q)
  }

  /** The text filter lets `d` through: an empty query is falsy in `if (searchQuery)`. */
  predicate QueryOk(d: Deal, query: string) {
    query == [] || Mentions(d, Lower(query))
  }

  /** `d` passes every active filter. */
  predicate Selected(d: Deal, category: Category, store: StoreSelection, query: string) {
    CategoryOk(d, category) && StoreOk(d, store) && QueryOk(d, query)
  }

  // The filter callbacks as values, so that the pipeline and its specification share them.

  function HasCategory(category: Category): Deal -> bool {
    (d: Deal) => d.category == category
  }

  function AtStore(store: Store): Deal -> bool {
    (d: Deal) => d.store == store
  }

  function MentionsQuery(q: string): Deal -> bool {
    d => Mentions(d, q)
  }

  function SelectedBy(category: Category, store: StoreSelection, query: string): Deal -> bool {
    d => Selected(d, category, store, query)
  }

  /** The filter stages in source order; a stage whose selector is at its default is skipped. */
  function FilterStages(deals: seq<Deal>, category: Category, store: StoreSelection, query: string): (r: seq<Deal>)
    ensures |r| <= |deals|
  {
    var byCategory := if category != All then Filter(deals, HasCategory(category)) else deals;
    var byStore := if store.OnlyStore? then Filter(byCategory, AtStore(store.store)) else byCategory;
    if query != [] then Filter(byStore, MentionsQuery(Lower(query))) else byStore
  }

  /** Filtering only depends on what the callback answers. */
  lemma {:induction false} FilterSameCallback(s: seq<Deal>, p: Deal -> bool, q: Deal -> bool)
    requires forall x :: p(x) == q(x)
    ensures Filter(s, p) == Filter(s, q)
  {
    if s != [] {
      FilterSameCallback(s[1..], p, q);
    }
  }

  /** The three stages together keep exactly the deals that pass every active filter, in input order. */
  lemma FilterStagesSelect(deals: seq<Deal>, category: Category, store: StoreSelection, query: string)
    ensures FilterStages(deals, category, store, query) == Filter(deals, SelectedBy(category, store, query))
  {
    var c: Deal -> bool := d => CategoryOk(d, category);
    var cs: Deal -> bool := d => CategoryOk(d, category) && StoreOk(d, store);
    var byCategory := if category != All then Filter(deals, HasCategory(category)) else deals;
    if category != All {
      FilterSameCallback(deals, HasCategory(category), c);
    } else {
      FilterAll(deals, c);
    }
    assert byCategory == Filter(deals, c);
    var byStore := if store.OnlyStore? then Filter(byCategory, AtStore(store.store)) else byCategory;
    if store.OnlyStore? {
      FilterFilter(deals, c, AtStore(store.store), cs);
    } else {
      FilterSameCallback(deals, c, cs);
    }
    assert byStore == Filter(deals, cs);
    if query != [] {
      FilterFilter(deals, cs, MentionsQuery(Lower(query)), SelectedBy(category, store, query));
    } else {
      FilterSameCallback(deals, cs, SelectedBy(category, store, query));
    }
  }

  // ---------------------------------------------------------------------------
  // Sorting (App.tsx:41-59)
  // ---------------------------------------------------------------------------

  /** The value each comparator effectively orders by, smallest first. */
  function Key(option: SortOption, d: Deal): int {
    match option
    case PriceLowToHigh => d.dealPrice
    case PriceHighToLow => -d.dealPrice
    case Discount => -d.discountPercentage
    case Relevance => if d.isLoot then 0 else 1
  }

  /** The comparator handed to `deals.sort` for each option; the relevance comparator
      looks at `isLoot` alone and calls every other pair a tie. Its sign is that of the
      difference of the keys, so it is a consistent comparator. */
  function Compare(option: SortOption, a: Deal, b: Deal): (r: int)
    ensures r > 0 <==> Key(option, a) > Key(option, b)
    ensures r < 0 <==> Key(option, a) < Key(option, b)
  {
    match option
    case PriceLowToHigh => a.dealPrice - b.dealPrice
    case PriceHighToLow => b.dealPrice - a.dealPrice
    case Discount => b.discountPercentage - a.discountPercentage
    case Relevance =>
      if a.isLoot && !b.isLoot then -1
      else if !a.isLoot && b.isLoot then 1
      else 0
  }

  /** One step of a stable insertion sort: `x`, which follows `sorted` in the input, is
      placed after every element the comparator does not rank above it. */
  function Insert(option: SortOption, sorted: seq<Deal>, x: Deal): (r: seq<Deal>)
    ensures |r| == |sorted| + 1
    decreases |sorted|
  {
    if sorted == [] then [x]
    else
      var init, last := sorted[..|sorted| - 1], sorted[|sorted| - 1];
      if Compare(option, last, x) > 0 then Insert(option, init, x) + [last]
      else sorted + [x]
  }

  /** `deals.sort(comparator)`. `Array.prototype.sort` is stable, so the result is that of a
      stable insertion sort. */
  function SortAll(option: SortOption, s: seq<Deal>): (r: seq<Deal>)
    ensures |r| == |s|
  {
    if s == [] then []
    else Insert(option, SortAll(option, s[..|s| - 1]), s[|s| - 1])
  }

  /** Inserting adds exactly `x`: nothing is lost or duplicated. */
  lemma {:induction false} InsertPermutes(option: SortOption, sorted: seq<Deal>, x: Deal)
    ensures multiset(Insert(option, sorted, x)) == multiset(sorted) + multiset{x}
    decreases |sorted|
  {
    if sorted != [] {
      var init, last := sorted[..|sorted| - 1], sorted[|sorted| - 1];
      assert sorted == init + [last];
      if Compare(option, last, x) > 0 {
        InsertPermutes(option, init, x);
      }
    }
  }

  /** Sorting only reorders: the result is a permutation of its input. */
  lemma {:induction false} SortAllPermutes(option: SortOption, s: seq<Deal>)
    ensures multiset(SortAll(option, s)) == multiset(s)
    decreases |s|
  {
    if s != [] {
      var init, x := s[..|s| - 1], s[|s| - 1];
      assert s == init + [x];
      SortAllPermutes(option, init);
      InsertPermutes(option, SortAll(option, init), x);
    }
  }

  /** Sorting neither adds nor drops a deal. */
  lemma SortAllMembers(option: SortOption, s: seq<Deal>)
    ensures forall d :: d in SortAll(option, s) <==> d in s
  {
    SortAllPermutes(option, s);
    forall d
      ensures d in SortAll(option, s) <==> d in s
    {
      assert d in SortAll(option, s) <==> d in multiset(SortAll(option, s));
    }
  }

  /** Ordered by the option's key, comparing every earlier element with every later one. */
  predicate SortedBy(option: SortOption, s: seq<Deal>) {
    forall i, j :: 0 <= i < j < |s| ==> Key(option, s[i]) <= Key(option, s[j])
  }

  /** Unfolding `Insert` once when the last element moves right past `x`. */
  lemma InsertPastLast(option: SortOption, t: seq<Deal>, x: Deal)
    requires t != [] && Compare(option, t[|t| - 1], x) > 0
    ensures Insert(option, t, x) == Insert(option, t[..|t| - 1], x) + [t[|t| - 1]]
  {
  }

  /** Unfolding `Insert` once when `x` stays behind the last element. */
  lemma InsertStays(option: SortOption, t: seq<Deal>, x: Deal)
    requires t == [] || Compare(option, t[|t| - 1], x) <= 0
    ensures Insert(option, t, x) == t + [x]
  {
  }

  /** Inserting below a common upper bound keeps every key below it. */
  lemma {:induction false} InsertBounded(option: SortOption, t: seq<Deal>, x: Deal, bound: int)
    requires forall i :: 0 <= i < |t| ==> Key(option, t[i]) <= bound
    requires Key(option, x) <= bound
    ensures forall i :: 0 <= i < |t| + 1 ==> Key(option, Insert(option, t, x)[i]) <= bound
    decreases |t|
  {
    if t != [] && Compare(option, t[|t| - 1], x) > 0 {
      InsertPastLast(option, t, x);
      InsertBounded(option, t[..|t| - 1], x, bound);
    } else {
      InsertStays(option, t, x);
    }
  }

  lemma {:induction false} InsertSorted(option: SortOption, t: seq<Deal>, x: Deal)
    requires SortedBy(option, t)
    ensures SortedBy(option, Insert(option, t, x))
    decreases |t|
  {
    if t != [] && Compare(option, t[|t| - 1], x) > 0 {
      var init, last := t[..|t| - 1], t[|t| - 1];
      var front := Insert(option, init, x);
      InsertPastLast(option, t, x);
      InsertSorted(option, init, x);
      InsertBounded(option, init, x, Key(option, last));
      var r := front + [last];
      forall i, j | 0 <= i < j < |r|
        ensures Key(option, r[i]) <= Key(option, r[j])
      {
        if j < |front| {
          assert r[i] == front[i] && r[j] == front[j];
        } else {
          assert r[i] == front[i];
        }
      }
    } else {
      InsertStays(option, t, x);
      var r := t + [x];
      forall i, j | 0 <= i < j < |r|
        ensures Key(option, r[i]) <= Key(option, r[j])
      {
        if j == |t| && i < |t| - 1 {
          assert Key(option, t[i]) <= Key(option, t[|t| - 1]);
        }
      }
    }
  }

  /** Every sort option yields a list ordered by its key. */
  lemma {:induction false} SortAllSorted(option: SortOption, s: seq<Deal>)
    ensures SortedBy(option, SortAll(option, s))
    decreases |s|
  {
    if s != [] {
      SortAllSorted(option, s[..|s| - 1]);
      InsertSorted(option, SortAll(option, s[..|s| - 1]), s[|s| - 1]);
    }
  }

  /** The callback keeping the deals whose key under `option` is `k`: a group of deals the
      comparator calls ties (its result is 0 exactly between equal keys). */
  function KeyIs(option: SortOption, k: int): Deal -> bool {
    d => Key(option, d) == k
  }

  /** Inserting keeps the order within every group of ties, `x` joining the end of its group. */
  lemma {:induction false} InsertStable(option: SortOption, t: seq<Deal>, x: Deal, k: int)
    ensures Filter(Insert(option, t, x), KeyIs(option, k)) ==
      Filter(t, KeyIs(option, k)) + (if Key(option, x) == k then [x] else [])
    decreases |t|
  {
    var p := KeyIs(option, k);
    if t != [] && Compare(option, t[|t| - 1], x) > 0 {
      var init, last := t[..|t| - 1], t[|t| - 1];
      InsertPastLast(option, t, x);
      InsertStable(option, init, x, k);
      FilterSnoc(Insert(option, init, x), last, p);
      FilterLast(t, p);
      // `last` ranks above `x`, so at most one of the two belongs to the group.
      assert !(p(last) && p(x));
    } else {
      InsertStays(option, t, x);
      FilterSnoc(t, x, p);
    }
  }

  /** `Array.prototype.sort` is stable under every option: deals the comparator calls ties
      keep their input order. */
  lemma {:induction false} SortAllStable(option: SortOption, s: seq<Deal>, k: int)
    ensures Filter(SortAll(option, s), KeyIs(option, k)) == Filter(s, KeyIs(option, k))
    decreases |s|
  {
    if s != [] {
      var init, x := s[..|s| - 1], s[|s| - 1];
      SortAllStable(option, init, k);
      InsertStable(option, SortAll(option, init), x, k);
      FilterLast(s, KeyIs(option, k));
    }
  }

  /** Every deal of `s` is a loot deal. */
  predicate AllLoot(s: seq<Deal>) {
    forall i :: 0 <= i < |s| ==> s[i].isLoot
  }

  /** No deal of `s` is a loot deal. */
  predicate NoLoot(s: seq<Deal>) {
    forall i :: 0 <= i < |s| ==> !s[i].isLoot
  }

  /** Splitting by `isLoot` gives loot deals on one side and the others on the other. */
  lemma FilterSplitsLoot(s: seq<Deal>)
    ensures AllLoot(Filter(s, IsLoot)) && NoLoot(Filter(s, IsNotLoot))
  {
    var loot, rest := Filter(s, IsLoot), Filter(s, IsNotLoot);
    FilterMembers(s, IsLoot);
    FilterMembers(s, IsNotLoot);
    assert forall i :: 0 <= i < |loot| ==> loot[i] in loot;
    assert forall i :: 0 <= i < |rest| ==> rest[i] in rest;
  }

  /** Inserting a loot deal into a loot-first list puts it after the loot deals and before the rest. */
  lemma {:induction false} InsertLootDeal(loot: seq<Deal>, rest: seq<Deal>, x: Deal)
    requires AllLoot(loot) && NoLoot(rest) && x.isLoot
    ensures Insert(Relevance, loot + rest, x) == loot + [x] + rest
    decreases |rest|
  {
    var t := loot + rest;
    if rest == [] {
      assert t == loot;
      InsertStays(Relevance, t, x);
    } else {
      var init, last := rest[..|rest| - 1], rest[|rest| - 1];
      assert t[|t| - 1] == last && t[..|t| - 1] == loot + init;
      InsertPastLast(Relevance, t, x);
      InsertLootDeal(loot, init, x);
      assert rest == init + [last];
    }
  }

  /** A deal that is not loot is never moved left by the relevance comparator: it goes last. */
  lemma InsertOtherDeal(t: seq<Deal>, x: Deal)
    requires !x.isLoot
    ensures Insert(Relevance, t, x) == t + [x]
  {
    InsertStays(Relevance, t, x);
  }

  /** A loot deal joins the end of the loot block. */
  lemma RelevanceLastLoot(s: seq<Deal>)
    requires s != [] && s[|s| - 1].isLoot
    requires SortAll(Relevance, s[..|s| - 1]) == Filter(s[..|s| - 1], IsLoot) + Filter(s[..|s| - 1], IsNotLoot)
    ensures SortAll(Relevance, s) == Filter(s, IsLoot) + Filter(s, IsNotLoot)
  {
    var init, x := s[..|s| - 1], s[|s| - 1];
    FilterLast(s, IsLoot);
    FilterLast(s, IsNotLoot);
    FilterSplitsLoot(init);
    InsertLootDeal(Filter(init, IsLoot), Filter(init, IsNotLoot), x);
  }

  /** Any other deal stays at the very end. */
  lemma RelevanceLastOther(s: seq<Deal>)
    requires s != [] && !s[|s| - 1].isLoot
    requires SortAll(Relevance, s[..|s| - 1]) == Filter(s[..|s| - 1], IsLoot) + Filter(s[..|s| - 1], IsNotLoot)
    ensures SortAll(Relevance, s) == Filter(s, IsLoot) + Filter(s, IsNotLoot)
  {
    var init, x := s[..|s| - 1], s[|s| - 1];
    var loot, rest := Filter(init, IsLoot), Filter(init, IsNotLoot);
    FilterLast(s, IsLoot);
    FilterLast(s, IsNotLoot);
    assert SortAll(Relevance, s) == Insert(Relevance, loot + rest, x);
    InsertOtherDeal(loot + rest, x);
    assert Filter(s, IsLoot) == loot;
    assert Filter(s, IsNotLoot) == rest + [x];
    AppendLast(loot, rest, x);
  }

  /** Appending after a concatenation appends to its second part. */
  lemma AppendLast(a: seq<Deal>, b: seq<Deal>, x: Deal)
    ensures a + b + [x] == a + (b + [x])
  {
  }

  /** The relevance sort is a stable partition: the loot deals in input order, then the
      others in input order. */
  lemma {:induction false} RelevanceIsLootFirst(s: seq<Deal>)
    ensures SortAll(Relevance, s) == Filter(s, IsLoot) + Filter(s, IsNotLoot)
    decreases |s|
  {
    if s != [] {
      RelevanceIsLootFirst(s[..|s| - 1]);
      if s[|s| - 1].isLoot {
        RelevanceLastLoot(s);
      } else {
        RelevanceLastOther(s);
      }
    }
  }

  /** Sorting one more element of the input is inserting it into the sorted prefix. */
  lemma SortAllStep(option: SortOption, s: seq<Deal>, i: nat)
    requires i < |s|
    ensures SortAll(option, s[..i + 1]) == Insert(option, SortAll(option, s[..i]), s[i])
  {
    assert s[..i + 1][..i] == s[..i];
  }

  /** Where `Insert` puts `x`: right after the last element the comparator does not rank
      above it, every later element being ranked above it. */
  lemma {:induction false} InsertPosition(option: SortOption, t: seq<Deal>, x: Deal, j: nat)
    requires j <= |t|
    requires j == 0 || Compare(option, t[j - 1], x) <= 0
    requires forall k :: j <= k < |t| ==> Compare(option, t[k], x) > 0
    ensures Insert(option, t, x) == t[..j] + [x] + t[j..]
    decreases |t|
  {
    if j == |t| {
      InsertStays(option, t, x);
      assert t[..j] == t;
    } else {
      var init := t[..|t| - 1];
      InsertPastLast(option, t, x);
      InsertPosition(option, init, x, j);
      assert init[..j] == t[..j];
      assert init[j..] + [t[|t| - 1]] == t[j..];
    }
  }

  /** One pass of the insertion sort: `a[i]` moves left past every element of the sorted
      prefix `a[..i]` that the comparator ranks above it. */
  method InsertInPlace(a: array<Deal>, i: nat, option: SortOption)
    requires i < a.Length
    modifies a
    ensures a[..i + 1] == Insert(option, old(a[..i]), old(a[i]))
    ensures forall k :: i < k < a.Length ==> a[k] == old(a[k])
  {
    ghost var t := a[..i];
    var x := a[i];
    var j := i;
    assert a[..i + 1] == t[..j] + [x] + t[j..];
    while j > 0 && Compare(option, a[j - 1], x) > 0
      invariant 0 <= j <= i
      invariant a[..i + 1] == t[..j] + [x] + t[j..]
      invariant forall k :: i < k < a.Length ==> a[k] == old(a[k])
      invariant forall k :: j <= k < i ==> Compare(option, t[k], x) > 0
    {
      assert a[j - 1] == t[j - 1];
      a[j - 1], a[j] := x, a[j - 1];
      j := j - 1;
      assert a[..i + 1] == t[..j] + [x] + t[j..];
    }
    InsertPosition(option, t, x, j);
  }

  /** `deals.sort(comparator)` in place: insertion sort over a growing sorted prefix. */
  method SortInPlace(a: array<Deal>, option: SortOption)
    modifies a
    ensures a[..] == SortAll(option, old(a[..]))
  {
    ghost var input := a[..];
    var i := 0;
    while i < a.Length
      invariant 0 <= i <= a.Length
      invariant a[..i] == SortAll(option, input[..i])
      invariant forall k :: i <= k < a.Length ==> a[k] == input[k]
    {
      InsertInPlace(a, i, option);
      SortAllStep(option, input, i);
      i := i + 1;
    }
    assert a[..] == a[..a.Length] && input == input[..a.Length];
  }

  // ---------------------------------------------------------------------------
  // The whole pipeline (App.tsx:18-62)
  // ---------------------------------------------------------------------------

  /** What the shopper sees: filter, then sort. */
  function Pipeline(deals: seq<Deal>, category: Category, store: StoreSelection, query: string, option: SortOption): (r: seq<Deal>)
    ensures |r| <= |deals|
  {
    SortAll(option, FilterStages(deals, category, store, query))
  }

  /** The `filteredDeals` memo: copy the list, narrow it stage by stage, sort it in place. */
  method FilteredDeals(source: seq<Deal>, category: Category, store: StoreSelection, query: string, option: SortOption)
    returns (shown: seq<Deal>)
    ensures shown == Pipeline(source, category, store, query, option)
    ensures multiset(shown) == multiset(Filter(source, SelectedBy(category, store, query)))
    ensures SortedBy(option, shown)
  {
    var deals := source;
    if category != All {
      deals := Filter(deals, HasCategory(category));
    }
    if store.OnlyStore? {
      deals := Filter(deals, AtStore(store.store));
    }
    if query != [] {
      var q := Lower(query);
      deals := Filter(deals, MentionsQuery(q));
    }
    var a := new Deal[|deals|](k requires 0 <= k < |deals| => deals[k]);
    assert a[..] == deals;
    SortInPlace(a, option);
    shown := a[..];
    FilterStagesSelect(source, category, store, query);
    SortAllSorted(option, deals);
    SortAllPermutes(option, deals);
  }

  /** No deal is invented or duplicated: the result is a reordering of the deals that pass
      the active filters, and those come from the input in input order. */
  lemma PipelineIsSelection(deals: seq<Deal>, category: Category, store: StoreSelection, query: string, option: SortOption)
    ensures var shown := Pipeline(deals, category, store, query, option);
      && multiset(shown) == multiset(FilterStages(deals, category, store, query))
      && IsSubsequence(FilterStages(deals, category, store, query), deals)
      && multiset(shown) <= multiset(deals)
  {
    FilterStagesSelect(deals, category, store, query);
    FilterIsSubsequence(deals, SelectedBy(category, store, query));
    FilterMultiset(deals, SelectedBy(category, store, query));
    SortAllPermutes(option, FilterStages(deals, category, store, query));
  }

  /** Soundness and completeness: a deal is shown exactly when it is an input deal with the
      selected category (unless `All`), the selected store (unless `'All'`) and the query in
      its lower-cased title, store or category (unless the query is empty). */
  lemma PipelineMembers(deals: seq<Deal>, category: Category, store: StoreSelection, query: string, option: SortOption)
    ensures forall d :: d in Pipeline(deals, category, store, query, option) <==>
      && d in deals
      && (category == All || d.category == category)
      && (store.AnyStore? || d.store == store.store)
      && (query == [] || Mentions(d, Lower(query)))
  {
    PipelineSelects(deals, category, store, query, option);
  }

  /** Membership in the shown list, with the filters folded into `Selected`. */
  lemma PipelineSelects(deals: seq<Deal>, category: Category, store: StoreSelection, query: string, option: SortOption)
    ensures forall d :: d in Pipeline(deals, category, store, query, option) <==> d in deals && Selected(d, category, store, query)
  {
    FilterStagesSelect(deals, category, store, query);
    FilterMembers(deals, SelectedBy(category, store, query));
    SortAllMembers(option, FilterStages(deals, category, store, query));
  }

  /** The three non-default sort options order adjacent shown deals by price or discount. */
  lemma PipelineOrdered(deals: seq<Deal>, category: Category, store: StoreSelection, query: string, option: SortOption)
    ensures var shown := Pipeline(deals, category, store, query, option);
      && (option == PriceLowToHigh ==> forall i :: 0 <= i < |shown| - 1 ==> shown[i].dealPrice <= shown[i + 1].dealPrice)
      && (option == PriceHighToLow ==> forall i :: 0 <= i < |shown| - 1 ==> shown[i].dealPrice >= shown[i + 1].dealPrice)
      && (option == Discount ==> forall i :: 0 <= i < |shown| - 1 ==> shown[i].discountPercentage >= shown[i + 1].discountPercentage)
  {
    var shown := Pipeline(deals, category, store, query, option);
    SortAllSorted(option, FilterStages(deals, category, store, query));
    forall i | 0 <= i < |shown| - 1
      ensures Key(option, shown[i]) <= Key(option, shown[i + 1])
    {
    }
  }

  /** Shown deals that tie under the sort option (equal price, equal discount, or equal
      loot flag) appear in the order of the input list. */
  lemma PipelineStable(deals: seq<Deal>, category: Category, store: StoreSelection, query: string, option: SortOption, k: int)
    ensures Filter(Pipeline(deals, category, store, query, option), KeyIs(option, k)) ==
      Filter(Filter(deals, SelectedBy(category, store, query)), KeyIs(option, k))
  {
    FilterStagesSelect(deals, category, store, query);
    SortAllStable(option, FilterStages(deals, category, store, query), k);
  }

  /** Relevance order: the loot deals that pass the filters, in input order, then the other
      deals that pass, in input order; so no loot deal follows a non-loot one. */
  lemma PipelineRelevance(deals: seq<Deal>, category: Category, store: StoreSelection, query: string)
    ensures var kept := FilterStages(deals, category, store, query);
      var shown := Pipeline(deals, category, store, query, Relevance);
      && shown == Filter(kept, IsLoot) + Filter(kept, IsNotLoot)
      && forall i, j :: 0 <= i < j < |shown| && shown[j].isLoot ==> shown[i].isLoot
  {
    var kept := FilterStages(deals, category, store, query);
    RelevanceIsLootFirst(kept);
    SortAllSorted(Relevance, kept);
  }

  /** With every selector at its default, the shopper sees the whole list, sorted. */
  lemma ResetShowsEverything(deals: seq<Deal>, option: SortOption)
    ensures Pipeline(deals, All, AnyStore, [], option) == SortAll(option, deals)
    ensures multiset(Pipeline(deals, All, AnyStore, [], option)) == multiset(deals)
    ensures SortedBy(option, Pipeline(deals, All, AnyStore, [], option))
  {
    SortAllSorted(option, deals);
    SortAllPermutes(option, deals);
  }

  /** The view state behind the pipeline (App.tsx:13-16). */
  class Storefront {
    var activeCategory: Category
    var selectedStore: StoreSelection
    var sortOption: SortOption
    var searchQuery: string

    constructor()
      ensures activeCategory == All && selectedStore == AnyStore
      ensures sortOption == Relevance && searchQuery == []
    {
      activeCategory := All;
      selectedStore := AnyStore;
      sortOption := Relevance;
      searchQuery := [];
    }

    /** "Reset all filters": the three filters go back to their defaults; the sort stays. */
    method ResetFilters()
      modifies this
      ensures activeCategory == All && selectedStore == AnyStore && searchQuery == []
      ensures sortOption == old(sortOption)
    {
      activeCategory := All;
      selectedStore := AnyStore;
      searchQuery := [];
    }

    /** The deals on screen for the current selectors. */
    method Shown(source: seq<Deal>) returns (shown: seq<Deal>)
      ensures shown == Pipeline(source, activeCategory, selectedStore, searchQuery, sortOption)
      ensures SortedBy(sortOption, shown)
    {
      shown := FilteredDeals(source, activeCategory, selectedStore, searchQuery, sortOption);
    }
  }
}
