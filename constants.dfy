/** The seed catalogue `MOCK_DEALS` (constants.tsx), which the storefront lists. Its
    timestamps are taken when the module loads; here that instant is the parameter `now`. */
module Constants {
  import opened Types
  import opened Seqs
  import App
  import Dashboard

  // Titles, image links and shop links of the seeds.
  const IPhoneTitle: string := "Apple iPhone 15 (128GB) - Blue"
  const WatchTitle: string := "Samsung Galaxy Watch 6 Bluetooth 44mm"
  const SneakersTitle: string := "Nike Air Max 270 React - Sneakers"
  const HeadphonesTitle: string := "Sony WH-1000XM5 Noise Cancelling Headphones"
  const BedspreadTitle: string := "Cotton Printed King Size Bedspread"
  const JeansTitle: string := "Levi's Men's Regular Fit Jeans"
  const AlmondsTitle: string := "Organic Almonds (Value Pack) - 1kg"
  const MacBookTitle: string := "MacBook Air M2 Chip - Space Grey"

  const IPhoneImage: string := "https://picsum.photos/seed/iphone15/400/400"
  const WatchImage: string := "https://picsum.photos/seed/watch6/400/400"
  const SneakersImage: string := "https://picsum.photos/seed/nikeair/400/400"
  const HeadphonesImage: string := "https://picsum.photos/seed/sonyh/400/400"
  const BedspreadImage: string := "https://picsum.photos/seed/bed/400/400"
  const JeansImage: string := "https://picsum.photos/seed/jeans/400/400"
  const AlmondsImage: string := "https://picsum.photos/seed/almonds/400/400"
  const MacBookImage: string := "https://picsum.photos/seed/macbook/400/400"

  const AmazonLink: string := "https://amazon.in"
  const FlipkartLink: string := "https://flipkart.com"
  const MyntraLink: string := "https://myntra.com"
  const AjioLink: string := "https://ajio.com"
  const RelianceDigitalLink: string := "https://reliancedigital.in"

  /** The eight seed deals, in source order. */
  function MockDeals(now: int): (deals: seq<Deal>)
    ensures |deals| == 8
  {
    [
      Deal("1", IPhoneTitle, IPhoneImage, 79900, 65999, 17, Electronics, Amazon, AmazonLink, true, now + 86400000, now),
      Deal("2", WatchTitle, WatchImage, 33999, 19999, 41, Electronics, Flipkart, FlipkartLink, false, now + 172800000, now),
      Deal("3", SneakersTitle, SneakersImage, 12995, 6495, 50, Fashion, Myntra, MyntraLink, true, now + 3600000, now),
      Deal("4", HeadphonesTitle, HeadphonesImage, 34990, 26990, 23, Electronics, Amazon, AmazonLink, false, now + 259200000, now),
      Deal("5", BedspreadTitle, BedspreadImage, 2499, 799, 68, Home, Ajio, AjioLink, true, now + 43200000, now),
      Deal("6", JeansTitle, JeansImage, 3999, 1599, 60, Fashion, Amazon, AmazonLink, false, now + 900000, now),
      Deal("7", AlmondsTitle, AlmondsImage, 1200, 850, 29, Groceries, Amazon, AmazonLink, false, now + 604800000, now),
      Deal("8", MacBookTitle, MacBookImage, 114900, 89900, 22, Electronics, RelianceDigital, RelianceDigitalLink, false, now + 500000000, now)
    ]
  }

  /** The ids of a list of deals, in order. */
  function Ids(deals: seq<Deal>): (ids: seq<string>)
    ensures |ids| == |deals|
    ensures forall i :: 0 <= i < |deals| ==> ids[i] == deals[i].id
  {
    if deals == [] then [] else [deals[0].id] + Ids(deals[1..])
  }

  /** Every seed is a real discount, and its stored percentage is what the admin form would
      have computed from its two prices. */
  lemma SeedPricesAgree(now: int)
    ensures forall i :: 0 <= i < 8 ==>
      && 0 <= MockDeals(now)[i].dealPrice < MockDeals(now)[i].originalPrice
      && MockDeals(now)[i].discountPercentage == Dashboard.Discount(MockDeals(now)[i].originalPrice, MockDeals(now)[i].dealPrice)
  {
    var s := MockDeals(now);
    assert Dashboard.Discount(79900, 65999) == 17;
    assert Dashboard.Discount(33999, 19999) == 41;
    assert Dashboard.Discount(12995, 6495) == 50;
    assert Dashboard.Discount(34990, 26990) == 23;
    assert Dashboard.Discount(2499, 799) == 68;
    assert Dashboard.Discount(3999, 1599) == 60;
    assert Dashboard.Discount(1200, 850) == 29;
    assert Dashboard.Discount(114900, 89900) == 22;
  }

  /** The second worked example of the formula: 79900 down to 65999 is 17% off. */
  lemma DiscountOfFirstSeed()
    ensures Dashboard.Discount(79900, 65999) == 17
  {
  }

  /** The ids are "1" to "8", in order. */
  lemma SeedIds(now: int)
    ensures Ids(MockDeals(now)) == ["1", "2", "3", "4", "5", "6", "7", "8"]
  {
    var d := MockDeals(now);
    assert Ids(d) == [d[0].id, d[1].id, d[2].id, d[3].id, d[4].id, d[5].id, d[6].id, d[7].id];
  }

  /** No two seeds share an id. */
  lemma SeedIdsDistinct(now: int)
    ensures forall i, j :: 0 <= i < j < 8 ==> MockDeals(now)[i].id != MockDeals(now)[j].id
  {
    SeedIds(now);
    DistinctDigits(Ids(MockDeals(now)));
  }

  /** The one-digit strings "1" to "8" are pairwise different. */
  lemma DistinctDigits(ids: seq<string>)
    requires ids == ["1", "2", "3", "4", "5", "6", "7", "8"]
    ensures forall i, j :: 0 <= i < j < 8 ==> ids[i] != ids[j]
  {
    forall i, j | 0 <= i < j < 8
      ensures ids[i] != ids[j]
    {
      assert ids[i][0] as int - '1' as int == i;
    }
  }

  /** No seed uses the `All` tab sentinel as its category. */
  lemma SeedCategories(now: int)
    ensures forall i :: 0 <= i < 8 ==> MockDeals(now)[i].category != All
  {
  }

  /** The loot flags of the seeds, in order. */
  predicate SeedLootFlags(d: seq<Deal>) {
    && |d| == 8
    && d[0].isLoot && !d[1].isLoot && d[2].isLoot && !d[3].isLoot
    && d[4].isLoot && !d[5].isLoot && !d[6].isLoot && !d[7].isLoot
  }

  /** With the seeds' flags, the loot filter keeps the first, third and fifth deal. */
  lemma LootOfSeedFlags(d: seq<Deal>)
    requires SeedLootFlags(d)
    ensures Filter(d, IsLoot) == [d[0], d[2], d[4]]
  {
    assert Filter(d[7..], IsLoot) == [];
    assert Filter(d[6..], IsLoot) == [];
    assert Filter(d[5..], IsLoot) == [];
    assert Filter(d[4..], IsLoot) == [d[4]];
    assert Filter(d[3..], IsLoot) == [d[4]];
    assert Filter(d[2..], IsLoot) == [d[2], d[4]];
    assert Filter(d[1..], IsLoot) == [d[2], d[4]];
    assert d[0..] == d;
  }

  /** With the seeds' flags, the other filter keeps the remaining five, in order. */
  lemma OthersOfSeedFlags(d: seq<Deal>)
    requires SeedLootFlags(d)
    ensures Filter(d, IsNotLoot) == [d[1], d[3], d[5], d[6], d[7]]
  {
    assert Filter(d[7..], IsNotLoot) == [d[7]];
    assert Filter(d[6..], IsNotLoot) == [d[6], d[7]];
    assert Filter(d[5..], IsNotLoot) == [d[5], d[6], d[7]];
    assert Filter(d[4..], IsNotLoot) == [d[5], d[6], d[7]];
    assert Filter(d[3..], IsNotLoot) == [d[3], d[5], d[6], d[7]];
    assert Filter(d[2..], IsNotLoot) == [d[3], d[5], d[6], d[7]];
    assert Filter(d[1..], IsNotLoot) == [d[1], d[3], d[5], d[6], d[7]];
    assert d[0..] == d;
  }

  /** With the seeds' flags and no filter, the relevance sort moves the three loot deals to
      the front. */
  lemma FirstViewOfSeedFlags(d: seq<Deal>)
    requires SeedLootFlags(d)
    ensures App.Pipeline(d, All, AnyStore, [], Relevance) == [d[0], d[2], d[4], d[1], d[3], d[5], d[6], d[7]]
  {
    assert App.Pipeline(d, All, AnyStore, [], Relevance) == App.SortAll(Relevance, d);
    App.RelevanceIsLootFirst(d);
    LootOfSeedFlags(d);
    OthersOfSeedFlags(d);
    assert [d[0], d[2], d[4]] + [d[1], d[3], d[5], d[6], d[7]] == [d[0], d[2], d[4], d[1], d[3], d[5], d[6], d[7]];
  }

  /** The loot seeds are ids 1, 3 and 5: the "Loot Active" count taken over the seeds is 3 of
      a total of 8 (the dashboard itself counts the database's list, not the seeds). */
  lemma SeedLoot(now: int)
    ensures Ids(Filter(MockDeals(now), IsLoot)) == ["1", "3", "5"]
    ensures Dashboard.LootActive(MockDeals(now)) == 3 && Dashboard.TotalDeals(MockDeals(now)) == 8
  {
    var d := MockDeals(now);
    LootOfSeedFlags(d);
    assert Ids([d[0], d[2], d[4]]) == [d[0].id, d[2].id, d[4].id];
  }

  /** The storefront's first view: with no filter and the relevance sort, the loot seeds
      come first, each group in source order. */
  lemma SeedRelevanceOrder(now: int)
    ensures Ids(App.Pipeline(MockDeals(now), All, AnyStore, [], Relevance)) == ["1", "3", "5", "2", "4", "6", "7", "8"]
  {
    var d := MockDeals(now);
    FirstViewOfSeedFlags(d);
    var r := [d[0], d[2], d[4], d[1], d[3], d[5], d[6], d[7]];
    assert Ids(r) == [d[0].id, d[2].id, d[4].id, d[1].id, d[3].id, d[5].id, d[6].id, d[7].id];
  }

  /** The seeds' categories as far as the Electronics tab is concerned. */
  predicate SeedElectronicsFlags(d: seq<Deal>) {
    && |d| == 8
    && d[0].category == Electronics && d[1].category == Electronics && d[2].category != Electronics
    && d[3].category == Electronics && d[4].category != Electronics && d[5].category != Electronics
    && d[6].category != Electronics && d[7].category == Electronics
  }

  /** With the seeds' categories, the Electronics filter keeps the first, second, fourth and
      last deal. */
  lemma ElectronicsOfSeedFlags(d: seq<Deal>)
    requires SeedElectronicsFlags(d)
    ensures Filter(d, App.HasCategory(Electronics)) == [d[0], d[1], d[3], d[7]]
  {
    var e := App.HasCategory(Electronics);
    ElectronicsOfLastSeeds(d);
    assert Filter(d[3..], e) == [d[3], d[7]];
    assert Filter(d[2..], e) == [d[3], d[7]];
    assert Filter(d[1..], e) == [d[1], d[3], d[7]];
    assert d[0..] == d;
  }

  /** Of the last four seeds only the last is an Electronics deal. */
  lemma ElectronicsOfLastSeeds(d: seq<Deal>)
    requires SeedElectronicsFlags(d)
    ensures Filter(d[4..], App.HasCategory(Electronics)) == [d[7]]
  {
    var e := App.HasCategory(Electronics);
    assert Filter(d[7..], e) == [d[7]];
    assert Filter(d[6..], e) == [d[7]];
    assert Filter(d[5..], e) == [d[7]];
  }

  /** Four deals of which only the first is loot are already in relevance order. */
  lemma RelevanceOfOneLootFirst(k: seq<Deal>)
    requires |k| == 4 && k[0].isLoot && !k[1].isLoot && !k[2].isLoot && !k[3].isLoot
    ensures App.SortAll(Relevance, k) == k
  {
    App.RelevanceIsLootFirst(k);
    assert Filter(k[3..], IsLoot) == [];
    assert Filter(k[2..], IsLoot) == [];
    assert Filter(k[1..], IsLoot) == [];
    assert Filter(k[3..], IsNotLoot) == [k[3]];
    assert Filter(k[2..], IsNotLoot) == [k[2], k[3]];
    assert Filter(k[1..], IsNotLoot) == [k[1], k[2], k[3]];
    assert k[0..] == k;
    assert [k[0]] + [k[1], k[2], k[3]] == k;
  }

  /** With the seeds' flags and categories, the Electronics tab under relevance keeps the
      seeds' order. */
  lemma ElectronicsTabOfSeedFlags(d: seq<Deal>)
    requires SeedLootFlags(d) && SeedElectronicsFlags(d)
    ensures App.Pipeline(d, Electronics, AnyStore, [], Relevance) == [d[0], d[1], d[3], d[7]]
  {
    var kept := Filter(d, App.HasCategory(Electronics));
    assert App.Pipeline(d, Electronics, AnyStore, [], Relevance) == App.SortAll(Relevance, kept);
    ElectronicsOfSeedFlags(d);
    RelevanceOfOneLootFirst(kept);
  }

  /** The Electronics tab under relevance: ids 1, 2, 4 and 8, the loot deal 1 first. */
  lemma SeedElectronics(now: int)
    ensures Ids(App.Pipeline(MockDeals(now), Electronics, AnyStore, [], Relevance)) == ["1", "2", "4", "8"]
  {
    var d := MockDeals(now);
    ElectronicsTabOfSeedFlags(d);
    assert Ids([d[0], d[1], d[3], d[7]]) == [d[0].id, d[1].id, d[3].id, d[7].id];
  }
}
