/** The admin dashboard (components/Admin/Dashboard.tsx): the "Publish New Offer" form and
    its submit handler, the inventory search and the two stat cards. */
module Dashboard {
  import opened Types
  import opened Text
  import opened Seqs

  /** `86400000`: a published deal expires one day after it is created. */
  const OneDayMs: int := 86400000

  /** What a price box of the form holds: `''` when blank, otherwise a whole number of rupees. */
  datatype PriceInput = Blank | Entered(amount: nat)

  /** `Number(field)`: the empty string reads as 0. */
  function NumberOf(p: PriceInput): nat {
    match p
    case Blank => 0
    case Entered(amount) => amount
  }

  // ---------------------------------------------------------------------------
  // The discount formula (Dashboard.tsx:42)
  // ---------------------------------------------------------------------------

  /** `Math.round((o - d) / o * 100)` taken over exact rationals, rounding halves up as
      `Math.round` does, for whole-rupee prices that passed the submit check. The result is the
      whole percentage nearest to the exact saving `100 (o - d) / o`. (The source divides in
      doubles, which can fall just below an exact half: 40 down to 17 stores 57, not 58.) */
  function Discount(originalPrice: int, dealPrice: int): (r: int)
    requires 0 <= dealPrice < originalPrice
    ensures 0 <= r <= 100
    ensures originalPrice * (2 * r - 1) <= 200 * (originalPrice - dealPrice) < originalPrice * (2 * r + 1)
  {
    var n, m := 200 * (originalPrice - dealPrice) + originalPrice, 2 * originalPrice;
    var r := n / m;
    RoundedQuotient(n, m, r, originalPrice);
    r
  }

  /** The facts about `n / m` that `Discount` needs, kept apart from its other obligations. */
  lemma RoundedQuotient(n: int, m: int, r: int, o: int)
    requires o > 0 && m == 2 * o && 0 <= n < 101 * m && r == n / m
    ensures 0 <= r <= 100
    ensures o * (2 * r - 1) <= n - o < o * (2 * r + 1)
  {
    assert m * r <= n < m * r + m;
    assert o * (2 * r - 1) == m * r - o;
    assert o * (2 * r + 1) == m * r + o;
    assert m * (101 - r) > 0;
  }

  /** The worked example of the formula: a 1000 rupee item offered at 400 is 60% off. */
  lemma DiscountExample()
    ensures Discount(1000, 400) == 60
  {
  }

  // ---------------------------------------------------------------------------
  // The submit handler (Dashboard.tsx:34-68)
  // ---------------------------------------------------------------------------

  /** The object handed to `addDoc`: a `Deal` without its id, which the database assigns. */
  datatype DealDocument = DealDocument(
    title: string,
    originalPrice: int,
    dealPrice: int,
    discountPercentage: int,
    imageUrl: string,
    affiliateUrl: string,
    store: Store,
    category: Category,
    isLoot: bool,
    expiryDate: int,
    createdAt: int)

  /** The "Publish New Offer" form: one field per input of the form. */
  datatype Form = Form(
    title: string,
    originalPrice: PriceInput,
    dealPrice: PriceInput,
    imageUrl: string,
    affiliateUrl: string,
    store: Store,
    category: Category,
    isLoot: bool)

  /** The form as the dashboard first shows it: empty, on Amazon and Electronics. */
  function InitialForm(): (f: Form)
    ensures f.title == [] && f.originalPrice == Blank && f.dealPrice == Blank
    ensures f.imageUrl == [] && f.affiliateUrl == [] && !f.isLoot
    ensures f.store == Amazon && f.category == Electronics
  {
    Form([], Blank, Blank, [], [], Amazon, Electronics, false)
  }

  /** The price check: the deal price must be below the original price. */
  predicate Accepts(f: Form)
    ensures Accepts(f) ==> NumberOf(f.originalPrice) > 0
  {
    NumberOf(f.dealPrice) < NumberOf(f.originalPrice)
  }

  /** The record built from the form at time `now` (both `Date.now()` calls read as `now`). */
  function Record(f: Form, now: int): (doc: DealDocument)
    requires Accepts(f)
    ensures doc.title == f.title && doc.imageUrl == f.imageUrl && doc.affiliateUrl == f.affiliateUrl
    ensures doc.store == f.store && doc.category == f.category && doc.isLoot == f.isLoot
    ensures doc.originalPrice == NumberOf(f.originalPrice) && doc.dealPrice == NumberOf(f.dealPrice)
    ensures 0 <= doc.dealPrice < doc.originalPrice
    ensures 0 <= doc.discountPercentage <= 100
    ensures doc.discountPercentage == Discount(doc.originalPrice, doc.dealPrice)
    ensures doc.createdAt == now && doc.expiryDate == doc.createdAt + OneDayMs
    ensures WellFormed(doc)
  {
    var o, d := NumberOf(f.originalPrice), NumberOf(f.dealPrice);
    DealDocument(f.title, o, d, Discount(o, d), f.imageUrl, f.affiliateUrl, f.store, f.category, f.isLoot,
                 now + OneDayMs, now)
  }

  /** The form after a successful publish: text and price boxes emptied and the loot box
      unticked, while the two selects keep their choice. */
  function Cleared(f: Form): (r: Form)
    ensures r.title == [] && r.originalPrice == Blank && r.dealPrice == Blank
    ensures r.imageUrl == [] && r.affiliateUrl == [] && !r.isLoot
    ensures r.store == f.store && r.category == f.category
    ensures !Accepts(r)
  {
    f.(title := [], originalPrice := Blank, dealPrice := Blank, imageUrl := [], affiliateUrl := [], isLoot := false)
  }

  /** What the submit handler guarantees of every document it writes. */
  predicate WellFormed(doc: DealDocument) {
    && 0 <= doc.dealPrice < doc.originalPrice
    && doc.discountPercentage == Discount(doc.originalPrice, doc.dealPrice)
    && doc.expiryDate == doc.createdAt + OneDayMs
  }

  /** How a submission ended: stopped by the price check, written, or failed in the write. */
  datatype SubmitOutcome = Rejected | Published(doc: DealDocument) | WriteFailed

  /** The component's state. `published` records the documents written to the `deals`
      collection by this dashboard. */
  class Dashboard {
    var deals: seq<Deal>
    var loading: bool
    var success: bool
    var inventorySearch: string
    var form: Form
    ghost var published: seq<DealDocument>

    /** Every document this dashboard has written is a real discount with the formula's
        percentage and an expiry one day after its creation. */
    ghost predicate Valid()
      reads this
    {
      forall i :: 0 <= i < |published| ==> WellFormed(published[i])
    }

    /** The initial state: the initial form, nothing loaded, searched or published. */
    constructor ()
      ensures deals == [] && !loading && !success && inventorySearch == []
      ensures form == InitialForm()
      ensures published == []
      ensures Valid()
    {
      deals, loading, success, inventorySearch := [], false, false, [];
      form := InitialForm();
      published := [];
    }

    /** `handleSubmit`. The write's result is the parameter `writeSucceeds`: `addDoc` either
        resolves or throws. */
    method HandleSubmit(now: int, writeSucceeds: bool) returns (outcome: SubmitOutcome)
      requires Valid()
      modifies this
      ensures Valid()
      // The price check is the only way to be rejected, and a rejection changes nothing.
      ensures outcome == Rejected <==> !Accepts(old(form))
      ensures outcome == Rejected ==> unchanged(this)
      // Past the check, `loading` ends false whatever the write did, and the deal list and
      // the search box are left alone.
      ensures outcome != Rejected ==> !loading && deals == old(deals) && inventorySearch == old(inventorySearch)
      // A write that goes through stores the record built from the form and clears the form.
      ensures outcome.Published? <==> Accepts(old(form)) && writeSucceeds
      ensures outcome.Published? ==>
        && outcome.doc == Record(old(form), now)
        && published == old(published) + [outcome.doc]
        && form == Cleared(old(form))
        && success
      // A write that throws keeps the form for another try and stores nothing.
      ensures outcome == WriteFailed ==> published == old(published) && form == old(form) && success == old(success)
    {
      if !Accepts(form) {
        return Rejected;
      }
      loading := true;
      var doc := Record(form, now);
      if writeSucceeds {
        published := published + [doc];
        form := Cleared(form);
        success := true;
        outcome := Published(doc);
      } else {
        outcome := WriteFailed;
      }
      loading := false;
    }
  }

  // ---------------------------------------------------------------------------
  // The inventory search (Dashboard.tsx:76-79)
  // ---------------------------------------------------------------------------

  /** The lower-cased search text occurs in the lower-cased title or store name. */
  predicate InventoryMatches(d: Deal, search: string) {
    || Contains(Lower(d.title), Lower(search))
    || Contains(Lower(StoreName(d.store)), Lower(search))
  }

  function InventoryCallback(search: string): Deal -> bool {
    d => InventoryMatches(d, search)
  }

  /** `filteredInventory`. */
  function FilteredInventory(deals: seq<Deal>, search: string): (r: seq<Deal>)
    ensures |r| <= |deals|
  {
    Filter(deals, InventoryCallback(search))
  }

  /** Exactly the listed deals whose title or store mentions the search text, in list order. */
  lemma InventoryMembers(deals: seq<Deal>, search: string)
    ensures forall d :: d in FilteredInventory(deals, search) <==>
      d in deals && (Contains(Lower(d.title), Lower(search)) || Contains(Lower(StoreName(d.store)), Lower(search)))
    ensures IsSubsequence(FilteredInventory(deals, search), deals)
  {
    FilterMembers(deals, InventoryCallback(search));
    FilterIsSubsequence(deals, InventoryCallback(search));
  }

  /** An empty search box lists every deal. */
  lemma EmptySearchListsAll(deals: seq<Deal>)
    ensures FilteredInventory(deals, []) == deals
  {
    forall d | d in deals
      ensures InventoryCallback([])(d)
    {
      ContainsEmpty(Lower(d.title));
    }
    FilterAll(deals, InventoryCallback([]));
  }

  // ---------------------------------------------------------------------------
  // The stat cards (Dashboard.tsx:115, 124)
  // ---------------------------------------------------------------------------

  /** The "Total Deals" card: `deals.length`. */
  function TotalDeals(deals: seq<Deal>): nat {
    |deals|
  }

  /** The "Loot Active" card: `deals.filter(d => d.isLoot).length`. */
  function LootActive(deals: seq<Deal>): (r: nat)
    ensures r <= |deals|
  {
    |Filter(deals, IsLoot)|
  }

  /** The positions of the loot deals in the list. */
  function LootPositions(deals: seq<Deal>): set<nat> {
    set i: nat | i < |deals| && deals[i].isLoot
  }

  /** The loot card counts the loot deals, and never shows more than the total card. */
  lemma {:induction false} LootActiveCounts(deals: seq<Deal>)
    ensures LootActive(deals) == |LootPositions(deals)|
    ensures LootActive(deals) <= TotalDeals(deals)
    decreases |deals|
  {
    if deals != [] {
      var init, n := deals[..|deals| - 1], |deals| - 1;
      LootActiveCounts(init);
      FilterLast(deals, IsLoot);
      assert LootPositions(deals) == LootPositions(init) + (if deals[n].isLoot then {n} else {});
    }
  }
}
