/** The entities of the storefront (types.ts). */
module Types {

  /** The `Category` enum; `All` is the filter sentinel, never a real deal's category. */
  datatype Category = All | Electronics | Fashion | Home | Groceries

  /** The `Store` enum. */
  datatype Store = Amazon | Flipkart | Myntra | Ajio | RelianceDigital

  /** The store selector's type `Store | 'All'`. */
  datatype StoreSelection = AnyStore | OnlyStore(store: Store)

  /** The `SortOption` union. */
  datatype SortOption = Relevance | PriceLowToHigh | PriceHighToLow | Discount

  /** The string value of each `Category` member. */
  function CategoryName(c: Category): string {
    match c
    case All => "All"
    case Electronics => "Electronics"
    case Fashion => "Fashion"
    case Home => "Home"
    case Groceries => "Groceries"
  }

  /** The string value of each `Store` member. */
  function StoreName(s: Store): string {
    match s
    case Amazon => "Amazon"
    case Flipkart => "Flipkart"
    case Myntra => "Myntra"
    case Ajio => "Ajio"
    case RelianceDigital => "Reliance Digital"
  }

  /** A listing. Prices are whole rupees; `expiryDate` is kept as the millisecond
      timestamp the source turns into an ISO string. */
  datatype Deal = Deal(
    id: string,
    title: string,
    imageUrl: string,
    originalPrice: int,
    dealPrice: int,
    discountPercentage: int,
    category: Category,
    store: Store,
    affiliateUrl: string,
    isLoot: bool,
    expiryDate: int,
    createdAt: int)

  /** The `d => d.isLoot` callback. */
  predicate IsLoot(d: Deal) {
    d.isLoot
  }

  /** Its negation, the deals the relevance sort puts last. */
  predicate IsNotLoot(d: Deal) {
    !d.isLoot
  }

  /** Enum members are told apart by their string values, so comparing names is comparing members. */
  lemma NamesAreDistinct(c: Category, c': Category, s: Store, s': Store)
    ensures CategoryName(c) == CategoryName(c') <==> c == c'
    ensures StoreName(s) == StoreName(s') <==> s == s'
  {
    if CategoryName(c) == CategoryName(c') {
      assert |CategoryName(c)| == |CategoryName(c')| && CategoryName(c)[0] == CategoryName(c')[0];
    }
    if StoreName(s) == StoreName(s') {
      assert |StoreName(s)| == |StoreName(s')| && StoreName(s)[0] == StoreName(s')[0];
    }
  }
}
