/** The catalogue page (app/products/page.tsx): the multi-criteria filter, the price ranges,
    the sort orders, the active-filter count, clearing the filters and the wishlist toggle. */
module ProductsPage {
  import opened Wrappers
  import opened Text
  import Seqs

  /** A product as the page receives it from `/api/products`. */
  datatype Product = Product(
    id: string, name: string, price: real, description: string, images: seq<string>,
    capacity: real, material: string, color: string)

  /** The four drop-down filters; the empty string means "All". */
  datatype Filter = Filter(capacity: string, material: string, color: string, priceRange: string)

  const ClearedFilter: Filter := Filter("", "", "", "")

  /** `clearFilters`: every drop-down back to "All", so that only the search term still
      selects products. */
  function ClearFilters(): (r: Filter)
    ensures forall p, searchTerm :: Matches(p, searchTerm, r) <==> searchTerm == "" || SearchMatches(p, searchTerm)
  {
    ClearedFilter
  }

  /** An upper price bound: a number, or `Number.POSITIVE_INFINITY`. */
  datatype Bound = Finite(value: real) | Unbounded

  datatype PriceRange = PriceRange(min: real, max: Bound)

  /** `getPriceRange`: the bounds of each drop-down value; any other key gives 0 to infinity. */
  function GetPriceRange(range: string): (r: PriceRange)
    ensures r.min >= 0.0
    ensures r.max.Finite? ==> r.min < r.max.value
  {
    if range == "under50" then PriceRange(0.0, Finite(50.0))
    else if range == "50to100" then PriceRange(50.0, Finite(100.0))
    else if range == "100to200" then PriceRange(100.0, Finite(200.0))
    else if range == "over200" then PriceRange(200.0, Unbounded)
    else PriceRange(0.0, Unbounded)
  }

  /** The price test: rejected when below the minimum or above the maximum. */
  predicate InRange(price: real, r: PriceRange) {
    !(price < r.min || (r.max.Finite? && price > r.max.value))
  }

  /** `product.capacity !== Number(filter.capacity)` fails to reject: the filter reads as a
      decimal numeral equal to the capacity (`NaN` equals nothing). */
  predicate CapacityMatches(capacity: real, key: string) {
    match ParseDecimal(key)
    case None => false
    case Some(n) => capacity == n as real
  }

  /** The search test: a case-insensitive substring match on the name. */
  predicate SearchMatches(p: Product, searchTerm: string) {
    Includes(ToLower(p.name), ToLower(searchTerm))
  }

  /** The `filter` callback: each criterion applies only when its value is non-empty. */
  predicate Matches(p: Product, searchTerm: string, filter: Filter) {
    && (searchTerm == "" || SearchMatches(p, searchTerm))
    && (filter.capacity == "" || CapacityMatches(p.capacity, filter.capacity))
    && (filter.material == "" || p.material == filter.material)
    && (filter.color == "" || p.color == filter.color)
    && (filter.priceRange == "" || InRange(p.price, GetPriceRange(filter.priceRange)))
  }

  /** The sort comparator read as "may stay before": `cmp(a, b) <= 0`. "featured" and any
      unknown value compare everything equal. */
  function Comparator(sortBy: string): (Product, Product) -> bool {
    if sortBy == "price-asc" then (a: Product, b: Product) => a.price <= b.price
    else if sortBy == "price-desc" then (a: Product, b: Product) => b.price <= a.price
    else if sortBy == "name-asc" then (a: Product, b: Product) => LexLe(a.name, b.name)
    else if sortBy == "name-desc" then (a: Product, b: Product) => LexLe(b.name, a.name)
    else (a: Product, b: Product) => true
  }

  /** `filteredProducts`: the matching products, stably sorted by the chosen order. */
  function FilteredProducts(products: seq<Product>, searchTerm: string, filter: Filter,
                            sortBy: string): seq<Product>
  {
    Seqs.SortBy(Seqs.Filter(products, p => Matches(p, searchTerm, filter)), Comparator(sortBy))
  }

  /** The result holds the products that match every active criterion, each as often as in
      the input, and no other. */
  lemma FilteredProductsMatch(products: seq<Product>, searchTerm: string, filter: Filter,
                              sortBy: string)
    ensures forall p :: p in FilteredProducts(products, searchTerm, filter, sortBy)
                        <==> p in products && Matches(p, searchTerm, filter)
    ensures multiset(FilteredProducts(products, searchTerm, filter, sortBy)) <= multiset(products)
    ensures forall p :: multiset(FilteredProducts(products, searchTerm, filter, sortBy))[p]
                        == if Matches(p, searchTerm, filter) then multiset(products)[p] else 0
  {
    Seqs.FilterCount(products, p => Matches(p, searchTerm, filter));
    var kept := Seqs.Filter(products, p => Matches(p, searchTerm, filter));
    Seqs.FilterMembers(products, p => Matches(p, searchTerm, filter));
    var r := FilteredProducts(products, searchTerm, filter, sortBy);
    assert multiset(r) == multiset(kept);
    forall p ensures p in r <==> p in kept {
      assert p in r <==> multiset(r)[p] > 0;
      assert p in kept <==> multiset(kept)[p] > 0;
    }
  }

  /** No search term, no filter and the "featured" order: the products in their own order. */
  lemma NoCriteriaKeepsAll(products: seq<Product>)
    ensures FilteredProducts(products, "", ClearedFilter, "featured") == products
  {
    Seqs.FilterAllPass(products, p => Matches(p, "", ClearedFilter));
    Seqs.SortByAllEqual(products, Comparator("featured"));
  }

  /** Both ends of a range are inside it: a price of exactly 50 passes "under50" and
      "50to100". */
  lemma RangesInclusive()
    ensures InRange(50.0, GetPriceRange("under50")) && InRange(50.0, GetPriceRange("50to100"))
    ensures InRange(0.0, GetPriceRange("under50"))
    ensures InRange(100.0, GetPriceRange("50to100")) && InRange(100.0, GetPriceRange("100to200"))
    ensures InRange(200.0, GetPriceRange("100to200")) && InRange(200.0, GetPriceRange("over200"))
  {
  }

  /** Each drop-down value admits exactly the prices between its two ends, both included. */
  lemma RangesExact()
    ensures forall price :: InRange(price, GetPriceRange("under50")) <==> 0.0 <= price <= 50.0
    ensures forall price :: InRange(price, GetPriceRange("50to100")) <==> 50.0 <= price <= 100.0
    ensures forall price :: InRange(price, GetPriceRange("100to200")) <==> 100.0 <= price <= 200.0
    ensures forall price :: InRange(price, GetPriceRange("over200")) <==> 200.0 <= price
  {
  }

  /** A key that is none of the four gives minimum 0 and no maximum. */
  lemma UnknownRangeKey(range: string)
    requires range != "under50" && range != "50to100" && range != "100to200" && range != "over200"
    ensures GetPriceRange(range) == PriceRange(0.0, Unbounded)
    ensures forall price :: price >= 0.0 <==> InRange(price, GetPriceRange(range))
  {
  }

  lemma LexLeTotalPreorder()
    ensures Seqs.TotalPreorder(Comparator("name-asc"))
    ensures Seqs.TotalPreorder(Comparator("name-desc"))
  {
    forall a: string, b: string ensures LexLe(a, b) || LexLe(b, a) {
      LexLeTotal(a, b);
    }
    forall a: string, b: string, c: string | LexLe(a, b) && LexLe(b, c) ensures LexLe(a, c) {
      LexLeTransitive(a, b, c);
    }
  }

  /** "price-asc" gives non-decreasing prices, "price-desc" non-increasing ones, and the
      name orders are sorted by code point. */
  lemma SortOrders(products: seq<Product>, searchTerm: string, filter: Filter, sortBy: string)
    ensures sortBy == "price-asc" ==> var r := FilteredProducts(products, searchTerm, filter, sortBy);
      forall i, j :: 0 <= i < j < |r| ==> r[i].price <= r[j].price
    ensures sortBy == "price-desc" ==> var r := FilteredProducts(products, searchTerm, filter, sortBy);
      forall i, j :: 0 <= i < j < |r| ==> r[i].price >= r[j].price
    ensures sortBy == "name-asc" ==> var r := FilteredProducts(products, searchTerm, filter, sortBy);
      forall i, j :: 0 <= i < j < |r| ==> LexLe(r[i].name, r[j].name)
    ensures sortBy == "name-desc" ==> var r := FilteredProducts(products, searchTerm, filter, sortBy);
      forall i, j :: 0 <= i < j < |r| ==> LexLe(r[j].name, r[i].name)
  {
    var kept := Seqs.Filter(products, p => Matches(p, searchTerm, filter));
    LexLeTotalPreorder();
    if sortBy in ["price-asc", "price-desc", "name-asc", "name-desc"] {
      Seqs.SortBySorted(kept, Comparator(sortBy));
    }
  }

  /** Upper and lower case do not matter to the search: searching for the lower-cased term
      gives the same result. */
  lemma SearchIgnoresCase(products: seq<Product>, searchTerm: string, filter: Filter,
                          sortBy: string)
    ensures FilteredProducts(products, ToLower(searchTerm), filter, sortBy)
         == FilteredProducts(products, searchTerm, filter, sortBy)
  {
    ToLowerIdempotent(searchTerm);
    assert (ToLower(searchTerm) == "") == (searchTerm == "");
    Seqs.FilterAgreeing(products, p => Matches(p, ToLower(searchTerm), filter),
                        p => Matches(p, searchTerm, filter));
  }

  /** The four filters, in the order the page counts them. */
  datatype FilterField = CapacityFilter | MaterialFilter | ColorFilter | PriceRangeFilter

  function FilterValue(filter: Filter, f: FilterField): string {
    match f
    case CapacityFilter => filter.capacity
    case MaterialFilter => filter.material
    case ColorFilter => filter.color
    case PriceRangeFilter => filter.priceRange
  }

  /** The filters that are set, in the page's order. */
  function ActiveFilters(filter: Filter): (r: seq<FilterField>) {
    Seqs.Filter([CapacityFilter, MaterialFilter, ColorFilter, PriceRangeFilter],
                f => FilterValue(filter, f) != "")
  }

  /** The effect that recomputes `activeFiltersCount`: one increment per non-empty filter. */
  method CountActiveFilters(filter: Filter) returns (count: nat)
    ensures count == |ActiveFilters(filter)|
    ensures count <= 4
    ensures count == 0 <==> filter == ClearedFilter
  {
    count := 0;
    if filter.capacity != "" { count := count + 1; }
    if filter.material != "" { count := count + 1; }
    if filter.color != "" { count := count + 1; }
    if filter.priceRange != "" { count := count + 1; }
    ActiveFiltersCount(filter);
  }

  /** The number of active filters is the number of non-empty fields. */
  lemma ActiveFiltersCount(filter: Filter)
    ensures |ActiveFilters(filter)|
         == (if filter.capacity != "" then 1 else 0) + (if filter.material != "" then 1 else 0)
          + (if filter.color != "" then 1 else 0) + (if filter.priceRange != "" then 1 else 0)
  {
    var p := f => FilterValue(filter, f) != "";
    var all := [CapacityFilter, MaterialFilter, ColorFilter, PriceRangeFilter];
    assert all[1..] == [MaterialFilter, ColorFilter, PriceRangeFilter];
    assert all[1..][1..] == [ColorFilter, PriceRangeFilter];
    assert all[1..][1..][1..] == [PriceRangeFilter];
    assert Seqs.Filter([PriceRangeFilter], p) == if p(PriceRangeFilter) then [PriceRangeFilter] else [];
  }

  /** After `clearFilters` nothing is counted. */
  lemma ClearFiltersCountsNone()
    ensures ActiveFilters(ClearFilters()) == []
  {
    ActiveFiltersCount(ClearFilters());
  }

  /** `toggleWishlist`: drops every occurrence of the id when it is there, appends it
      otherwise. */
  function ToggleWishlist(wishlist: seq<string>, id: string): seq<string> {
    if id in wishlist then Seqs.Filter(wishlist, x => x != id) else wishlist + [id]
  }

  /** Toggling flips the id's membership and no other id's. */
  lemma ToggleFlipsMembership(wishlist: seq<string>, id: string)
    ensures id in ToggleWishlist(wishlist, id) <==> id !in wishlist
    ensures forall x :: x != id ==> (x in ToggleWishlist(wishlist, id) <==> x in wishlist)
  {
    Seqs.FilterMembers(wishlist, x => x != id);
  }

  /** Toggling twice restores every id's membership, and restores the list itself when the
      id was absent. */
  lemma ToggleTwice(wishlist: seq<string>, id: string)
    ensures forall x :: x in ToggleWishlist(ToggleWishlist(wishlist, id), id) <==> x in wishlist
    ensures id !in wishlist ==> ToggleWishlist(ToggleWishlist(wishlist, id), id) == wishlist
  {
    ToggleFlipsMembership(wishlist, id);
    ToggleFlipsMembership(ToggleWishlist(wishlist, id), id);
    if id !in wishlist {
      Seqs.FilterAppend(wishlist, [id], x => x != id);
      Seqs.FilterAllPass(wishlist, x => x != id);
    }
  }
}
