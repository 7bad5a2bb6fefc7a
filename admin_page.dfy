/** The admin dashboard (app/admin/page.tsx): the admin gate, the product search, the
    field and order sort, the inventory statistics and the local removal after a delete. */
module AdminPage {
  import opened Wrappers
  import opened Text
  import Seqs

  /** A product row as the dashboard receives it from `/api/products`. */
  datatype AdminProduct = AdminProduct(id: string, name: string, price: real, stock: int, isActive: bool)

  /** What the page does once the session is known. */
  datatype GateAction = Redirect(path: string) | FetchProducts

  /** The effect run on the session: anyone whose role is not "admin" (no session, no role,
      another role) is sent to "/" and no products are fetched. */
  function AdminGate(role: Option<string>): (r: GateAction)
    ensures r == FetchProducts <==> role == Some("admin")
    ensures r.Redirect? ==> r.path == "/"
  {
    if role != Some("admin") then Redirect("/") else FetchProducts
  }

  /** The search: the lower-cased name contains the lower-cased term. */
  predicate NameMatches(p: AdminProduct, searchTerm: string) {
    Includes(ToLower(p.name), ToLower(searchTerm))
  }

  function Search(products: seq<AdminProduct>, searchTerm: string): seq<AdminProduct> {
    Seqs.Filter(products, p => NameMatches(p, searchTerm))
  }

  /** The search keeps exactly the products whose name contains the term, in order; an
      empty term keeps every product. */
  lemma SearchKeepsMatches(products: seq<AdminProduct>, searchTerm: string)
    ensures forall p :: p in Search(products, searchTerm) <==> p in products && NameMatches(p, searchTerm)
    ensures searchTerm == "" ==> Search(products, searchTerm) == products
  {
    Seqs.FilterMembers(products, p => NameMatches(p, searchTerm));
    if searchTerm == "" {
      forall p: AdminProduct ensures NameMatches(p, searchTerm) {
        IncludesEmpty(ToLower(p.name));
      }
      Seqs.FilterAllPass(products, p => NameMatches(p, searchTerm));
    }
  }

  /** The sort field and direction the dashboard's controls pick. */
  datatype SortKey = Name | Price | Stock
  datatype SortOrder = Asc | Desc

  /** The order button: "asc" becomes "desc" and back. */
  function ToggleOrder(o: SortOrder): (r: SortOrder)
    ensures r != o
  {
    if o == Asc then Desc else Asc
  }

  lemma ToggleOrderTwice(o: SortOrder)
    ensures ToggleOrder(ToggleOrder(o)) == o
  {
  }

  /** The comparator `order * compare(a[key], b[key])` read as "may stay before": its value
      is at most 0. Names compare by code point, numbers by difference. */
  function Comparator(key: SortKey, order: SortOrder): (AdminProduct, AdminProduct) -> bool {
    match (key, order)
    case (Name, Asc) => (a: AdminProduct, b: AdminProduct) => LexLe(a.name, b.name)
    case (Name, Desc) => (a: AdminProduct, b: AdminProduct) => LexLe(b.name, a.name)
    case (Price, Asc) => (a: AdminProduct, b: AdminProduct) => a.price <= b.price
    case (Price, Desc) => (a: AdminProduct, b: AdminProduct) => b.price <= a.price
    case (Stock, Asc) => (a: AdminProduct, b: AdminProduct) => a.stock <= b.stock
    case (Stock, Desc) => (a: AdminProduct, b: AdminProduct) => b.stock <= a.stock
  }

  /** `filteredProducts`: the search results, stably sorted. */
  function FilteredProducts(products: seq<AdminProduct>, searchTerm: string, key: SortKey,
                            order: SortOrder): seq<AdminProduct>
  {
    Seqs.SortBy(Search(products, searchTerm), Comparator(key, order))
  }

  lemma ComparatorIsTotalPreorder(key: SortKey, order: SortOrder)
    ensures Seqs.TotalPreorder(Comparator(key, order))
  {
    forall a: string, b: string ensures LexLe(a, b) || LexLe(b, a) {
      LexLeTotal(a, b);
    }
    forall a: string, b: string, c: string | LexLe(a, b) && LexLe(b, c) ensures LexLe(a, c) {
      LexLeTransitive(a, b, c);
    }
  }

  /** The listed products are the search results, rearranged. */
  lemma FilteredIsPermutedSearch(products: seq<AdminProduct>, searchTerm: string, key: SortKey,
                                 order: SortOrder)
    ensures multiset(FilteredProducts(products, searchTerm, key, order))
         == multiset(Search(products, searchTerm))
    ensures multiset(FilteredProducts(products, searchTerm, key, order)) <= multiset(products)
  {
    Seqs.FilterMembers(products, p => NameMatches(p, searchTerm));
  }

  /** Price and stock sorts: "asc" gives a non-decreasing column, "desc" a non-increasing
      one; the name sorts are in code-point order. */
  lemma SortedColumns(products: seq<AdminProduct>, searchTerm: string, key: SortKey,
                      order: SortOrder)
    ensures var r := FilteredProducts(products, searchTerm, key, order);
      && (key == Price && order == Asc ==> forall i, j :: 0 <= i < j < |r| ==> r[i].price <= r[j].price)
      && (key == Price && order == Desc ==> forall i, j :: 0 <= i < j < |r| ==> r[i].price >= r[j].price)
      && (key == Stock && order == Asc ==> forall i, j :: 0 <= i < j < |r| ==> r[i].stock <= r[j].stock)
      && (key == Stock && order == Desc ==> forall i, j :: 0 <= i < j < |r| ==> r[i].stock >= r[j].stock)
      && (key == Name && order == Asc ==> forall i, j :: 0 <= i < j < |r| ==> LexLe(r[i].name, r[j].name))
      && (key == Name && order == Desc ==> forall i, j :: 0 <= i < j < |r| ==> LexLe(r[j].name, r[i].name))
  {
    ComparatorIsTotalPreorder(key, order);
    Seqs.SortBySorted(Search(products, searchTerm), Comparator(key, order));
  }

  /** The four numbers of the statistics grid. */
  datatype Stats = Stats(totalProducts: nat, totalValue: real, lowStock: nat, activeProducts: nat)

  /** The `reduce` callback for the inventory value, applied left to right. */
  function ReduceValue(products: seq<AdminProduct>, acc: real): real {
    if products == [] then acc
    else ReduceValue(products[1..], acc + products[0].price * products[0].stock as real)
  }

  /** Reference definition of the inventory value: the sum of price times stock. */
  function InventoryValue(products: seq<AdminProduct>): real {
    if products == [] then 0.0
    else products[0].price * products[0].stock as real + InventoryValue(products[1..])
  }

  lemma {:induction false} ReduceValueIsSum(products: seq<AdminProduct>, acc: real)
    ensures ReduceValue(products, acc) == acc + InventoryValue(products)
  {
    if products != [] {
      ReduceValueIsSum(products[1..], acc + products[0].price * products[0].stock as real);
    }
  }

  predicate IsLowStock(p: AdminProduct) {
    p.stock < 10
  }

  predicate IsActive(p: AdminProduct) {
    p.isActive
  }

  /** `stats`, computed over every loaded product (the search does not affect it). */
  function ComputeStats(products: seq<AdminProduct>): (r: Stats)
    ensures r.totalProducts == |products|
    ensures r.lowStock <= r.totalProducts && r.activeProducts <= r.totalProducts
    ensures r.lowStock == |set i: nat | i < |products| && products[i].stock < 10|
    ensures r.activeProducts == |set i: nat | i < |products| && products[i].isActive|
    ensures r.totalValue == InventoryValue(products)
  {
    ReduceValueIsSum(products, 0.0);
    Seqs.FilterLengthCountsIndices(products, IsLowStock);
    Seqs.FilterLengthCountsIndices(products, IsActive);
    assert Seqs.PassingIndices(products, IsLowStock) == set i: nat | i < |products| && products[i].stock < 10;
    assert Seqs.PassingIndices(products, IsActive) == set i: nat | i < |products| && products[i].isActive;
    Stats(|products|, ReduceValue(products, 0.0),
          |Seqs.Filter(products, IsLowStock)|, |Seqs.Filter(products, IsActive)|)
  }

  /** Low stock counts exactly the products with stock strictly below 10. */
  lemma LowStockCountsBelowTen(products: seq<AdminProduct>)
    ensures ComputeStats(products).lowStock == |products| <==> forall i :: 0 <= i < |products| ==> products[i].stock < 10
    ensures ComputeStats(products).lowStock == 0 <==> forall i :: 0 <= i < |products| ==> products[i].stock >= 10
  {
    FilterFullIffAll(products, IsLowStock);
    FilterEmptyIffNone(products, IsLowStock);
  }

  lemma {:induction false} FilterFullIffAll(s: seq<AdminProduct>, p: AdminProduct -> bool)
    ensures |Seqs.Filter(s, p)| == |s| <==> forall i :: 0 <= i < |s| ==> p(s[i])
  {
    if s != [] {
      FilterFullIffAll(s[1..], p);
      assert forall i :: 1 <= i < |s| ==> s[i] == s[1..][i - 1];
    }
  }

  lemma {:induction false} FilterEmptyIffNone(s: seq<AdminProduct>, p: AdminProduct -> bool)
    ensures |Seqs.Filter(s, p)| == 0 <==> forall i :: 0 <= i < |s| ==> !p(s[i])
  {
    if s != [] {
      FilterEmptyIffNone(s[1..], p);
      assert forall i :: 1 <= i < |s| ==> s[i] == s[1..][i - 1];
    }
  }

  /** With non-negative prices and stock the inventory value is non-negative. */
  lemma {:induction false} InventoryValueNonNegative(products: seq<AdminProduct>)
    requires forall i :: 0 <= i < |products| ==> products[i].price >= 0.0 && products[i].stock >= 0
    ensures ComputeStats(products).totalValue >= 0.0
    ensures InventoryValue(products) >= 0.0
  {
    if products != [] {
      InventoryValueNonNegative(products[1..]);
      assert products[0].price * products[0].stock as real >= 0.0;
    }
  }

  /** The removal once the delete request has been answered, whatever its status (a 404 or
      a 500 removes the row too; only a request that throws leaves the list alone): every
      row with that id goes. */
  function LocalDelete(products: seq<AdminProduct>, id: string): seq<AdminProduct> {
    Seqs.Filter(products, (p: AdminProduct) => p.id != id)
  }

  /** Local delete removes exactly the rows with that id and changes nothing when the id is
      not listed. */
  lemma LocalDeleteRemovesId(products: seq<AdminProduct>, id: string)
    ensures forall p :: p in LocalDelete(products, id) <==> p in products && p.id != id
    ensures (forall i :: 0 <= i < |products| ==> products[i].id != id) ==> LocalDelete(products, id) == products
  {
    Seqs.FilterMembers(products, (p: AdminProduct) => p.id != id);
    if forall i :: 0 <= i < |products| ==> products[i].id != id {
      Seqs.FilterAllPass(products, (p: AdminProduct) => p.id != id);
    }
  }

  /** The kept rows stay in their order: deleting from a concatenation deletes from each
      part. */
  lemma LocalDeleteKeepsOrder(a: seq<AdminProduct>, b: seq<AdminProduct>, id: string)
    ensures LocalDelete(a + b, id) == LocalDelete(a, id) + LocalDelete(b, id)
  {
    Seqs.FilterAppend(a, b, (p: AdminProduct) => p.id != id);
  }
}
