/** The cart page (app/cart/page.tsx): the order total and the requests its buttons build.
    Prices are exact amounts in dollars. */
module Cart {
  import opened Wrappers
  import Json

  /** The product part of a cart entry, as the cart API returns it. */
  datatype CartProduct = CartProduct(id: string, name: string, price: real, images: seq<string>)

  /** One cart entry: its own id, the product and the quantity. */
  datatype CartItem = CartItem(id: string, product: CartProduct, quantity: int)

  /** The body of the `PUT /api/cart` request that `updateQuantity` sends. */
  datatype QuantityUpdate = QuantityUpdate(itemId: string, quantity: int)

  /** The body of the `DELETE /api/cart` request that `removeItem` sends. */
  datatype RemoveBody = RemoveBody(itemId: string)

  /** The two totals of the order summary box, and what it shows for shipping. */
  datatype Summary = Summary(subtotal: real, shipping: string, total: real)

  function LineAmount(item: CartItem): real {
    item.product.price * item.quantity as real
  }

  /** The `reduce` callback applied left to right, from the accumulator `acc`. */
  function Reduce(items: seq<CartItem>, acc: real): real {
    if items == [] then acc else Reduce(items[1..], acc + LineAmount(items[0]))
  }

  /** `calculateTotal`: `items.reduce((total, item) => total + price * quantity, 0)`. */
  function CalculateTotal(items: seq<CartItem>): real {
    Reduce(items, 0.0)
  }

  /** Reference definition of the total: the sum of the line amounts. */
  function Sum(items: seq<CartItem>): real {
    if items == [] then 0.0 else LineAmount(items[0]) + Sum(items[1..])
  }

  lemma {:induction false} ReduceIsSum(items: seq<CartItem>, acc: real)
    ensures Reduce(items, acc) == acc + Sum(items)
  {
    if items != [] {
      ReduceIsSum(items[1..], acc + LineAmount(items[0]));
    }
  }

  /** The total is the sum of price times quantity over the items, and 0 for an empty cart. */
  lemma TotalIsSum(items: seq<CartItem>)
    ensures CalculateTotal(items) == Sum(items)
    ensures items == [] ==> CalculateTotal(items) == 0.0
  {
    ReduceIsSum(items, 0.0);
  }

  lemma {:induction false} SumAppend(a: seq<CartItem>, b: seq<CartItem>)
    ensures Sum(a + b) == Sum(a) + Sum(b)
  {
    if a == [] {
      assert a + b == b;
    } else {
      assert (a + b)[0] == a[0];
      assert (a + b)[1..] == a[1..] + b;
      SumAppend(a[1..], b);
    }
  }

  /** The total of two carts put together is the sum of their totals. */
  lemma TotalAppend(a: seq<CartItem>, b: seq<CartItem>)
    ensures CalculateTotal(a + b) == CalculateTotal(a) + CalculateTotal(b)
  {
    TotalIsSum(a + b);
    TotalIsSum(a);
    TotalIsSum(b);
    SumAppend(a, b);
  }

  predicate NonNegativeItems(items: seq<CartItem>) {
    forall i :: 0 <= i < |items| ==> items[i].product.price >= 0.0 && items[i].quantity >= 0
  }

  lemma {:induction false} SumNonNegative(items: seq<CartItem>)
    requires NonNegativeItems(items)
    ensures Sum(items) >= 0.0
  {
    if items != [] {
      var x := items[0];
      assert x.product.price >= 0.0 && x.quantity as real >= 0.0;
      assert LineAmount(x) >= 0.0;
      SumNonNegative(items[1..]);
    }
  }

  /** With no negative price or quantity the total is not negative. */
  lemma TotalNonNegative(items: seq<CartItem>)
    requires NonNegativeItems(items)
    ensures CalculateTotal(items) >= 0.0
  {
    TotalIsSum(items);
    SumNonNegative(items);
  }

  lemma {:induction false} SumWithQuantity(items: seq<CartItem>, k: nat, q: int)
    requires k < |items|
    ensures Sum(items[k := items[k].(quantity := q)])
         == Sum(items) + items[k].product.price * (q - items[k].quantity) as real
  {
    var updated := items[k := items[k].(quantity := q)];
    if k == 0 {
      assert updated[1..] == items[1..];
    } else {
      assert updated[1..] == items[1..][k - 1 := items[k].(quantity := q)];
      SumWithQuantity(items[1..], k - 1, q);
    }
  }

  /** Storing quantity `q` for entry `k` moves the total by that product's price for each
      unit of difference, and changes nothing else in it. */
  lemma TotalWithQuantity(items: seq<CartItem>, k: nat, q: int)
    requires k < |items|
    ensures CalculateTotal(items[k := items[k].(quantity := q)])
         == CalculateTotal(items) + items[k].product.price * (q - items[k].quantity) as real
  {
    TotalIsSum(items[k := items[k].(quantity := q)]);
    TotalIsSum(items);
    SumWithQuantity(items, k, q);
  }

  /** The "-" button: the same entry, one unit fewer; 1 becomes 0, nothing is clamped. */
  function DecrementRequest(item: CartItem): QuantityUpdate {
    QuantityUpdate(item.id, item.quantity - 1)
  }

  /** The "+" button: the same entry, one unit more. */
  function IncrementRequest(item: CartItem): QuantityUpdate {
    QuantityUpdate(item.id, item.quantity + 1)
  }

  /** The "Remove" button sends the entry's id and nothing else. */
  function RemoveRequest(item: CartItem): RemoveBody {
    RemoveBody(item.id)
  }

  /** The text sent for a removal: `JSON.stringify({ itemId })`. */
  function RemoveBodyText(body: RemoveBody): string {
    Json.Stringify(["itemId"], [body.itemId])
  }

  /** The server reads back from a removal request the id of the entry whose button was
      pressed. */
  lemma RemoveRequestReadsBack(item: CartItem)
    ensures Json.Parse(RemoveBodyText(RemoveRequest(item)), ["itemId"]) == Some([item.id])
  {
    Json.ParseStringify(["itemId"], [item.id]);
  }

  /** Once the requested quantity is stored, "+" raises the total by the unit price and
      "-" lowers it by the unit price, whatever the quantity was, 1 included. */
  lemma StepRequestsMoveTotalByOnePrice(items: seq<CartItem>, k: nat)
    requires k < |items|
    ensures CalculateTotal(items[k := items[k].(quantity := IncrementRequest(items[k]).quantity)])
         == CalculateTotal(items) + items[k].product.price
    ensures CalculateTotal(items[k := items[k].(quantity := DecrementRequest(items[k]).quantity)])
         == CalculateTotal(items) - items[k].product.price
  {
    TotalWithQuantity(items, k, items[k].quantity + 1);
    TotalWithQuantity(items, k, items[k].quantity - 1);
  }

  /** Storing the "+" request and then the "-" request built from the refreshed cart brings
      the total back to what it was. */
  lemma IncrementThenDecrementRestoresTotal(items: seq<CartItem>, k: nat)
    requires k < |items|
    ensures var up := items[k := items[k].(quantity := IncrementRequest(items[k]).quantity)];
      CalculateTotal(up[k := up[k].(quantity := DecrementRequest(up[k]).quantity)])
      == CalculateTotal(items)
  {
    var up := items[k := items[k].(quantity := IncrementRequest(items[k]).quantity)];
    TotalWithQuantity(items, k, items[k].quantity + 1);
    TotalWithQuantity(up, k, up[k].quantity - 1);
  }

  /** The order summary: subtotal and total are both `calculateTotal()`, shipping is free. */
  function OrderSummary(items: seq<CartItem>): (r: Summary)
    ensures r.total == r.subtotal && r.shipping == "Free"
    ensures r.subtotal == Sum(items)
    ensures items == [] ==> r.total == 0.0
  {
    TotalIsSum(items);
    Summary(CalculateTotal(items), "Free", CalculateTotal(items))
  }
}
