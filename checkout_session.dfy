/** `POST /api/create-checkout-session` (app/api/create-checkout-session/route.ts): the
    authentication gate, the mapping from cart entries to payment-provider line items, and the
    session parameters. The provider's session creation is a function passed in. */
module CheckoutSession {
  import opened Wrappers
  import Cart
  import opened Shipping

  /** The signed-in user as the server session reports it. */
  datatype AuthSession = AuthSession(userId: string)

  /** The request body: `{ items, shippingInfo }`. */
  datatype RequestBody = RequestBody(items: seq<Cart.CartItem>, shippingInfo: ShippingInfo)

  /** One entry of `line_items`: `price_data` (currency, product name and images, unit amount
      in cents) and the quantity. */
  datatype LineItem = LineItem(
    currency: string, name: string, images: seq<string>, unitAmount: int, quantity: int)

  datatype Metadata = Metadata(userId: string, shippingInfo: string)

  /** The argument of `stripe.checkout.sessions.create`. */
  datatype SessionParams = SessionParams(
    paymentMethodTypes: seq<string>,
    lineItems: seq<LineItem>,
    mode: string,
    successUrl: string,
    cancelUrl: string,
    customerEmail: string,
    allowedCountries: seq<string>,
    metadata: Metadata)

  /** What the provider call yields: a session, or a thrown error. */
  datatype ProviderResult = Created(id: string) | Failed

  datatype ResponseBody = SessionId(sessionId: string) | Error(message: string)

  datatype Response = Response(status: int, body: ResponseBody)

  /** The provider replaces this by the session id when it redirects after payment. */
  const SessionIdPlaceholder: string := "{CHECKOUT_SESSION_ID}"
  const SuccessPath: string := "/order-success?session_id=" + SessionIdPlaceholder
  const CancelPath: string := "/cart"

  /** `Math.round(price * 100)` on an exact price: the nearest whole number of cents, a half
      cent rounding up. */
  function ToCents(price: real): (r: int)
    ensures price * 100.0 - 0.5 < r as real <= price * 100.0 + 0.5
  {
    (price * 100.0 + 0.5).Floor
  }

  /** A price that is a whole number of cents. */
  predicate WholeCents(price: real) {
    (price * 100.0).Floor as real == price * 100.0
  }

  /** On a price in whole cents the conversion is exact. */
  lemma ToCentsExact(price: real)
    requires WholeCents(price)
    ensures ToCents(price) as real == price * 100.0
  {
    var k := (price * 100.0).Floor;
    var r := ToCents(price);
    assert k as real - 0.5 < r as real <= k as real + 0.5;
    assert k - 1 < r < k + 1;
  }

  /** `n` cents written as dollars convert back to `n`. */
  lemma ToCentsOfCents(n: int)
    ensures ToCents(n as real / 100.0) == n
  {
  }

  function ToLineItem(item: Cart.CartItem): LineItem {
    LineItem("usd", item.product.name, item.product.images, ToCents(item.product.price), item.quantity)
  }

  /** `items.map(...)`: one line item per cart entry, in the same order. */
  function LineItems(items: seq<Cart.CartItem>): (r: seq<LineItem>)
    ensures |r| == |items|
    ensures forall i :: 0 <= i < |items| ==>
      && r[i].currency == "usd"
      && r[i].name == items[i].product.name
      && r[i].images == items[i].product.images
      && r[i].unitAmount == ToCents(items[i].product.price)
      && r[i].quantity == items[i].quantity
  {
    seq(|items|, i requires 0 <= i < |items| => ToLineItem(items[i]))
  }

  /** The session parameters for the signed-in user `userId` and the request `body`. */
  function BuildParams(userId: string, body: RequestBody, baseUrl: string): SessionParams {
    SessionParams(
      ["card"],
      LineItems(body.items),
      "payment",
      baseUrl + SuccessPath,
      baseUrl + CancelPath,
      body.shippingInfo.email,
      ["US"],
      Metadata(userId, Serialize(body.shippingInfo)))
  }

  /** The handler. `body` is `None` when reading or destructuring the JSON body throws;
      `provider` stands for the session creation. The result is the response and the list of
      provider calls made. */
  function Post(
    auth: Option<AuthSession>,
    body: Option<RequestBody>,
    baseUrl: string,
    provider: SessionParams -> ProviderResult): (out: (Response, seq<SessionParams>))
    ensures |out.1| <= 1
    ensures |out.1| == 1 <==> auth.Some? && body.Some?
    ensures |out.1| == 1 ==> out.1[0] == BuildParams(auth.value.userId, body.value, baseUrl)
    ensures out.0.status == 401 <==> auth.None?
    ensures out.0.status == 200 <==> |out.1| == 1 && provider(out.1[0]).Created?
    ensures out.0.status == 200 ==> out.0.body == SessionId(provider(out.1[0]).id)
    ensures out.0.status != 200 ==> out.0.body.Error?
    ensures out.0.status == 401 ==> out.0.body.message == "Unauthorized"
    ensures out.0.status !in {200, 401} ==>
      out.0 == Response(500, Error("Error creating checkout session"))
  {
    match auth
    case None => (Response(401, Error("Unauthorized")), [])
    case Some(session) =>
      match body
      case None => (Response(500, Error("Error creating checkout session")), [])
      case Some(b) =>
        var params := BuildParams(session.userId, b, baseUrl);
        match provider(params)
        case Created(id) => (Response(200, SessionId(id)), [params])
        case Failed => (Response(500, Error("Error creating checkout session")), [params])
  }

  /** Without a signed-in user the answer is 401 and the provider is never called. */
  lemma UnauthenticatedIsRejected(
    body: Option<RequestBody>, baseUrl: string, provider: SessionParams -> ProviderResult)
    ensures Post(None, body, baseUrl, provider).0.status == 401
    ensures Post(None, body, baseUrl, provider).1 == []
  {
  }

  /** A success carries nothing but the provider's session id; every failure is a 500. */
  lemma ResponseCases(
    auth: Option<AuthSession>, body: Option<RequestBody>, baseUrl: string,
    provider: SessionParams -> ProviderResult)
    ensures var r := Post(auth, body, baseUrl, provider).0;
      r.status == 200 <==> (auth.Some? && body.Some? &&
        provider(BuildParams(auth.value.userId, body.value, baseUrl)).Created?)
    ensures var r := Post(auth, body, baseUrl, provider).0;
      r.status == 200 ==> r.body == SessionId(provider(BuildParams(auth.value.userId, body.value, baseUrl)).id)
    ensures var r := Post(auth, body, baseUrl, provider).0;
      r.status in {200, 401, 500}
  {
  }

  /** The user id in the metadata is the session's, whatever the body holds. */
  lemma MetadataUserIdFromSession(userId: string, a: RequestBody, b: RequestBody, baseUrl: string)
    ensures BuildParams(userId, a, baseUrl).metadata.userId == userId
    ensures BuildParams(userId, a, baseUrl).metadata.userId == BuildParams(userId, b, baseUrl).metadata.userId
  {
  }

  /** The metadata reads back as the request's shipping information, and the customer email
      is its email. */
  lemma MetadataCarriesShipping(userId: string, body: RequestBody, baseUrl: string)
    ensures Deserialize(BuildParams(userId, body, baseUrl).metadata.shippingInfo) == Some(body.shippingInfo)
    ensures BuildParams(userId, body, baseUrl).customerEmail == body.shippingInfo.email
  {
    DeserializeSerialize(body.shippingInfo);
  }

  /** The success URL ends in the provider's session id placeholder after `session_id=`; the
      cancel URL leads back to the cart. */
  lemma RedirectUrls(userId: string, body: RequestBody, baseUrl: string)
    ensures var p := BuildParams(userId, body, baseUrl);
      && |p.successUrl| >= |SessionIdPlaceholder|
      && p.successUrl[|p.successUrl| - |SessionIdPlaceholder|..] == SessionIdPlaceholder
      && p.successUrl[..|baseUrl|] == baseUrl
      && p.cancelUrl == baseUrl + "/cart"
  {
    var p := BuildParams(userId, body, baseUrl);
    var front := baseUrl + "/order-success?session_id=";
    assert p.successUrl == front + SessionIdPlaceholder;
    assert p.successUrl[|front|..] == SessionIdPlaceholder;
    assert p.successUrl[..|baseUrl|] == baseUrl;
  }

  /** What the provider charges for the line items, in cents. */
  function ChargedCents(lines: seq<LineItem>): int {
    if lines == [] then 0 else lines[0].unitAmount * lines[0].quantity + ChargedCents(lines[1..])
  }

  predicate AllWholeCents(items: seq<Cart.CartItem>) {
    forall i :: 0 <= i < |items| ==> WholeCents(items[i].product.price)
  }

  lemma {:induction false} ChargedCentsIsSum(items: seq<Cart.CartItem>)
    requires AllWholeCents(items)
    ensures ChargedCents(LineItems(items)) as real == 100.0 * Cart.Sum(items)
  {
    if items != [] {
      var lines := LineItems(items);
      assert lines[1..] == LineItems(items[1..]);
      ChargedCentsIsSum(items[1..]);
      var x := items[0];
      ToCentsExact(x.product.price);
      var cents := ToCents(x.product.price);
      assert (cents * x.quantity) as real == cents as real * x.quantity as real;
      assert cents as real * x.quantity as real == 100.0 * (x.product.price * x.quantity as real);
    }
  }

  /** With prices in whole cents, the provider charges exactly the cart page's total. */
  lemma ChargedCentsMatchesCartTotal(items: seq<Cart.CartItem>)
    requires AllWholeCents(items)
    ensures ChargedCents(LineItems(items)) as real == 100.0 * Cart.CalculateTotal(items)
  {
    ChargedCentsIsSum(items);
    Cart.TotalIsSum(items);
  }
}
