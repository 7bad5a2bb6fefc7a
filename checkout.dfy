/** The checkout page (app/checkout/page.tsx): shipping-form validation, the two-step
    Shipping -> Payment flow, per-field error clearing and the order subtotal. */
module Checkout {
  import opened Wrappers
  import opened Text
  import opened Shipping
  import Cart
  import CheckoutSession

  /** `/^\S+@\S+\.\S+$/` as the pattern reads: non-space text, '@', non-space text, '.',
      non-space text, covering the whole string. */
  ghost predicate EmailPatternMatches(s: string) {
    exists i, j :: 0 < i && i + 1 < j && j + 1 < |s| && s[i] == '@' && s[j] == '.'
      && NoWhitespace(s[..i]) && NoWhitespace(s[i + 1..j]) && NoWhitespace(s[j + 1..])
  }

  /** The email test, decided by one scan: no white space, an '@' after the first
      character, and a '.' at least two characters after that '@' and before the last
      character. */
  predicate IsEmailShape(s: string) {
    && NoWhitespace(s)
    && match IndexOf(s, '@', 1)
       case None => false
       case Some(i) => i + 2 < |s| - 1 && '.' in s[i + 2..|s| - 1]
  }

  /** The scan's positions witness the pattern. */
  lemma ShapeIsPattern(s: string)
    requires IsEmailShape(s)
    ensures EmailPatternMatches(s)
  {
    var i := IndexOf(s, '@', 1).value;
    var t := s[i + 2..|s| - 1];
    var k :| 0 <= k < |t| && t[k] == '.';
    var j := i + 2 + k;
    assert s[j] == '.';
    NoWhitespaceSlice(s, 0, i);
    NoWhitespaceSlice(s, i + 1, j);
    NoWhitespaceSlice(s, j + 1, |s|);
  }

  /** Every slice of a string without white space is without white space. */
  lemma NoWhitespaceSlice(s: string, a: nat, b: nat)
    requires NoWhitespace(s) && a <= b <= |s|
    ensures NoWhitespace(s[a..b])
  {
    assert forall k :: 0 <= k < b - a ==> s[a..b][k] == s[a + k];
  }

  /** The pattern's '@' is at or after the first '@' the scan finds. */
  lemma PatternIsShape(s: string)
    requires EmailPatternMatches(s)
    ensures IsEmailShape(s)
  {
    var i, j :| 0 < i && i + 1 < j && j + 1 < |s| && s[i] == '@' && s[j] == '.'
      && NoWhitespace(s[..i]) && NoWhitespace(s[i + 1..j]) && NoWhitespace(s[j + 1..]);
    forall k | 0 <= k < |s| ensures !IsWhitespace(s[k]) {
      if k < i { assert s[k] == s[..i][k]; }
      else if i < k < j { assert s[k] == s[i + 1..j][k - i - 1]; }
      else if j < k { assert s[k] == s[j + 1..][k - j - 1]; }
    }
    var first := IndexOf(s, '@', 1);
    assert first.Some? && first.value <= i;
    var t := s[first.value + 2..|s| - 1];
    assert t[j - first.value - 2] == '.';
  }

  /** The scan accepts exactly the strings the regular expression matches. */
  lemma EmailShapeIffPattern(s: string)
    ensures IsEmailShape(s) <==> EmailPatternMatches(s)
  {
    if IsEmailShape(s) {
      ShapeIsPattern(s);
    }
    if EmailPatternMatches(s) {
      PatternIsShape(s);
    }
  }

  /** An address of the right shape is never blank. */
  lemma EmailShapeNotBlank(s: string)
    requires IsEmailShape(s)
    ensures !IsBlank(s)
  {
    assert !IsWhitespace(s[0]);
  }

  const InitialShipping: ShippingInfo := ShippingInfo("", "", "", "", "", "", "", "United States")

  /** The messages `validateForm` can leave: one "... is required" per validated field, and
      the email test's message. */
  datatype Message = Required(field: Field) | InvalidEmail

  /** The text the page shows for each message. `validateForm` never reports the country (`FieldFails` is
      false for it), so `Required(Country)` is never shown; its text exists only because
      `Message` ranges over every field. */
  function MessageText(m: Message): (r: string)
    ensures r != []
  {
    match m
    case InvalidEmail => "Valid email is required"
    case Required(f) =>
      match f
      case FirstName => "First name is required"
      case LastName => "Last name is required"
      case Email => "Email is required"
      case Address => "Address is required"
      case City => "City is required"
      case State => "State is required"
      case ZipCode => "ZIP code is required"
      case Country => "Country is required"
  }

  /** The fields `validateForm` reports: blank ones among the six required, the email when it
      is blank or fails the test; never the country. */
  predicate FieldFails(info: ShippingInfo, f: Field) {
    match f
    case Email => IsBlank(info.email) || !IsEmailShape(info.email)
    case Country => false
    case _ => IsBlank(Get(info, f))
  }

  /** The message left for a failing field: the email test's message overwrites the blank
      message. */
  function ErrorMessage(info: ShippingInfo, f: Field): Message {
    if f == Email && !IsEmailShape(info.email) then InvalidEmail else Required(f)
  }

  /** The condition under which `validateForm` returns true. */
  predicate ShippingValid(info: ShippingInfo) {
    && !IsBlank(info.firstName)
    && !IsBlank(info.lastName)
    && !IsBlank(info.address)
    && !IsBlank(info.city)
    && !IsBlank(info.state)
    && !IsBlank(info.zipCode)
    && IsEmailShape(info.email)
  }

  /** The email is reported exactly when it fails the test, and always with the test's
      message: a blank email ends with "Valid email is required". */
  lemma EmailErrorIsPatternError(info: ShippingInfo)
    ensures FieldFails(info, Email) <==> !IsEmailShape(info.email)
    ensures FieldFails(info, Email) ==> ErrorMessage(info, Email) == InvalidEmail
  {
    if IsEmailShape(info.email) {
      EmailShapeNotBlank(info.email);
    }
  }

  /** Valid shipping information is exactly information with no failing field. */
  lemma ShippingValidIffNoFailure(info: ShippingInfo)
    ensures ShippingValid(info) <==> forall f :: !FieldFails(info, f)
  {
    EmailErrorIsPatternError(info);
    if !ShippingValid(info) {
      if IsBlank(info.firstName) { assert FieldFails(info, FirstName); }
      else if IsBlank(info.lastName) { assert FieldFails(info, LastName); }
      else if IsBlank(info.address) { assert FieldFails(info, Address); }
      else if IsBlank(info.city) { assert FieldFails(info, City); }
      else if IsBlank(info.state) { assert FieldFails(info, State); }
      else if IsBlank(info.zipCode) { assert FieldFails(info, ZipCode); }
      else { assert FieldFails(info, Email); }
    }
  }

  /** The error map `validateForm` builds: an entry for each failing field, holding the
      message the last failing check on that field wrote. */
  function FormErrors(info: ShippingInfo): (r: map<Field, Message>)
    ensures Country !in r
    ensures r == map[] <==> ShippingValid(info)
  {
    ShippingValidIffNoFailure(info);
    var r := map f | FieldFails(info, f) :: ErrorMessage(info, f);
    if !ShippingValid(info) then
      var f :| FieldFails(info, f);
      assert f in r;
      r
    else
      assert forall f :: f !in r;
      r
  }

  /** The two steps the page shows: 1 (shipping) and 2 (payment). */
  datatype Step = ShippingStep | PaymentStep

  /** The page's state once the cart has loaded. */
  class CheckoutPage {
    var cartItems: seq<Cart.CartItem>
    var shippingInfo: ShippingInfo
    var formErrors: map<Field, Message>
    var step: Step

    /** The payment step is only reached with shipping information that passes validation. */
    ghost predicate Valid()
      reads this
    {
      step == PaymentStep ==> ShippingValid(shippingInfo)
    }

    /** The state after `fetchCartItems`: the cart as fetched, the email pre-filled from the
        session when it has a non-empty one, no errors, step 1. */
    constructor Load(items: seq<Cart.CartItem>, sessionEmail: Option<string>)
      ensures Valid()
      ensures cartItems == items && formErrors == map[] && step == ShippingStep
      ensures shippingInfo == if sessionEmail.Some? && sessionEmail.value != ""
                              then InitialShipping.(email := sessionEmail.value)
                              else InitialShipping
    {
      cartItems := items;
      shippingInfo := InitialShipping;
      if sessionEmail.Some? && sessionEmail.value != "" {
        shippingInfo := InitialShipping.(email := sessionEmail.value);
      }
      formErrors := map[];
      step := ShippingStep;
    }

    /** `handleInputChange`: the inputs exist only on step 1. Sets the one field, and drops
        that field's error when one is shown (every message text is non-empty, so the
        page's truthiness test is membership). */
    method HandleInputChange(f: Field, value: string)
      requires Valid() && step == ShippingStep
      modifies this
      ensures Valid()
      ensures shippingInfo == With(old(shippingInfo), f, value)
      ensures formErrors == old(formErrors) - {f}
      ensures step == old(step) && cartItems == old(cartItems)
    {
      shippingInfo := With(shippingInfo, f, value);
      if f in formErrors {
        formErrors := formErrors - {f};
      }
    }

    /** `validateForm`: stores the error map and says whether it is empty. */
    method ValidateForm() returns (ok: bool)
      requires Valid()
      modifies this
      ensures Valid()
      ensures formErrors == FormErrors(shippingInfo)
      ensures forall f :: f in formErrors <==> FieldFails(shippingInfo, f)
      ensures forall f :: f in formErrors ==> formErrors[f] == ErrorMessage(shippingInfo, f)
      ensures ok <==> ShippingValid(shippingInfo)
      ensures shippingInfo == old(shippingInfo) && step == old(step) && cartItems == old(cartItems)
    {
      formErrors := FormErrors(shippingInfo);
      ok := formErrors == map[];
    }

    /** `handleSubmit`. On step 1 it validates and moves to step 2 on success, making no
        request. On step 2 it yields the body it posts to create the checkout session. */
    method HandleSubmit() returns (request: Option<CheckoutSession.RequestBody>)
      requires Valid()
      modifies this
      ensures Valid()
      ensures shippingInfo == old(shippingInfo) && cartItems == old(cartItems)
      ensures old(step) == ShippingStep ==>
        && request == None
        && (step == PaymentStep <==> ShippingValid(shippingInfo))
        && formErrors == FormErrors(shippingInfo)
        && (forall f :: f in formErrors <==> FieldFails(shippingInfo, f))
        && (forall f :: f in formErrors ==> formErrors[f] == ErrorMessage(shippingInfo, f))
      ensures old(step) == PaymentStep ==>
        && request == Some(CheckoutSession.RequestBody(cartItems, shippingInfo))
        && step == PaymentStep && formErrors == old(formErrors)
      ensures request.Some? ==> ShippingValid(request.value.shippingInfo)
    {
      if step == ShippingStep {
        var ok := ValidateForm();
        if ok {
          step := PaymentStep;
        }
        request := None;
        return;
      }
      request := Some(CheckoutSession.RequestBody(cartItems, shippingInfo));
    }

    /** "Edit shipping information": back to step 1 with every entered value kept. */
    method EditShipping()
      requires Valid()
      modifies this
      ensures Valid()
      ensures step == ShippingStep
      ensures shippingInfo == old(shippingInfo) && formErrors == old(formErrors)
      ensures cartItems == old(cartItems)
    {
      step := ShippingStep;
    }

    /** `calculateSubtotal`: the sum of price times quantity, 0 for an empty cart. */
    function CalculateSubtotal(): (r: real)
      reads this
      ensures r == Cart.Sum(cartItems)
      ensures cartItems == [] ==> r == 0.0
    {
      Cart.TotalIsSum(cartItems);
      Cart.CalculateTotal(cartItems)
    }

    /** The order summary: the total shown is the subtotal, with free shipping. */
    function OrderSummary(): (r: Cart.Summary)
      reads this
      ensures r.subtotal == CalculateSubtotal() && r.total == r.subtotal
    {
      Cart.OrderSummary(cartItems)
    }
  }
}
