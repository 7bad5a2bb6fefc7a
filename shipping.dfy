/** The `ShippingInfo` record of the checkout page (app/checkout/page.tsx:31-40), shared with
    the checkout-session endpoint, and its `JSON.stringify` form. */
module Shipping {
  import opened Wrappers
  import Json

  datatype ShippingInfo = ShippingInfo(
    firstName: string,
    lastName: string,
    email: string,
    address: string,
    city: string,
    state: string,
    zipCode: string,
    country: string)

  /** The form's input names, one per field of `ShippingInfo`. */
  datatype Field = FirstName | LastName | Email | Address | City | State | ZipCode | Country

  function Get(info: ShippingInfo, f: Field): string {
    match f
    case FirstName => info.firstName
    case LastName => info.lastName
    case Email => info.email
    case Address => info.address
    case City => info.city
    case State => info.state
    case ZipCode => info.zipCode
    case Country => info.country
  }

  /** `{ ...info, [f]: v }`. */
  function With(info: ShippingInfo, f: Field, v: string): (r: ShippingInfo)
    ensures Get(r, f) == v
    ensures forall g :: g != f ==> Get(r, g) == Get(info, g)
  {
    match f
    case FirstName => info.(firstName := v)
    case LastName => info.(lastName := v)
    case Email => info.(email := v)
    case Address => info.(address := v)
    case City => info.(city := v)
    case State => info.(state := v)
    case ZipCode => info.(zipCode := v)
    case Country => info.(country := v)
  }

  /** The property names in the order the page's state object holds them. */
  const Keys: seq<string> :=
    ["firstName", "lastName", "email", "address", "city", "state", "zipCode", "country"]

  function Values(info: ShippingInfo): (vs: seq<string>)
    ensures |vs| == |Keys|
  {
    [info.firstName, info.lastName, info.email, info.address,
     info.city, info.state, info.zipCode, info.country]
  }

  /** `JSON.stringify(shippingInfo)`. */
  function Serialize(info: ShippingInfo): string {
    Json.Stringify(Keys, Values(info))
  }

  /** Reads a serialised record back; `None` for any text `Serialize` does not write. */
  function Deserialize(t: string): Option<ShippingInfo> {
    match Json.Parse(t, Keys)
    case Some(vs) =>
      if |vs| == 8 then Some(ShippingInfo(vs[0], vs[1], vs[2], vs[3], vs[4], vs[5], vs[6], vs[7]))
      else None
    case None => None
  }

  /** The serialised record carries every field: reading it back gives the same record. */
  lemma DeserializeSerialize(info: ShippingInfo)
    ensures Deserialize(Serialize(info)) == Some(info)
  {
    Json.ParseStringify(Keys, Values(info));
  }

  /** Two records serialise alike only when they are equal. */
  lemma SerializeInjective(a: ShippingInfo, b: ShippingInfo)
    requires Serialize(a) == Serialize(b)
    ensures a == b
  {
    DeserializeSerialize(a);
    DeserializeSerialize(b);
  }
}
