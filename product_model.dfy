/** The product schema (src/models/Product.ts) as a validator: required fields, the trimmed
    and length-limited name, non-negative price and stock, required image entries, and the
    defaults for the image and feature lists, `isActive` and the two dates. */
module ProductModel {
  import opened Wrappers
  import opened Text

  /** A document as given to the model: each path present or absent. Dates are instants on
      one integer clock. */
  datatype ProductInput = ProductInput(
    name: Option<string>, description: Option<string>, price: Option<real>,
    images: Option<seq<string>>, stock: Option<real>, features: Option<seq<string>>,
    capacity: Option<real>, material: Option<string>, color: Option<string>,
    isActive: Option<bool>, createdAt: Option<int>, updatedAt: Option<int>)

  /** A stored product. */
  datatype Product = Product(
    name: string, description: string, price: real, images: seq<string>, stock: real,
    features: seq<string>, capacity: real, material: string, color: string,
    isActive: bool, createdAt: int, updatedAt: int)

  /** The failures the schema's validators report. */
  datatype Violation =
    | NameRequired | NameTooLong
    | DescriptionRequired
    | PriceRequired | PriceNegative
    | ImageRequired(index: nat)
    | StockRequired | StockNegative
    | CapacityRequired | MaterialRequired | ColorRequired

  /** The message of each failure; an image entry's is Mongoose's built-in one. */
  function ViolationMessage(v: Violation): string {
    match v
    case NameRequired => "Please provide a product name"
    case NameTooLong => "Name cannot be more than 100 characters"
    case DescriptionRequired => "Please provide a product description"
    case PriceRequired => "Please provide a product price"
    case PriceNegative => "Price cannot be negative"
    case ImageRequired(i) => "Path `images." + NatToString(i) + "` is required."
    case StockRequired => "Please provide stock quantity"
    case StockNegative => "Stock cannot be negative"
    case CapacityRequired => "Please provide bottle capacity"
    case MaterialRequired => "Please provide bottle material"
    case ColorRequired => "Please provide bottle color"
  }

  /** A required string fails when absent or empty. */
  predicate Missing(v: Option<string>) {
    v.None? || v.value == ""
  }

  /** The name as stored: the `trim` setter runs before any validator. */
  function StoredName(input: ProductInput): Option<string> {
    if input.name.Some? then Some(Trim(input.name.value)) else None
  }

  /** The document with no path set. */
  const EmptyInput: ProductInput :=
    ProductInput(None, None, None, None, None, None, None, None, None, None, None, None)

  /** The failures of the single-valued paths. */
  const FixedCandidates: set<Violation> :=
    {NameRequired, NameTooLong, DescriptionRequired, PriceRequired, PriceNegative, StockRequired,
     StockNegative, CapacityRequired, MaterialRequired, ColorRequired}

  /** Whether the validator behind `v` fails, `name` being the stored name. A path reports only its first failing
      validator, `required` runs first, and the other validators skip absent values. */
  predicate Fails(name: Option<string>, input: ProductInput, v: Violation) {
    match v
    case NameRequired => Missing(name)
    case NameTooLong => name.Some? && Utf16Length(name.value) > 100
    case DescriptionRequired => Missing(input.description)
    case PriceRequired => input.price.None?
    case PriceNegative => input.price.Some? && input.price.value < 0.0
    case ImageRequired(i) => i < |input.images.GetOr([])| && input.images.GetOr([])[i] == ""
    case StockRequired => input.stock.None?
    case StockNegative => input.stock.Some? && input.stock.value < 0.0
    case CapacityRequired => input.capacity.None?
    case MaterialRequired => Missing(input.material)
    case ColorRequired => Missing(input.color)
  }

  /** The `required` failures of the image entries, each at its own index. */
  function ImageViolations(images: seq<string>): (r: set<Violation>)
    ensures forall v :: v in r ==> v.ImageRequired? && v.index < |images| && images[v.index] == ""
    ensures forall i :: 0 <= i < |images| && images[i] == "" ==> ImageRequired(i) in r
  {
    set i | 0 <= i < |images| && images[i] == "" :: ImageRequired(i)
  }

  /** Every failing validator, given the stored name. */
  function ViolationsWith(name: Option<string>, input: ProductInput): (r: set<Violation>)
    ensures forall v :: v in r <==> Fails(name, input, v) && (v in FixedCandidates || v.ImageRequired?)
  {
    (set v | v in FixedCandidates && Fails(name, input, v)) + ImageViolations(input.images.GetOr([]))
  }

  /** Every failing validator. */
  function Violations(input: ProductInput): set<Violation> {
    ViolationsWith(StoredName(input), input)
  }

  /** What every stored product satisfies, as the schema states it. */
  ghost predicate ValidProduct(p: Product) {
    && p.name == Trim(p.name) && p.name != "" && Utf16Length(p.name) <= 100
    && p.description != ""
    && p.price >= 0.0 && p.stock >= 0.0
    && (forall i :: 0 <= i < |p.images| ==> p.images[i] != "")
    && p.material != "" && p.color != ""
  }

  /** The conditions under which a document is accepted, field by field. */
  ghost predicate AcceptedInput(input: ProductInput) {
    && input.name.Some? && Trim(input.name.value) != "" && Utf16Length(Trim(input.name.value)) <= 100
    && !Missing(input.description)
    && input.price.Some? && input.price.value >= 0.0
    && (forall i :: 0 <= i < |input.images.GetOr([])| ==> input.images.GetOr([])[i] != "")
    && input.stock.Some? && input.stock.value >= 0.0
    && input.capacity.Some?
    && !Missing(input.material) && !Missing(input.color)
  }

  /** A document with no failure is accepted. */
  lemma NoViolationsAccepted(input: ProductInput)
    requires Violations(input) == {}
    ensures AcceptedInput(input)
  {
    var images := input.images.GetOr([]);
    forall i | 0 <= i < |images| ensures images[i] != "" {
      assert !Fails(StoredName(input), input, ImageRequired(i));
    }
    assert !Fails(StoredName(input), input, NameRequired) && !Fails(StoredName(input), input, NameTooLong);
  }

  /** An accepted document has no failure. */
  lemma AcceptedHasNoViolations(input: ProductInput)
    ensures AcceptedInput(input) ==> Violations(input) == {}
  {
    if AcceptedInput(input) {
      assert forall v :: v !in Violations(input);
    }
  }

  /** `Product.create`'s validation and defaults: the product, or every failure. */
  function ValidateProduct(input: ProductInput, now: int): (r: Result<Product, set<Violation>>)
    ensures r.Ok? <==> AcceptedInput(input)
    ensures r.Ok? ==> ValidProduct(r.value)
    ensures r.Ok? ==> && r.value.name == Trim(input.name.value)
                      && r.value.description == input.description.value
                      && r.value.price == input.price.value
                      && r.value.images == input.images.GetOr([])
                      && r.value.stock == input.stock.value
                      && r.value.features == input.features.GetOr([])
                      && r.value.capacity == input.capacity.value
                      && r.value.material == input.material.value
                      && r.value.color == input.color.value
                      && r.value.isActive == input.isActive.GetOr(true)
                      && r.value.createdAt == input.createdAt.GetOr(now)
                      && r.value.updatedAt == input.updatedAt.GetOr(now)
    ensures r.Err? ==> r.error == Violations(input) && r.error != {}
  {
    var errors := Violations(input);
    if errors != {} then
      AcceptedHasNoViolations(input);
      Err(errors)
    else
      NoViolationsAccepted(input);
      Ok(Stored(input, now))
  }

  /** The stored product of an accepted document: the trimmed name, the given values and the
      defaults. */
  function Stored(input: ProductInput, now: int): (p: Product)
    requires AcceptedInput(input)
    ensures ValidProduct(p)
  {
    TrimIdempotent(input.name.value);
    Product(Trim(input.name.value), input.description.value, input.price.value,
            input.images.GetOr([]), input.stock.value, input.features.GetOr([]),
            input.capacity.value, input.material.value, input.color.value,
            input.isActive.GetOr(true), input.createdAt.GetOr(now), input.updatedAt.GetOr(now))
  }

  /** A name of only white space is missing once trimmed; the 100-unit limit applies to the
      trimmed name, so surrounding white space does not count against it. */
  lemma NameIsTrimmedFirst(input: ProductInput, now: int)
    requires input.name.Some?
    ensures IsBlank(input.name.value) ==> var r := ValidateProduct(input, now);
      r.Err? && NameRequired in r.error
    ensures Utf16Length(Trim(input.name.value)) > 100 ==> var r := ValidateProduct(input, now);
      r.Err? && NameTooLong in r.error
    ensures AcceptedInput(input) ==> Utf16Length(ValidateProduct(input, now).value.name) <= 100
  {
    BlankIffTrimEmpty(input.name.value);
    var r := ValidateProduct(input, now);
    if IsBlank(input.name.value) {
      assert NameRequired in Violations(input);
    }
    if Utf16Length(Trim(input.name.value)) > 100 {
      assert NameTooLong in Violations(input);
    }
  }

  /** The limit counts UTF-16 code units: a name of 51 emoji has 51 characters but 102 code
      units, and is too long. */
  lemma NameLimitCountsCodeUnits()
    ensures var name := seq(51, _ => '\U{1F600}');
      |name| <= 100 && NameTooLong in ViolationsWith(Some(name), EmptyInput.(name := Some(name)))
  {
    var name := seq(51, _ => '\U{1F600}');
    Utf16LengthOutsidePlane(name);
    assert Fails(Some(name), EmptyInput.(name := Some(name)), NameTooLong);
  }

  /** A negative price or stock is always reported. */
  lemma NegativeAmountsRejected(input: ProductInput, now: int)
    ensures input.price.Some? && input.price.value < 0.0 ==>
      var r := ValidateProduct(input, now); r.Err? && PriceNegative in r.error
    ensures input.stock.Some? && input.stock.value < 0.0 ==>
      var r := ValidateProduct(input, now); r.Err? && StockNegative in r.error
  {
  }

  /** Each path reports at most one failure. */
  lemma OneViolationPerPath(input: ProductInput)
    ensures !(NameRequired in Violations(input) && NameTooLong in Violations(input))
    ensures !(PriceRequired in Violations(input) && PriceNegative in Violations(input))
    ensures !(StockRequired in Violations(input) && StockNegative in Violations(input))
  {
    OneViolationPerPathWith(StoredName(input), input);
  }

  lemma OneViolationPerPathWith(name: Option<string>, input: ProductInput)
    ensures !(NameRequired in ViolationsWith(name, input) && NameTooLong in ViolationsWith(name, input))
    ensures !(PriceRequired in ViolationsWith(name, input) && PriceNegative in ViolationsWith(name, input))
    ensures !(StockRequired in ViolationsWith(name, input) && StockNegative in ViolationsWith(name, input))
  {
  }

  /** Each empty image entry is reported at its own index. */
  lemma EmptyImageReported(input: ProductInput, now: int, i: nat)
    requires input.images.Some? && i < |input.images.value| && input.images.value[i] == ""
    ensures var r := ValidateProduct(input, now); r.Err? && ImageRequired(i) in r.error
  {
  }

  /** The document a stored product corresponds to. */
  function AsInput(p: Product): ProductInput {
    ProductInput(Some(p.name), Some(p.description), Some(p.price), Some(p.images), Some(p.stock),
                 Some(p.features), Some(p.capacity), Some(p.material), Some(p.color),
                 Some(p.isActive), Some(p.createdAt), Some(p.updatedAt))
  }

  /** Validating a stored product again changes nothing. */
  lemma RevalidateStored(p: Product, now: int)
    requires ValidProduct(p)
    ensures ValidateProduct(AsInput(p), now) == Ok(p)
  {
  }
}
