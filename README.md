# meteorsite storefront logic in Dafny

This project models the deterministic logic of the meteorsite Next.js storefront and proves
properties of it. It covers:

- The checkout page: shipping-form validation, the two-step Shipping → Payment flow, the
  "Edit shipping information" button, per-field error clearing and the subtotal.
- The cart page: the order total and the requests the "+", "-" and "Remove" buttons build.
- The checkout-session endpoint: the sign-in gate, the mapping from cart items to payment
  line items in cents, and the session parameters with their metadata. The payment provider
  is a function parameter.
- The catalogue page: the multi-criteria filter, the price ranges, the sort orders, the
  active-filter count, clearing the filters and the wishlist toggle.
- The admin dashboard: the admin gate, search, field and order sort, the inventory
  statistics and the local removal after a delete.
- The products API: a `ProductStore` class over an id → product map, with GET, POST
  (validated), PUT (unvalidated merge) and DELETE (soft delete, `isActive := false`).
  Unknown ids give 404.
- The product and user schemas, as validators with their defaults. The user email pattern
  is proved equal to a scanning check.

Modelling conventions:

- Prices are exact `real` amounts, and `Math.round(x)` is `(x + 0.5).Floor`.
- `trim` and the regular-expression class `\s` use the ECMAScript white-space and
  line-terminator characters.
- `toLowerCase` is ASCII lower-casing.
- `localeCompare` is code-point order (`Text.LexLe`).
- `Array.prototype.sort` is a stable sort (`Seqs.SortBy`, an insertion sort). A comparator
  `cmp` is read as the relation `cmp(a, b) <= 0`.
- Strings are `seq<char>`, one element per Unicode character. The schemas' length limits
  count UTF-16 code units (`Text.Utf16Length`), as JavaScript's `length` does.
- JSON is the part `JSON.stringify` writes for an object of strings, with a reader used to
  state the round trip.

Files:

- `wrappers.dfy`: `Option`, `Result`.
- `text.dfy`: trimming, blankness, lower-casing, substring search, code-point order,
  decimal numerals, UTF-16 length.
- `seqs.dfy`: filter and stable insertion sort, with their lemmas.
- `cart.dfy`
- `json.dfy`
- `shipping.dfy`: the shipping-information record and its serialisation.
- `checkout_session.dfy`
- `checkout.dfy`
- `products_page.dfy`
- `admin_page.dfy`
- `user_email.dfy`
- `user_model.dfy`
- `product_model.dfy`
- `products_route.dfy`

## Model

| member | source | states |
|---|---|---|
| Checkout.EmailShapeIffPattern | app/checkout/page.tsx:119 | The one-pass email test accepts exactly the strings `^\S+@\S+\.\S+$` matches: no white space, and an '@' with text before it, then a '.' with text between and after. |
| Checkout.ShapeIsPattern | app/checkout/page.tsx:119 | Every string the one-pass test accepts is matched by `^\S+@\S+\.\S+$`. |
| Checkout.PatternIsShape | app/checkout/page.tsx:119 | Every string `^\S+@\S+\.\S+$` matches is accepted by the one-pass test. |
| Checkout.EmailShapeNotBlank | app/checkout/page.tsx:118-120 | An address that passes the email test is not blank. |
| Checkout.EmailErrorIsPatternError | app/checkout/page.tsx:118-120 | The email is reported exactly when it fails the test, always as "Valid email is required", so a blank email ends with that message. |
| Checkout.ShippingValidIffNoFailure | app/checkout/page.tsx:111-128 | The shipping data is valid exactly when no field fails. |
| Checkout.MessageText | app/checkout/page.tsx:114-124 | Every error message is a non-empty string, so the page's truthiness test on an error is membership. The country's text is never shown. |
| Checkout.FormErrors | app/checkout/page.tsx:112-127 | The error map never has a country entry, and it is empty exactly when the shipping data is valid. |
| Checkout.CheckoutPage.Load | app/checkout/page.tsx:48-87 | After loading: the fetched cart, no errors, step 1 and the initial form, whose email is the session's when that is non-empty. |
| Checkout.CheckoutPage.HandleInputChange | app/checkout/page.tsx:89-102 | Only the edited field changes, only that field's error is cleared, and the step and cart stay. |
| Checkout.CheckoutPage.ValidateForm | app/checkout/page.tsx:111-128 | The stored error map is `FormErrors`: one key per failing field, holding the message of the last failing check. The result is true exactly when the shipping data is valid. |
| Checkout.CheckoutPage.HandleSubmit | app/checkout/page.tsx:130-156 | On step 1: no request; the error map is `FormErrors`, with one key per failing field and its message; step 2 is reached exactly when validation passes. On step 2: the request body is the cart and shipping data, which are then valid, and the errors stay. |
| Checkout.CheckoutPage.EditShipping | app/checkout/page.tsx:517-523 | Back to step 1, with the shipping values, errors and cart unchanged. |
| Checkout.CheckoutPage.CalculateSubtotal | app/checkout/page.tsx:104-109 | The subtotal is the sum of price × quantity, and 0 for an empty cart. |
| Checkout.CheckoutPage.OrderSummary | app/checkout/page.tsx:588-599 | The total shown equals the subtotal. |
| Shipping.With | app/checkout/page.tsx:93 | Setting a field by name changes that field and leaves every other field unchanged. |
| Shipping.DeserializeSerialize | app/api/create-checkout-session/route.ts:41 | The JSON of the shipping information reads back as the same information. |
| Shipping.SerializeInjective | app/api/create-checkout-session/route.ts:41 | Different shipping information never gives the same JSON. |
| Json.ParseStringify | app/api/create-checkout-session/route.ts:41 | `JSON.stringify` of an object with string values parses back to those values. |
| Cart.ReduceIsSum | app/cart/page.tsx:82-85 | The `reduce` from any accumulator adds the sum of the line amounts to it. |
| Cart.TotalIsSum | app/cart/page.tsx:81-86 | The total is the sum of price × quantity, and 0 for an empty cart. |
| Cart.TotalAppend | app/cart/page.tsx:81-86 | The total of two carts put together is the sum of their totals. |
| Cart.TotalNonNegative | app/cart/page.tsx:81-86 | With no negative price or quantity, the total is not negative. |
| Cart.TotalWithQuantity | app/cart/page.tsx:81-86 | A new quantity for one entry moves the total by that price times the difference. |
| Cart.RemoveRequestReadsBack | app/cart/page.tsx:63-71 | The JSON body of a removal reads back as the id of the entry whose "Remove" button was pressed. |
| Cart.StepRequestsMoveTotalByOnePrice | app/cart/page.tsx:147-159 | Once stored, the "+" request raises the total by the unit price and the "-" request lowers it by the unit price, quantity 1 included: no clamping. |
| Cart.IncrementThenDecrementRestoresTotal | app/cart/page.tsx:147-159 | Storing the "+" request and then the "-" request of the refreshed entry gives back the cart's original total. |
| Cart.OrderSummary | app/cart/page.tsx:174-185 | The subtotal is the sum of price × quantity, the total equals it, shipping is "Free", and both are 0 for an empty cart. |
| CheckoutSession.ToCents | app/api/create-checkout-session/route.ts:23 | The unit amount is within half a cent of price × 100. |
| CheckoutSession.ToCentsExact | app/api/create-checkout-session/route.ts:23 | For a price in whole cents, the unit amount is exactly price × 100. |
| CheckoutSession.ToCentsOfCents | app/api/create-checkout-session/route.ts:23 | Converting n/100 dollars gives back n cents. |
| CheckoutSession.LineItems | app/api/create-checkout-session/route.ts:16-26 | One line item per cart item, in order, with the item's name, images and quantity, currency "usd" and the price in cents. |
| CheckoutSession.Post | app/api/create-checkout-session/route.ts:6-53 | At most one provider call. It is made exactly when the user is signed in and the body is readable, with the parameters built from both. 401 exactly without a session; 200 exactly when the call created a session, carrying its id; every other answer is 500 "Error creating checkout session". |
| CheckoutSession.UnauthenticatedIsRejected | app/api/create-checkout-session/route.ts:8-11 | Without a session: status 401 and no provider call. |
| CheckoutSession.ResponseCases | app/api/create-checkout-session/route.ts:45-51 | 200 exactly when signed in, the body is readable and the provider succeeds. A 200 carries only the session id. Every status is 200, 401 or 500. |
| CheckoutSession.MetadataUserIdFromSession | app/api/create-checkout-session/route.ts:39-40 | `metadata.userId` is the session's user id, whatever the body holds. |
| CheckoutSession.MetadataCarriesShipping | app/api/create-checkout-session/route.ts:35-41 | The metadata's shipping JSON reads back as the request's shipping information, and the customer email is its email. |
| CheckoutSession.RedirectUrls | app/api/create-checkout-session/route.ts:33-34 | The success URL starts with the base URL and ends with the session-id placeholder. The cancel URL is the base URL + "/cart". |
| CheckoutSession.ChargedCentsIsSum | app/api/create-checkout-session/route.ts:16-26 | For whole-cent prices, the line items charge 100 × the sum of price × quantity. |
| CheckoutSession.ChargedCentsMatchesCartTotal | app/api/create-checkout-session/route.ts:16-26 | For whole-cent prices, the line items charge 100 × the cart page's total. |
| ProductsPage.ClearFilters | app/products/page.tsx:66-73 | With the cleared filters, a product matches exactly when the search term is empty or found in its name: no drop-down excludes anything. |
| ProductsPage.GetPriceRange | app/products/page.tsx:75-88 | Every range has a minimum ≥ 0 below any finite maximum. |
| ProductsPage.FilteredProductsMatch | app/products/page.tsx:90-121 | A product is listed exactly when it is in the input and meets every active criterion, as many times as it occurs in the input. |
| ProductsPage.NoCriteriaKeepsAll | app/products/page.tsx:90-135 | No search term, no filter and "featured" give the input in its own order. |
| ProductsPage.RangesInclusive | app/products/page.tsx:112-118 | Both ends of a range pass it: 50 passes "under50" and "50to100", and likewise for 100 and 200. |
| ProductsPage.RangesExact | app/products/page.tsx:112-118 | For every price: "under50" admits exactly 0..50, "50to100" exactly 50..100, "100to200" exactly 100..200, and "over200" exactly the prices from 200 up, ends included. |
| ProductsPage.UnknownRangeKey | app/products/page.tsx:85-86 | An unknown range key gives minimum 0 and no maximum, which every non-negative price passes. |
| ProductsPage.LexLeTotalPreorder | app/products/page.tsx:128-131 | The two name orders are total preorders. |
| ProductsPage.SortOrders | app/products/page.tsx:122-135 | "price-asc" gives non-decreasing prices and "price-desc" non-increasing ones. The name orders are sorted by code point. |
| ProductsPage.SearchIgnoresCase | app/products/page.tsx:93 | Searching for the lower-cased term finds the same products as the term itself. |
| ProductsPage.CountActiveFilters | app/products/page.tsx:52-60 | The count is the number of non-empty filters. It is at most 4, and 0 exactly when every filter is cleared. |
| ProductsPage.ActiveFiltersCount | app/products/page.tsx:52-60 | The active filters number one per non-empty field. |
| ProductsPage.ClearFiltersCountsNone | app/products/page.tsx:66-73 | After clearing, no filter is active. |
| ProductsPage.ToggleFlipsMembership | app/products/page.tsx:62-64 | The toggle flips the id's membership and leaves every other id's unchanged. |
| ProductsPage.ToggleTwice | app/products/page.tsx:62-64 | Toggling twice restores every membership, and restores the list itself when the id was absent. |
| AdminPage.AdminGate | app/admin/page.tsx:28-32 | Products are fetched exactly when the role is "admin"; anyone else is redirected to "/". |
| AdminPage.SearchKeepsMatches | app/admin/page.tsx:57-60 | The search keeps exactly the products whose lower-cased name contains the lower-cased term. An empty term keeps every product, in order. |
| AdminPage.ToggleOrder | app/admin/page.tsx:184 | The order button always changes the order. |
| AdminPage.ToggleOrderTwice | app/admin/page.tsx:184 | Pressing it twice restores the order. |
| AdminPage.ComparatorIsTotalPreorder | app/admin/page.tsx:61-68 | Every field and direction gives a total preorder. |
| AdminPage.FilteredIsPermutedSearch | app/admin/page.tsx:57-68 | The listed rows are a rearrangement of the search results, and a sub-multiset of the products. |
| AdminPage.SortedColumns | app/admin/page.tsx:61-68 | Price and stock: "asc" is non-decreasing and "desc" non-increasing. Names are in code-point order either way. |
| AdminPage.ComputeStats | app/admin/page.tsx:70-75 | totalProducts is the number of products. lowStock is the number of positions whose stock is below 10, and activeProducts the number of active ones. totalValue is the sum of price × stock. |
| AdminPage.ReduceValueIsSum | app/admin/page.tsx:72 | The value `reduce` from any accumulator adds the sum of price × stock. |
| AdminPage.LowStockCountsBelowTen | app/admin/page.tsx:73 | Low stock equals the product count exactly when every stock is below 10, and is 0 exactly when none is. |
| AdminPage.FilterFullIffAll | app/admin/page.tsx:73-74 | A filter keeps every row exactly when all rows pass. |
| AdminPage.FilterEmptyIffNone | app/admin/page.tsx:73-74 | A filter keeps no row exactly when no row passes. |
| AdminPage.InventoryValueNonNegative | app/admin/page.tsx:72 | With non-negative prices and stock, the inventory value is non-negative. |
| AdminPage.LocalDeleteRemovesId | app/admin/page.tsx:231-238 | Exactly the rows with that id go, whatever status the request got. An id not listed changes nothing. |
| AdminPage.LocalDeleteKeepsOrder | app/admin/page.tsx:238 | Deleting from a concatenation deletes from each part, so the kept rows stay in order. |
| Seqs.FilterLengthCountsIndices | app/admin/page.tsx:73-74 | A filter's length is the number of positions whose element passes. |
| UserEmail.NamePatternIffName | src/models/User.ts:24 | `\w+([\.-]?\w+)*` matches exactly the word-character/separator chains that start and end with a word character and hold no two adjacent separators. |
| UserEmail.DomainPatternIffDomain | src/models/User.ts:24 | The domain part of the pattern matches exactly such a chain whose last separator is a '.' followed by two or three word characters. |
| UserEmail.NameThenLabelsIsDomain | src/models/User.ts:24 | A well-formed name followed by a chain ending in '.' and two or three word characters is accepted as a domain. |
| UserEmail.FirstAtAfterName | src/models/User.ts:24 | After a well-formed local part, the '@' that follows it is the first '@' of the address. |
| UserEmail.EmailPatternIffUserEmail | src/models/User.ts:23-26 | The whole pattern matches exactly what the scanning check accepts. |
| UserEmail.AcceptedShape | src/models/User.ts:24 | An accepted address contains '@', and has a '.' three or four characters from its end. |
| UserEmail.Examples | src/models/User.ts:24 | "a@b.com" is accepted and "a@b.c" rejected. |
| UserModel.ParseRole | src/models/User.ts:34-38 | A role is accepted exactly when it is "user" or "admin", and it is stored with that spelling. |
| UserModel.ValidateUser | src/models/User.ts:13-43 | Accepted exactly when the name is present and at most 50 UTF-16 code units long, the email is present and matches, the password is at least 6 code units long, and any role is in the enum. The record keeps the fields, with role "user" and the creation time as defaults. A rejection lists every failure. |
| UserModel.EmailReports | src/models/User.ts:19-27 | An empty email is reported only as missing; a non-matching one only as invalid. |
| UserModel.PasswordReports | src/models/User.ts:28-33 | An empty password is reported only as missing; a short one only as too short. |
| UserModel.OneViolationPerPath | src/models/User.ts:14-33 | No field reports two failures. |
| UserModel.ExampleAddresses | src/models/User.ts:19-27 | A user with "a@b.com" is created with the defaults, and one with "a@b.c" is refused as invalid. |
| UserModel.PasswordLimitCountsCodeUnits | src/models/User.ts:28-32 | A password of three emoji is six code units long and passes the minimum; five letters do not. |
| UserModel.NameLimitCountsCodeUnits | src/models/User.ts:14-18 | A name of 26 emoji, 26 characters but 52 code units, is too long. |
| UserModel.InsertUser | src/models/User.ts:22 | Creation succeeds exactly when the document is valid and its email is not stored yet, and then appends the record. |
| UserModel.InsertKeepsEmailsUnique | src/models/User.ts:22 | Insertion keeps every stored email distinct. |
| ProductModel.ImageViolations | src/models/Product.ts:38-43 | Every reported image failure names an in-range index whose entry is empty, and every empty entry's index is reported. |
| ProductModel.ViolationsWith | src/models/Product.ts:22-78 | A fixed-path or image failure is reported if and only if its validator fails for the given stored name; that each path reports one failure at most is OneViolationPerPathWith. |
| ProductModel.ValidateProduct | src/models/Product.ts:22-78 | Accepted exactly when: the trimmed name is non-empty and at most 100 UTF-16 code units long; description, material and color are non-empty; price, stock and capacity are given, with price and stock ≥ 0; no image entry is empty. The stored product is valid. Its name is the trimmed name, and every other given field is stored as given. The defaults apply: no images, no features, active, both dates the creation time. A rejection lists every failure. |
| ProductModel.Stored | src/models/Product.ts:22-78 | The product built from an accepted document satisfies every schema constraint. |
| ProductModel.NoViolationsAccepted | src/models/Product.ts:22-78 | A document with no failing validator meets every acceptance condition. |
| ProductModel.AcceptedHasNoViolations | src/models/Product.ts:22-78 | A document meeting every acceptance condition has no failing validator. |
| ProductModel.NameIsTrimmedFirst | src/models/Product.ts:23-28 | A white-space-only name is reported missing. The 100-unit limit applies to the trimmed name. |
| ProductModel.NameLimitCountsCodeUnits | src/models/Product.ts:27 | A name of 51 emoji, 51 characters but 102 code units, is too long. |
| ProductModel.NegativeAmountsRejected | src/models/Product.ts:33-48 | A negative price or stock is always reported. |
| ProductModel.OneViolationPerPath | src/models/Product.ts:23-48 | Name, price and stock each report at most one failure. |
| ProductModel.OneViolationPerPathWith | src/models/Product.ts:23-48 | The same, for any stored name. |
| ProductModel.EmptyImageReported | src/models/Product.ts:38-43 | An empty image entry is reported at its own index. |
| ProductModel.RevalidateStored | src/models/Product.ts:22-78 | Validating a stored valid product again gives the same product. |
| ProductsRoute.Status | app/api/products/route.ts:20-34 | The error statuses go to exactly the not-found and server-error replies; 201 goes to exactly a creation. |
| ProductsRoute.ApplyPatch | app/api/products/route.ts:41-45 | Each path the update gives replaces the stored value (a name trimmed), each path it leaves out keeps the stored value, and `updatedAt` is always the request time. |
| ProductsRoute.EmptyPatchTouchesOnlyDate | app/api/products/route.ts:41-45 | An update with no fields changes only `updatedAt`. |
| ProductsRoute.PatchIdempotent | app/api/products/route.ts:41-45 | Applying the same update twice gives the same product as applying it once. |
| ProductsRoute.PatchKeepsNameTrimmed | app/api/products/route.ts:41-45 | A trimmed stored name stays trimmed across updates. |
| ProductsRoute.PatchSkipsValidation | app/api/products/route.ts:41-45 | Updates run no validator: a valid product given price −1 is stored as it is and is no longer valid. |
| ProductsRoute.SoftDelete | app/api/products/route.ts:66-70 | A deleted product is inactive and carries the request time, with every other field unchanged. |
| ProductsRoute.SoftDeleteIsPatch | app/api/products/route.ts:61-70 | DELETE is the update `{ isActive: false }`. |
| ProductsRoute.SoftDeleteKeepsValid | app/api/products/route.ts:66-70 | A soft delete keeps a valid product valid, and deleting twice equals deleting once. |
| ProductsRoute.SoftDeleteKeepsAllValid | app/api/products/route.ts:66-70 | A soft delete keeps the id set, and keeps an all-valid collection all-valid. |
| ProductsRoute.StoreKeepsAllValid | app/api/products/route.ts:20-34 | Storing a validated product keeps an all-valid collection all-valid. |
| ProductsRoute.ProductStore.constructor | src/models/Product.ts:81-82 | The collection starts empty. |
| ProductsRoute.ProductStore.Get | app/api/products/route.ts:6-18 | The listing is the whole collection, inactive products included, with status 200. |
| ProductsRoute.ProductStore.Post | app/api/products/route.ts:20-34 | A created reply exactly when a body was read and it validates. The validated product is then stored under a fresh id, and nothing else changes. Otherwise 500, with the collection unchanged. |
| ProductsRoute.ProductStore.Put | app/api/products/route.ts:36-59 | An unknown id gives 404, with the collection unchanged. Otherwise the reply and the stored product are the update applied to the stored one, and every other product is unchanged. |
| ProductsRoute.ProductStore.Delete | app/api/products/route.ts:61-84 | An unknown id gives 404, with nothing changed. Otherwise the product stays, soft-deleted. The id set and every other product are unchanged, and validity is kept. |
| ProductsRoute.CreateThenDelete | app/api/products/route.ts:20-84 | A created and then deleted product is still listed, inactive. |
| Text.BlankIffTrimEmpty | app/checkout/page.tsx:114 | A string is blank exactly when `trim()` leaves it empty. |
| Text.TrimIdempotent | src/models/Product.ts:26 | Trimming twice equals trimming once. |
| Text.ToLowerIdempotent | app/products/page.tsx:93 | Lower-casing twice equals lower-casing once. |
| Text.ParseDecimalOfNatToString | app/products/page.tsx:98 | The decimal numeral of a whole number, as a capacity filter value, reads back as that number. |
| Text.Utf16Length | src/models/User.ts:17 | JavaScript's `length` lies between the number of characters and twice that. |
| Text.Utf16LengthAppend | src/models/User.ts:17 | The length of a concatenation is the sum of the lengths. |
| Text.Utf16LengthInPlane | src/models/User.ts:17 | Without characters beyond U+FFFF, the length is the number of characters. |
| Text.Utf16LengthOutsidePlane | src/models/User.ts:17 | With only characters beyond U+FFFF, the length is twice the number of characters. |
| Seqs.SortBySorted | app/products/page.tsx:122-135 | Sorting by a total preorder gives a sorted result. |
| Seqs.SortByAllEqual | app/products/page.tsx:132-133 | A comparator that finds everything equal keeps the input order. |

## Left out

- Fetching, navigation (`router.push`, `window.location`), `alert`, `window.scrollTo`, `loadStripe` and `redirectToCheckout` are I/O. So are the cart-API requests themselves: the model builds their bodies only.
- The loading and processing flags, and the rendering, have no logic to model.
- The checkout and admin effects re-running on session changes are not modelled. The checkout load is the constructor; the admin gate is a function of the role.
- Floating point is not modelled: `toFixed(2)`, the rounding error of `price * 100`, and `Number(...)` beyond plain decimal numerals. Prices are exact.
- `localeCompare` is replaced by code-point order. `toLowerCase` is ASCII only.
- JSON: only the object-of-strings form that `JSON.stringify` writes is read back. UTF-16 surrogate escapes are outside the model.
- Checkout.CheckoutPage.ValidateForm: the eight conditional assignments are modelled by the map they produce, `Checkout.FormErrors`. That map holds the message of the last check that fails for each field.
- Checkout.CheckoutPage.HandleInputChange: setting an error to `undefined` is modelled as removing the key. Nothing in the page tells the two apart.
- Checkout.CheckoutPage.HandleInputChange requires step 1, since the inputs are shown only on that step.
- Database connection failures, cast errors (a malformed id or a non-numeric price) and other thrown errors are modelled only where the route turns them into a 500: an unreadable body. POST and the checkout session model this; PUT and DELETE take their id and fields as already read.
- ProductsRoute.ProductStore: database object ids are natural numbers handed out in increasing order. The order of the GET listing is not modelled: the listing is the map.
- ProductsRoute.ApplyPatch: the `trim` setter is applied to an updated name, and no validator runs. Other Mongoose update operators in the body (`$set` and the like) are not modelled.
- JSON `null` and an absent path are the same `None`. A validator's behaviour on `null` values beyond that is not modelled.
- Mongoose mechanics beyond the schema constraints are not modelled: model registration, `select: false`, and the database's unique index. Uniqueness is the invariant `UserModel.UniqueEmails` kept by `UserModel.InsertUser`.
- The database connection cache, socket broadcasting, the mail transport and the Stripe wrapper are foreign code and are not part of this model. The payment provider is a function parameter of `CheckoutSession.Post`.
- Quantities and stock are integers on the pages. Non-integral inputs are not modelled.
