/** The products API route (app/api/products/route.ts) over an in-memory collection: GET
    lists every stored product, POST creates one through the schema's validation, PUT
    applies a partial update without validation, and DELETE is a soft delete that clears
    `isActive`. */
module ProductsRoute {
  import opened Wrappers
  import opened Text
  import opened ProductModel

  /** The route's replies. */
  datatype Reply =
    | Listing(products: map<nat, Product>)
    | Created(id: nat, product: Product)
    | Updated(product: Product)
    | Deleted
    | NotFound
    | ServerError

  /** The HTTP status of a reply: the error statuses are exactly the failures. */
  function Status(reply: Reply): (code: int)
    ensures code >= 400 <==> reply.NotFound? || reply.ServerError?
    ensures reply.Created? <==> code == 201
  {
    match reply
    case Listing(_) => 200
    case Created(_, _) => 201
    case Updated(_) => 200
    case Deleted => 200
    case NotFound => 404
    case ServerError => 500
  }

  /** The `error` or `message` text a reply carries, when it has one. */
  function ReplyMessage(reply: Reply): Option<string> {
    match reply
    case Deleted => Some("Product deleted successfully")
    case NotFound => Some("Product not found")
    case ServerError => Some("Internal server error")
    case _ => None
  }

  /** `findByIdAndUpdate` with `{ ...updateData, updatedAt: Date.now() }`: each path the
      body gives replaces the stored one (the name through the `trim` setter), each path it
      leaves out keeps its stored value, `updatedAt` is always the request time, and no
      validator runs. */
  function ApplyPatch(p: Product, patch: ProductInput, now: int): (r: Product)
    ensures patch.name.Some? ==> r.name == Trim(patch.name.value)
    ensures patch.name.None? ==> r.name == p.name
    ensures patch.description.Some? ==> r.description == patch.description.value
    ensures patch.description.None? ==> r.description == p.description
    ensures patch.price.Some? ==> r.price == patch.price.value
    ensures patch.price.None? ==> r.price == p.price
    ensures patch.images.Some? ==> r.images == patch.images.value
    ensures patch.images.None? ==> r.images == p.images
    ensures patch.stock.Some? ==> r.stock == patch.stock.value
    ensures patch.stock.None? ==> r.stock == p.stock
    ensures patch.features.Some? ==> r.features == patch.features.value
    ensures patch.features.None? ==> r.features == p.features
    ensures patch.capacity.Some? ==> r.capacity == patch.capacity.value
    ensures patch.capacity.None? ==> r.capacity == p.capacity
    ensures patch.material.Some? ==> r.material == patch.material.value
    ensures patch.material.None? ==> r.material == p.material
    ensures patch.color.Some? ==> r.color == patch.color.value
    ensures patch.color.None? ==> r.color == p.color
    ensures patch.isActive.Some? ==> r.isActive == patch.isActive.value
    ensures patch.isActive.None? ==> r.isActive == p.isActive
    ensures patch.createdAt.Some? ==> r.createdAt == patch.createdAt.value
    ensures patch.createdAt.None? ==> r.createdAt == p.createdAt
    ensures r.updatedAt == now
  {
    Product(
      if patch.name.Some? then Trim(patch.name.value) else p.name,
      patch.description.GetOr(p.description),
      patch.price.GetOr(p.price),
      patch.images.GetOr(p.images),
      patch.stock.GetOr(p.stock),
      patch.features.GetOr(p.features),
      patch.capacity.GetOr(p.capacity),
      patch.material.GetOr(p.material),
      patch.color.GetOr(p.color),
      patch.isActive.GetOr(p.isActive),
      patch.createdAt.GetOr(p.createdAt),
      now)
  }

  /** The update that touches no path. */
  const EmptyPatch: ProductInput :=
    ProductInput(None, None, None, None, None, None, None, None, None, None, None, None)

  /** An empty body changes only the update time. */
  lemma EmptyPatchTouchesOnlyDate(p: Product, now: int)
    ensures ApplyPatch(p, EmptyPatch, now) == p.(updatedAt := now)
  {
  }

  /** Sending the same update twice stores the same product as sending it once. */
  lemma PatchIdempotent(p: Product, patch: ProductInput, now: int)
    ensures ApplyPatch(ApplyPatch(p, patch, now), patch, now) == ApplyPatch(p, patch, now)
  {
    var once := ApplyPatch(p, patch, now);
    if patch.name.Some? {
      TrimIdempotent(patch.name.value);
    }
    assert ApplyPatch(once, patch, now).name == once.name;
  }

  /** A stored name stays trimmed across updates. */
  lemma PatchKeepsNameTrimmed(p: Product, patch: ProductInput, now: int)
    requires Trim(p.name) == p.name
    ensures Trim(ApplyPatch(p, patch, now).name) == ApplyPatch(p, patch, now).name
  {
    if patch.name.Some? {
      TrimIdempotent(patch.name.value);
    }
  }

  /** Updates bypass the schema's validators: a valid product given a negative price is
      stored as it is and is no longer valid. */
  lemma PatchSkipsValidation(p: Product, now: int)
    requires ValidProduct(p)
    ensures var r := ApplyPatch(p, EmptyPatch.(price := Some(-1.0)), now);
      r.price == -1.0 && !ValidProduct(r)
  {
  }

  /** The soft delete: the product stays stored, inactive, with the request time, and with
      every other field as it was. */
  function SoftDelete(p: Product, now: int): (r: Product)
    ensures !r.isActive && r.updatedAt == now
    ensures r.(isActive := p.isActive, updatedAt := p.updatedAt) == p
  {
    p.(isActive := false, updatedAt := now)
  }

  /** DELETE is the update `{ isActive: false }`. */
  lemma SoftDeleteIsPatch(p: Product, now: int)
    ensures SoftDelete(p, now) == ApplyPatch(p, EmptyPatch.(isActive := Some(false)), now)
  {
  }

  /** A soft delete keeps a valid product valid, and deleting twice is deleting once. */
  lemma SoftDeleteKeepsValid(p: Product, now: int)
    ensures ValidProduct(p) ==> ValidProduct(SoftDelete(p, now))
    ensures SoftDelete(SoftDelete(p, now), now) == SoftDelete(p, now)
  {
  }

  ghost predicate AllValid(table: map<nat, Product>) {
    forall id :: id in table ==> ValidProduct(table[id])
  }

  /** Soft-deleting one product of a valid collection leaves it valid. */
  lemma SoftDeleteKeepsAllValid(table: map<nat, Product>, id: nat, now: int)
    requires id in table
    ensures table[id := SoftDelete(table[id], now)].Keys == table.Keys
    ensures AllValid(table) ==> AllValid(table[id := SoftDelete(table[id], now)])
  {
    SoftDeleteKeepsValid(table[id], now);
  }

  /** Storing a valid product in a valid collection leaves it valid. */
  lemma StoreKeepsAllValid(table: map<nat, Product>, id: nat, p: Product)
    requires ValidProduct(p)
    ensures AllValid(table) ==> AllValid(table[id := p])
  {
  }

  /** The product collection. Identifiers are handed out in increasing order, standing for
      the database's fresh object ids. */
  class ProductStore {
    var table: map<nat, Product>
    var nextId: nat

    ghost predicate Valid()
      reads this
    {
      forall id :: id in table ==> id < nextId
    }

    constructor ()
      ensures Valid()
      ensures table == map[] && nextId == 0
    {
      table := map[];
      nextId := 0;
    }

    /** GET: every stored product, the inactive ones included. */
    method Get() returns (reply: Reply)
      ensures reply.Listing? && reply.products == table
      ensures Status(reply) == 200
    {
      reply := Listing(table);
    }

    /** POST: the body is validated and stored under a fresh id with status 201; a missing
        body or a failed validation gives 500 and stores nothing. */
    method Post(body: Option<ProductInput>, now: int) returns (reply: Reply)
      requires Valid()
      modifies this
      ensures Valid()
      ensures reply.Created? <==> body.Some? && ValidateProduct(body.value, now).Ok?
      ensures reply.Created? ==>
        && reply.id == old(nextId) && reply.id !in old(table)
        && reply.product == ValidateProduct(body.value, now).value
        && table == old(table)[reply.id := reply.product]
        && nextId == old(nextId) + 1
      ensures !reply.Created? ==> reply == ServerError && table == old(table) && nextId == old(nextId)
      ensures AllValid(old(table)) ==> AllValid(table)
    {
      if body.None? {
        return ServerError;
      }
      var result := ValidateProduct(body.value, now);
      if result.Err? {
        return ServerError;
      }
      StoreKeepsAllValid(table, nextId, result.value);
      var id := nextId;
      table := table[id := result.value];
      nextId := nextId + 1;
      reply := Created(id, result.value);
    }

    /** PUT: the update applied to the stored product with status 200, or 404 and nothing
        changed when no product has that id. */
    method Put(id: nat, patch: ProductInput, now: int) returns (reply: Reply)
      requires Valid()
      modifies this
      ensures Valid()
      ensures nextId == old(nextId)
      ensures id !in old(table) ==> reply == NotFound && table == old(table)
      ensures id in old(table) ==>
        && reply == Updated(ApplyPatch(old(table)[id], patch, now))
        && table == old(table)[id := reply.product]
    {
      if id !in table {
        return NotFound;
      }
      var product := ApplyPatch(table[id], patch, now);
      table := table[id := product];
      reply := Updated(product);
    }

    /** DELETE: the product is kept but marked inactive, or 404 and nothing changed when no
        product has that id. */
    method Delete(id: nat, now: int) returns (reply: Reply)
      requires Valid()
      modifies this
      ensures Valid()
      ensures nextId == old(nextId)
      ensures table.Keys == old(table).Keys
      ensures id !in old(table) ==> reply == NotFound && table == old(table)
      ensures id in old(table) ==> reply == Deleted && table == old(table)[id := SoftDelete(old(table)[id], now)]
      ensures AllValid(old(table)) ==> AllValid(table)
    {
      if id !in table {
        return NotFound;
      }
      SoftDeleteKeepsAllValid(table, id, now);
      table := table[id := SoftDelete(table[id], now)];
      reply := Deleted;
    }
  }

  /** A created product is listed afterwards, and a deleted one still is, inactive. */
  method CreateThenDelete(body: ProductInput, now: int, later: int) returns (listed: Reply)
    requires ValidateProduct(body, now).Ok?
    ensures listed.Listing?
    ensures exists id :: id in listed.products && listed.products[id] == SoftDelete(ValidateProduct(body, now).value, later)
  {
    var store := new ProductStore();
    var created := store.Post(Some(body), now);
    var deleted := store.Delete(created.id, later);
    listed := store.Get();
    assert created.id in listed.products;
  }
}
