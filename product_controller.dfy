/**
 * The product controller's writes: create a product, change some of its
 * fields, delete it. Each write first checks the request's fields against
 * the action's validation rules.
 */
module ProductController {
  import opened Models

  /**
   * The fields of a product request. The image is the path under which the
   * content store kept the uploaded file; a field that is not a valid image
   * upload arrives as `Malformed`.
   */
  datatype ProductInput = ProductInput(
    name: Param<string>,
    description: Param<string>,
    price: Param<Money>,
    stock: Param<int>,
    img: Param<string>,
    categoryId: Param<CategoryId>)

  /** Rules of `store`: every field is required and within its bounds; the category id need only be an integer. */
  predicate StoreRules(input: ProductInput): (r: bool)
    ensures r ==> && input.name.Given? && input.description.Given? && input.price.Given?
                  && input.stock.Given? && input.img.Given? && input.categoryId.Given?
    ensures r ==> && 3 <= |input.name.value| <= 100 && |input.description.value| >= 10
                  && input.price.value >= 0 && input.stock.value >= 0
    ensures && input.name.Given? && input.description.Given? && input.price.Given?
            && input.stock.Given? && input.img.Given? && input.categoryId.Given?
            && 3 <= |input.name.value| <= 100 && |input.description.value| >= 10
            && input.price.value >= 0 && input.stock.value >= 0
            ==> r
  {
    && input.name.Given? && 3 <= |input.name.value| <= 100
    && input.description.Given? && |input.description.value| >= 10
    && input.price.Given? && input.price.value >= 0
    && input.stock.Given? && input.stock.value >= 0
    && input.img.Given?
    && input.categoryId.Given?
  }

  /** A field of an `update` request is either left out or sent and satisfying `ok`. */
  predicate Sometimes<T>(field: Param<T>, ok: T -> bool)
  {
    match field
    case Absent => true
    case Malformed => false
    case Given(v) => ok(v)
  }

  /** The category id is that of an existing, available category. */
  predicate AvailableCategory(categories: map<CategoryId, Category>, id: CategoryId)
  {
    id in categories && categories[id].isAvailable
  }

  /**
   * Rules of `update`: every field may be left out; a field that is sent
   * obeys its bounds, the description is capped at 500 characters, and a
   * category id must name an existing, available category.
   */
  predicate UpdateRules(categories: map<CategoryId, Category>, input: ProductInput): (r: bool)
    ensures input == ProductInput(Absent, Absent, Absent, Absent, Absent, Absent) ==> r
    ensures || input.name.Malformed? || input.description.Malformed? || input.price.Malformed?
            || input.stock.Malformed? || input.img.Malformed? || input.categoryId.Malformed?
            ==> !r
    ensures r && input.name.Given? ==> 3 <= |input.name.value| <= 100
    ensures r && input.description.Given? ==> 10 <= |input.description.value| <= 500
    ensures r && input.price.Given? ==> input.price.value >= 0
    ensures r && input.stock.Given? ==> input.stock.value >= 0
    ensures r && input.categoryId.Given? ==>
      input.categoryId.value in categories && categories[input.categoryId.value].isAvailable
    ensures && (input.name.Absent? || (input.name.Given? && 3 <= |input.name.value| <= 100))
            && (input.description.Absent? || (input.description.Given? && 10 <= |input.description.value| <= 500))
            && (input.price.Absent? || (input.price.Given? && input.price.value >= 0))
            && (input.stock.Absent? || (input.stock.Given? && input.stock.value >= 0))
            && !input.img.Malformed?
            && (input.categoryId.Absent? || (input.categoryId.Given? && AvailableCategory(categories, input.categoryId.value)))
            ==> r
  {
    && Sometimes(input.name, (n: string) => 3 <= |n| <= 100)
    && Sometimes(input.description, (d: string) => 10 <= |d| <= 500)
    && Sometimes(input.price, (p: Money) => p >= 0)
    && Sometimes(input.stock, (s: int) => s >= 0)
    && Sometimes(input.img, (i: string) => true)
    && Sometimes(input.categoryId, (c: CategoryId) => AvailableCategory(categories, c))
  }

  /** The sent value of a field, or `current` when the field was left out. */
  function Or<T>(field: Param<T>, current: T): (r: T)
    ensures field.Given? ==> r == field.value
    ensures !field.Given? ==> r == current
  {
    if field.Given? then field.value else current
  }

  /**
   * The product after a partial update: every field sent in the request
   * takes its new value, every other field keeps its value, and the owner
   * and availability never change.
   */
  function Patched(product: Product, input: ProductInput): (r: Product)
    ensures r.userId == product.userId && r.isAvailable == product.isAvailable
    ensures input.name.Given? ==> r.name == input.name.value
    ensures !input.name.Given? ==> r.name == product.name
    ensures input.description.Given? ==> r.description == input.description.value
    ensures !input.description.Given? ==> r.description == product.description
    ensures input.price.Given? ==> r.price == input.price.value
    ensures !input.price.Given? ==> r.price == product.price
    ensures input.stock.Given? ==> r.stock == input.stock.value
    ensures !input.stock.Given? ==> r.stock == product.stock
    ensures input.img.Given? ==> r.img == input.img.value
    ensures !input.img.Given? ==> r.img == product.img
    ensures input.categoryId.Given? ==> r.categoryId == input.categoryId.value
    ensures !input.categoryId.Given? ==> r.categoryId == product.categoryId
  {
    product.(
      name := Or(input.name, product.name),
      description := Or(input.description, product.description),
      price := Or(input.price, product.price),
      stock := Or(input.stock, product.stock),
      img := Or(input.img, product.img),
      categoryId := Or(input.categoryId, product.categoryId))
  }

  /** The product `store` creates from valid input: owned by the caller and available. */
  function Created(user: UserId, input: ProductInput): (r: Product)
    requires StoreRules(input)
    ensures r.userId == user && r.isAvailable
    ensures r.price >= 0 && r.stock >= 0
    ensures r == Patched(r, input)
  {
    Product(user, input.name.value, input.description.value, input.price.value,
            input.stock.value, true, input.img.value, input.categoryId.value)
  }

  /**
   * Create a product for the caller. Input that breaks a rule is rejected
   * and nothing changes; otherwise the product is added under the next free
   * id, available and owned by the caller.
   */
  method Store(db: Database, user: UserId, input: ProductInput) returns (r: Result<ProductId>)
    requires db.Valid()
    modifies db`products, db`nextProductId
    ensures db.Valid()
    ensures !StoreRules(input) ==>
      r == Err(Invalid) && db.products == old(db.products) && db.nextProductId == old(db.nextProductId)
    ensures StoreRules(input) ==>
      && r == Ok(old(db.nextProductId))
      && r.value !in old(db.products)
      && db.products == old(db.products)[r.value := Created(user, input)]
      && db.nextProductId == old(db.nextProductId) + 1
  {
    if !StoreRules(input) {
      return Err(Invalid);
    }
    var id := db.nextProductId;
    db.products := db.products[id := Created(user, input)];
    db.nextProductId := id + 1;
    r := Ok(id);
  }

  /**
   * Change the fields of product `id` that the request sends. A missing
   * product is `NotFound`, checked before the fields; input that breaks
   * a rule is rejected. On failure nothing changes; on success only that
   * product changes, and only in the fields sent.
   */
  method Update(db: Database, id: ProductId, input: ProductInput) returns (r: Outcome)
    requires db.Valid()
    modifies db`products
    ensures db.Valid()
    ensures id !in old(db.products) ==> r == Failed(NotFound) && db.products == old(db.products)
    ensures id in old(db.products) && !UpdateRules(db.categories, input) ==>
      r == Failed(Invalid) && db.products == old(db.products)
    ensures id in old(db.products) && UpdateRules(db.categories, input) ==>
      r == Done && db.products == old(db.products)[id := Patched(old(db.products)[id], input)]
  {
    if id !in db.products {
      return Failed(NotFound);
    }
    if !UpdateRules(db.categories, input) {
      return Failed(Invalid);
    }
    db.products := db.products[id := Patched(db.products[id], input)];
    r := Done;
  }

  /**
   * Delete product `id`: exactly that row goes. A missing product makes the
   * lookup throw; the action answers with a server error and changes nothing.
   */
  method Destroy(db: Database, id: ProductId) returns (r: Outcome)
    requires db.Valid()
    modifies db`products
    ensures db.Valid()
    ensures id !in old(db.products) ==> r == Failed(ServerError) && db.products == old(db.products)
    ensures id in old(db.products) ==> r == Done && db.products == old(db.products) - {id}
  {
    if id !in db.products {
      return Failed(ServerError);
    }
    db.products := db.products - {id};
    r := Done;
  }

  /** An update that sends no field leaves the product as it was. */
  lemma EmptyPatch(product: Product)
    ensures Patched(product, ProductInput(Absent, Absent, Absent, Absent, Absent, Absent)) == product
  {
  }

  /** Sending the same update twice has the effect of sending it once. */
  lemma PatchIdempotent(product: Product, input: ProductInput)
    ensures Patched(Patched(product, input), input) == Patched(product, input)
  {
  }

  /** A later update wins over an earlier one in every field it sends. */
  lemma PatchLaterWins(product: Product, first: ProductInput, second: ProductInput)
    requires second.name.Given? && second.description.Given? && second.price.Given?
    requires second.stock.Given? && second.img.Given? && second.categoryId.Given?
    ensures Patched(Patched(product, first), second) == Patched(product, second)
  {
  }

  /** `store` accepts a category id no category has; `update` rejects the same request. */
  lemma StoreAcceptsUnknownCategory(categories: map<CategoryId, Category>, input: ProductInput)
    requires StoreRules(input) && input.categoryId.value !in categories
    ensures !UpdateRules(categories, input)
  {
  }

  /** `store` accepts the category of an unavailable category; `update` rejects it. */
  lemma StoreAcceptsUnavailableCategory(categories: map<CategoryId, Category>, input: ProductInput)
    requires StoreRules(input) && input.categoryId.value in categories
    requires !categories[input.categoryId.value].isAvailable
    ensures !UpdateRules(categories, input)
  {
  }

  /** `store` accepts a description longer than 500 characters; `update` rejects it. */
  lemma DescriptionCap(categories: map<CategoryId, Category>, input: ProductInput)
    requires StoreRules(input) && |input.description.value| > 500
    ensures !UpdateRules(categories, input)
  {
  }

  /**
   * Input valid for `store` with a description of at most 500 characters
   * and an available category is valid for `update` as well: the update
   * rules are otherwise no stricter.
   */
  lemma StoreInputUpdates(categories: map<CategoryId, Category>, input: ProductInput)
    requires StoreRules(input) && |input.description.value| <= 500
    requires AvailableCategory(categories, input.categoryId.value)
    ensures UpdateRules(categories, input)
  {
  }
}
