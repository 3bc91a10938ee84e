/**
 * The cart controller: show the caller's cart, add a product to it (the
 * cart is created on first use), remove one product, clear it.
 */
module CartController {
  import opened Models
  import opened CartModel

  /** What `show` answers: no cart yet (an empty product list), or the cart's lines. */
  datatype CartView = Void | Listing(lines: map<ProductId, Line>)

  /** The products a cart view lists. */
  function Listed(view: CartView): map<ProductId, Line>
  {
    match view
    case Void => map[]
    case Listing(lines) => lines
  }

  /**
   * Show the caller's cart. Without a cart the answer is an empty product
   * list (and no cart is created); otherwise it lists the lines whose
   * product exists, each with its pivot quantity and price.
   */
  function Show(carts: map<UserId, map<ProductId, Line>>, products: map<ProductId, Product>, user: UserId): (r: CartView)
    ensures r.Void? <==> user !in carts
    ensures Listed(r) == CartLines(carts, products, user)
  {
    if user !in carts then Void else Listing(LiveLines(carts[user], products))
  }

  /** The quantity rule of `addProduct`: required, an integer, at least 1. */
  predicate ValidQuantity(quantity: Param<int>): (r: bool)
    ensures !quantity.Given? ==> !r
    ensures quantity.Given? ==> (r <==> quantity.value >= 1)
  {
    quantity.Given? && quantity.value >= 1
  }

  /**
   * The carts table after `firstOrCreate`: the caller has a cart, a new
   * one being empty; nobody else's cart changes.
   */
  function WithCart(carts: map<UserId, map<ProductId, Line>>, user: UserId): (r: map<UserId, map<ProductId, Line>>)
    ensures r.Keys == carts.Keys + {user}
    ensures forall u :: u in carts ==> r[u] == carts[u]
    ensures user !in carts ==> r[user] == map[]
  {
    if user in carts then carts else carts[user := map[]]
  }

  /**
   * The cart's lines after `syncWithoutDetaching` with one product: that
   * product's line becomes `line` whether or not it was there before, and
   * every other line stays as it was.
   */
  function Synced(lines: map<ProductId, Line>, p: ProductId, line: Line): (r: map<ProductId, Line>)
    ensures r.Keys == lines.Keys + {p}
    ensures r[p] == line
    ensures forall q :: q in lines && q != p ==> r[q] == lines[q]
  {
    lines[p := line]
  }

  /** The carts table after a successful add of `line` for product `p`. */
  function Added(carts: map<UserId, map<ProductId, Line>>, user: UserId, p: ProductId, line: Line): (r: map<UserId, map<ProductId, Line>>)
    ensures r.Keys == carts.Keys + {user}
    ensures forall u :: u in carts && u != user ==> r[u] == carts[u]
    ensures r[user] == Synced(WithCart(carts, user)[user], p, line)
  {
    var withCart := WithCart(carts, user);
    withCart[user := Synced(withCart[user], p, line)]
  }

  /** The carts table after removing product `p` from the caller's cart; nothing happens without a cart. */
  function Removed(carts: map<UserId, map<ProductId, Line>>, user: UserId, p: ProductId): (r: map<UserId, map<ProductId, Line>>)
    ensures r.Keys == carts.Keys
    ensures forall u :: u in carts && u != user ==> r[u] == carts[u]
    ensures user in carts ==> p !in r[user] && r[user].Keys == carts[user].Keys - {p}
    ensures user in carts ==> forall q :: q in r[user] ==> r[user][q] == carts[user][q]
  {
    if user in carts then carts[user := carts[user] - {p}] else carts
  }

  /** The carts table after clearing the caller's cart: the cart stays, without lines; nothing happens without a cart. */
  function Cleared(carts: map<UserId, map<ProductId, Line>>, user: UserId): (r: map<UserId, map<ProductId, Line>>)
    ensures r.Keys == carts.Keys
    ensures forall u :: u in carts && u != user ==> r[u] == carts[u]
    ensures user in carts ==> r[user] == map[]
  {
    if user in carts then carts[user := map[]] else carts
  }

  /**
   * Add product `id` with `quantity` to the caller's cart. A quantity that
   * is missing, not an integer or below 1 is rejected before anything
   * changes. Otherwise the cart is created if the caller has none; then a
   * missing product makes the lookup throw and the action answers with a
   * server error (the new cart stays), and an existing one gets
   * its line set to the new quantity and the product's current price,
   * replacing any earlier line of that product.
   */
  method AddProduct(db: Database, user: UserId, id: ProductId, quantity: Param<int>) returns (r: Outcome)
    requires db.Valid()
    modifies db`carts
    ensures db.Valid()
    ensures !ValidQuantity(quantity) ==> r == Failed(Invalid) && db.carts == old(db.carts)
    ensures ValidQuantity(quantity) && id !in db.products ==>
      r == Failed(ServerError) && db.carts == WithCart(old(db.carts), user)
    ensures ValidQuantity(quantity) && id in db.products ==>
      r == Done && db.carts == Added(old(db.carts), user, id, Line(quantity.value, db.products[id].price))
  {
    if !ValidQuantity(quantity) {
      return Failed(Invalid);
    }
    if user !in db.carts {
      db.carts := db.carts[user := map[]];
    }
    if id !in db.products {
      return Failed(ServerError);
    }
    var product := db.products[id];
    db.carts := db.carts[user := db.carts[user][id := Line(quantity.value, product.price)]];
    r := Done;
  }

  /** Remove product `id` from the caller's cart. Always succeeds; a missing cart or line changes nothing. */
  method RemoveProduct(db: Database, user: UserId, id: ProductId) returns (r: Outcome)
    requires db.Valid()
    modifies db`carts
    ensures db.Valid()
    ensures r == Done && db.carts == Removed(old(db.carts), user, id)
  {
    if user in db.carts {
      db.carts := db.carts[user := db.carts[user] - {id}];
    }
    r := Done;
  }

  /** Remove every line of the caller's cart, keeping the cart. Always succeeds; without a cart nothing changes. */
  method Clear(db: Database, user: UserId) returns (r: Outcome)
    requires db.Valid()
    modifies db`carts
    ensures db.Valid()
    ensures r == Done && db.carts == Cleared(old(db.carts), user)
  {
    if user in db.carts {
      db.carts := db.carts[user := map[]];
    }
    r := Done;
  }

  /** Adding a product already in the cart replaces its line: the quantities are not summed. */
  lemma AddOverwrites(carts: map<UserId, map<ProductId, Line>>, user: UserId, p: ProductId, first: Line, second: Line)
    ensures Added(Added(carts, user, p, first), user, p, second) == Added(carts, user, p, second)
  {
    var once := Added(carts, user, p, second);
    var twice := Added(Added(carts, user, p, first), user, p, second);
    SameLines(twice[user], once[user]);
    assert forall u :: u in twice <==> u in once;
    assert forall u :: u in twice ==> twice[u] == once[u];
  }

  /** Adding 2 units and then 5 units of the same product leaves a line of 5 units. */
  lemma AddTwiceExample(carts: map<UserId, map<ProductId, Line>>, user: UserId, p: ProductId, price: Money)
    ensures Added(Added(carts, user, p, Line(2, price)), user, p, Line(5, price))[user][p].quantity == 5
  {
  }

  /** After an add the cart total is the total of the other lines plus the new line's amount. */
  lemma AddedTotal(carts: map<UserId, map<ProductId, Line>>, user: UserId, p: ProductId, line: Line)
    ensures Total(Added(carts, user, p, line)[user]) == Total(WithCart(carts, user)[user] - {p}) + Amount(line)
  {
    TotalAfterWrite(WithCart(carts, user)[user], p, line);
  }

  /** Clearing twice is clearing once. */
  lemma ClearIdempotent(carts: map<UserId, map<ProductId, Line>>, user: UserId)
    ensures Cleared(Cleared(carts, user), user) == Cleared(carts, user)
  {
  }

  /** Removing the same product twice is removing it once. */
  lemma RemoveIdempotent(carts: map<UserId, map<ProductId, Line>>, user: UserId, p: ProductId)
    ensures Removed(Removed(carts, user, p), user, p) == Removed(carts, user, p)
  {
    if user in carts {
      assert carts[user] - {p} - {p} == carts[user] - {p};
    }
  }

  /** A cleared cart shows no products and totals zero. */
  lemma ClearedIsEmpty(carts: map<UserId, map<ProductId, Line>>, products: map<ProductId, Product>, user: UserId)
    requires user in carts
    ensures Show(Cleared(carts, user), products, user) == Listing(map[])
    ensures CartTotal(Cleared(carts, user)[user], products) == 0
  {
    assert LiveLines(map[], products) == map[];
  }
}
