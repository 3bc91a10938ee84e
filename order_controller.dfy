/**
 * The order controller: checkout turns the caller's cart into a pending
 * order, and the caller reads back their own orders.
 */
module OrderController {
  import opened Models
  import opened CartModel

  /** Orders per page of the order listing. */
  const PerPage: nat := 10

  /**
   * The products table after checkout has taken `lines` out of stock: each
   * product in `lines` loses exactly its line quantity, with no floor at zero,
   * and nothing else about any product changes.
   */
  function Decremented(products: map<ProductId, Product>, lines: map<ProductId, Line>): (r: map<ProductId, Product>)
    ensures r.Keys == products.Keys
    ensures forall p :: p in products ==>
      r[p].stock == products[p].stock - (if p in lines then lines[p].quantity else 0)
    ensures forall p :: p in products ==> r[p] == products[p].(stock := r[p].stock)
  {
    map p | p in products :: if p in lines then products[p].(stock := products[p].stock - lines[p].quantity) else products[p]
  }

  /**
   * `r` is `products` with exactly the quantities of `lines` taken out of
   * stock: `r == Decremented(products, lines)` stated point by point.
   * Checkout's second loop keeps this form as its invariant, because a map
   * equality with `Decremented` in the invariant makes each iteration too
   * costly to check; `DecrementedMatches` turns it back into the equality.
   */
  ghost predicate Taken(products: map<ProductId, Product>, lines: map<ProductId, Line>, r: map<ProductId, Product>)
  {
    && r.Keys == products.Keys
    && forall q :: q in products ==>
         r[q] == if q in lines then products[q].(stock := products[q].stock - lines[q].quantity) else products[q]
  }

  /** Taking one more line out of stock, from a product not yet touched. */
  lemma TakenStep(products: map<ProductId, Product>, done: map<ProductId, Line>, cur: map<ProductId, Product>, p: ProductId, line: Line)
    requires Taken(products, done, cur) && p in products && p !in done
    ensures Taken(products, done[p := line], cur[p := cur[p].(stock := cur[p].stock - line.quantity)])
  {
    var next := cur[p := cur[p].(stock := cur[p].stock - line.quantity)];
    forall q | q in products
      ensures next[q] == if q in done[p := line] then products[q].(stock := products[q].stock - done[p := line][q].quantity) else products[q]
    {
      if q != p {
        assert next[q] == cur[q];
      }
    }
  }

  /** A products table that took exactly the quantities of `lines` out of stock is the decremented table. */
  lemma DecrementedMatches(products: map<ProductId, Product>, lines: map<ProductId, Line>, r: map<ProductId, Product>)
    requires Taken(products, lines, r)
    ensures r == Decremented(products, lines)
  {
    var d := Decremented(products, lines);
    assert forall q :: q in r <==> q in d;
    assert forall q :: q in r ==> r[q] == d[q];
  }

  /** Checkout does not check stock: a product can be sold below zero. */
  lemma StockMayGoNegative(product: Product)
    requires product.stock == 1
    ensures Decremented(map[7 := product], map[7 := Line(2, 100)])[7].stock == -1
  {
  }

  /** Checkout's first pass: the sum of price times quantity over the cart lines, visited in any order. */
  method SumLines(lines: map<ProductId, Line>) returns (total: Money)
    ensures total == Total(lines)
  {
    total := 0;
    var rest := lines;
    while rest != map[]
      invariant rest.Keys <= lines.Keys
      invariant forall p :: p in rest ==> rest[p] == lines[p]
      invariant total + Total(rest) == Total(lines)
      decreases |rest|
    {
      SomeLine(rest);
      var p :| p in rest;
      TotalPick(rest, p);
      total := total + Amount(rest[p]);
      assert (rest - {p}).Keys < rest.Keys;
      rest := rest - {p};
    }
  }

  /**
   * Checkout's second pass: every cart line is attached to the new order
   * with its own quantity and price, and its quantity is taken out of its
   * product's stock. Returns the order's lines and the products table after.
   */
  method AttachLines(products: map<ProductId, Product>, lines: map<ProductId, Line>)
    returns (attached: map<ProductId, Line>, stocked: map<ProductId, Product>)
    requires lines.Keys <= products.Keys
    ensures attached == lines
    ensures stocked == Decremented(products, lines)
  {
    attached, stocked := map[], products;
    var rest := lines;
    while rest != map[]
      invariant rest.Keys <= lines.Keys
      invariant attached.Keys == lines.Keys - rest.Keys
      invariant forall q :: q in rest ==> rest[q] == lines[q]
      invariant forall q :: q in attached ==> attached[q] == lines[q]
      invariant Taken(products, attached, stocked)
      decreases |rest|
    {
      SomeLine(rest);
      var p :| p in rest;
      var line := rest[p];
      TakenStep(products, attached, stocked, p, line);
      attached := attached[p := line];
      stocked := stocked[p := stocked[p].(stock := stocked[p].stock - line.quantity)];
      assert (rest - {p}).Keys < rest.Keys;
      rest := rest - {p};
    }
    assert rest.Keys == {};
    SameLines(attached, lines);
    DecrementedMatches(products, lines, stocked);
  }

  /**
   * Checkout. With no cart, or a cart whose relation yields no product, it
   * fails with `CartVoid` and changes nothing. Otherwise it creates one
   * pending order of the caller whose total is the cart total and whose
   * lines are the cart lines copied verbatim (quantity and the price stored
   * in the cart, not the product's current price), takes every line's
   * quantity out of its product's stock, and leaves the caller's cart
   * existing but empty; other carts and the categories are untouched.
   */
  method Checkout(db: Database, user: UserId) returns (r: Result<Order>)
    requires db.Valid()
    modifies db`products, db`orders, db`carts
    ensures db.Valid()
    ensures var lines := CartLines(old(db.carts), old(db.products), user);
      if lines == map[] then
        && r == Err(CartVoid)
        && db.products == old(db.products) && db.orders == old(db.orders) && db.carts == old(db.carts)
      else
        && r == Ok(Order(user, CartTotal(old(db.carts)[user], old(db.products)), Pending, lines))
        && db.orders == old(db.orders) + [r.value]
        && db.products == Decremented(old(db.products), lines)
        && db.carts == old(db.carts)[user := map[]]
  {
    var lines := CartLines(db.carts, db.products, user);
    if lines == map[] {
      return Err(CartVoid);
    }
    var total := SumLines(lines);
    var attached, stocked := AttachLines(db.products, lines);
    db.orders := db.orders + [Order(user, total, Pending, attached)];
    db.products := stocked;
    db.carts := db.carts[user := map[]];
    r := Ok(db.orders[|db.orders| - 1]);

    assert db.orders == old(db.orders) + [r.value];
    TotalNonNegative(lines);
    assert forall u, p :: u in db.carts && p in db.carts[u] ==> u in old(db.carts) && p in old(db.carts)[u] && db.carts[u][p] == old(db.carts)[u][p];
  }

  /**
   * Positions, from `from` on, of the orders that belong to `user`, in table
   * order: exactly those positions, each once, ascending.
   */
  function OwnFrom(orders: seq<Order>, user: UserId, from: nat): (r: seq<OrderId>)
    requires from <= |orders|
    ensures forall k :: 0 <= k < |r| ==> from <= r[k] < |orders| && orders[r[k]].userId == user
    ensures forall k, l :: 0 <= k < l < |r| ==> r[k] < r[l]
    ensures forall i :: from <= i < |orders| && orders[i].userId == user ==> i in r
    decreases |orders| - from
  {
    if from == |orders| then []
    else if orders[from].userId == user then [from] + OwnFrom(orders, user, from + 1)
    else OwnFrom(orders, user, from + 1)
  }

  /** The caller's orders, in table order. */
  function OwnOrders(orders: seq<Order>, user: UserId): (r: seq<OrderId>)
    ensures forall k :: 0 <= k < |r| ==> 0 <= r[k] < |orders| && orders[r[k]].userId == user
    ensures forall k, l :: 0 <= k < l < |r| ==> r[k] < r[l]
    ensures forall i :: 0 <= i < |orders| && orders[i].userId == user ==> i in r
  {
    OwnFrom(orders, user, 0)
  }

  /** The page asked for: the `page` query value when it is a whole number of at least 1, else the first page. */
  function CurrentPage(page: Param<int>): (r: int)
    ensures r >= 1
    ensures page.Given? && page.value >= 1 ==> r == page.value
    ensures !(page.Given? && page.value >= 1) ==> r == 1
  {
    if page.Given? && page.value >= 1 then page.value else 1
  }

  /**
   * The order listing: one page of at most ten of the caller's orders,
   * the slice of all the caller's orders that the page number selects.
   */
  function Index(orders: seq<Order>, user: UserId, page: Param<int>): (r: seq<OrderId>)
    ensures |r| <= PerPage
    ensures forall k :: 0 <= k < |r| ==> 0 <= r[k] < |orders| && orders[r[k]].userId == user
    ensures var own := OwnOrders(orders, user);
      var first := (CurrentPage(page) - 1) * PerPage;
      && (first >= |own| ==> r == [])
      && (first < |own| ==> |r| == (if |own| - first < PerPage then |own| - first else PerPage) && r == own[first..first + |r|])
  {
    var own := OwnOrders(orders, user);
    var first := (CurrentPage(page) - 1) * PerPage;
    if first >= |own| then []
    else if first + PerPage <= |own| then own[first..first + PerPage]
    else own[first..]
  }

  /**
   * One order with its lines. A missing order makes the lookup throw and
   * the action's catch-all answers with a server error; an order of
   * another user is `Forbidden` and is never returned.
   */
  function Show(orders: seq<Order>, user: UserId, id: OrderId): (r: Result<Order>)
    ensures r.Ok? <==> 0 <= id < |orders| && orders[id].userId == user
    ensures r.Ok? ==> r.value == orders[id]
    ensures r == Err(ServerError) <==> !(0 <= id < |orders|)
    ensures r == Err(Forbidden) <==> 0 <= id < |orders| && orders[id].userId != user
  {
    if !(0 <= id < |orders|) then Err(ServerError)
    else if orders[id].userId != user then Err(Forbidden)
    else Ok(orders[id])
  }

  /**
   * The order checkout appends is shown to its buyer and listed among the
   * buyer's orders, and every other order reads as before, to everyone.
   */
  lemma AppendedOrderVisible(orders: seq<Order>, order: Order, user: UserId, id: OrderId)
    ensures Show(orders + [order], order.userId, |orders|) == Ok(order)
    ensures |orders| in OwnOrders(orders + [order], order.userId)
    ensures 0 <= id < |orders| ==> Show(orders + [order], user, id) == Show(orders, user, id)
  {
  }

  /** An order can be shown to the caller exactly when it is among the orders listed to the caller. */
  lemma ShowAgreesWithListing(orders: seq<Order>, user: UserId, id: OrderId)
    ensures Show(orders, user, id).Ok? <==> id in OwnOrders(orders, user)
  {
  }
}
