/**
 * The records of the shop's database and the database itself.
 *
 * Every controller action receives the authenticated caller's id as a plain
 * parameter; the tables live in one `Database` object whose fields the
 * actions reassign, one request at a time.
 */
module Models {

  type UserId = int
  type ProductId = int
  type CategoryId = int
  /** Position of an order in the orders table. */
  type OrderId = int
  /** Prices are `numeric` in the source; here they are whole cents. */
  type Money = int

  /** A request field as a validation rule sees it: not sent, sent but of the wrong kind, or a value. */
  datatype Param<T> = Absent | Malformed | Given(value: T)

  datatype Option<T> = None | Some(value: T)

  /** The pivot attributes of one cart line or order line. */
  datatype Line = Line(quantity: int, price: Money)

  /** A row of the products table. The image is kept as the path the content store returned. */
  datatype Product = Product(
    userId: UserId,
    name: string,
    description: string,
    price: Money,
    stock: int,
    isAvailable: bool,
    img: string,
    categoryId: CategoryId)

  /** A row of the categories table; a category is never removed, only made unavailable. */
  datatype Category = Category(name: string, isAvailable: bool)

  datatype OrderStatus = Pending

  /** A row of the orders table with its line items (product id to the quantity and price paid). */
  datatype Order = Order(userId: UserId, totalPrice: Money, status: OrderStatus, lines: map<ProductId, Line>)

  /**
   * Why an action failed: a validation rule rejected the request, a row was
   * missing, the row belongs to someone else, checkout found nothing to buy,
   * or the action threw for another reason.
   */
  datatype Error = Invalid | NotFound | Forbidden | CartVoid | ServerError

  datatype Result<T> = Ok(value: T) | Err(error: Error)

  /** Outcome of an action that changes the database and returns no value. */
  datatype Outcome = Done | Failed(error: Error)

  /** No two categories carry the same name. */
  ghost predicate UniqueNames(categories: map<CategoryId, Category>)
  {
    forall a, b :: a in categories && b in categories && a != b ==> categories[a].name != categories[b].name
  }

  class Database {
    var products: map<ProductId, Product>
    var categories: map<CategoryId, Category>
    /** A user's cart, if it exists, as its pivot rows: at most one cart per user. */
    var carts: map<UserId, map<ProductId, Line>>
    var orders: seq<Order>
    /** Auto-increment counters of the products and categories tables. */
    var nextProductId: ProductId
    var nextCategoryId: CategoryId

    /**
     * What every action keeps: fresh ids are above every used one, category
     * names are unique, prices are never negative, every cart line holds a
     * positive quantity and a non-negative price, and so every order total
     * is non-negative.
     */
    ghost predicate Valid()
      reads this
    {
      && (forall id :: id in products ==> id < nextProductId)
      && (forall id :: id in categories ==> id < nextCategoryId)
      && UniqueNames(categories)
      && (forall id :: id in products ==> products[id].price >= 0)
      && (forall u, p :: u in carts && p in carts[u] ==> carts[u][p].quantity >= 1 && carts[u][p].price >= 0)
      && (forall i :: 0 <= i < |orders| ==> orders[i].totalPrice >= 0)
    }

    /** A database with empty tables. */
    constructor ()
      ensures Valid()
      ensures products == map[] && categories == map[] && carts == map[] && orders == []
      ensures nextProductId == 1 && nextCategoryId == 1
    {
      products, categories, carts, orders := map[], map[], map[], [];
      nextProductId, nextCategoryId := 1, 1;
    }
  }
}
