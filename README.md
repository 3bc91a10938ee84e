# A verified model of the ECommerce shop backend

The shop is a JSON backend for a small e-commerce site. Users keep a cart
of products, check it out into an order, and read back their own orders.
Staff manage the catalogue: categories, which are never removed but can be
made unavailable, and products, which belong to a category.

This project models the shop's business rules in Dafny.

- The database is one `Database` object (module `Models`) with four tables:
  - products: product id ↦ row;
  - categories: category id ↦ (name, availability);
  - carts: user id ↦ the cart's lines, where a line maps a product id to the pivot pair (quantity, price);
  - orders: a sequence of orders, each with its lines.

  `Valid()` is the invariant every action keeps:
  - new ids are above every used one;
  - category names are unique;
  - prices are never negative;
  - every cart line has a quantity of at least 1 and a non-negative price;
  - every order total is non-negative.
- Each controller is a module.
  - Actions that change the database are methods. Each `modifies` exactly the tables it touches and states the whole new state.
  - Read-only actions are functions.
- The ORM's pivot operations become map operations:
  - `syncWithoutDetaching` writes or overwrites one line;
  - `detach($id)` removes one key;
  - `detach()` empties the map.
- A cart's product relation (`LiveLines`) holds the pivot rows whose product still exists.
- Money is a whole number of cents.
- A request field is a `Param`: `Absent` (not sent), `Malformed` (sent, but not of the type its rule asks for) or `Given(value)`.
- The authenticated caller's id is a plain parameter of every action.

Checkout is modelled the way the source writes it, as two loops:
- `SumLines` adds price × quantity over the lines. Its loop invariant ties the running sum to the cart total `Total`.
- `AttachLines` copies each line to the order and takes its quantity out of stock.

Both loops visit the lines in an arbitrary order, picked with `:|`. `CartModel.TotalPick` proves that the total does not depend on that order.

Where the code does something a reader might not expect, the model follows the code:
- Every `findOrFail` except the one in product `update` runs inside `try { … } catch (\Throwable)`. A missing id therefore answers with the catch-all server error (`ServerError`), not a not-found error. Only product `update` gives `NotFound`, because its lookup runs before the `try`.
- Product `store` accepts any integer category id. Only `update` requires an existing, available category (how that rule is read is noted under "Left out").
- Checkout never checks stock, so stock can go below zero (`OrderController.StockMayGoNegative`).
- A repeated cart add overwrites the line; it does not add to it (`CartController.AddOverwrites`).

## Model

| member | source | states |
|---|---|---|
| CartModel.Amount | app/Models/Cart.php:34 | a line's amount is pivot price × pivot quantity; it is non-negative for a non-negative price and quantity, and zero for quantity zero |
| CartModel.TotalPick | app/Models/Cart.php:33-35 | the cart total can be computed by taking out any line first, so the order in which the lines are summed does not change the total |
| CartModel.TotalOfEmpty | app/Models/Cart.php:33 | a cart without lines totals 0 |
| CartModel.TotalNonNegative | app/Models/Cart.php:33-35 | if every line has price ≥ 0 and quantity ≥ 1, the total is ≥ 0 |
| CartModel.TotalAfterWrite | app/Models/Cart.php:33-35 | writing one line replaces that product's contribution to the total and leaves the rest of the sum unchanged |
| CartModel.TotalExample | app/Models/Cart.php:32-36 | 2 units at 10.00 plus 1 unit at 5.00 total 25.00 |
| CartModel.LiveLines | app/Models/Cart.php:28-30 | the cart's products relation holds exactly the pivot rows whose product exists, each with its own quantity and price |
| CartModel.CartLines | app/Http/Controllers/CartController.php:15-25 | a user without a cart has no lines; otherwise the lines are the cart's live pivot rows, all of existing products |
| CartModel.CartTotal | app/Models/Cart.php:32-36 | the `total` attribute is 0 for a cart whose relation is empty, and non-negative when all lines respect the cart rules |
| OrderController.Decremented | app/Http/Controllers/OrderController.php:78-79 | each product in the order loses exactly its line quantity of stock, with no floor; products not in the order and every other field stay unchanged |
| OrderController.StockMayGoNegative | app/Http/Controllers/OrderController.php:78 | buying 2 units of a product with stock 1 leaves stock -1: nothing checks that stock suffices |
| OrderController.SumLines | app/Http/Controllers/OrderController.php:61-64 | the first checkout loop computes exactly the cart total of the lines |
| OrderController.AttachLines | app/Http/Controllers/OrderController.php:73-80 | the second checkout loop gives the order exactly the cart lines, quantity and price copied verbatim, and decrements stock as `Decremented` states |
| OrderController.Checkout | app/Http/Controllers/OrderController.php:46-96 | no cart, or no lines: `CartVoid` and nothing changes. Otherwise one new order is appended with status Pending, owned by the caller, with total = the cart total and lines = the cart lines; stock is decremented by the lines; the caller's cart remains but is empty; other carts are unchanged; `Valid` is kept |
| OrderController.OwnOrders | app/Http/Controllers/OrderController.php:24 | the caller's orders are exactly the positions of orders whose user is the caller, ascending, each once |
| OrderController.CurrentPage | app/Http/Controllers/OrderController.php:26 | the page is the requested number when that is at least 1, and page 1 otherwise |
| OrderController.Index | app/Http/Controllers/OrderController.php:20-38 | a page holds at most 10 orders, all the caller's; it is the slice of the caller's orders that the page number selects, and it is empty past the last page |
| OrderController.Show | app/Http/Controllers/OrderController.php:104-128 | an order is returned exactly when it exists and belongs to the caller; another user's order gives `Forbidden` and never the order; a missing id gives `ServerError` |
| OrderController.AppendedOrderVisible | app/Http/Controllers/OrderController.php:67-70 | the order checkout appends is shown to its buyer and listed among the buyer's orders; every earlier order reads as before, for every user |
| OrderController.ShowAgreesWithListing | app/Http/Controllers/OrderController.php:108-116 | an order can be shown to the caller if and only if it is in the caller's order listing |
| CartController.ValidQuantity | app/Http/Controllers/CartController.php:45-47 | the quantity rule rejects a missing or non-integer quantity, and accepts an integer exactly when it is at least 1 |
| CartController.Show | app/Http/Controllers/CartController.php:12-41 | a user without a cart sees an empty product list (no cart is created); otherwise the cart's live lines |
| CartController.WithCart | app/Http/Controllers/CartController.php:50-53 | after `firstOrCreate` the caller has exactly one cart, which is new and empty if there was none; other carts are unchanged |
| CartController.Synced | app/Http/Controllers/CartController.php:57-62 | after the upsert, the product's line is the new line whether or not it was present before; every other line is unchanged |
| CartController.Added | app/Http/Controllers/CartController.php:50-62 | a successful add creates the cart if needed and upserts one line; other users' carts are unchanged |
| CartController.Removed | app/Http/Controllers/CartController.php:84-88 | removing takes out only that product's line and keeps the others; without a cart nothing changes |
| CartController.Cleared | app/Http/Controllers/CartController.php:106-110 | clearing leaves the caller's cart existing but empty; without a cart nothing changes; other carts are unchanged |
| CartController.AddProduct | app/Http/Controllers/CartController.php:43-79 | a quantity that is missing, not an integer or below 1 is rejected before any change. Otherwise the cart is created if absent; then a missing product gives `ServerError` with the new cart kept, or the line is set to (quantity, the product's current price); `Valid` is kept |
| CartController.RemoveProduct | app/Http/Controllers/CartController.php:81-101 | always succeeds, and the carts become `Removed` |
| CartController.Clear | app/Http/Controllers/CartController.php:103-123 | always succeeds, and the carts become `Cleared` |
| CartController.AddOverwrites | app/Http/Controllers/CartController.php:155-159 | adding the same product twice gives the same carts as adding only the second time: quantities are overwritten, not summed |
| CartController.AddTwiceExample | app/Http/Controllers/CartController.php:57-62 | adding 2 units and then 5 units of a product leaves 5 units |
| CartController.AddedTotal | app/Http/Controllers/CartController.php:57-62 | after an add, the cart total is the other lines' total plus the new line's amount |
| CartController.ClearIdempotent | app/Http/Controllers/CartController.php:106-110 | clearing twice is clearing once |
| CartController.RemoveIdempotent | app/Http/Controllers/CartController.php:84-88 | removing the same product twice is removing it once |
| CartController.ClearedIsEmpty | app/Http/Controllers/CartController.php:106-110 | a cleared cart is shown with no products and totals 0 |
| CategoryController.Index | app/Http/Controllers/CategoryController.php:18-35 | the available and unavailable lists are disjoint and together cover every category; each list holds exactly the categories with its availability flag |
| CategoryController.Show | app/Http/Controllers/CategoryController.php:77-91 | any existing category is returned, available or not; a missing id gives `ServerError` |
| CategoryController.StoreNameOk | app/Http/Controllers/CategoryController.php:47-49 | `store` rejects a missing name; a sent name passes exactly when it has 3 to 100 characters and differs from the name of every category, available or not |
| CategoryController.UpdateNameOk | app/Http/Controllers/CategoryController.php:104-106 | `update` accepts a request without a name and rejects a malformed one; a sent name passes exactly when it has 3 to 100 characters and differs from the name of every other category |
| CategoryController.SoftDeleted | app/Http/Controllers/CategoryController.php:138-139 | deleting keeps the row and its name, flips only its availability to false, and changes no other category |
| CategoryController.Store | app/Http/Controllers/CategoryController.php:45-67 | a name that is missing, outside 3..100 characters or already used by any category is rejected with no change; otherwise a new available category gets the next free id; unique names are kept |
| CategoryController.Update | app/Http/Controllers/CategoryController.php:102-125 | the name is validated first (malformed, outside 3..100, or used by another category → `Invalid`); then a missing id or a request without a name → `ServerError`; failure changes nothing; success changes only that category's name; unique names are kept |
| CategoryController.Destroy | app/Http/Controllers/CategoryController.php:135-150 | a missing id gives `ServerError` and no change; otherwise the categories become `SoftDeleted` |
| CategoryController.DestroyedIsUnavailable | app/Http/Controllers/CategoryController.php:139 | a deleted category appears in the unavailable list and not in the available one |
| CategoryController.DestroyIdempotent | app/Http/Controllers/CategoryController.php:139 | deleting twice is deleting once |
| CategoryController.DestroyKeepsRows | app/Http/Controllers/CategoryController.php:138-139 | after a delete, the listing still covers every category |
| CategoryController.SoftDeleteKeepsUnique | app/Http/Controllers/CategoryController.php:139 | deleting never makes two categories share a name |
| CategoryController.UpdateNameRules | app/Http/Controllers/CategoryController.php:105 | a category may keep its own name on update, but can never take another category's name |
| CategoryController.StoreRejectsUsedName | app/Http/Controllers/CategoryController.php:48 | creating a category with the name of an existing one, available or not, is rejected |
| ProductController.StoreRules | app/Http/Controllers/ProductController.php:46-53 | `store` accepts input exactly when every field is sent, the name has 3 to 100 characters, the description at least 10, price and stock are at least 0, and the category id is any integer |
| ProductController.UpdateRules | app/Http/Controllers/ProductController.php:119-126 | `update` accepts a request that sends no field, rejects any malformed field, and otherwise accepts exactly when each sent field is in bounds: name 3 to 100 characters, description 10 to 500, price and stock at least 0, category id of an existing, available category |
| ProductController.Patched | app/Http/Controllers/ProductController.php:135 | each field sent takes its new value and each field not sent keeps its value; owner and availability never change |
| ProductController.Created | app/Http/Controllers/ProductController.php:56-64 | a new product is owned by the caller, available, and carries every field of the request, with price and stock ≥ 0 |
| ProductController.Store | app/Http/Controllers/ProductController.php:44-78 | input breaking a store rule is rejected with no change; otherwise `Created` is added under the next free id; `Valid` is kept |
| ProductController.Update | app/Http/Controllers/ProductController.php:114-149 | a missing id gives `NotFound` before validation; input breaking an update rule gives `Invalid`; failure changes nothing; success changes only that product, by `Patched`; `Valid` is kept |
| ProductController.Destroy | app/Http/Controllers/ProductController.php:159-173 | a missing id gives `ServerError` and no change; otherwise exactly that product is removed |
| ProductController.EmptyPatch | app/Http/Controllers/ProductController.php:135 | an update that sends no field leaves the product as it was |
| ProductController.PatchIdempotent | app/Http/Controllers/ProductController.php:135 | sending the same update twice is sending it once |
| ProductController.PatchLaterWins | app/Http/Controllers/ProductController.php:135 | a later update that sends every field fully replaces an earlier one |
| ProductController.StoreAcceptsUnknownCategory | app/Http/Controllers/ProductController.php:52 | input that `store` accepts with a category id no category has is rejected by `update` |
| ProductController.StoreAcceptsUnavailableCategory | app/Http/Controllers/ProductController.php:125 | input that `store` accepts with an unavailable category is rejected by `update` |
| ProductController.DescriptionCap | app/Http/Controllers/ProductController.php:121 | input that `store` accepts with a description over 500 characters is rejected by `update` |
| ProductController.StoreInputUpdates | app/Http/Controllers/ProductController.php:119-126 | store-valid input with a description of at most 500 characters and an available category is also update-valid |

## Left out

- Authentication, registration, tokens, routes, middleware and rate limiting. The caller's id is a parameter.
- Product `index` and `show`: they are listing and lookup queries with eager loading. They hold no business rule beyond what the other reads show.
- Image upload and deletion through the content store. The product's `img` field is the stored path, taken as given. The deletion of the old file on update is not modelled.
- Pagination metadata and the JSON envelope. Status codes appear only as the `Error` kinds. The exception message that the catch-all returns is not modelled.
- Eager loading of categories and users in responses. The cart `show` returns the lines without the cart's id.
- OrderController.Checkout: the source creates the order row first and then saves each product inside the second loop. The model writes the order and the products table once both loops are done. The final state is the same when each request runs on its own.
- Transactions and concurrency. Each request is one sequential step, so a partial checkout or a race between two checkouts cannot occur in the model.
- Database collation. Category names are compared exactly, with no case folding.
- Foreign-key behaviour. The schema is not part of this model. A cart line whose product was deleted stays in the pivot map but is hidden from every read, as the relation query does.
- OrderController.Show and OrderController.Index: an order keeps all its lines, and `Show` returns every one of them. The source loads order lines through a join on products, so a line whose product was deleted afterwards would be missing from the response. Whether that happens depends on the schema's foreign keys, which are not part of this model.
- CategoryController.Store: a new category is assumed to be available. Its `is_available` column default comes from a migration that is not part of this model.
- Order ids are positions in the orders table. The listing keeps table order, because the query sorts nothing.
- Route ids are integers. A non-numeric id in the URL behaves like a missing one.
- ProductController.UpdateRules: the category rule `exists:categories,id,is_available,true` is read as "the category's `is_available` is true". The rule compares the boolean column with the string `'true'`. That reading holds only if the database compares the two the way PostgreSQL does. On MySQL the string converts to 0, so the rule would accept only unavailable categories. The database engine is not part of this model. `StoreAcceptsUnavailableCategory` and `StoreInputUpdates` rest on the same reading.
- Prices are whole cents. The source's `numeric` column may hold fractions of a cent, and those are not modelled.
