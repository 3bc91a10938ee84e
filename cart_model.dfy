/**
 * The Cart model: the cart-product relation with its pivot attributes
 * (quantity, price) and the cart total.
 */
module CartModel {
  import opened Models

  /** What one line contributes to a total: pivot price times pivot quantity. */
  function Amount(line: Line): (r: Money)
    ensures line.price >= 0 && line.quantity >= 0 ==> r >= 0
    ensures line.quantity == 0 ==> r == 0
  {
    line.price * line.quantity
  }

  /**
   * Sum of the amounts of all lines. The lines of a relation come in no
   * particular order, so the sum takes them in an arbitrary one; `TotalPick`
   * shows the choice does not matter.
   */
  ghost function Total(lines: map<ProductId, Line>): Money
    decreases |lines|
  {
    if exists p :: p in lines then
      var p :| p in lines;
      assert (lines - {p}).Keys < lines.Keys;
      Amount(lines[p]) + Total(lines - {p})
    else
      0
  }

  /** A line map with no lines is the empty map; otherwise one of its lines can be picked. */
  lemma SomeLine(lines: map<ProductId, Line>)
    requires lines != map[]
    ensures exists p :: p in lines
  {
    if forall p :: p !in lines {
      assert false;
    }
  }

  /** The total may be computed by taking out any line first. */
  lemma {:induction false} TotalPick(lines: map<ProductId, Line>, q: ProductId)
    requires q in lines
    ensures Total(lines) == Amount(lines[q]) + Total(lines - {q})
    decreases |lines|
  {
    var p :| p in lines && Total(lines) == Amount(lines[p]) + Total(lines - {p});
    if p != q {
      var both := lines - {p} - {q};
      assert (lines - {p}).Keys < lines.Keys;
      TotalPick(lines - {p}, q);
      assert lines - {p} - {q} == both;
      assert (lines - {q}).Keys < lines.Keys;
      TotalPick(lines - {q}, p);
      assert lines - {q} - {p} == both;
    }
  }

  lemma TotalOfEmpty()
    ensures Total(map[]) == 0
  {
  }

  /** A cart whose lines all have a non-negative price and a positive quantity has a non-negative total. */
  lemma {:induction false} TotalNonNegative(lines: map<ProductId, Line>)
    requires forall p :: p in lines ==> lines[p].price >= 0 && lines[p].quantity >= 1
    ensures Total(lines) >= 0
    decreases |lines|
  {
    if lines != map[] {
      SomeLine(lines);
      var p :| p in lines;
      TotalPick(lines, p);
      assert (lines - {p}).Keys < lines.Keys;
      TotalNonNegative(lines - {p});
    }
  }

  /** Writing one line replaces that line's contribution to the total and leaves the rest. */
  lemma TotalAfterWrite(lines: map<ProductId, Line>, p: ProductId, line: Line)
    ensures Total(lines[p := line]) == Total(lines - {p}) + Amount(line)
  {
    TotalPick(lines[p := line], p);
    assert lines[p := line] - {p} == lines - {p};
  }

  /** A cart holding 2 units at 10.00 and 1 unit at 5.00 totals 25.00. */
  lemma TotalExample()
    ensures Total(map[1 := Line(2, 1000), 2 := Line(1, 500)]) == 2500
  {
    var lines := map[1 := Line(2, 1000), 2 := Line(1, 500)];
    TotalPick(lines, 1);
    assert lines - {1} == map[2 := Line(1, 500)];
    TotalPick(map[2 := Line(1, 500)], 2);
    assert map[2 := Line(1, 500)] - {2} == map[];
  }

  /** Two line maps with the same products and the same line for each product are equal. */
  lemma SameLines(a: map<ProductId, Line>, b: map<ProductId, Line>)
    requires a.Keys == b.Keys
    requires forall q :: q in a ==> a[q] == b[q]
    ensures a == b
  {
    assert forall q :: q in a <==> q in b;
    assert forall q :: q in a ==> a[q] == b[q];
  }

  /**
   * The cart's product relation as the ORM yields it: the pivot rows whose
   * product still exists, each with its own pivot attributes.
   */
  function LiveLines(lines: map<ProductId, Line>, products: map<ProductId, Product>): (r: map<ProductId, Line>)
    ensures r.Keys == lines.Keys * products.Keys
    ensures forall p :: p in r ==> r[p] == lines[p]
  {
    map p | p in lines && p in products :: lines[p]
  }

  /** The caller's cart lines, or none when the caller has no cart yet. */
  function CartLines(carts: map<UserId, map<ProductId, Line>>, products: map<ProductId, Product>, user: UserId): (r: map<ProductId, Line>)
    ensures r.Keys <= products.Keys
    ensures user !in carts ==> r == map[]
    ensures user in carts ==> r == LiveLines(carts[user], products)
  {
    if user in carts then LiveLines(carts[user], products) else map[]
  }

  /**
   * The cart's `total` attribute: the sum of pivot price times pivot quantity
   * over its lines. Zero for a cart without lines; never negative when the
   * lines respect the cart's own rules.
   */
  ghost function CartTotal(lines: map<ProductId, Line>, products: map<ProductId, Product>): (r: Money)
    ensures LiveLines(lines, products) == map[] ==> r == 0
    ensures (forall p :: p in lines ==> lines[p].price >= 0 && lines[p].quantity >= 1) ==> r >= 0
  {
    var live := LiveLines(lines, products);
    if forall p :: p in live ==> live[p].price >= 0 && live[p].quantity >= 1 then
      TotalNonNegative(live);
      Total(live)
    else
      Total(live)
  }
}
