/**
 * The customer-facing order endpoints (app/Http/Controllers/OrderController.php):
 * cash-on-delivery checkout (`store`), the card-checkout pricing of
 * `initiatePayment`, the Stripe webhook that records a paid order, and the
 * owner filter of the order list and detail.
 *
 * Amounts are integer cents; the card total is kept in hundredths of a cent
 * so that the 19% tax is exact.
 */
module OrderController {
  import opened Common
  import opened ProductModel
  import opened OrderModel
  import opened Schema

  /** One entry of the request's `items` array. */
  datatype LineRequest = LineRequest(productId: nat, quantity: int, size: Option<string>)

  /**
   * The validated part of a checkout request; None is a key the client left
   * out. `shipping` and `discount` are `nullable`, so they may also be sent
   * as null (a blank value arrives as null too): Some(None).
   */
  datatype StoreRequest = StoreRequest(
    items: seq<LineRequest>, address: Address,
    subtotal: Option<int>, shipping: Option<Option<int>>, discount: Option<Option<int>>, totalAmount: Option<int>)

  /** `$request->input('shipping', 7.5)`: the default applies only to a missing key; a null sent stays null. */
  function ShippingInput(r: StoreRequest): Option<int> {
    r.shipping.GetOr(Some(FlatShipping))
  }

  /** `$request->input('discount', 0)`, read the same way. */
  function DiscountInput(r: StoreRequest): Option<int> {
    r.discount.GetOr(Some(0))
  }

  predicate LinesKnown(products: map<nat, Product>, lines: seq<LineRequest>) {
    forall i :: 0 <= i < |lines| ==> lines[i].productId in products
  }

  /** The `shippingAddress` rules: every line `required|string`, the e-mail `required|email` (the format rule is `isEmail`). */
  predicate AddressValid(a: Address, isEmail: string -> bool) {
    Filled(a.firstName) && Filled(a.lastName) && Filled(a.address) && Filled(a.city)
    && Filled(a.postalCode) && Filled(a.country) && Filled(a.email) && isEmail(a.email)
  }

  /** The rules of `$request->validate` in store: a non-empty item list of known products with quantity >= 1, a full address and a total. */
  predicate StoreValid(products: map<nat, Product>, r: StoreRequest, isEmail: string -> bool) {
    |r.items| > 0 && LinesKnown(products, r.items)
    && (forall i :: 0 <= i < |r.items| ==> r.items[i].quantity >= 1)
    && AddressValid(r.address, isEmail) && r.totalAmount.Some?
  }

  // ---------------------------------------------------------------------
  // Totals
  // ---------------------------------------------------------------------

  /** 7.5 DT, the flat delivery fee of a cash-on-delivery order. */
  const FlatShipping := 750

  /** Σ (promo_price ?? price) · qty over the lines, as the pre-check loop adds it up. */
  function LinesTotal(products: map<nat, Product>, lines: seq<LineRequest>): int
    requires LinesKnown(products, lines)
  {
    if lines == [] then 0
    else
      var last := lines[|lines| - 1];
      LinesTotal(products, lines[..|lines| - 1]) + UnitPrice(products[last.productId]) * last.quantity
  }

  /** With non-negative prices and positive quantities the total is non-negative, and positive once a price is. */
  lemma {:induction false} LinesTotalBounds(products: map<nat, Product>, lines: seq<LineRequest>)
    requires LinesKnown(products, lines)
    requires forall i :: 0 <= i < |lines| ==> lines[i].quantity >= 1 && UnitPrice(products[lines[i].productId]) >= 0
    ensures LinesTotal(products, lines) >= 0
    ensures (exists i :: 0 <= i < |lines| && UnitPrice(products[lines[i].productId]) > 0) ==> LinesTotal(products, lines) > 0
  {
    if lines != [] {
      var init := lines[..|lines| - 1];
      LinesTotalBounds(products, init);
      if exists i :: 0 <= i < |lines| && UnitPrice(products[lines[i].productId]) > 0 {
        var i :| 0 <= i < |lines| && UnitPrice(products[lines[i].productId]) > 0;
        if i < |lines| - 1 {
          assert init[i] == lines[i];
        }
      }
    }
  }

  /** The money columns of the new order. */
  /** The figures written to the order row; None is a NULL column. */
  datatype Amounts = Amounts(subtotal: int, shipping: Option<int>, discount: Option<int>, total: int)

  /**
   * Lines 107-135: the client's figures are used as sent unless the subtotal
   * is 0 (or absent); then the subtotal is recomputed, a zero or null
   * delivery fee becomes 7.5 DT and total = subtotal + shipping − discount,
   * a null discount counting as 0. A null fee or discount is stored as NULL
   * whenever it is not replaced.
   */
  function StoreAmounts(products: map<nat, Product>, r: StoreRequest): (a: Amounts)
    requires LinesKnown(products, r.items)
    ensures r.subtotal.GetOr(0) != 0 ==>
      a.subtotal == r.subtotal.value && a.total == r.totalAmount.GetOr(0)
      && a.shipping == ShippingInput(r) && a.discount == DiscountInput(r)
    ensures r.subtotal.GetOr(0) != 0 ==>
      (a.shipping.None? <==> r.shipping == Some(None)) && (a.discount.None? <==> r.discount == Some(None))
    ensures r.subtotal.GetOr(0) == 0 ==>
      a.subtotal == LinesTotal(products, r.items) && a.shipping.Some? && a.shipping.value != 0
      && a.discount == DiscountInput(r)
      && a.total == a.subtotal + a.shipping.value - a.discount.GetOr(0)
    ensures r.subtotal.GetOr(0) == 0 && (r.shipping.None? || r.shipping == Some(None)) ==>
      a.shipping == Some(FlatShipping)
    ensures r.subtotal.GetOr(0) == 0 && r.shipping.Some? && r.shipping.value.Some? ==>
      a.shipping == Some(if r.shipping.value.value == 0 then FlatShipping else r.shipping.value.value)
  {
    var sub := r.subtotal.GetOr(0);
    var ship := ShippingInput(r);
    var disc := DiscountInput(r);
    if sub == 0 then
      var s := LinesTotal(products, r.items);
      var sh := if ship.GetOr(0) == 0 then FlatShipping else ship.value;
      Amounts(s, Some(sh), disc, s + sh - disc.GetOr(0))
    else
      Amounts(sub, ship, disc, r.totalAmount.GetOr(0))
  }

  /** The order row store() creates (lines 138-150); the creating hook keeps its number. */
  function NewOrder(id: nat, user: nat, a: Amounts, address: Address, token: string, now: int): (o: Order)
    requires |token| == 8
    ensures o.status == Pending && o.paymentStatus == PaymentPending && o.paymentMethod == "cash_on_delivery"
    ensures |o.orderNumber| == 12 && o.orderNumber[..4] == "ORD-"
    ensures forall i :: 4 <= i < 12 ==> !('a' <= o.orderNumber[i] <= 'z')
    ensures o.taxAmount == Some(0) && o.userId == Some(user) && o.totalAmount == a.total
    ensures o.subtotal == Some(a.subtotal) && o.shippingAmount == a.shipping && o.discountAmount == a.discount
    ensures Creating(o, token) == o
  {
    var o := Order(id, Some(user), a.total, Some(a.subtotal), Some(0), a.shipping, a.discount,
                   Pending, PaymentPending, address, "cash_on_delivery", "ORD-" + Upper(token), None, None, now);
    assert o.orderNumber[0] == 'O';
    o
  }

  // ---------------------------------------------------------------------
  // The stock ledger of store()
  // ---------------------------------------------------------------------

  /** Whether line 159's size branch runs: a truthy size and a non-empty size map. */
  predicate SizeChecked(p: Product, size: Option<string>) {
    size.Some? && Truthy(size.value) && p.sizeStock.Some? && |p.sizeStock.value| > 0
  }

  /**
   * One iteration of the loop at lines 153-192 on the product as it is
   * stored now: None when the line is rejected (by size, then by total
   * stock), else the product as saved and the item created.
   */
  function PlaceLine(p: Product, orderId: nat, line: LineRequest): (r: Option<(Product, OrderItem)>)
    ensures r.None? <==>
      (SizeChecked(p, line.size) && line.quantity > StockForSize(p, line.size.value)) || line.quantity > p.stock
    ensures r.Some? ==> r.value.1 == OrderItem(orderId, line.productId, line.quantity, UnitPrice(p), line.size)
    ensures r.Some? ==> r.value.0.stock == p.stock - line.quantity
    ensures r.Some? ==> r.value.0 == Saving(p.(stock := r.value.0.stock, sizeStock := r.value.0.sizeStock))
    ensures r.Some? && !SizeChecked(p, line.size) ==> r.value.0.sizeStock == p.sizeStock
  {
    var q := line.quantity;
    if SizeChecked(p, line.size) && q > StockForSize(p, line.size.value) then None
    else
      var p1 := if SizeChecked(p, line.size)
        then
          var left := StockForSize(p, line.size.value) - q;
          p.(sizeStock := Some(SetSize(p.sizeStock.value, line.size.value, if left > 0 then left else 0)))
        else p;
      if q > p1.stock then None
      else Some((Saving(p1.(stock := p1.stock - q)), OrderItem(orderId, line.productId, q, UnitPrice(p1), line.size)))
  }

  /**
   * The size entry of an accepted line drops by exactly the quantity: the
   * max(0, ·) at line 170 never bites, and no other size changes.
   */
  lemma PlaceLineSizeExact(p: Product, orderId: nat, line: LineRequest)
    requires SizeChecked(p, line.size) && PlaceLine(p, orderId, line).Some?
    ensures var q := PlaceLine(p, orderId, line).value.0;
      q.sizeStock.Some?
      && SizeValue(q.sizeStock.value, line.size.value) == Some(StockForSize(p, line.size.value) - line.quantity)
      && forall s :: s != line.size.value ==> SizeValue(q.sizeStock.value, s) == SizeValue(p.sizeStock.value, s)
  {
  }

  /** What the loop has done so far: the products table, the items created, how many lines went through, and whether one was rejected. */
  datatype Ledger = Ledger(products: map<nat, Product>, items: seq<OrderItem>, accepted: nat, failed: bool)

  /** The loop of lines 153-192 over the products table, stopping at the first rejected line. */
  function Run(products: map<nat, Product>, orderId: nat, lines: seq<LineRequest>): (l: Ledger)
    requires LinesKnown(products, lines)
    ensures l.products.Keys == products.Keys
    ensures l.accepted <= |lines| && |l.items| == l.accepted
    ensures !l.failed ==> l.accepted == |lines|
    ensures l.failed ==> l.accepted < |lines|
  {
    if lines == [] then Ledger(products, [], 0, false)
    else
      var prev := Run(products, orderId, lines[..|lines| - 1]);
      var line := lines[|lines| - 1];
      if prev.failed then prev
      else match PlaceLine(prev.products[line.productId], orderId, line)
        case None => prev.(failed := true)
        case Some(pi) => Ledger(prev.products[line.productId := pi.0], prev.items + [pi.1], prev.accepted + 1, false)
  }

  /** Σ qty of the lines for product `k`. */
  function QtyFor(lines: seq<LineRequest>, k: nat): int {
    if lines == [] then 0
    else QtyFor(lines[..|lines| - 1], k) + (if lines[|lines| - 1].productId == k then lines[|lines| - 1].quantity else 0)
  }

  /** Once a line is rejected, later lines change nothing. */
  lemma {:induction false} RunStopsAtFailure(products: map<nat, Product>, orderId: nat, lines: seq<LineRequest>, n: nat)
    requires LinesKnown(products, lines) && n <= |lines|
    requires Run(products, orderId, lines[..n]).failed
    ensures Run(products, orderId, lines) == Run(products, orderId, lines[..n])
  {
    if n < |lines| {
      var init := lines[..|lines| - 1];
      assert init[..n] == lines[..n];
      RunStopsAtFailure(products, orderId, init, n);
    } else {
      assert lines[..n] == lines;
    }
  }

  /**
   * The effect of store()'s loop, accepted or not: each product's stock has
   * dropped by exactly the quantities of the lines that went through, and
   * when a line was rejected it is the one right after them.
   */
  lemma {:induction false} RunStock(products: map<nat, Product>, orderId: nat, lines: seq<LineRequest>, k: nat)
    requires LinesKnown(products, lines) && k in products
    ensures var l := Run(products, orderId, lines);
      l.products[k].stock == products[k].stock - QtyFor(lines[..l.accepted], k)
  {
    if lines == [] {
      assert lines[..0] == [];
    } else {
      var init := lines[..|lines| - 1];
      var prev := Run(products, orderId, init);
      RunStock(products, orderId, init, k);
      var l := Run(products, orderId, lines);
      if prev.failed || PlaceLine(prev.products[lines[|lines| - 1].productId], orderId, lines[|lines| - 1]).None? {
        assert init[..prev.accepted] == lines[..prev.accepted];
      } else {
        assert init[..prev.accepted] == init;
        assert lines[..l.accepted] == lines;
      }
    }
  }

  /** A rejected run stopped at a line PlaceLine rejects, on the table as the earlier lines left it. */
  lemma {:induction false} RunFailureCause(products: map<nat, Product>, orderId: nat, lines: seq<LineRequest>)
    requires LinesKnown(products, lines) && Run(products, orderId, lines).failed
    ensures var l := Run(products, orderId, lines);
      var line := lines[l.accepted];
      Run(products, orderId, lines[..l.accepted]) == l.(failed := false)
      && PlaceLine(l.products[line.productId], orderId, line).None?
  {
    var init := lines[..|lines| - 1];
    var prev := Run(products, orderId, init);
    if prev.failed {
      RunFailureCause(products, orderId, init);
      assert init[..prev.accepted] == lines[..prev.accepted];
    } else {
      assert init == lines[..prev.accepted];
    }
  }

  /** Items mirror the lines that went through: same product, quantity and size, in order, all on this order. */
  lemma {:induction false} RunItems(products: map<nat, Product>, orderId: nat, lines: seq<LineRequest>)
    requires LinesKnown(products, lines)
    ensures var l := Run(products, orderId, lines);
      forall i :: 0 <= i < l.accepted ==>
        l.items[i].orderId == orderId && l.items[i].productId == lines[i].productId
        && l.items[i].quantity == lines[i].quantity && l.items[i].size == lines[i].size
  {
    if lines != [] {
      var init := lines[..|lines| - 1];
      var last := lines[|lines| - 1];
      RunItems(products, orderId, init);
      var prev := Run(products, orderId, init);
      var l := Run(products, orderId, lines);
      if !prev.failed && PlaceLine(prev.products[last.productId], orderId, last).Some? {
        var r := PlaceLine(prev.products[last.productId], orderId, last).value;
        assert l.items == prev.items + [r.1];
        forall i | 0 <= i < l.accepted
          ensures l.items[i].orderId == orderId && l.items[i].productId == lines[i].productId
            && l.items[i].quantity == lines[i].quantity && l.items[i].size == lines[i].size
        {
          if i < prev.accepted {
            assert l.items[i] == prev.items[i] && lines[i] == init[i];
          }
        }
      } else {
        assert l.items == prev.items && l.accepted == prev.accepted;
      }
    }
  }

  /** A product whose promo_price agrees with its price and percentage, as every save leaves it. */
  predicate Saved(p: Product) {
    Saving(p) == p
  }

  /**
   * When every product was last written through the model (so promo_price
   * is current), each item's price is the unit price of its product as it
   * stood before the checkout: repeated lines of one product are priced
   * alike.
   */
  lemma {:induction false} RunKeepsUnitPrices(products: map<nat, Product>, orderId: nat, lines: seq<LineRequest>)
    requires LinesKnown(products, lines)
    requires forall k :: k in products ==> Saved(products[k])
    ensures var l := Run(products, orderId, lines);
      forall k :: k in products ==> Saved(l.products[k]) && UnitPrice(l.products[k]) == UnitPrice(products[k])
  {
    if lines != [] {
      var init := lines[..|lines| - 1];
      var last := lines[|lines| - 1];
      RunKeepsUnitPrices(products, orderId, init);
      var prev := Run(products, orderId, init);
      if !prev.failed {
        var p := prev.products[last.productId];
        var r := PlaceLine(p, orderId, last);
        if r.Some? {
          SavedStep(p, r.value.0);
          assert Run(products, orderId, lines).products == prev.products[last.productId := r.value.0];
        }
      }
    }
  }

  lemma {:induction false} RunItemPrices(products: map<nat, Product>, orderId: nat, lines: seq<LineRequest>)
    requires LinesKnown(products, lines)
    requires forall k :: k in products ==> Saved(products[k])
    ensures var l := Run(products, orderId, lines);
      (forall k :: k in products ==> Saved(l.products[k]) && UnitPrice(l.products[k]) == UnitPrice(products[k]))
      && forall i :: 0 <= i < l.accepted ==> l.items[i].price == UnitPrice(products[lines[i].productId])
  {
    if lines != [] {
      var init := lines[..|lines| - 1];
      var last := lines[|lines| - 1];
      RunItemPrices(products, orderId, init);
      var prev := Run(products, orderId, init);
      if !prev.failed {
        var p := prev.products[last.productId];
        var r := PlaceLine(p, orderId, last);
        if r.Some? {
          var l := Run(products, orderId, lines);
          assert l.items == prev.items + [r.value.1];
          forall i | 0 <= i < l.accepted
            ensures l.items[i].price == UnitPrice(products[lines[i].productId])
          {
            if i < prev.accepted {
              assert l.items[i] == prev.items[i] && lines[i] == init[i];
            }
          }
        }
      }
    }
    RunKeepsUnitPrices(products, orderId, lines);
  }

  /** Saving a saved product after changing only stock and sizes keeps it saved at the same unit price. */
  lemma SavedStep(p: Product, q: Product)
    requires Saved(p) && q == Saving(p.(stock := q.stock, sizeStock := q.sizeStock))
    ensures Saved(q) && UnitPrice(q) == UnitPrice(p)
  {
  }

  /** store() never drives a stock below zero: every accepted line fits in the stock left. */
  lemma {:induction false} RunKeepsStockNonNegative(products: map<nat, Product>, orderId: nat, lines: seq<LineRequest>)
    requires LinesKnown(products, lines)
    requires forall k :: k in products ==> products[k].stock >= 0
    ensures var l := Run(products, orderId, lines);
      forall k :: k in products ==> l.products[k].stock >= 0
  {
    if lines != [] {
      RunKeepsStockNonNegative(products, orderId, lines[..|lines| - 1]);
    }
  }

  // ---------------------------------------------------------------------
  // The pre-check of lines 114-126
  // ---------------------------------------------------------------------

  /** Each line on its own fits in its product's stock. */
  predicate EachLineFits(products: map<nat, Product>, lines: seq<LineRequest>)
    requires LinesKnown(products, lines)
  {
    forall i :: 0 <= i < |lines| ==> lines[i].quantity <= products[lines[i].productId].stock
  }

  /**
   * The pre-check loop, run only when the subtotal sent is 0: it stops at
   * the first line asking for more than the product's whole stock, and
   * otherwise adds up Σ (promo_price ?? price) · qty.
   */
  method PreCheck(products: map<nat, Product>, lines: seq<LineRequest>) returns (ok: bool, subtotal: int)
    requires LinesKnown(products, lines)
    ensures ok <==> EachLineFits(products, lines)
    ensures ok ==> subtotal == LinesTotal(products, lines)
  {
    subtotal := 0;
    var i := 0;
    while i < |lines|
      invariant 0 <= i <= |lines|
      invariant EachLineFits(products, lines[..i])
      invariant subtotal == LinesTotal(products, lines[..i])
    {
      var product := products[lines[i].productId];
      var qty := lines[i].quantity;
      if qty > product.stock {
        ok := false;
        return;
      }
      assert lines[..i + 1][..i] == lines[..i];
      subtotal := subtotal + UnitPrice(product) * qty;
      i := i + 1;
    }
    assert lines[..i] == lines;
    ok := true;
  }

  /**
   * The pre-check is per line, not cumulative: two lines of one product,
   * each within stock but together above it, pass the pre-check, and the
   * main loop then rejects the second line after the first has been booked.
   */
  lemma PreCheckGap(p: Product)
    requires p.id == 1 && p.stock == 3 && p.sizeStock.None?
    ensures var products := map[1 := p];
      var lines := [LineRequest(1, 2, None), LineRequest(1, 2, None)];
      var l := Run(products, 7, lines);
      LinesKnown(products, lines) && EachLineFits(products, lines)
      && l.failed && l.accepted == 1 && l.products[1].stock == 1 && |l.items| == 1
  {
    var products := map[1 := p];
    var lines := [LineRequest(1, 2, None), LineRequest(1, 2, None)];
    assert lines[..1] == [LineRequest(1, 2, None)];
    assert lines[..1][..0] == [];
    var line := LineRequest(1, 2, None);
    assert !SizeChecked(p, line.size);
    var r := PlaceLine(p, 7, line);
    assert r.Some? && r.value.0.stock == 1;
    assert Run(products, 7, lines[..1][..0]) == Ledger(products, [], 0, false);
    assert lines[..1][0] == line;
    var first := Run(products, 7, lines[..1]);
    assert first == Ledger(products[1 := r.value.0], [r.value.1], 1, false);
    assert PlaceLine(first.products[1], 7, line).None?;
  }

  /** Lines that name distinct products, carry no size and each fit in stock are all accepted. */
  lemma {:induction false} DistinctFittingLinesPass(products: map<nat, Product>, orderId: nat, lines: seq<LineRequest>)
    requires LinesKnown(products, lines) && EachLineFits(products, lines)
    requires forall i, j :: 0 <= i < j < |lines| ==> lines[i].productId != lines[j].productId
    requires forall i :: 0 <= i < |lines| ==> lines[i].size.None?
    ensures !Run(products, orderId, lines).failed
    ensures forall k :: k !in QtyKeys(lines) && k in products ==> Run(products, orderId, lines).products[k] == products[k]
  {
    if lines != [] {
      var init := lines[..|lines| - 1];
      var last := lines[|lines| - 1];
      DistinctFittingLinesPass(products, orderId, init);
      var prev := Run(products, orderId, init);
      assert last.productId !in QtyKeys(init);
      assert prev.products[last.productId] == products[last.productId];
    }
  }

  /** The product ids the lines name. */
  function QtyKeys(lines: seq<LineRequest>): (ks: set<nat>)
    ensures forall i :: 0 <= i < |lines| ==> lines[i].productId in ks
    ensures forall k :: k in ks ==> exists i :: 0 <= i < |lines| && lines[i].productId == k
  {
    set i | 0 <= i < |lines| :: lines[i].productId
  }

  // ---------------------------------------------------------------------
  // store()
  // ---------------------------------------------------------------------

  /** Run grows by one PlaceLine per line while nothing has been rejected. */
  lemma RunExtend(products: map<nat, Product>, orderId: nat, lines: seq<LineRequest>, i: nat)
    requires LinesKnown(products, lines) && i < |lines|
    requires !Run(products, orderId, lines[..i]).failed
    ensures var prev := Run(products, orderId, lines[..i]);
      var r := PlaceLine(prev.products[lines[i].productId], orderId, lines[i]);
      Run(products, orderId, lines[..i + 1]) ==
        if r.None? then prev.(failed := true)
        else Ledger(prev.products[lines[i].productId := r.value.0], prev.items + [r.value.1], prev.accepted + 1, false)
  {
    assert lines[..i + 1][..i] == lines[..i];
    assert lines[..i + 1][i] == lines[i];
  }

  /** One pass of the loop body (lines 154-191) on the database. */
  method PlaceOne(db: Database, orderId: nat, line: LineRequest) returns (ok: bool)
    requires line.productId in db.products
    modifies db`products, db`orderItems
    ensures var r := PlaceLine(old(db.products)[line.productId], orderId, line);
      ok == r.Some?
      && (r.None? ==> db.products == old(db.products) && db.orderItems == old(db.orderItems))
      && (r.Some? ==> db.products == old(db.products)[line.productId := r.value.0]
                      && db.orderItems == old(db.orderItems) + [r.value.1])
  {
    var product := db.products[line.productId];
    var qty := line.quantity;
    if line.size.Some? && Truthy(line.size.value) && product.sizeStock.Some? && |product.sizeStock.value| > 0 {
      var sizes := product.sizeStock.value;
      var forSize := SizeValue(sizes, line.size.value).GetOr(0);
      if qty > forSize {
        return false;
      }
      product := product.(sizeStock := Some(SetSize(sizes, line.size.value, if forSize - qty > 0 then forSize - qty else 0)));
    }
    if qty > product.stock {
      return false;
    }
    db.orderItems := db.orderItems + [OrderItem(orderId, line.productId, qty, UnitPrice(product), line.size)];
    product := product.(stock := product.stock - qty);
    db.products := db.products[line.productId := Saving(product)];
    return true;
  }

  /** The loop of lines 153-192, run on the database: it books lines until one is rejected. */
  method PlaceLines(db: Database, orderId: nat, lines: seq<LineRequest>) returns (ok: bool)
    requires LinesKnown(db.products, lines)
    modifies db`products, db`orderItems
    ensures var l := Run(old(db.products), orderId, lines);
      db.products == l.products && db.orderItems == old(db.orderItems) + l.items && ok == !l.failed
  {
    ghost var products0 := db.products;
    ghost var items0 := db.orderItems;
    ghost var l := Run(products0, orderId, lines[..0]);
    var i := 0;
    while i < |lines|
      invariant 0 <= i <= |lines|
      invariant l == Run(products0, orderId, lines[..i])
      invariant !l.failed && db.products == l.products && db.orderItems == items0 + l.items
    {
      RunExtend(products0, orderId, lines, i);
      ghost var r := PlaceLine(l.products[lines[i].productId], orderId, lines[i]);
      var placed := PlaceOne(db, orderId, lines[i]);
      if !placed {
        assert Run(products0, orderId, lines[..i + 1]) == l.(failed := true);
        RunStopsAtFailure(products0, orderId, lines, i + 1);
        return false;
      }
      l := Ledger(l.products[lines[i].productId := r.value.0], l.items + [r.value.1], l.accepted + 1, false);
      i := i + 1;
    }
    assert lines[..i] == lines;
    return true;
  }

  /** The admin notification store() tries to create after the loop (lines 210-221). */
  function OrderPlacedNotice(id: nat, user: nat, o: Order, amountText: string, now: int): AdminNotification {
    AdminNotification(id, Some(user), "order.placed", "Nouvelle commande",
      Some("Commande " + o.orderNumber + " créée pour un montant de " + amountText + " DT."), None, now)
  }

  /**
   * store: validate, pre-check when the subtotal sent is 0, then check out.
   */
  method Store(db: Database, user: nat, r: StoreRequest, isEmail: string -> bool, orderId: nat, token: string,
               notificationId: nat, notifyOk: bool, amountText: string, now: int) returns (status: int)
    requires orderId !in db.orders && notificationId !in db.notifications && |token| == 8
    modifies db`orders, db`orderItems, db`products, db`carts, db`notifications
    ensures !StoreValid(old(db.products), r, isEmail) ==> status == 422 && unchanged(db)
    ensures StoreValid(old(db.products), r, isEmail) && r.subtotal.GetOr(0) == 0 && !EachLineFits(old(db.products), r.items) ==>
      status == 422 && unchanged(db)
    ensures StoreValid(old(db.products), r, isEmail) && (r.subtotal.GetOr(0) != 0 || EachLineFits(old(db.products), r.items)) ==>
      CheckedOut(old(db.orders), old(db.products), old(db.orderItems), old(db.carts), old(db.notifications),
                 db.orders, db.products, db.orderItems, db.carts, db.notifications, status,
                 NewOrder(orderId, user, StoreAmounts(old(db.products), r), r.address, token, now),
                 r.items, user, notificationId, notifyOk, amountText, now)
  {
    if !StoreValid(db.products, r, isEmail) {
      return 422;
    }
    var ok, amounts := ComputeAmounts(db.products, r);
    if !ok {
      return 422;
    }
    var order := NewOrder(orderId, user, amounts, r.address, token, now);
    status := CheckOut(db, order, r.items, user, notificationId, notifyOk, amountText, now);
  }

  /** Lines 107-135 as store() runs them: false when a recomputed line exceeds its stock. */
  method ComputeAmounts(products: map<nat, Product>, r: StoreRequest) returns (ok: bool, a: Amounts)
    requires LinesKnown(products, r.items)
    ensures ok <==> r.subtotal.GetOr(0) != 0 || EachLineFits(products, r.items)
    ensures ok ==> a == StoreAmounts(products, r)
  {
    var subtotal := r.subtotal.GetOr(0);
    var shipping := ShippingInput(r);
    var discount := DiscountInput(r);
    var total := r.totalAmount.GetOr(0);
    ok := true;
    if subtotal == 0 {
      var s;
      ok, s := PreCheck(products, r.items);
      if !ok {
        a := Amounts(subtotal, shipping, discount, total);
        return;
      }
      subtotal := s;
      if shipping.GetOr(0) == 0 {
        shipping := Some(FlatShipping);
      }
      total := subtotal + shipping.value - discount.GetOr(0);
    }
    a := Amounts(subtotal, shipping, discount, total);
  }

  /**
   * The state store() leaves once the order row is written: the row, the
   * booked lines and their stock effects, then, if every line went
   * through, an emptied cart and the notification when its creation
   * succeeds.
   */
  ghost predicate CheckedOut(
    orders0: map<nat, Order>, products0: map<nat, Product>, items0: seq<OrderItem>, carts0: seq<CartRow>,
    notes0: map<nat, AdminNotification>,
    orders: map<nat, Order>, products: map<nat, Product>, items: seq<OrderItem>, carts: seq<CartRow>,
    notes: map<nat, AdminNotification>, status: int,
    o: Order, lines: seq<LineRequest>, user: nat, notificationId: nat, notifyOk: bool, amountText: string, now: int)
    requires LinesKnown(products0, lines)
  {
    var l := Run(products0, o.id, lines);
    orders == orders0[o.id := o]
    && products == l.products && items == items0 + l.items
    && status == (if l.failed then 422 else 201)
    && (l.failed ==> carts == carts0 && notes == notes0)
    && (!l.failed ==> carts == ClearCart(carts0, user))
    && (!l.failed ==> notes == if notifyOk then notes0[notificationId := OrderPlacedNotice(notificationId, user, o, amountText, now)]
                               else notes0)
  }

  /** Lines 138-241 from the order row on. */
  method CheckOut(db: Database, order: Order, lines: seq<LineRequest>, user: nat,
                  notificationId: nat, notifyOk: bool, amountText: string, now: int) returns (status: int)
    requires LinesKnown(db.products, lines)
    modifies db`orders, db`orderItems, db`products, db`carts, db`notifications
    ensures CheckedOut(old(db.orders), old(db.products), old(db.orderItems), old(db.carts), old(db.notifications),
                       db.orders, db.products, db.orderItems, db.carts, db.notifications, status,
                       order, lines, user, notificationId, notifyOk, amountText, now)
  {
    db.orders := db.orders[order.id := order];
    var placed := PlaceLines(db, order.id, lines);
    if !placed {
      return 422;
    }
    db.carts := ClearCart(db.carts, user);
    if notifyOk {
      db.notifications := db.notifications[notificationId := OrderPlacedNotice(notificationId, user, order, amountText, now)];
    }
    return 201;
  }

  // ---------------------------------------------------------------------
  // The Stripe webhook
  // ---------------------------------------------------------------------

  /** The `checkout.session.completed` session, with its metadata decoded. */
  datatype CheckoutSession = CheckoutSession(
    id: string, userId: Option<nat>, items: seq<LineRequest>, address: Address, finalTotal: Option<int>)

  /** What Webhook::constructEvent yields: a rejected payload or signature, or a verified event. */
  datatype WebhookEvent = InvalidPayload | InvalidSignature | StripeEvent(kind: string, session: CheckoutSession)

  /** `Order::where('stripe_session_id', $id)->first()` finds a row. */
  predicate SessionRecorded(orders: map<nat, Order>, sessionId: string) {
    exists k :: k in orders && orders[k].stripeSessionId == Some(sessionId)
  }

  /**
   * The paid order of lines 353-361. The status is the column default
   * 'pending'. `persistSessionId` says whether the session id reaches the
   * row: the model's fillable list omits `stripe_session_id`, so mass
   * assignment drops it unless the list is completed.
   */
  function PaidOrder(id: nat, s: CheckoutSession, token: string, persistSessionId: bool, now: int): (o: Order)
    requires |token| == 8
    ensures o.paymentStatus == Paid && o.status == Pending && o.paymentMethod == "stripe"
    ensures o.userId == s.userId && o.totalAmount == s.finalTotal.GetOr(0)
    ensures o.stripeSessionId == (if persistSessionId then Some(s.id) else None)
  {
    Order(id, s.userId, s.finalTotal.GetOr(0), None, None, None, None, Pending, Paid, s.address, "stripe",
          "ORD-" + Upper(token), None, if persistSessionId then Some(s.id) else None, now)
  }

  /** The webhook's loop so far: products, items, lines booked, and whether a product was missing. */
  datatype PaidLedger = PaidLedger(products: map<nat, Product>, items: seq<OrderItem>, accepted: nat, missing: bool)

  /**
   * The loop of lines 364-377: each line books an item at the list price
   * and takes its quantity off the stock with no check; a product id that
   * names no row stops the loop (findOrFail).
   */
  function PaidRun(products: map<nat, Product>, orderId: nat, lines: seq<LineRequest>): (l: PaidLedger)
    ensures l.products.Keys == products.Keys
    ensures l.accepted <= |lines| && |l.items| == l.accepted
    ensures !l.missing ==> l.accepted == |lines|
    ensures l.missing ==> l.accepted < |lines| && lines[l.accepted].productId !in products
  {
    if lines == [] then PaidLedger(products, [], 0, false)
    else
      var prev := PaidRun(products, orderId, lines[..|lines| - 1]);
      var line := lines[|lines| - 1];
      if prev.missing then
        assert lines[..|lines| - 1][prev.accepted] == lines[prev.accepted];
        prev
      else if line.productId !in prev.products then prev.(missing := true)
      else
        var p := prev.products[line.productId];
        PaidLedger(prev.products[line.productId := Saving(p.(stock := p.stock - line.quantity))],
                   prev.items + [OrderItem(orderId, line.productId, line.quantity, p.price, line.size)],
                   prev.accepted + 1, false)
  }

  /** Booked lines name existing products, and list prices never change. */
  lemma {:induction false} PaidRunFacts(products: map<nat, Product>, orderId: nat, lines: seq<LineRequest>)
    ensures var l := PaidRun(products, orderId, lines);
      (forall i :: 0 <= i < l.accepted ==> lines[i].productId in products)
      && forall k :: k in products ==> l.products[k].price == products[k].price
  {
    if lines != [] {
      var init := lines[..|lines| - 1];
      PaidRunFacts(products, orderId, init);
      var prev := PaidRun(products, orderId, init);
      assert forall i :: 0 <= i < prev.accepted ==> init[i] == lines[i];
    }
  }

  /** Each product's stock drops by exactly the quantities booked, with no lower bound. */
  lemma {:induction false} PaidRunStock(products: map<nat, Product>, orderId: nat, lines: seq<LineRequest>, k: nat)
    requires k in products
    ensures var l := PaidRun(products, orderId, lines);
      l.products[k].stock == products[k].stock - QtyFor(lines[..l.accepted], k)
  {
    if lines == [] {
      assert lines[..0] == [];
    } else {
      var init := lines[..|lines| - 1];
      var prev := PaidRun(products, orderId, init);
      PaidRunStock(products, orderId, init, k);
      var l := PaidRun(products, orderId, lines);
      if prev.missing || lines[|lines| - 1].productId !in prev.products {
        assert init[..prev.accepted] == lines[..prev.accepted];
      } else {
        assert init[..prev.accepted] == init;
        assert lines[..l.accepted] == lines;
      }
    }
  }

  /** Items carry the list price, whatever the promotion. */
  lemma {:induction false} PaidRunItemAt(products: map<nat, Product>, orderId: nat, lines: seq<LineRequest>, i: nat)
    requires i < PaidRun(products, orderId, lines).accepted
    ensures lines[i].productId in products
    ensures PaidRun(products, orderId, lines).items[i] ==
      OrderItem(orderId, lines[i].productId, lines[i].quantity, products[lines[i].productId].price, lines[i].size)
  {
    var init := lines[..|lines| - 1];
    var prev := PaidRun(products, orderId, init);
    if i < prev.accepted {
      PaidRunItemAt(products, orderId, init, i);
      assert lines[i] == init[i];
    } else {
      PaidRunFacts(products, orderId, init);
    }
  }

  lemma PaidRunItems(products: map<nat, Product>, orderId: nat, lines: seq<LineRequest>)
    ensures var l := PaidRun(products, orderId, lines);
      forall i :: 0 <= i < l.accepted ==>
        lines[i].productId in products
        && l.items[i] == OrderItem(orderId, lines[i].productId, lines[i].quantity, products[lines[i].productId].price, lines[i].size)
  {
    forall i | 0 <= i < PaidRun(products, orderId, lines).accepted
      ensures lines[i].productId in products
      ensures PaidRun(products, orderId, lines).items[i] ==
        OrderItem(orderId, lines[i].productId, lines[i].quantity, products[lines[i].productId].price, lines[i].size)
    {
      PaidRunItemAt(products, orderId, lines, i);
    }
  }

  /** Unlike store(), the webhook can drive a stock below zero. */
  lemma PaidRunCanGoNegative(p: Product)
    requires p.id == 1 && p.stock == 1
    ensures PaidRun(map[1 := p], 7, [LineRequest(1, 3, None)]).products[1].stock == -2
  {
    var lines := [LineRequest(1, 3, None)];
    assert lines[..0] == [];
  }

  /** The admin notification of lines 395-406. */
  function OrderPaidNotice(id: nat, o: Order, now: int): AdminNotification {
    AdminNotification(id, o.userId, "order.paid", "Order Paid", Some("Order " + o.orderNumber + " has been paid."), None, now)
  }

  /**
   * handleStripeWebhook after Webhook::constructEvent: a rejected payload
   * or signature is a 400; an event of another type, or a session already
   * recorded on an order, is a 200 with no change. Otherwise the paid
   * order is created, the lines are booked (a missing product ends the
   * request with 404 and keeps what was written), the user's cart is
   * cleared when the metadata names a user, and the admins are notified.
   */
  method HandleStripeWebhook(db: Database, event: WebhookEvent, persistSessionId: bool,
                             orderId: nat, token: string, notificationId: nat, now: int) returns (status: int)
    requires orderId !in db.orders && notificationId !in db.notifications && |token| == 8
    modifies db`orders, db`orderItems, db`products, db`carts, db`notifications
    ensures !event.StripeEvent? ==> status == 400 && unchanged(db)
    ensures event.StripeEvent? && event.kind != "checkout.session.completed" ==> status == 200 && unchanged(db)
    ensures event.StripeEvent? && event.kind == "checkout.session.completed" && SessionRecorded(old(db.orders), event.session.id) ==>
      status == 200 && unchanged(db)
    ensures event.StripeEvent? && event.kind == "checkout.session.completed" && !SessionRecorded(old(db.orders), event.session.id) ==>
      var s := event.session;
      var o := PaidOrder(orderId, s, token, persistSessionId, now);
      var l := PaidRun(old(db.products), orderId, s.items);
      db.orders == old(db.orders)[orderId := o]
      && db.products == l.products && db.orderItems == old(db.orderItems) + l.items
      && status == (if l.missing then 404 else 200)
      && (l.missing ==> db.carts == old(db.carts) && db.notifications == old(db.notifications))
      && (!l.missing ==> db.carts == (if s.userId.Some? then ClearCart(old(db.carts), s.userId.value) else old(db.carts)))
      && (!l.missing ==> db.notifications == old(db.notifications)[notificationId := OrderPaidNotice(notificationId, o, now)])
  {
    if !event.StripeEvent? {
      return 400;
    }
    if event.kind != "checkout.session.completed" {
      return 200;
    }
    var s := event.session;
    var seen := exists k :: k in db.orders && db.orders[k].stripeSessionId == Some(s.id);
    if seen {
      return 200;
    }
    var order := PaidOrder(orderId, s, token, persistSessionId, now);
    db.orders := db.orders[orderId := order];
    var booked := BookPaidLines(db, orderId, s.items);
    if !booked {
      return 404;
    }
    if s.userId.Some? {
      db.carts := ClearCart(db.carts, s.userId.value);
    }
    db.notifications := db.notifications[notificationId := OrderPaidNotice(notificationId, order, now)];
    return 200;
  }

  /** One line of the loop at lines 364-377 after an unbroken run: stop on a missing product, else book it. */
  function PaidStep(prev: PaidLedger, orderId: nat, line: LineRequest): (l: PaidLedger)
    ensures l.missing <==> line.productId !in prev.products
    ensures l.missing ==> l == prev.(missing := true)
  {
    if line.productId !in prev.products then prev.(missing := true)
    else
      var p := prev.products[line.productId];
      PaidLedger(prev.products[line.productId := Saving(p.(stock := p.stock - line.quantity))],
                 prev.items + [OrderItem(orderId, line.productId, line.quantity, p.price, line.size)],
                 prev.accepted + 1, false)
  }

  /** PaidRun grows by one line at a time while no product has been missing. */
  lemma PaidRunExtend(products: map<nat, Product>, orderId: nat, lines: seq<LineRequest>, i: nat)
    requires i < |lines| && !PaidRun(products, orderId, lines[..i]).missing
    ensures PaidRun(products, orderId, lines[..i + 1]) == PaidStep(PaidRun(products, orderId, lines[..i]), orderId, lines[i])
  {
    assert lines[..i + 1][..i] == lines[..i];
    assert lines[..i + 1][i] == lines[i];
  }

  /** The webhook's loop on the database: it books lines until a product is missing. */
  method BookPaidLines(db: Database, orderId: nat, lines: seq<LineRequest>) returns (ok: bool)
    modifies db`products, db`orderItems
    ensures var l := PaidRun(old(db.products), orderId, lines);
      db.products == l.products && db.orderItems == old(db.orderItems) + l.items && ok == !l.missing
  {
    ghost var products0 := db.products;
    ghost var items0 := db.orderItems;
    ghost var l := PaidRun(products0, orderId, lines[..0]);
    var i := 0;
    while i < |lines|
      invariant 0 <= i <= |lines|
      invariant l == PaidRun(products0, orderId, lines[..i])
      invariant !l.missing && db.products == l.products && db.orderItems == items0 + l.items
    {
      PaidRunExtend(products0, orderId, lines, i);
      var line := lines[i];
      ghost var next := PaidStep(l, orderId, line);
      if line.productId !in db.products {
        PaidRunStopsAtMissing(products0, orderId, lines, i + 1);
        return false;
      }
      var product := db.products[line.productId];
      var item := OrderItem(orderId, line.productId, line.quantity, product.price, line.size);
      var booked := Saving(product.(stock := product.stock - line.quantity));
      db.orderItems := db.orderItems + [item];
      db.products := db.products[line.productId := booked];
      l := next;
      i := i + 1;
    }
    assert lines[..i] == lines;
    return true;
  }

  lemma {:induction false} PaidRunStopsAtMissing(products: map<nat, Product>, orderId: nat, lines: seq<LineRequest>, n: nat)
    requires n <= |lines| && PaidRun(products, orderId, lines[..n]).missing
    ensures PaidRun(products, orderId, lines) == PaidRun(products, orderId, lines[..n])
  {
    if n < |lines| {
      var init := lines[..|lines| - 1];
      assert init[..n] == lines[..n];
      PaidRunStopsAtMissing(products, orderId, init, n);
    } else {
      assert lines[..n] == lines;
    }
  }

  /**
   * Replaying a delivery: with the session id stored, the order just
   * created makes the duplicate check fire; without it, a table that had no
   * order for the session still has none, so a second delivery books the
   * items and takes the stock again.
   */
  lemma ReplayDetection(orders: map<nat, Order>, id: nat, s: CheckoutSession, token: string, now: int)
    requires |token| == 8
    ensures SessionRecorded(orders[id := PaidOrder(id, s, token, true, now)], s.id)
    ensures !SessionRecorded(orders, s.id) && id !in orders ==> !SessionRecorded(orders[id := PaidOrder(id, s, token, false, now)], s.id)
  {
    assert orders[id := PaidOrder(id, s, token, true, now)][id].stripeSessionId == Some(s.id);
  }

  // ---------------------------------------------------------------------
  // initiatePayment: the card price
  // ---------------------------------------------------------------------

  /** Σ promo_price · qty as line 274 computes it: a null promo_price counts as 0. */
  function CardSubtotal(products: map<nat, Product>, lines: seq<LineRequest>): int
    requires LinesKnown(products, lines)
  {
    if lines == [] then 0
    else
      var last := lines[|lines| - 1];
      CardSubtotal(products, lines[..|lines| - 1]) + products[last.productId].promoPrice.GetOr(0) * last.quantity
  }

  /** Delivery on a card order: 5.99 DT below 50 DT, free from 50 DT. */
  function CardShipping(subtotal: int): int {
    if subtotal < 5000 then 599 else 0
  }

  /** subtotal + 19% tax + delivery, in hundredths of a cent. */
  function CardTotal(subtotal: int): int {
    subtotal * 119 + CardShipping(subtotal) * 100
  }

  /** `(int) round($finalTotal * 1000 / 10) * 10`: the total rounded to the cent, in millimes. */
  function StripeUnitAmount(total: int): int {
    RoundDiv(total, 100) * 10
  }

  /**
   * Lines 264-289: stop at the first line asking for more than the
   * product's stock, else add up the subtotal and price the single Stripe
   * line item.
   */
  method CardPricing(products: map<nat, Product>, lines: seq<LineRequest>) returns (ok: bool, subtotal: int, unitAmount: int)
    requires LinesKnown(products, lines)
    ensures ok <==> EachLineFits(products, lines)
    ensures ok ==> subtotal == CardSubtotal(products, lines) && unitAmount == StripeUnitAmount(CardTotal(subtotal))
  {
    subtotal := 0;
    unitAmount := 0;
    var i := 0;
    while i < |lines|
      invariant 0 <= i <= |lines|
      invariant EachLineFits(products, lines[..i])
      invariant subtotal == CardSubtotal(products, lines[..i])
    {
      var product := products[lines[i].productId];
      var qty := lines[i].quantity;
      if qty > product.stock {
        ok := false;
        return;
      }
      assert lines[..i + 1][..i] == lines[..i];
      subtotal := subtotal + product.promoPrice.GetOr(0) * qty;
      i := i + 1;
    }
    assert lines[..i] == lines;
    var total := subtotal * 119 + (if subtotal < 5000 then 599 else 0) * 100;
    unitAmount := RoundDiv(total, 100) * 10;
    ok := true;
  }

  /** The amount sent to Stripe is a whole number of cents, within half a cent of the exact total. */
  lemma StripeAmountRounding(total: int)
    requires total >= 0
    ensures StripeUnitAmount(total) % 10 == 0
    ensures total - 50 <= StripeUnitAmount(total) * 10 <= total + 50
  {
  }

  /**
   * The free-delivery threshold makes the card total fall when the
   * subtotal reaches 50 DT; on each side of it the total grows with the
   * subtotal.
   */
  lemma CardTotalThreshold(a: int, b: int)
    requires a <= b && (b < 5000 || a >= 5000)
    ensures CardTotal(a) <= CardTotal(b)
    ensures CardTotal(4999) > CardTotal(5000)
  {
  }

  /** Where every product has a promo_price, the card subtotal is the one store() recomputes. */
  lemma {:induction false} CardSubtotalMatchesStore(products: map<nat, Product>, lines: seq<LineRequest>)
    requires LinesKnown(products, lines)
    requires forall i :: 0 <= i < |lines| ==> products[lines[i].productId].promoPrice.Some?
    ensures CardSubtotal(products, lines) == LinesTotal(products, lines)
  {
    if lines != [] {
      CardSubtotalMatchesStore(products, lines[..|lines| - 1]);
    }
  }

  // ---------------------------------------------------------------------
  // index / show: a customer sees their own orders only
  // ---------------------------------------------------------------------

  /** index: the ids of the caller's orders. */
  function CustomerOrderIds(orders: map<nat, Order>, user: nat): (ids: set<nat>)
    ensures ids <= orders.Keys
    ensures forall k :: k in ids ==> orders[k].userId == Some(user)
    ensures forall k :: k in orders && orders[k].userId == Some(user) ==> k in ids
  {
    set k | k in orders && orders[k].userId == Some(user)
  }

  /** show: firstOrFail on id and owner; None is the 404. */
  function ShowOrder(orders: map<nat, Order>, user: nat, id: nat): (r: Option<Order>)
    ensures r.Some? ==> id in orders && r.value == orders[id] && r.value.userId == Some(user)
    ensures r.None? ==> id !in orders || orders[id].userId != Some(user)
  {
    if id in orders && orders[id].userId == Some(user) then Some(orders[id]) else None
  }

  /** An order is shown to exactly the users it lists. */
  lemma ShowMatchesIndex(orders: map<nat, Order>, user: nat, id: nat)
    ensures ShowOrder(orders, user, id).Some? <==> id in CustomerOrderIds(orders, user)
  {
  }
}
