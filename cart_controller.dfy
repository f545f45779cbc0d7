/**
 * The shopping cart (app/Http/Controllers/CartController.php): the listing
 * with its unit price, replacing the whole cart, removing one product and
 * clearing. Every action works on the caller's rows of `carts` only.
 */
module CartController {
  import opened Common
  import opened ProductModel
  import opened Schema

  // ---------------------------------------------------------------------
  // index
  // ---------------------------------------------------------------------

  /** `$product->images[0] ?? null`: the first path of a list, the first character of a text. */
  function FirstImage(images: ImagesField): (r: Option<string>)
    ensures images.ImageList? && images.paths != [] ==> r == Some(images.paths[0])
    ensures images.NoImages? ==> r.None?
  {
    match images
    case ImageList(paths) => if paths == [] then None else Some(paths[0])
    case ImageJson(text) => if text == "" then None else Some([text[0]])
    case NoImages => None
  }

  /** One entry of the cart listing. */
  datatype CartLine = CartLine(
    productId: nat, name: string, price: int, image: Option<string>,
    quantity: int, size: Option<string>, sizes: seq<string>, sizeStock: SizeStock)

  /** The entry for one row whose product exists. */
  function LineOf(p: Product, row: CartRow): CartLine {
    CartLine(p.id, p.name, UnitPrice(p), FirstImage(p.images), row.quantity, row.size,
             p.sizes.GetOr([]), p.sizeStock.GetOr([]))
  }

  /**
   * index: one entry per row of the caller, in table order, priced at
   * promo_price ?? price; a row whose product is gone makes the listing
   * fail (None).
   */
  function CartView(products: map<nat, Product>, rows: seq<CartRow>): (r: Option<seq<CartLine>>)
    ensures r.Some? <==> forall i :: 0 <= i < |rows| ==> rows[i].productId in products
    ensures r.Some? ==> |r.value| == |rows| && forall i :: 0 <= i < |rows| ==>
      var p := products[rows[i].productId];
      r.value[i].price == UnitPrice(p) && r.value[i].quantity == rows[i].quantity
      && r.value[i].size == rows[i].size && r.value[i].productId == p.id
  {
    if rows == [] then Some([])
    else if rows[0].productId !in products then None
    else
      var rest := CartView(products, rows[1..]);
      if rest.None? then None else Some([LineOf(products[rows[0].productId], rows[0])] + rest.value)
  }

  // ---------------------------------------------------------------------
  // update
  // ---------------------------------------------------------------------

  datatype CartItemRequest = CartItemRequest(productId: nat, quantity: int, size: Option<string>)

  /** `items` required (so not empty), every id an existing product, every quantity at least 1. */
  predicate CartRequestValid(products: map<nat, Product>, items: seq<CartItemRequest>) {
    |items| >= 1 && forall i :: 0 <= i < |items| ==> items[i].productId in products && items[i].quantity >= 1
  }

  function RowOf(user: nat, item: CartItemRequest): CartRow {
    CartRow(user, item.productId, item.quantity, item.size)
  }

  /** The rows the insert loop creates, one per requested item, in request order. */
  function RowsFor(user: nat, items: seq<CartItemRequest>): (r: seq<CartRow>)
    ensures |r| == |items|
    ensures forall i :: 0 <= i < |items| ==> r[i] == RowOf(user, items[i])
  {
    if items == [] then [] else RowsFor(user, items[..|items| - 1]) + [RowOf(user, items[|items| - 1])]
  }

  /**
   * update: validation first, so a rejected request leaves the cart alone;
   * then the caller's rows are deleted and one row is inserted per item.
   */
  method UpdateCart(db: Database, user: nat, items: seq<CartItemRequest>) returns (status: int)
    modifies db`carts
    ensures !CartRequestValid(db.products, items) ==> status == 422 && unchanged(db)
    ensures CartRequestValid(db.products, items) ==>
      status == 200 && db.carts == ClearCart(old(db.carts), user) + RowsFor(user, items)
  {
    if !CartRequestValid(db.products, items) {
      return 422;
    }
    db.carts := ClearCart(db.carts, user);
    ghost var cleared := db.carts;
    var i := 0;
    while i < |items|
      invariant 0 <= i <= |items|
      invariant db.carts == cleared + RowsFor(user, items[..i])
    {
      assert items[..i + 1][..i] == items[..i];
      db.carts := db.carts + [RowOf(user, items[i])];
      i := i + 1;
    }
    assert items[..|items|] == items;
    status := 200;
  }

  lemma {:induction false} CartOfOwnRows(user: nat, items: seq<CartItemRequest>)
    ensures CartOf(RowsFor(user, items), user) == RowsFor(user, items)
  {
    if items != [] {
      var init := items[..|items| - 1];
      CartOfOwnRows(user, init);
      CartOfAppend(RowsFor(user, init), [RowOf(user, items[|items| - 1])], user);
    }
  }

  /**
   * After update the caller's cart is exactly the requested items, in
   * order, and every other user's cart is as it was.
   */
  lemma UpdateCartResult(carts: seq<CartRow>, user: nat, items: seq<CartItemRequest>, other: nat)
    requires other != user
    ensures CartOf(ClearCart(carts, user) + RowsFor(user, items), user) == RowsFor(user, items)
    ensures CartOf(ClearCart(carts, user) + RowsFor(user, items), other) == CartOf(carts, other)
  {
    var cleared := ClearCart(carts, user);
    var rows := RowsFor(user, items);
    CartOfAppend(cleared, rows, user);
    CartOfAppend(cleared, rows, other);
    CartOfOwnRows(user, items);
    CartOfNone(rows, other);
  }

  /** Listing the cart right after an update shows the requested quantities and sizes in request order. */
  lemma ListingAfterUpdate(products: map<nat, Product>, carts: seq<CartRow>, user: nat, items: seq<CartItemRequest>)
    requires CartRequestValid(products, items)
    ensures var view := CartView(products, CartOf(ClearCart(carts, user) + RowsFor(user, items), user));
      view.Some? && |view.value| == |items| && forall i :: 0 <= i < |items| ==>
        view.value[i].quantity == items[i].quantity && view.value[i].size == items[i].size
        && view.value[i].price == UnitPrice(products[items[i].productId])
  {
    UpdateCartResult(carts, user, items, user + 1);
  }

  // ---------------------------------------------------------------------
  // delete / clear
  // ---------------------------------------------------------------------

  /** The caller's rows without those of `productId`. */
  function WithoutProduct(rows: seq<CartRow>, productId: nat): (r: seq<CartRow>)
    ensures forall i :: 0 <= i < |r| ==> r[i].productId != productId && r[i] in rows
    ensures forall i :: 0 <= i < |rows| && rows[i].productId != productId ==> rows[i] in r
  {
    if rows == [] then []
    else (if rows[0].productId == productId then [] else [rows[0]]) + WithoutProduct(rows[1..], productId)
  }

  /** `DELETE FROM carts WHERE user_id = user AND product_id = productId`. */
  function RemoveLine(carts: seq<CartRow>, user: nat, productId: nat): seq<CartRow> {
    RowsWhereNot(carts, (row: CartRow) => row.userId == user && row.productId == productId)
  }

  lemma {:induction false} RemoveLineOwn(carts: seq<CartRow>, user: nat, productId: nat)
    ensures CartOf(RemoveLine(carts, user, productId), user) == WithoutProduct(CartOf(carts, user), productId)
  {
    if carts != [] {
      RemoveLineOwn(carts[1..], user, productId);
      var drop := (row: CartRow) => row.userId == user && row.productId == productId;
      var head := if drop(carts[0]) then [] else [carts[0]];
      CartOfAppend(head, RowsWhereNot(carts[1..], drop), user);
      var mine := if carts[0].userId == user then [carts[0]] else [];
      assert CartOf(carts, user) == mine + CartOf(carts[1..], user);
      WithoutProductAppend(mine, CartOf(carts[1..], user), productId);
    }
  }

  lemma {:induction false} WithoutProductAppend(a: seq<CartRow>, b: seq<CartRow>, productId: nat)
    ensures WithoutProduct(a + b, productId) == WithoutProduct(a, productId) + WithoutProduct(b, productId)
  {
    if a == [] {
      assert a + b == b;
    } else {
      assert (a + b)[1..] == a[1..] + b;
      WithoutProductAppend(a[1..], b, productId);
    }
  }

  /**
   * delete removes every row of that product from the caller's cart, keeps
   * the caller's other rows in order and leaves the other carts alone.
   */
  lemma RemoveLineEffect(carts: seq<CartRow>, user: nat, productId: nat, other: nat)
    requires other != user
    ensures CartOf(RemoveLine(carts, user, productId), user) == WithoutProduct(CartOf(carts, user), productId)
    ensures forall i :: 0 <= i < |CartOf(RemoveLine(carts, user, productId), user)| ==>
      CartOf(RemoveLine(carts, user, productId), user)[i].productId != productId
    ensures CartOf(RemoveLine(carts, user, productId), other) == CartOf(carts, other)
  {
    RemoveLineOwn(carts, user, productId);
    RowsWhereNotKeepsCarts(carts, user, other, (row: CartRow) => row.userId == user && row.productId == productId);
  }

  method DeleteLine(db: Database, user: nat, productId: nat)
    modifies db`carts
    ensures db.carts == RemoveLine(old(db.carts), user, productId)
  {
    db.carts := RemoveLine(db.carts, user, productId);
  }

  method Clear(db: Database, user: nat)
    modifies db`carts
    ensures db.carts == ClearCart(old(db.carts), user)
  {
    db.carts := ClearCart(db.carts, user);
  }
}
