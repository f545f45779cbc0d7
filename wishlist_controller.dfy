/**
 * The wishlist (app/Http/Controllers/WishlistController.php): the listing
 * at list price, replacing the whole wishlist, removing one product and
 * clearing. Every action works on the caller's rows of `wishlists` only.
 */
module WishlistController {
  import opened Common
  import opened ProductModel
  import opened Schema
  import CartController

  /** One entry of the wishlist listing. */
  datatype WishlistLine = WishlistLine(productId: nat, name: string, price: int, image: Option<string>)

  /**
   * index: one entry per wished product id of the caller, in table order,
   * at the list price; an id whose product is gone makes the listing fail.
   */
  function WishlistView(products: map<nat, Product>, ids: seq<nat>): (r: Option<seq<WishlistLine>>)
    ensures r.Some? <==> forall i :: 0 <= i < |ids| ==> ids[i] in products
    ensures r.Some? ==> |r.value| == |ids| && forall i :: 0 <= i < |ids| ==>
      r.value[i].price == products[ids[i]].price && r.value[i].productId == products[ids[i]].id
  {
    if ids == [] then Some([])
    else if ids[0] !in products then None
    else
      var rest := WishlistView(products, ids[1..]);
      if rest.None? then None
      else
        var p := products[ids[0]];
        Some([WishlistLine(p.id, p.name, p.price, CartController.FirstImage(p.images))] + rest.value)
  }

  /**
   * The wishlist shows the list price where the cart shows the promo
   * price: the two differ for any product on promotion.
   */
  lemma WishlistIgnoresPromotion(products: map<nat, Product>, user: nat, id: nat)
    requires id in products && products[id].promoPrice.Some? && products[id].promoPrice.value != products[id].price
    ensures WishlistView(products, [id]).value[0].price != CartController.CartView(products, [CartRow(user, id, 1, None)]).value[0].price
  {
  }

  /** `items` required (so not empty) and every id an existing product. */
  predicate WishlistRequestValid(products: map<nat, Product>, ids: seq<nat>) {
    |ids| >= 1 && forall i :: 0 <= i < |ids| ==> ids[i] in products
  }

  function WishRows(user: nat, ids: seq<nat>): (r: seq<WishlistRow>)
    ensures |r| == |ids|
    ensures forall i :: 0 <= i < |ids| ==> r[i] == WishlistRow(user, ids[i])
  {
    if ids == [] then [] else WishRows(user, ids[..|ids| - 1]) + [WishlistRow(user, ids[|ids| - 1])]
  }

  /** `DELETE FROM wishlists WHERE user_id = user`. */
  function ClearWishlist(rows: seq<WishlistRow>, user: nat): seq<WishlistRow> {
    RowsWhereNot(rows, (row: WishlistRow) => row.userId == user)
  }

  /**
   * update: validation first, so a rejected request leaves the wishlist
   * alone; then the caller's rows are deleted and one row inserted per id.
   */
  method UpdateWishlist(db: Database, user: nat, ids: seq<nat>) returns (status: int)
    modifies db`wishlists
    ensures !WishlistRequestValid(db.products, ids) ==> status == 422 && unchanged(db)
    ensures WishlistRequestValid(db.products, ids) ==>
      status == 200 && db.wishlists == ClearWishlist(old(db.wishlists), user) + WishRows(user, ids)
  {
    if !WishlistRequestValid(db.products, ids) {
      return 422;
    }
    db.wishlists := ClearWishlist(db.wishlists, user);
    ghost var cleared := db.wishlists;
    var i := 0;
    while i < |ids|
      invariant 0 <= i <= |ids|
      invariant db.wishlists == cleared + WishRows(user, ids[..i])
    {
      assert ids[..i + 1][..i] == ids[..i];
      db.wishlists := db.wishlists + [WishlistRow(user, ids[i])];
      i := i + 1;
    }
    assert ids[..|ids|] == ids;
    status := 200;
  }

  lemma {:induction false} WishlistOfOwnRows(user: nat, ids: seq<nat>)
    ensures WishlistOf(WishRows(user, ids), user) == ids
  {
    if ids != [] {
      var init := ids[..|ids| - 1];
      WishlistOfOwnRows(user, init);
      WishlistOfAppend(WishRows(user, init), [WishlistRow(user, ids[|ids| - 1])], user);
    }
  }

  lemma {:induction false} WishlistOfNone(rows: seq<WishlistRow>, user: nat)
    requires forall i :: 0 <= i < |rows| ==> rows[i].userId != user
    ensures WishlistOf(rows, user) == []
  {
    if rows != [] {
      WishlistOfNone(rows[1..], user);
    }
  }

  /** Clearing leaves no row of the caller. */
  lemma ClearWishlistEmpties(rows: seq<WishlistRow>, user: nat, other: nat)
    requires other != user
    ensures WishlistOf(ClearWishlist(rows, user), user) == []
    ensures WishlistOf(ClearWishlist(rows, user), other) == WishlistOf(rows, other)
  {
    WishlistOfNone(ClearWishlist(rows, user), user);
    RowsWhereNotKeepsWishlists(rows, user, other, (row: WishlistRow) => row.userId == user);
  }

  /**
   * After update the caller's wishlist is exactly the requested ids, in
   * order, and every other user's wishlist is as it was.
   */
  lemma UpdateWishlistResult(rows: seq<WishlistRow>, user: nat, ids: seq<nat>, other: nat)
    requires other != user
    ensures WishlistOf(ClearWishlist(rows, user) + WishRows(user, ids), user) == ids
    ensures WishlistOf(ClearWishlist(rows, user) + WishRows(user, ids), other) == WishlistOf(rows, other)
  {
    var cleared := ClearWishlist(rows, user);
    WishlistOfAppend(cleared, WishRows(user, ids), user);
    WishlistOfAppend(cleared, WishRows(user, ids), other);
    ClearWishlistEmpties(rows, user, other);
    WishlistOfOwnRows(user, ids);
    WishlistOfNone(WishRows(user, ids), other);
  }

  /** The ids without `productId`. */
  function WithoutId(ids: seq<nat>, productId: nat): (r: seq<nat>)
    ensures forall i :: 0 <= i < |r| ==> r[i] != productId && r[i] in ids
    ensures forall i :: 0 <= i < |ids| && ids[i] != productId ==> ids[i] in r
  {
    if ids == [] then [] else (if ids[0] == productId then [] else [ids[0]]) + WithoutId(ids[1..], productId)
  }

  lemma {:induction false} WithoutIdAppend(a: seq<nat>, b: seq<nat>, productId: nat)
    ensures WithoutId(a + b, productId) == WithoutId(a, productId) + WithoutId(b, productId)
  {
    if a == [] {
      assert a + b == b;
    } else {
      assert (a + b)[1..] == a[1..] + b;
      WithoutIdAppend(a[1..], b, productId);
    }
  }

  /** `DELETE FROM wishlists WHERE user_id = user AND product_id = productId`. */
  function RemoveWish(rows: seq<WishlistRow>, user: nat, productId: nat): seq<WishlistRow> {
    RowsWhereNot(rows, (row: WishlistRow) => row.userId == user && row.productId == productId)
  }

  lemma {:induction false} RemoveWishOwn(rows: seq<WishlistRow>, user: nat, productId: nat)
    ensures WishlistOf(RemoveWish(rows, user, productId), user) == WithoutId(WishlistOf(rows, user), productId)
  {
    if rows != [] {
      RemoveWishOwn(rows[1..], user, productId);
      var drop := (row: WishlistRow) => row.userId == user && row.productId == productId;
      var head := if drop(rows[0]) then [] else [rows[0]];
      WishlistOfAppend(head, RowsWhereNot(rows[1..], drop), user);
      var mine := if rows[0].userId == user then [rows[0].productId] else [];
      assert WishlistOf(rows, user) == mine + WishlistOf(rows[1..], user);
      WithoutIdAppend(mine, WishlistOf(rows[1..], user), productId);
    }
  }

  /**
   * delete removes only that product from the caller's wishlist, keeps the
   * caller's other ids in order and leaves the other users alone.
   */
  lemma RemoveWishEffect(rows: seq<WishlistRow>, user: nat, productId: nat, other: nat)
    requires other != user
    ensures WishlistOf(RemoveWish(rows, user, productId), user) == WithoutId(WishlistOf(rows, user), productId)
    ensures productId !in WishlistOf(RemoveWish(rows, user, productId), user)
    ensures WishlistOf(RemoveWish(rows, user, productId), other) == WishlistOf(rows, other)
  {
    RemoveWishOwn(rows, user, productId);
    RowsWhereNotKeepsWishlists(rows, user, other, (row: WishlistRow) => row.userId == user && row.productId == productId);
  }

  /**
   * delete: the `exists` rule applies to a `productId` key of the request
   * body (the route parameter is not validated); when present it must name
   * a product.
   */
  method DeleteWish(db: Database, user: nat, productId: nat, bodyProductId: Option<nat>) returns (status: int)
    modifies db`wishlists
    ensures bodyProductId.Some? && bodyProductId.value !in db.products ==> status == 422 && unchanged(db)
    ensures !(bodyProductId.Some? && bodyProductId.value !in db.products) ==>
      status == 200 && db.wishlists == RemoveWish(old(db.wishlists), user, productId)
  {
    if bodyProductId.Some? && bodyProductId.value !in db.products {
      return 422;
    }
    db.wishlists := RemoveWish(db.wishlists, user, productId);
    status := 200;
  }

  method ClearAll(db: Database, user: nat)
    modifies db`wishlists
    ensures db.wishlists == ClearWishlist(old(db.wishlists), user)
  {
    db.wishlists := ClearWishlist(db.wishlists, user);
  }
}
