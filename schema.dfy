/**
 * The database the controllers read and write, as one object whose fields
 * are the tables. Tables keyed by an auto-increment id are maps from id to
 * row; tables the controllers only scan, append to or filter are sequences
 * in insertion order. Each controller action is a method over a `Database`
 * that names in `modifies` exactly the tables it may write.
 */
module Schema {
  import opened Common
  import opened ProductModel
  import opened OrderModel
  import UserModel
  import CategoryModel
  import CustomerNotificationModel

  /** A `carts` row. */
  datatype CartRow = CartRow(userId: nat, productId: nat, quantity: int, size: Option<string>)

  /** A `wishlists` row. */
  datatype WishlistRow = WishlistRow(userId: nat, productId: nat)

  /** A `notifications` row: the admin feed (the JSON `data` column is not modelled). */
  datatype AdminNotification = AdminNotification(
    id: nat, createdBy: Option<nat>, kind: string, title: string,
    message: Option<string>, readAt: Option<int>, createdAt: int)

  /** A `product_views` row: one counter per (user or visitor, product). */
  datatype ViewRow = ViewRow(userId: Option<nat>, productId: nat, views: int, lastVisitedAt: Option<int>)

  /** A `newsletter_subscribers` row. */
  datatype Subscriber = Subscriber(id: nat, email: string, subscribedAt: int, isActive: bool)

  /** The single `app_settings` row. */
  datatype AppSettings = AppSettings(maintenanceMode: bool, allowRegister: bool)

  class Database {
    var products: map<nat, Product>
    var categories: map<nat, CategoryModel.Category>
    var users: map<nat, UserModel.User>
    var orders: map<nat, Order>
    var orderItems: seq<OrderItem>
    var carts: seq<CartRow>
    var wishlists: seq<WishlistRow>
    var notifications: map<nat, AdminNotification>
    var customerNotifications: map<nat, CustomerNotificationModel.CustomerNotification>
    /** `customer_notification_reads`: read_at per (notification id, user id), unique on the pair. */
    var readReceipts: map<(nat, nat), int>
    var views: seq<ViewRow>
    var subscribers: map<nat, Subscriber>
    var settings: Option<AppSettings>

    /** A freshly migrated, empty database. */
    constructor ()
      ensures products == map[] && categories == map[] && users == map[] && orders == map[]
      ensures orderItems == [] && carts == [] && wishlists == [] && views == []
      ensures notifications == map[] && customerNotifications == map[] && readReceipts == map[]
      ensures subscribers == map[] && settings == None
    {
      products := map[];
      categories := map[];
      users := map[];
      orders := map[];
      orderItems := [];
      carts := [];
      wishlists := [];
      notifications := map[];
      customerNotifications := map[];
      readReceipts := map[];
      views := [];
      subscribers := map[];
      settings := None;
    }
  }

  // ---------------------------------------------------------------------
  // Per-user row filters shared by the cart, wishlist and checkout code
  // ---------------------------------------------------------------------

  /** The cart rows of `user`, in table order. */
  function CartOf(carts: seq<CartRow>, user: nat): (r: seq<CartRow>)
    ensures forall i :: 0 <= i < |r| ==> r[i].userId == user && r[i] in carts
    ensures forall i :: 0 <= i < |carts| && carts[i].userId == user ==> carts[i] in r
  {
    if carts == [] then []
    else (if carts[0].userId == user then [carts[0]] else []) + CartOf(carts[1..], user)
  }

  /** `DELETE FROM <table> WHERE <drop(row)>` on a table kept in insertion order: the other rows stay, in order. */
  function RowsWhereNot<T(==)>(rows: seq<T>, drop: T -> bool): (r: seq<T>)
    ensures |r| <= |rows|
    ensures forall i :: 0 <= i < |r| ==> !drop(r[i]) && r[i] in rows
    ensures forall i :: 0 <= i < |rows| && !drop(rows[i]) ==> rows[i] in r
  {
    if rows == [] then []
    else (if drop(rows[0]) then [] else [rows[0]]) + RowsWhereNot(rows[1..], drop)
  }

  lemma {:induction false} CartOfAppend(a: seq<CartRow>, b: seq<CartRow>, user: nat)
    ensures CartOf(a + b, user) == CartOf(a, user) + CartOf(b, user)
  {
    if a == [] {
      assert a + b == b;
    } else {
      assert (a + b)[1..] == a[1..] + b;
      CartOfAppend(a[1..], b, user);
    }
  }

  /**
   * Removing rows of one user leaves every other user's cart exactly as it
   * was, in the same order.
   */
  lemma {:induction false} RowsWhereNotKeepsCarts(carts: seq<CartRow>, user: nat, other: nat, drop: CartRow -> bool)
    requires other != user
    requires forall row :: drop(row) ==> row.userId == user
    ensures CartOf(RowsWhereNot(carts, drop), other) == CartOf(carts, other)
  {
    if carts != [] {
      RowsWhereNotKeepsCarts(carts[1..], user, other, drop);
      var head := if drop(carts[0]) then [] else [carts[0]];
      CartOfAppend(head, RowsWhereNot(carts[1..], drop), other);
    }
  }

  /** `Cart::where('user_id', $user)->delete()`: the user's cart is emptied, every other cart kept as it was. */
  function ClearCart(carts: seq<CartRow>, user: nat): (r: seq<CartRow>)
    ensures CartOf(r, user) == []
    ensures forall other :: other != user ==> CartOf(r, other) == CartOf(carts, other)
  {
    var r := RowsWhereNot(carts, (row: CartRow) => row.userId == user);
    assert forall other :: other != user ==> CartOf(r, other) == CartOf(carts, other) by {
      forall other | other != user ensures CartOf(r, other) == CartOf(carts, other) {
        RowsWhereNotKeepsCarts(carts, user, other, (row: CartRow) => row.userId == user);
      }
    }
    CartOfNone(r, user);
    r
  }

  lemma {:induction false} CartOfNone(carts: seq<CartRow>, user: nat)
    requires forall i :: 0 <= i < |carts| ==> carts[i].userId != user
    ensures CartOf(carts, user) == []
  {
    if carts != [] {
      CartOfNone(carts[1..], user);
    }
  }

  /** The wishlist rows of `user`, as the product ids in table order. */
  function WishlistOf(rows: seq<WishlistRow>, user: nat): (r: seq<nat>)
    ensures forall i :: 0 <= i < |r| ==> WishlistRow(user, r[i]) in rows
    ensures forall i :: 0 <= i < |rows| && rows[i].userId == user ==> rows[i].productId in r
  {
    if rows == [] then []
    else (if rows[0].userId == user then [rows[0].productId] else []) + WishlistOf(rows[1..], user)
  }

  lemma {:induction false} WishlistOfAppend(a: seq<WishlistRow>, b: seq<WishlistRow>, user: nat)
    ensures WishlistOf(a + b, user) == WishlistOf(a, user) + WishlistOf(b, user)
  {
    if a == [] {
      assert a + b == b;
    } else {
      assert (a + b)[1..] == a[1..] + b;
      WishlistOfAppend(a[1..], b, user);
    }
  }

  lemma {:induction false} RowsWhereNotKeepsWishlists(rows: seq<WishlistRow>, user: nat, other: nat, drop: WishlistRow -> bool)
    requires other != user
    requires forall row :: drop(row) ==> row.userId == user
    ensures WishlistOf(RowsWhereNot(rows, drop), other) == WishlistOf(rows, other)
  {
    if rows != [] {
      RowsWhereNotKeepsWishlists(rows[1..], user, other, drop);
      var head := if drop(rows[0]) then [] else [rows[0]];
      WishlistOfAppend(head, RowsWhereNot(rows[1..], drop), other);
    }
  }

  // ---------------------------------------------------------------------
  // ON DELETE rules of the foreign keys
  // ---------------------------------------------------------------------

  /** `products.created_by` is ON DELETE SET NULL: the user's products lose their creator and nothing else. */
  function ProductsDisowned(products: map<nat, Product>, user: nat): (r: map<nat, Product>)
    ensures r.Keys == products.Keys
    ensures forall pid :: pid in r ==> r[pid].createdBy != Some(user)
    ensures forall pid :: pid in r && products[pid].createdBy != Some(user) ==> r[pid] == products[pid]
    ensures forall pid :: pid in r && products[pid].createdBy == Some(user) ==>
      r[pid].createdBy.None? && r[pid].(createdBy := Some(user)) == products[pid]
    ensures (forall pid :: pid in products ==> products[pid].createdBy != Some(user)) ==> r == products
  {
    map pid | pid in products :: if products[pid].createdBy == Some(user) then products[pid].(createdBy := None) else products[pid]
  }

  /**
   * `customer_notifications.recipient_user_id` is ON DELETE SET NULL: the
   * user's personal notifications become broadcasts.
   */
  function NotificationsUnaddressed(table: map<nat, CustomerNotificationModel.CustomerNotification>, user: nat)
    : (r: map<nat, CustomerNotificationModel.CustomerNotification>)
    ensures r.Keys == table.Keys
    ensures forall id :: id in r ==> r[id].recipient != Some(user)
    ensures forall id :: id in r && table[id].recipient != Some(user) ==> r[id] == table[id]
    ensures forall id :: id in r && table[id].recipient == Some(user) ==>
      r[id].recipient.None? && r[id].(recipient := Some(user)) == table[id]
  {
    map id | id in table :: if table[id].recipient == Some(user) then table[id].(recipient := None) else table[id]
  }

  /** `customer_notification_reads.user_id` is ON DELETE CASCADE: the user's receipts go. */
  function ReceiptsOfOthers(receipts: map<(nat, nat), int>, user: nat): (r: map<(nat, nat), int>)
    ensures forall k :: k in r <==> k in receipts && k.1 != user
    ensures forall k :: k in r ==> r[k] == receipts[k]
  {
    map k | k in receipts && k.1 != user :: receipts[k]
  }

  /** `orders.user_id` is ON DELETE CASCADE: the user's orders go. */
  function OrdersOfOthers(orders: map<nat, Order>, user: nat): (r: map<nat, Order>)
    ensures forall o :: o in r <==> o in orders && orders[o].userId != Some(user)
    ensures forall o :: o in r ==> r[o] == orders[o]
    ensures (forall o :: o in orders ==> orders[o].userId != Some(user)) ==> r == orders
  {
    map o | o in orders && orders[o].userId != Some(user) :: orders[o]
  }

  /**
   * `DELETE FROM users WHERE id = user` with the ON DELETE rules of every
   * table that references users: orders, product views and read receipts
   * are deleted, products and customer notifications keep their rows with
   * the reference set to null.
   */
  method DeleteUser(db: Database, user: nat)
    modifies db`users, db`orders, db`products, db`views, db`readReceipts, db`customerNotifications
    ensures db.users == old(db.users) - {user}
    ensures db.orders == OrdersOfOthers(old(db.orders), user)
    ensures db.products == ProductsDisowned(old(db.products), user)
    ensures db.views == RowsWhereNot(old(db.views), (v: ViewRow) => v.userId == Some(user))
    ensures db.readReceipts == ReceiptsOfOthers(old(db.readReceipts), user)
    ensures db.customerNotifications == NotificationsUnaddressed(old(db.customerNotifications), user)
  {
    db.users := db.users - {user};
    db.orders := OrdersOfOthers(db.orders, user);
    db.products := ProductsDisowned(db.products, user);
    db.views := RowsWhereNot(db.views, (v: ViewRow) => v.userId == Some(user));
    db.readReceipts := ReceiptsOfOthers(db.readReceipts, user);
    db.customerNotifications := NotificationsUnaddressed(db.customerNotifications, user);
  }

  /**
   * After a user is deleted no row refers to them any more, and a
   * notification that was addressed to them is now in every user's scope.
   */
  lemma DeleteUserLeavesNoReferences(orders: map<nat, Order>, products: map<nat, Product>, views: seq<ViewRow>,
                                     receipts: map<(nat, nat), int>,
                                     table: map<nat, CustomerNotificationModel.CustomerNotification>, user: nat)
    ensures forall o :: o in OrdersOfOthers(orders, user) ==> OrdersOfOthers(orders, user)[o].userId != Some(user)
    ensures forall pid :: pid in ProductsDisowned(products, user) ==> ProductsDisowned(products, user)[pid].createdBy != Some(user)
    ensures forall v :: v in RowsWhereNot(views, (v: ViewRow) => v.userId == Some(user)) ==> v.userId != Some(user)
    ensures forall k :: k in ReceiptsOfOthers(receipts, user) ==> k.1 != user
    ensures forall id, other :: id in table && table[id].recipient == Some(user) ==>
      CustomerNotificationModel.ForUser(NotificationsUnaddressed(table, user)[id], other)
  {
    var kept := RowsWhereNot(views, (v: ViewRow) => v.userId == Some(user));
    forall v | v in kept ensures v.userId != Some(user) {
      var i :| 0 <= i < |kept| && kept[i] == v;
    }
  }
}
