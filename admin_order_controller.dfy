/**
 * The admin order actions (app/Http/Controllers/Admin/OrderController.php):
 * which orders a caller may see, the listing filters, the status, payment
 * status and notes writes, and the customer column of the export.
 *
 * Instants are integer seconds; `now` is a parameter.
 */
module AdminOrderController {
  import opened Common
  import opened ProductModel
  import opened OrderModel
  import opened Schema
  import UserModel

  // ---------------------------------------------------------------------
  // Visibility
  // ---------------------------------------------------------------------

  /** `whereHas('items.product', created_by = caller)`: some item of the order is a product the caller created. */
  predicate HasOwnProduct(products: map<nat, Product>, items: seq<OrderItem>, orderId: nat, caller: nat) {
    exists i :: 0 <= i < |items| && items[i].orderId == orderId
      && items[i].productId in products && products[items[i].productId].createdBy == Some(caller)
  }

  /** Without a caller, or for a super admin, every order; otherwise the restriction above. */
  predicate VisibleTo(products: map<nat, Product>, items: seq<OrderItem>, orderId: nat, caller: Option<UserModel.User>) {
    caller.None? || caller.value.role == UserModel.SuperAdminRole || HasOwnProduct(products, items, orderId, caller.value.id)
  }

  // ---------------------------------------------------------------------
  // index
  // ---------------------------------------------------------------------

  /** The filter keys of the listing (search and the date range are not modelled). */
  datatype OrderFilter = OrderFilter(
    status: Option<string>, paymentStatus: Option<string>,
    highValue: bool, threshold: Option<int>,
    recent: bool, recentDays: Option<int>)

  const DefaultHighValueThreshold := 50000
  const DefaultRecentDays := 7
  const SecondsPerDay := 86400

  /** One order against the filters, each applied only when its key is present (and truthy where the source tests truthiness). */
  predicate PassesFilter(o: Order, f: OrderFilter, now: int) {
    && (f.status.Some? && Truthy(f.status.value) && f.status.value != "all" ==> StatusName(o.status) == f.status.value)
    && (f.paymentStatus.Some? && Truthy(f.paymentStatus.value) ==> PaymentStatusName(o.paymentStatus) == f.paymentStatus.value)
    && (f.highValue ==> o.totalAmount >= f.threshold.GetOr(DefaultHighValueThreshold))
    && (f.recent ==> o.createdAt >= now - f.recentDays.GetOr(DefaultRecentDays) * SecondsPerDay)
  }

  /** The ids the listing returns (before sorting and pagination). */
  function IndexIds(db: map<nat, Order>, products: map<nat, Product>, items: seq<OrderItem>,
                    caller: Option<UserModel.User>, f: OrderFilter, now: int): (ids: set<nat>)
    ensures forall id :: id in ids <==>
      id in db && VisibleTo(products, items, id, caller) && PassesFilter(db[id], f, now)
  {
    set id | id in db && VisibleTo(products, items, id, caller) && PassesFilter(db[id], f, now)
  }

  /**
   * A status of 'all', an empty one or none at all selects every status;
   * high_value defaults to 500 (in cents) and recent to seven days.
   */
  lemma FilterDefaults(o: Order, f: OrderFilter, now: int)
    requires f.status == None || f.status == Some("all") || f.status == Some("")
    requires f.paymentStatus.None? && !f.highValue && !f.recent && f.threshold.None? && f.recentDays.None?
    ensures PassesFilter(o, f, now)
    ensures PassesFilter(o, f.(highValue := true), now) <==> o.totalAmount >= 50000
    ensures PassesFilter(o, f.(recent := true), now) <==> o.createdAt >= now - 7 * 86400
  {
  }

  /** A status filter with a real status keeps exactly the orders in that status. */
  lemma StatusFilterExact(o: Order, s: OrderStatus, now: int)
    ensures PassesFilter(o, OrderFilter(Some(StatusName(s)), None, false, None, false, None), now) <==> o.status == s
  {
    StatusNameRoundTrip(o.status, StatusName(s));
    StatusNameRoundTrip(s, StatusName(o.status));
  }

  // ---------------------------------------------------------------------
  // show
  // ---------------------------------------------------------------------

  /** show: the order when it exists and the caller may see it, else None (404). */
  function ShowOrder(db: map<nat, Order>, products: map<nat, Product>, items: seq<OrderItem>,
                     caller: Option<UserModel.User>, id: nat): (r: Option<Order>)
    ensures r.Some? ==> id in db && r.value == db[id]
  {
    if id in db && VisibleTo(products, items, id, caller) then Some(db[id]) else None
  }

  /** show finds exactly the orders an unfiltered listing returns. */
  lemma ShowMatchesIndex(db: map<nat, Order>, products: map<nat, Product>, items: seq<OrderItem>,
                         caller: Option<UserModel.User>, id: nat, now: int)
    ensures ShowOrder(db, products, items, caller, id).Some? <==>
      id in IndexIds(db, products, items, caller, OrderFilter(None, None, false, None, false, None), now)
  {
  }

  /**
   * An admin who created none of the products of an order gets 404 for it,
   * even though the order exists.
   */
  lemma ForeignOrderHidden(db: map<nat, Order>, products: map<nat, Product>, items: seq<OrderItem>,
                           caller: UserModel.User, id: nat)
    requires caller.role != UserModel.SuperAdminRole
    requires forall i :: 0 <= i < |items| && items[i].orderId == id && items[i].productId in products ==>
      products[items[i].productId].createdBy != Some(caller.id)
    ensures ShowOrder(db, products, items, Some(caller), id).None?
  {
  }

  // ---------------------------------------------------------------------
  // updateStatus / updatePaymentStatus / addNotes
  // ---------------------------------------------------------------------

  /** The statuses updateStatus accepts: the five of the table's enum. */
  const AllowedStatuses: seq<string> := ["pending", "processing", "shipped", "delivered", "cancelled"]

  /** `Rule::in($allowedStatuses)`, then the status the string names. */
  function AdminStatus(t: string): (r: Option<OrderStatus>)
    ensures r.Some? <==> t in AllowedStatuses
    ensures r.Some? ==> StatusName(r.value) == t
  {
    if t in AllowedStatuses then ParseStatus(t) else None
  }

  /** Confirmed and refunded are statuses of the model that this action refuses. */
  lemma AdminStatusRefuses(t: string)
    ensures AdminStatus(t) != Some(Confirmed) && AdminStatus(t) != Some(Refunded)
    ensures AdminStatus(StatusName(Confirmed)).None? && AdminStatus(StatusName(Refunded)).None?
    ensures forall s :: s != Confirmed && s != Refunded ==> AdminStatus(StatusName(s)) == Some(s)
  {
    if AdminStatus(t).Some? {
      StatusNameRoundTrip(AdminStatus(t).value, t);
    }
  }

  /**
   * updateStatus: 422 for a status outside the five, 404 for an unknown
   * order; otherwise the status is overwritten whatever it was before, and
   * nothing else changes.
   */
  method UpdateStatus(db: Database, id: nat, status: string) returns (code: int)
    modifies db`orders
    ensures AdminStatus(status).None? ==> code == 422 && unchanged(db)
    ensures AdminStatus(status).Some? && id !in old(db.orders) ==> code == 404 && unchanged(db)
    ensures AdminStatus(status).Some? && id in old(db.orders) ==>
      code == 200 && db.orders == old(db.orders)[id := old(db.orders)[id].(status := AdminStatus(status).value)]
  {
    var s := AdminStatus(status);
    if s.None? {
      return 422;
    }
    if id !in db.orders {
      return 404;
    }
    db.orders := db.orders[id := db.orders[id].(status := s.value)];
    code := 200;
  }

  /** The optional history note of updatePaymentStatus: `nullable|string|max:500`. */
  predicate PaymentNoteValid(notes: Option<string>) {
    notes.None? || |notes.value| <= 500
  }

  /**
   * updatePaymentStatus: 422 unless the value is one of the five payment
   * statuses and the note fits, 404 for an unknown order; only
   * payment_status changes.
   */
  method UpdatePaymentStatus(db: Database, id: nat, paymentStatus: string, notes: Option<string>) returns (code: int)
    modifies db`orders
    ensures (ParsePaymentStatus(paymentStatus).None? || !PaymentNoteValid(notes)) ==> code == 422 && unchanged(db)
    ensures ParsePaymentStatus(paymentStatus).Some? && PaymentNoteValid(notes) && id !in old(db.orders) ==>
      code == 404 && unchanged(db)
    ensures ParsePaymentStatus(paymentStatus).Some? && PaymentNoteValid(notes) && id in old(db.orders) ==>
      code == 200 && db.orders == old(db.orders)[id := old(db.orders)[id].(paymentStatus := ParsePaymentStatus(paymentStatus).value)]
  {
    var p := ParsePaymentStatus(paymentStatus);
    if p.None? || !PaymentNoteValid(notes) {
      return 422;
    }
    if id !in db.orders {
      return 404;
    }
    db.orders := db.orders[id := db.orders[id].(paymentStatus := p.value)];
    code := 200;
  }

  /** Every payment status the model lists is accepted, and stored as the status named. */
  lemma PaymentStatusWritable(p: PaymentStatus)
    ensures ParsePaymentStatus(PaymentStatusName(p)) == Some(p)
  {
    PaymentStatusNameRoundTrip(p, PaymentStatusName(p));
  }

  /** `required|string|max:1000`. */
  predicate NotesValid(notes: string) {
    Filled(notes) && |notes| <= 1000
  }

  /**
   * addNotes: the new text replaces the old notes outright (the
   * timestamped line the action builds is never stored).
   */
  method AddNotes(db: Database, id: nat, notes: string) returns (code: int)
    modifies db`orders
    ensures !NotesValid(notes) ==> code == 422 && unchanged(db)
    ensures NotesValid(notes) && id !in old(db.orders) ==> code == 404 && unchanged(db)
    ensures NotesValid(notes) && id in old(db.orders) ==>
      code == 200 && db.orders == old(db.orders)[id := old(db.orders)[id].(notes := Some(notes))]
  {
    if !NotesValid(notes) {
      return 422;
    }
    if id !in db.orders {
      return 404;
    }
    db.orders := db.orders[id := db.orders[id].(notes := Some(notes))];
    code := 200;
  }

  // ---------------------------------------------------------------------
  // export
  // ---------------------------------------------------------------------

  /** The export's status filter is validated against all seven statuses, unlike updateStatus. */
  function ExportStatus(t: Option<string>): (r: Option<Option<OrderStatus>>)
    ensures t.None? ==> r == Some(None)
    ensures t.Some? ==> (r.Some? <==> ParseStatus(t.value).Some?)
  {
    if t.None? then Some(None)
    else if ParseStatus(t.value).Some? then Some(ParseStatus(t.value)) else None
  }

  /** The customer column: trim(first . ' ' . last), missing user or names counting as ''. */
  function ExportCustomer(user: Option<UserModel.User>): (r: string)
  {
    if user.None? then Trim(" ") else Trim(user.value.firstName + " " + user.value.lastName)
  }

  /** The export column is the user's full_name, and empty for an order without a user. */
  lemma ExportCustomerIsFullName(user: Option<UserModel.User>)
    ensures user.Some? ==> ExportCustomer(user) == UserModel.FullName(user.value)
    ensures user.None? ==> ExportCustomer(user) == ""
  {
  }

  datatype ExportRow = ExportRow(orderNumber: string, customer: string, email: Option<string>,
                                 status: OrderStatus, totalAmount: int, createdAt: int)

  function ExportRowOf(o: Order, users: map<nat, UserModel.User>): (r: ExportRow)
    ensures r.orderNumber == o.orderNumber && r.status == o.status && r.totalAmount == o.totalAmount
    ensures (o.userId.None? || o.userId.value !in users) <==> r.email.None?
  {
    var u := if o.userId.Some? && o.userId.value in users then Some(users[o.userId.value]) else None;
    ExportRow(o.orderNumber, ExportCustomer(u), if u.Some? then Some(u.value.email) else None,
              o.status, o.totalAmount, o.createdAt)
  }

  /** `format` is required and one of `csv`, `excel`. */
  predicate ExportFormatValid(format: Option<string>) {
    format == Some("csv") || format == Some("excel")
  }

  /**
   * export: 422 for a missing or unknown format or an unknown status, else
   * one row per order in the status (all orders without one).
   */
  function Export(orders: map<nat, Order>, users: map<nat, UserModel.User>, format: Option<string>,
                  status: Option<string>): (r: Option<map<nat, ExportRow>>)
    ensures (!ExportFormatValid(format) || ExportStatus(status).None?) <==> r.None?
    ensures r.Some? ==> forall id :: id in r.value <==>
      id in orders && (status.None? || StatusName(orders[id].status) == status.value)
  {
    var s := ExportStatus(status);
    if !ExportFormatValid(format) || s.None? then None
    else
      assert forall id :: id in orders && s.value.Some? ==>
        (orders[id].status == s.value.value <==> StatusName(orders[id].status) == status.value) by {
        forall id | id in orders && s.value.Some?
          ensures orders[id].status == s.value.value <==> StatusName(orders[id].status) == status.value
        {
          StatusNameRoundTrip(orders[id].status, status.value);
        }
      }
      Some(map id | id in orders && (s.value.None? || orders[id].status == s.value.value) :: ExportRowOf(orders[id], users))
  }
}
