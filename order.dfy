/**
 * The `orders` and `order_items` rows (app/Models/Order.php): the status
 * and payment-status vocabularies, the transition predicates, the item
 * count and the creating hook that fills in a missing order number.
 */
module OrderModel {
  import opened Common

  datatype OrderStatus = Pending | Confirmed | Processing | Shipped | Delivered | Cancelled | Refunded

  datatype PaymentStatus = PaymentPending | Paid | PaymentFailed | PaymentRefunded | PartiallyRefunded

  /** The stored spelling of each status (the STATUS_* constants). */
  function StatusName(s: OrderStatus): string {
    match s
    case Pending => "pending"
    case Confirmed => "confirmed"
    case Processing => "processing"
    case Shipped => "shipped"
    case Delivered => "delivered"
    case Cancelled => "cancelled"
    case Refunded => "refunded"
  }

  /** Reads a request string as a status; anything else is not a status. */
  function ParseStatus(t: string): Option<OrderStatus> {
    if t == "pending" then Some(Pending)
    else if t == "confirmed" then Some(Confirmed)
    else if t == "processing" then Some(Processing)
    else if t == "shipped" then Some(Shipped)
    else if t == "delivered" then Some(Delivered)
    else if t == "cancelled" then Some(Cancelled)
    else if t == "refunded" then Some(Refunded)
    else None
  }

  /** Names and parsing are inverse: a string parses exactly when it is some status's name. */
  lemma StatusNameRoundTrip(s: OrderStatus, t: string)
    ensures ParseStatus(StatusName(s)) == Some(s)
    ensures ParseStatus(t).Some? ==> StatusName(ParseStatus(t).value) == t
  {
  }

  /** The stored spelling of each payment status (the PAYMENT_STATUS_* constants). */
  function PaymentStatusName(s: PaymentStatus): string {
    match s
    case PaymentPending => "pending"
    case Paid => "paid"
    case PaymentFailed => "failed"
    case PaymentRefunded => "refunded"
    case PartiallyRefunded => "partially_refunded"
  }

  function ParsePaymentStatus(t: string): Option<PaymentStatus> {
    if t == "pending" then Some(PaymentPending)
    else if t == "paid" then Some(Paid)
    else if t == "failed" then Some(PaymentFailed)
    else if t == "refunded" then Some(PaymentRefunded)
    else if t == "partially_refunded" then Some(PartiallyRefunded)
    else None
  }

  lemma PaymentStatusNameRoundTrip(s: PaymentStatus, t: string)
    ensures ParsePaymentStatus(PaymentStatusName(s)) == Some(s)
    ensures ParsePaymentStatus(t).Some? ==> PaymentStatusName(ParsePaymentStatus(t).value) == t
  {
  }

  /** getStatuses(): every status once, in declaration order. */
  function Statuses(): (r: seq<OrderStatus>)
    ensures |r| == 7
    ensures forall i, j :: 0 <= i < j < |r| ==> StatusName(r[i]) != StatusName(r[j])
  {
    var r := [Pending, Confirmed, Processing, Shipped, Delivered, Cancelled, Refunded];
    assert r[0] == Pending;
    assert r[1] == Confirmed;
    assert r[2] == Processing;
    assert r[3] == Shipped;
    assert r[4] == Delivered;
    assert r[5] == Cancelled;
    assert r[6] == Refunded;
    r
  }

  /** getPaymentStatuses(): every payment status once, in declaration order. */
  function PaymentStatuses(): (r: seq<PaymentStatus>)
    ensures |r| == 5
    ensures forall i, j :: 0 <= i < j < |r| ==> PaymentStatusName(r[i]) != PaymentStatusName(r[j])
  {
    var r := [PaymentPending, Paid, PaymentFailed, PaymentRefunded, PartiallyRefunded];
    assert r[0] == PaymentPending;
    assert r[1] == Paid;
    assert r[2] == PaymentFailed;
    assert r[3] == PaymentRefunded;
    assert r[4] == PartiallyRefunded;
    r
  }

  /** Each list names every value of its vocabulary. */
  lemma VocabulariesComplete(s: OrderStatus, p: PaymentStatus)
    ensures s in Statuses()
    ensures p in PaymentStatuses()
  {
    var r, q := Statuses(), PaymentStatuses();
    match s {
    case Pending => assert r[0] == s;
    case Confirmed => assert r[1] == s;
    case Processing => assert r[2] == s;
    case Shipped => assert r[3] == s;
    case Delivered => assert r[4] == s;
    case Cancelled => assert r[5] == s;
    case Refunded => assert r[6] == s;
    }
    match p {
    case PaymentPending => assert q[0] == p;
    case Paid => assert q[1] == p;
    case PaymentFailed => assert q[2] == p;
    case PaymentRefunded => assert q[3] == p;
    case PartiallyRefunded => assert q[4] == p;
    }
  }

  /** A delivery address as the checkout form sends it. */
  datatype Address = Address(
    firstName: string, lastName: string, address: string, city: string,
    postalCode: string, country: string, email: string, phone: Option<string>)

  datatype Order = Order(
    id: nat,
    userId: Option<nat>,
    totalAmount: int,
    subtotal: Option<int>,
    taxAmount: Option<int>,
    shippingAmount: Option<int>,
    discountAmount: Option<int>,
    status: OrderStatus,
    paymentStatus: PaymentStatus,
    shippingAddress: Address,
    paymentMethod: string,
    orderNumber: string,
    notes: Option<string>,
    stripeSessionId: Option<string>,
    createdAt: int)

  datatype OrderItem = OrderItem(orderId: nat, productId: nat, quantity: int, price: int, size: Option<string>)

  predicate CanBeCancelled(o: Order) {
    o.status == Pending || o.status == Confirmed
  }

  predicate CanBeShipped(o: Order) {
    o.status == Confirmed || o.status == Processing
  }

  predicate CanBeRefunded(o: Order) {
    o.status == Delivered && o.paymentStatus == Paid
  }

  predicate IsCompleted(o: Order) {
    o.status == Delivered
  }

  predicate IsCancelled(o: Order) {
    o.status == Cancelled
  }

  /**
   * The transition predicates exclude each other where the order life cycle
   * needs it: a cancellable order is neither refundable nor completed, a
   * refundable order is completed, and a cancelled order can be neither
   * shipped nor cancelled again.
   */
  lemma TransitionPredicatesExclusive(o: Order)
    ensures !(CanBeCancelled(o) && CanBeRefunded(o))
    ensures !(CanBeCancelled(o) && IsCompleted(o))
    ensures CanBeRefunded(o) ==> IsCompleted(o)
    ensures IsCancelled(o) ==> !CanBeCancelled(o) && !CanBeShipped(o) && !CanBeRefunded(o)
    ensures CanBeShipped(o) ==> !IsCompleted(o) && !IsCancelled(o)
  {
  }

  /** items_count: the sum of the quantities of the order's items. */
  function ItemsCount(items: seq<OrderItem>, orderId: nat): int {
    if items == [] then 0
    else (if items[0].orderId == orderId then items[0].quantity else 0) + ItemsCount(items[1..], orderId)
  }

  lemma {:induction false} ItemsCountAppend(a: seq<OrderItem>, b: seq<OrderItem>, orderId: nat)
    ensures ItemsCount(a + b, orderId) == ItemsCount(a, orderId) + ItemsCount(b, orderId)
  {
    if a != [] {
      assert (a + b)[1..] == a[1..] + b;
      ItemsCountAppend(a[1..], b, orderId);
    } else {
      assert a + b == b;
    }
  }

  /** Items of other orders do not count towards this one. */
  lemma {:induction false} ItemsCountOthers(items: seq<OrderItem>, orderId: nat)
    requires forall i :: 0 <= i < |items| ==> items[i].orderId != orderId
    ensures ItemsCount(items, orderId) == 0
  {
    if items != [] {
      ItemsCountOthers(items[1..], orderId);
    }
  }

  /**
   * The creating hook: an order number that PHP's empty() rejects ("" or
   * "0") is replaced by 'ORD-' + strtoupper(uniqid()); a supplied one is kept.
   */
  function Creating(o: Order, uniq: string): (q: Order)
    ensures Truthy(o.orderNumber) ==> q == o
    ensures !Truthy(o.orderNumber) ==> q == o.(orderNumber := q.orderNumber)
    ensures !Truthy(o.orderNumber) ==> |q.orderNumber| == 4 + |uniq| && q.orderNumber[..4] == "ORD-"
    ensures !Truthy(o.orderNumber) ==> forall i :: 4 <= i < |q.orderNumber| ==> !('a' <= q.orderNumber[i] <= 'z')
  {
    if Truthy(o.orderNumber) then o else o.(orderNumber := "ORD-" + Upper(uniq))
  }

  /** The hook never leaves an order without a usable number. */
  lemma CreatingFillsNumber(o: Order, uniq: string)
    ensures Truthy(Creating(o, uniq).orderNumber)
  {
    var q := Creating(o, uniq);
    if !Truthy(o.orderNumber) {
      assert q.orderNumber[0] == 'O';
    }
  }
}
