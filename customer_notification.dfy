/**
 * Customer notifications (app/Models/CustomerNotification.php) and the
 * event that announces a new one (app/Events/CustomerNotificationCreated.php):
 * who may see a notification, on which channel it is broadcast, when it is
 * broadcast at all, and what the broadcast carries.
 *
 * Times are integer instants; `now` is a parameter.
 */
module CustomerNotificationModel {
  import opened Common

  /** A `customer_notifications` row; `recipient` None is a broadcast to every customer. */
  datatype CustomerNotification = CustomerNotification(
    id: nat,
    recipient: Option<nat>,
    title: string,
    message: string,
    kind: Option<string>,
    readAt: Option<int>,
    isActive: bool,
    scheduledAt: Option<int>,
    createdAt: int)

  /** scopeForUser: broadcasts and the notifications addressed to `user`. */
  predicate ForUser(n: CustomerNotification, user: nat) {
    n.recipient.None? || n.recipient == Some(user)
  }

  /** The ids of the notifications the scope selects. */
  function ForUserIds(table: map<nat, CustomerNotification>, user: nat): (ids: set<nat>)
    ensures ids <= table.Keys
    ensures forall id :: id in table && table[id].recipient.None? ==> id in ids
    ensures forall id :: id in table && table[id].recipient == Some(user) ==> id in ids
    ensures forall id, other :: id in ids && other != user ==> table[id].recipient != Some(other)
  {
    set id | id in table && ForUser(table[id], user)
  }

  /** The scope looks at the recipient only: activity and schedule play no part. */
  lemma ForUserIgnoresActivity(n: CustomerNotification, user: nat, active: bool, scheduled: Option<int>)
    ensures ForUser(n.(isActive := active, scheduledAt := scheduled), user) == ForUser(n, user)
  {
  }

  // ---------------------------------------------------------------------
  // The broadcast event
  // ---------------------------------------------------------------------

  datatype Channel = PublicChannel(name: string) | PrivateChannel(name: string)

  const ChannelBase := "customer.notifications"

  /** broadcastOn: the public channel for a broadcast, the recipient's private channel otherwise. */
  function BroadcastOn(n: CustomerNotification): (c: Channel)
    ensures n.recipient.None? <==> c == PublicChannel(ChannelBase)
    ensures n.recipient.Some? ==> c.PrivateChannel? && c.name == ChannelBase + "." + NatToString(n.recipient.value)
  {
    if n.recipient.None? then PublicChannel(ChannelBase)
    else PrivateChannel(ChannelBase + "." + NatToString(n.recipient.value))
  }

  /** Two different recipients never share a private channel. */
  lemma PrivateChannelsDistinct(a: CustomerNotification, b: CustomerNotification)
    requires a.recipient.Some? && b.recipient.Some? && a.recipient != b.recipient
    ensures BroadcastOn(a) != BroadcastOn(b)
  {
    var x, y := NatToString(a.recipient.value), NatToString(b.recipient.value);
    if BroadcastOn(a) == BroadcastOn(b) {
      var p := ChannelBase + ".";
      assert p + x == p + y;
      assert x == (p + x)[|p|..];
      assert y == (p + y)[|p|..];
      NatToStringInjective(a.recipient.value, b.recipient.value);
    }
  }

  /** broadcastAs. */
  const BroadcastName := "CustomerNotificationCreated"

  /** broadcastWhen: active, and either unscheduled or scheduled strictly in the past. */
  predicate BroadcastWhen(n: CustomerNotification, now: int) {
    n.isActive && (n.scheduledAt.None? || n.scheduledAt.value < now)
  }

  /** An inactive notification is never sent; an active one is sent unless scheduled for now or later. */
  lemma BroadcastWhenCases(n: CustomerNotification, now: int)
    ensures !n.isActive ==> !BroadcastWhen(n, now)
    ensures n.isActive ==> (BroadcastWhen(n, now) <==> n.scheduledAt.None? || n.scheduledAt.value < now)
    ensures n.isActive && n.scheduledAt.Some? && n.scheduledAt.value >= now ==> !BroadcastWhen(n, now)
  {
  }

  /** broadcastWith: the fields the event carries (the JSON `meta` column is not modelled). */
  datatype Payload = Payload(
    id: nat, title: string, message: string, kind: Option<string>, readAt: Option<int>,
    isActive: bool, recipient: Option<nat>, createdAt: int)

  function BroadcastWith(n: CustomerNotification): (p: Payload)
    ensures p.recipient == n.recipient && p.isActive == n.isActive
    ensures p.id == n.id && p.title == n.title && p.message == n.message
    ensures p.kind == n.kind && p.readAt == n.readAt && p.createdAt == n.createdAt
  {
    Payload(n.id, n.title, n.message, n.kind, n.readAt, n.isActive, n.recipient, n.createdAt)
  }

  /** The payload loses nothing the model keeps about audience and schedule-free content. */
  lemma BroadcastWithDeterminesChannel(a: CustomerNotification, b: CustomerNotification)
    requires BroadcastWith(a) == BroadcastWith(b)
    ensures BroadcastOn(a) == BroadcastOn(b)
  {
  }
}
