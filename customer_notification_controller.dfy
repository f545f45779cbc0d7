/**
 * The customer notification endpoints
 * (app/Http/Controllers/CustomerNotificationController.php): the full
 * listing, the caller's feed with its per-user read flag, create (which
 * fires the broadcast event), show with its access check, update, delete
 * and the per-user read receipt.
 *
 * The table is a map from id to row; the order in which the database hands
 * rows over is the parameter `scan`, a listing of every id once.
 */
module CustomerNotificationController {
  import opened Common
  import opened Schema
  import opened CustomerNotificationModel
  import UserModel

  function CreatedAt(n: CustomerNotification): int {
    n.createdAt
  }

  // ---------------------------------------------------------------------
  // index / myNotifications
  // ---------------------------------------------------------------------

  /** index: every notification, newest first. */
  function Index(table: map<nat, CustomerNotification>, scan: seq<nat>): (r: seq<CustomerNotification>)
    requires IsScan(table, scan)
    ensures forall n :: n in r <==> n in table.Values
    ensures SortedDesc(r, CreatedAt)
  {
    NewestFirst(table, scan, (n: CustomerNotification) => true, CreatedAt)
  }

  /** One entry of the caller's feed: the row and whether the caller has read it. */
  datatype FeedItem = FeedItem(notification: CustomerNotification, isRead: bool)

  /** The caller's filter: active, and broadcast or addressed to the caller. */
  predicate InFeed(n: CustomerNotification, user: nat) {
    n.isActive && ForUser(n, user)
  }

  function WithReadFlags(rows: seq<CustomerNotification>, receipts: map<(nat, nat), int>, user: nat): (r: seq<FeedItem>)
    ensures |r| == |rows|
    ensures forall i :: 0 <= i < |rows| ==> r[i].notification == rows[i] && (r[i].isRead <==> (rows[i].id, user) in receipts)
  {
    if rows == [] then [] else [FeedItem(rows[0], (rows[0].id, user) in receipts)] + WithReadFlags(rows[1..], receipts, user)
  }

  /** myNotifications: the caller's active notifications, newest first, each with its read flag. */
  function MyNotifications(table: map<nat, CustomerNotification>, receipts: map<(nat, nat), int>,
                           scan: seq<nat>, user: nat): seq<FeedItem>
    requires IsScan(table, scan)
  {
    WithReadFlags(NewestFirst(table, scan, (n: CustomerNotification) => InFeed(n, user), CreatedAt), receipts, user)
  }

  /** One visible notification appears in the feed. */
  lemma MyNotificationsHas(table: map<nat, CustomerNotification>, receipts: map<(nat, nat), int>,
                           scan: seq<nat>, user: nat, id: nat)
    requires IsScan(table, scan) && id in table && InFeed(table[id], user)
    ensures var feed := MyNotifications(table, receipts, scan, user);
      exists i :: 0 <= i < |feed| && feed[i].notification == table[id]
  {
    var sorted := NewestFirst(table, scan, (n: CustomerNotification) => InFeed(n, user), CreatedAt);
    var feed := MyNotifications(table, receipts, scan, user);
    assert table[id] in sorted;
    var i :| 0 <= i < |sorted| && sorted[i] == table[id];
    assert feed[i].notification == table[id];
  }

  /**
   * The feed holds exactly the caller's active notifications, newest first,
   * and an entry is marked read exactly when the caller has a receipt for it.
   */
  lemma MyNotificationsSpec(table: map<nat, CustomerNotification>, receipts: map<(nat, nat), int>,
                            scan: seq<nat>, user: nat)
    requires IsScan(table, scan)
    ensures var feed := MyNotifications(table, receipts, scan, user);
      && (forall i :: 0 <= i < |feed| ==> feed[i].notification in table.Values && InFeed(feed[i].notification, user))
      && (forall id :: id in table && InFeed(table[id], user) ==> exists i :: 0 <= i < |feed| && feed[i].notification == table[id])
      && (forall i, j :: 0 <= i < j < |feed| ==> feed[i].notification.createdAt >= feed[j].notification.createdAt)
      && (forall i :: 0 <= i < |feed| ==> (feed[i].isRead <==> (feed[i].notification.id, user) in receipts))
  {
    var sorted := NewestFirst(table, scan, (n: CustomerNotification) => InFeed(n, user), CreatedAt);
    var feed := MyNotifications(table, receipts, scan, user);
    forall id | id in table && InFeed(table[id], user)
      ensures exists i :: 0 <= i < |feed| && feed[i].notification == table[id]
    {
      MyNotificationsHas(table, receipts, scan, user, id);
    }
    forall i | 0 <= i < |feed| ensures feed[i].notification in table.Values && InFeed(feed[i].notification, user) {
      assert sorted[i] in sorted;
    }
  }

  // ---------------------------------------------------------------------
  // show / markAsRead
  // ---------------------------------------------------------------------

  datatype Access = NotFound | Forbidden | Allowed(n: CustomerNotification)

  /** Route-model binding (404), then the recipient check (403). */
  function Show(table: map<nat, CustomerNotification>, id: nat, user: nat): (r: Access)
    ensures r.NotFound? <==> id !in table
    ensures r.Allowed? ==> r.n == table[id]
  {
    if id !in table then NotFound
    else if table[id].recipient.Some? && table[id].recipient.value != user then Forbidden
    else Allowed(table[id])
  }

  /**
   * show allows exactly the notifications the user scope selects: broadcasts
   * to anyone, personal ones to their recipient, whether active or not.
   */
  lemma ShowMatchesScope(table: map<nat, CustomerNotification>, id: nat, user: nat)
    requires id in table
    ensures Show(table, id, user).Allowed? <==> id in ForUserIds(table, user)
    ensures table[id].recipient.None? ==> Show(table, id, user).Allowed?
    ensures Show(table, id, user).Forbidden? <==> table[id].recipient.Some? && table[id].recipient.value != user
  {
  }

  /** updateOrCreate on (notification, user): one receipt per pair, its read_at refreshed. */
  function MarkRead(receipts: map<(nat, nat), int>, id: nat, user: nat, now: int): (r: map<(nat, nat), int>)
    ensures r.Keys == receipts.Keys + {(id, user)}
    ensures r[(id, user)] == now
    ensures forall k :: k in receipts && k != (id, user) ==> r[k] == receipts[k]
  {
    receipts[(id, user) := now]
  }

  /**
   * Marking again keeps the single receipt and only moves read_at; a read
   * broadcast shows as read for the caller and for no one else.
   */
  lemma MarkReadEffect(table: map<nat, CustomerNotification>, receipts: map<(nat, nat), int>,
                       scan: seq<nat>, id: nat, user: nat, other: nat, t1: int, t2: int)
    requires IsScan(table, scan) && other != user
    ensures MarkRead(MarkRead(receipts, id, user, t1), id, user, t2) == MarkRead(receipts, id, user, t2)
    ensures ((id, other) in MarkRead(receipts, id, user, t1)) == ((id, other) in receipts)
    ensures forall i :: 0 <= i < |MyNotifications(table, MarkRead(receipts, id, user, t1), scan, user)| ==>
      var item := MyNotifications(table, MarkRead(receipts, id, user, t1), scan, user)[i];
      item.notification.id == id ==> item.isRead
  {
    MyNotificationsSpec(table, MarkRead(receipts, id, user, t1), scan, user);
  }

  /** markAsRead: 404, 403 for someone else's personal notification, else the receipt upsert. */
  method MarkAsRead(db: Database, id: nat, user: nat, now: int) returns (status: int)
    modifies db`readReceipts
    ensures !Show(db.customerNotifications, id, user).Allowed? ==> unchanged(db)
    ensures Show(db.customerNotifications, id, user).NotFound? ==> status == 404
    ensures Show(db.customerNotifications, id, user).Forbidden? ==> status == 403
    ensures Show(db.customerNotifications, id, user).Allowed? ==>
      status == 200 && db.readReceipts == MarkRead(old(db.readReceipts), id, user, now)
  {
    var access := Show(db.customerNotifications, id, user);
    if access.NotFound? {
      return 404;
    }
    if access.Forbidden? {
      return 403;
    }
    db.readReceipts := MarkRead(db.readReceipts, id, user, now);
    status := 200;
  }

  // ---------------------------------------------------------------------
  // store / update / destroy
  // ---------------------------------------------------------------------

  /**
   * The fillable keys of a create request, unvalidated. `title` and
   * `message` are NOT NULL columns; an absent `isActive` makes the stored
   * row active (the column default), while the instance `create` returns
   * keeps it null.
   */
  datatype NotificationInput = NotificationInput(
    recipient: Option<nat>, title: Option<string>, message: Option<string>, kind: Option<string>,
    readAt: Option<int>, isActive: Option<bool>, scheduledAt: Option<int>)

  function Inserted(id: nat, input: NotificationInput, now: int): (n: CustomerNotification)
    requires input.title.Some? && input.message.Some?
    ensures n.id == id && n.recipient == input.recipient && n.title == input.title.value
    ensures n.isActive == input.isActive.GetOr(true) && n.createdAt == now
  {
    CustomerNotification(id, input.recipient, input.title.value, input.message.value, input.kind,
                         input.readAt, input.isActive.GetOr(true), input.scheduledAt, now)
  }

  /** The announcement the event sends when broadcastWhen holds. */
  datatype Broadcast = Broadcast(channel: Channel, name: string, payload: Payload)

  function Announce(n: CustomerNotification, now: int): (r: Option<Broadcast>)
    ensures r.Some? <==> BroadcastWhen(n, now)
    ensures r.Some? ==> r.value.channel == BroadcastOn(n) && r.value.name == BroadcastName && r.value.payload == BroadcastWith(n)
  {
    if BroadcastWhen(n, now) then Some(Broadcast(BroadcastOn(n), BroadcastName, BroadcastWith(n))) else None
  }

  /**
   * The event is built from the instance `create` returns, which holds only
   * the keys sent: without `isActive` its is_active is null, so broadcastWhen
   * is false and nothing is sent, whatever the stored row says.
   */
  function AnnounceCreated(id: nat, input: NotificationInput, now: int): (r: Option<Broadcast>)
    requires input.title.Some? && input.message.Some?
    ensures r.Some? <==> input.isActive == Some(true) && BroadcastWhen(Inserted(id, input, now), now)
    ensures r.Some? ==> r == Announce(Inserted(id, input, now), now)
  {
    if input.isActive.None? then None else Announce(Inserted(id, input, now), now)
  }

  /** recipient_user_id is a foreign key to users: null or an existing user. */
  predicate RecipientKnown(users: map<nat, UserModel.User>, recipient: Option<nat>) {
    recipient.None? || recipient.value in users
  }

  /**
   * store: no validation, so a missing title or message, or a recipient
   * that is no user, fails in the database (500, nothing stored); otherwise
   * the row is inserted and the event announces the created instance.
   */
  method Store(db: Database, input: NotificationInput, id: nat, now: int) returns (status: int, sent: Option<Broadcast>)
    requires id !in db.customerNotifications
    modifies db`customerNotifications
    ensures (input.title.None? || input.message.None? || !RecipientKnown(db.users, input.recipient)) ==>
      status == 500 && sent.None? && unchanged(db)
    ensures input.title.Some? && input.message.Some? && RecipientKnown(db.users, input.recipient) ==>
      status == 201 && db.customerNotifications == old(db.customerNotifications)[id := Inserted(id, input, now)]
      && sent == AnnounceCreated(id, input, now)
  {
    if input.title.None? || input.message.None? || !RecipientKnown(db.users, input.recipient) {
      return 500, None;
    }
    db.customerNotifications := db.customerNotifications[id := Inserted(id, input, now)];
    status, sent := 201, AnnounceCreated(id, input, now);
  }

  /** A freshly stored, explicitly active personal notification goes to its recipient's private channel only. */
  lemma StoreAnnouncesPrivately(id: nat, input: NotificationInput, now: int, other: nat)
    requires input.title.Some? && input.message.Some? && input.recipient.Some? && other != input.recipient.value
    requires input.isActive == Some(true) && input.scheduledAt.None?
    ensures AnnounceCreated(id, input, now).Some?
    ensures AnnounceCreated(id, input, now).value.channel.PrivateChannel?
    ensures AnnounceCreated(id, input, now).value.channel !=
      BroadcastOn(Inserted(id, input, now).(recipient := Some(other)))
  {
    var n := Inserted(id, input, now);
    PrivateChannelsDistinct(n, n.(recipient := Some(other)));
  }

  /**
   * A notification created without `isActive` is stored active, so it shows
   * in the feed of every user it addresses, yet no event announces it.
   */
  lemma StoreWithoutActiveIsSilent(id: nat, input: NotificationInput, now: int, user: nat)
    requires input.title.Some? && input.message.Some? && input.isActive.None?
    requires input.recipient.None? || input.recipient.value == user
    ensures InFeed(Inserted(id, input, now), user)
    ensures AnnounceCreated(id, input, now).None?
  {
  }

  /** The keys an update request sends: None is absent, Some(None) is null. */
  datatype NotificationPatch = NotificationPatch(
    recipient: Option<Option<nat>>, title: Option<Option<string>>, message: Option<Option<string>>,
    kind: Option<Option<string>>, readAt: Option<Option<int>>, isActive: Option<bool>,
    scheduledAt: Option<Option<int>>)

  /** A null title or message is refused by the NOT NULL columns. */
  predicate PatchStorable(u: NotificationPatch) {
    (u.title.None? || u.title.value.Some?) && (u.message.None? || u.message.value.Some?)
  }

  function Patched(n: CustomerNotification, u: NotificationPatch): (q: CustomerNotification)
    requires PatchStorable(u)
    ensures q.id == n.id && q.createdAt == n.createdAt
    ensures u == NotificationPatch(None, None, None, None, None, None, None) ==> q == n
  {
    n.(recipient := u.recipient.GetOr(n.recipient),
       title := if u.title.Some? then u.title.value.value else n.title,
       message := if u.message.Some? then u.message.value.value else n.message,
       kind := u.kind.GetOr(n.kind),
       readAt := u.readAt.GetOr(n.readAt),
       isActive := u.isActive.GetOr(n.isActive),
       scheduledAt := u.scheduledAt.GetOr(n.scheduledAt))
  }

  /**
   * update: 404, 500 for a null title or message or a recipient that is no
   * user, else the sent keys overwrite the row.
   */
  method Update(db: Database, id: nat, u: NotificationPatch) returns (status: int)
    modifies db`customerNotifications
    ensures id !in old(db.customerNotifications) ==> status == 404 && unchanged(db)
    ensures id in old(db.customerNotifications) && !(PatchStorable(u) && (u.recipient.None? || RecipientKnown(db.users, u.recipient.value))) ==>
      status == 500 && unchanged(db)
    ensures id in old(db.customerNotifications) && PatchStorable(u) && (u.recipient.None? || RecipientKnown(db.users, u.recipient.value)) ==>
      status == 200 && db.customerNotifications == old(db.customerNotifications)[id := Patched(old(db.customerNotifications)[id], u)]
  {
    if id !in db.customerNotifications {
      return 404;
    }
    if !PatchStorable(u) || (u.recipient.Some? && !RecipientKnown(db.users, u.recipient.value)) {
      return 500;
    }
    db.customerNotifications := db.customerNotifications[id := Patched(db.customerNotifications[id], u)];
    status := 200;
  }

  /** The receipts that survive the ON DELETE CASCADE of one notification. */
  function ReceiptsWithout(receipts: map<(nat, nat), int>, id: nat): (r: map<(nat, nat), int>)
    ensures forall k :: k in r <==> k in receipts && k.0 != id
    ensures forall k :: k in r ==> r[k] == receipts[k]
  {
    map k | k in receipts && k.0 != id :: receipts[k]
  }

  /** destroy: 404, else the row and (by cascade) its read receipts are removed. */
  method Destroy(db: Database, id: nat) returns (status: int)
    modifies db`customerNotifications, db`readReceipts
    ensures id !in old(db.customerNotifications) ==> status == 404 && unchanged(db)
    ensures id in old(db.customerNotifications) ==>
      (status == 200 && db.customerNotifications == old(db.customerNotifications) - {id}
       && db.readReceipts == ReceiptsWithout(old(db.readReceipts), id))
  {
    if id !in db.customerNotifications {
      return 404;
    }
    db.customerNotifications := db.customerNotifications - {id};
    db.readReceipts := ReceiptsWithout(db.readReceipts, id);
    status := 200;
  }
}
