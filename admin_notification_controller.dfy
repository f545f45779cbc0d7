/**
 * The admin feed (app/Http/Controllers/Admin/NotificationController.php):
 * listing newest first, creating an entry, marking one or all as read,
 * deleting one and emptying the table.
 */
module AdminNotificationController {
  import opened Common
  import opened Schema

  function CreatedAt(n: AdminNotification): int {
    n.createdAt
  }

  /** index: every entry, newest first. */
  function Index(table: map<nat, AdminNotification>, scan: seq<nat>): (r: seq<AdminNotification>)
    requires IsScan(table, scan)
    ensures forall n :: n in r <==> n in table.Values
    ensures forall i, j :: 0 <= i < j < |r| ==> r[i].createdAt >= r[j].createdAt
  {
    NewestFirst(table, scan, (n: AdminNotification) => true, CreatedAt)
  }

  /** The keys of a store request that validation keeps (`data` is not modelled). */
  datatype NotificationRequest = NotificationRequest(
    createdBy: Option<nat>, kind: Option<string>, title: Option<string>, message: Option<string>)

  /**
   * `type` required, at most 100 characters; `title` required, at most 255.
   * A blank value is trimmed to null by the middleware and fails `required`.
   */
  predicate RequestValid(r: NotificationRequest) {
    && r.kind.Some? && Filled(r.kind.value) && |r.kind.value| <= 100
    && r.title.Some? && Filled(r.title.value) && |r.title.value| <= 255
  }

  function NewEntry(id: nat, r: NotificationRequest, now: int): (n: AdminNotification)
    requires RequestValid(r)
    ensures n.id == id && n.kind == r.kind.value && n.title == r.title.value && n.createdBy == r.createdBy
    ensures n.readAt.None?
  {
    AdminNotification(id, r.createdBy, r.kind.value, r.title.value, r.message, None, now)
  }

  /** store: 422 on invalid input, else a new unread entry (read_at is not among the validated keys). */
  method Store(db: Database, r: NotificationRequest, id: nat, now: int) returns (status: int)
    requires id !in db.notifications
    modifies db`notifications
    ensures !RequestValid(r) ==> status == 422 && unchanged(db)
    ensures RequestValid(r) ==> status == 201 && db.notifications == old(db.notifications)[id := NewEntry(id, r, now)]
  {
    if !RequestValid(r) {
      return 422;
    }
    db.notifications := db.notifications[id := NewEntry(id, r, now)];
    status := 201;
  }

  /** markAsRead on one entry: read_at is set only when it is still null. */
  function MarkedRead(n: AdminNotification, now: int): (q: AdminNotification)
    ensures q.readAt.Some?
    ensures n.readAt.Some? ==> q == n
    ensures n.readAt.None? ==> q == n.(readAt := Some(now))
  {
    if n.readAt.None? then n.(readAt := Some(now)) else n
  }

  /** Marking twice is marking once: the first read time is kept. */
  lemma MarkedReadIdempotent(n: AdminNotification, t1: int, t2: int)
    ensures MarkedRead(MarkedRead(n, t1), t2) == MarkedRead(n, t1)
    ensures MarkedRead(MarkedRead(n, t1), t2).readAt == if n.readAt.Some? then n.readAt else Some(t1)
  {
  }

  method MarkAsRead(db: Database, id: nat, now: int) returns (status: int)
    modifies db`notifications
    ensures id !in old(db.notifications) ==> status == 404 && unchanged(db)
    ensures id in old(db.notifications) ==>
      status == 200 && db.notifications == old(db.notifications)[id := MarkedRead(old(db.notifications)[id], now)]
  {
    if id !in db.notifications {
      return 404;
    }
    db.notifications := db.notifications[id := MarkedRead(db.notifications[id], now)];
    status := 200;
  }

  /** markAllAsRead: `UPDATE … SET read_at = now WHERE read_at IS NULL`. */
  function AllRead(table: map<nat, AdminNotification>, now: int): (r: map<nat, AdminNotification>)
    ensures r.Keys == table.Keys
    ensures forall id :: id in r ==> r[id].readAt.Some?
    ensures forall id :: id in r && table[id].readAt.Some? ==> r[id] == table[id]
  {
    map id | id in table :: MarkedRead(table[id], now)
  }

  /** Marking all is marking each one, and a second pass changes nothing. */
  lemma AllReadIsEachRead(table: map<nat, AdminNotification>, id: nat, t1: int, t2: int)
    requires id in table
    ensures AllRead(table, t1)[id] == MarkedRead(table[id], t1)
    ensures AllRead(AllRead(table, t1), t2) == AllRead(table, t1)
  {
    var once := AllRead(table, t1);
    assert forall k :: k in once ==> AllRead(once, t2)[k] == once[k];
  }

  method MarkAllAsRead(db: Database, now: int)
    modifies db`notifications
    ensures db.notifications == AllRead(old(db.notifications), now)
  {
    db.notifications := AllRead(db.notifications, now);
  }

  method Destroy(db: Database, id: nat) returns (status: int)
    modifies db`notifications
    ensures id !in old(db.notifications) ==> status == 404 && unchanged(db)
    ensures id in old(db.notifications) ==> status == 200 && db.notifications == old(db.notifications) - {id}
  {
    if id !in db.notifications {
      return 404;
    }
    db.notifications := db.notifications - {id};
    status := 200;
  }

  /** destroyAll: TRUNCATE. */
  method DestroyAll(db: Database)
    modifies db`notifications
    ensures db.notifications == map[]
  {
    db.notifications := map[];
  }
}
