/**
 * Newsletter subscriptions (app/Http/Controllers/NewsletterController.php)
 * as a state machine over the subscriber table: subscribe adds a row for
 * an email the table does not hold yet, unsubscribe deactivates the row
 * and keeps it, destroy removes it. Each successful step writes exactly
 * one admin notification.
 *
 * The `email` format rule is the parameter `isEmail`; the ids of new rows
 * are parameters; the caller is None for the public form.
 */
module NewsletterController {
  import opened Common
  import opened Schema

  function SubscribedAt(s: Subscriber): int {
    s.subscribedAt
  }

  /** index: every subscriber, newest first. */
  function Index(subs: map<nat, Subscriber>, scan: seq<nat>): (r: seq<Subscriber>)
    requires IsScan(subs, scan)
    ensures forall s :: s in r <==> s in subs.Values
    ensures forall i, j :: 0 <= i < j < |r| ==> r[i].subscribedAt >= r[j].subscribedAt
  {
    NewestFirst(subs, scan, (s: Subscriber) => true, SubscribedAt)
  }

  /** Some row, active or not, holds this email. */
  predicate EmailKnown(subs: map<nat, Subscriber>, email: string) {
    exists id :: id in subs && subs[id].email == email
  }

  /** `required|email`. */
  predicate EmailWellFormed(email: string, isEmail: string -> bool) {
    Filled(email) && isEmail(email)
  }

  /** The admin notification a step writes. */
  function Note(id: nat, caller: Option<nat>, kind: string, title: string, message: string, now: int): AdminNotification {
    AdminNotification(id, caller, kind, title, Some(message), None, now)
  }

  function SubscribedNote(id: nat, caller: Option<nat>, email: string, now: int): (n: AdminNotification)
    ensures n.kind == "newsletter.subscribed" && n.title == "New newsletter subscription" && n.readAt.None?
  {
    Note(id, caller, "newsletter.subscribed", "New newsletter subscription",
         "Email " + email + " subscribed to the newsletter.", now)
  }

  function UnsubscribedNote(id: nat, caller: Option<nat>, email: string, now: int): (n: AdminNotification)
    ensures n.kind == "newsletter.unsubscribed" && n.title == "Newsletter unsubscribe" && n.readAt.None?
  {
    Note(id, caller, "newsletter.unsubscribed", "Newsletter unsubscribe",
         "Email " + email + " unsubscribed from the newsletter.", now)
  }

  function DeletedNote(id: nat, caller: Option<nat>, email: string, now: int): (n: AdminNotification)
    ensures n.kind == "newsletter.deleted" && n.title == "Subscriber removed" && n.readAt.None?
  {
    Note(id, caller, "newsletter.deleted", "Subscriber removed", "Subscriber " + email + " was deleted by admin.", now)
  }

  /**
   * subscribe: 422 for a malformed email or one already in the table (even
   * an unsubscribed one); otherwise a new active row and one notification.
   */
  method Subscribe(db: Database, email: string, caller: Option<nat>, isEmail: string -> bool,
                   subId: nat, noteId: nat, now: int) returns (status: int)
    requires subId !in db.subscribers && noteId !in db.notifications
    modifies db`subscribers, db`notifications
    ensures !EmailWellFormed(email, isEmail) || EmailKnown(old(db.subscribers), email) ==> status == 422 && unchanged(db)
    ensures EmailWellFormed(email, isEmail) && !EmailKnown(old(db.subscribers), email) ==>
      (status == 201
       && db.subscribers == old(db.subscribers)[subId := Subscriber(subId, email, now, true)]
       && db.notifications == old(db.notifications)[noteId := SubscribedNote(noteId, caller, email, now)])
  {
    if !EmailWellFormed(email, isEmail) || EmailKnown(db.subscribers, email) {
      return 422;
    }
    db.subscribers := db.subscribers[subId := Subscriber(subId, email, now, true)];
    db.notifications := db.notifications[noteId := SubscribedNote(noteId, caller, email, now)];
    status := 201;
  }

  /** The row `where('email', …)->first()` returns: the first in scan order with that email. */
  function FindByEmail(subs: map<nat, Subscriber>, scan: seq<nat>, email: string): (r: Option<nat>)
    requires forall i :: 0 <= i < |scan| ==> scan[i] in subs
    ensures r.Some? ==> r.value in subs && subs[r.value].email == email
    ensures r.None? ==> forall i :: 0 <= i < |scan| ==> subs[scan[i]].email != email
  {
    if scan == [] then None
    else if subs[scan[0]].email == email then Some(scan[0])
    else FindByEmail(subs, scan[1..], email)
  }

  /** The `exists` rule has already checked the email, so the 404 branch of unsubscribe is never taken. */
  lemma UnsubscribeFindsRow(subs: map<nat, Subscriber>, scan: seq<nat>, email: string)
    requires IsScan(subs, scan) && EmailKnown(subs, email)
    ensures FindByEmail(subs, scan, email).Some?
  {
    var id :| id in subs && subs[id].email == email;
    var i :| 0 <= i < |scan| && scan[i] == id;
  }

  /**
   * unsubscribe: 422 for a malformed or unknown email; otherwise the row is
   * kept with is_active false and one notification is written.
   */
  method Unsubscribe(db: Database, email: string, caller: Option<nat>, isEmail: string -> bool,
                     scan: seq<nat>, noteId: nat, now: int) returns (status: int)
    requires IsScan(db.subscribers, scan) && noteId !in db.notifications
    modifies db`subscribers, db`notifications
    ensures !EmailWellFormed(email, isEmail) || !EmailKnown(old(db.subscribers), email) ==> status == 422 && unchanged(db)
    ensures EmailWellFormed(email, isEmail) && EmailKnown(old(db.subscribers), email) ==>
      var id := FindByEmail(old(db.subscribers), scan, email).value;
      (status == 200
       && db.subscribers == old(db.subscribers)[id := old(db.subscribers)[id].(isActive := false)]
       && db.notifications == old(db.notifications)[noteId := UnsubscribedNote(noteId, caller, email, now)])
  {
    if !EmailWellFormed(email, isEmail) || !EmailKnown(db.subscribers, email) {
      return 422;
    }
    UnsubscribeFindsRow(db.subscribers, scan, email);
    var found := FindByEmail(db.subscribers, scan, email);
    if found.None? {
      return 404;
    }
    var id := found.value;
    db.subscribers := db.subscribers[id := db.subscribers[id].(isActive := false)];
    db.notifications := db.notifications[noteId := UnsubscribedNote(noteId, caller, db.subscribers[id].email, now)];
    status := 200;
  }

  /** destroy: an unknown id ends in the catch block (500); otherwise the row goes and one notification is written. */
  method Destroy(db: Database, id: nat, caller: Option<nat>, noteId: nat, now: int) returns (status: int)
    requires noteId !in db.notifications
    modifies db`subscribers, db`notifications
    ensures id !in old(db.subscribers) ==> status == 500 && unchanged(db)
    ensures id in old(db.subscribers) ==>
      (status == 200
       && db.subscribers == old(db.subscribers) - {id}
       && db.notifications == old(db.notifications)[noteId := DeletedNote(noteId, caller, old(db.subscribers)[id].email, now)])
  {
    if id !in db.subscribers {
      return 500;
    }
    var email := db.subscribers[id].email;
    db.subscribers := db.subscribers - {id};
    db.notifications := db.notifications[noteId := DeletedNote(noteId, caller, email, now)];
    status := 200;
  }

  // ---------------------------------------------------------------------
  // The state machine
  // ---------------------------------------------------------------------

  /** A successful step adds exactly one notification. */
  lemma OneNotificationPerStep(notes: map<nat, AdminNotification>, noteId: nat, n: AdminNotification)
    requires noteId !in notes
    ensures |notes[noteId := n]| == |notes| + 1
    ensures forall k :: k in notes ==> notes[noteId := n][k] == notes[k]
  {
    assert notes[noteId := n].Keys == notes.Keys + {noteId};
  }

  /**
   * Once subscribed, an email stays known through unsubscribe, so
   * subscribing it again is refused until an admin deletes the row; after
   * the delete (of the only row holding it) it can subscribe again.
   */
  lemma SubscriptionLifecycle(subs: map<nat, Subscriber>, subId: nat, email: string, now: int, id: nat)
    requires subId !in subs
    ensures EmailKnown(subs[subId := Subscriber(subId, email, now, true)], email)
    ensures id in subs && subs[id].email == email ==> EmailKnown(subs[id := subs[id].(isActive := false)], email)
    ensures (forall k :: k in subs && k != id ==> subs[k].email != email) ==> !EmailKnown(subs - {id}, email)
  {
    var after := subs[subId := Subscriber(subId, email, now, true)];
    assert after[subId].email == email;
    if id in subs && subs[id].email == email {
      assert subs[id := subs[id].(isActive := false)][id].email == email;
    }
  }

  /** Unsubscribing only flips is_active of the found row: every email stays where it was. */
  lemma UnsubscribeKeepsEmails(subs: map<nat, Subscriber>, id: nat, e: string)
    requires id in subs
    ensures EmailKnown(subs[id := subs[id].(isActive := false)], e) <==> EmailKnown(subs, e)
    ensures subs[id := subs[id].(isActive := false)].Keys == subs.Keys
  {
    var after := subs[id := subs[id].(isActive := false)];
    if EmailKnown(subs, e) {
      var k :| k in subs && subs[k].email == e;
      assert after[k].email == e;
    }
    if EmailKnown(after, e) {
      var k :| k in after && after[k].email == e;
      assert subs[k].email == e;
    }
  }
}
