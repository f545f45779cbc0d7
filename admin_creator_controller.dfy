/**
 * Product creators (app/Http/Controllers/Admin/CreatorController.php):
 * creators are the admin and super admin users. The listing with product
 * counts, creating a creator (always an active, verified admin), updating
 * one and the delete guard on owned products.
 *
 * Password hashing is the parameter `hash`, the `email` format rule the
 * parameter `isEmail`.
 */
module AdminCreatorController {
  import opened Common
  import opened ProductModel
  import opened UserModel
  import opened Schema
  import AdminUserController

  /** The products a user created. */
  function OwnedProducts(products: map<nat, Product>, id: nat): set<nat> {
    set p | p in products && products[p].createdBy == Some(id)
  }

  /** The display name the creator endpoints build: first, one space, last, not trimmed. */
  function CreatorName(u: User): (r: string)
    ensures |r| == |u.firstName| + 1 + |u.lastName|
    ensures r[|u.firstName|] == ' '
    ensures r[..|u.firstName|] == u.firstName && r[|u.firstName| + 1..] == u.lastName
  {
    u.firstName + " " + u.lastName
  }

  /**
   * Unlike the model's full_name, the creator name keeps surrounding
   * blanks: with an empty last name it ends in a space.
   */
  lemma CreatorNameUntrimmed(u: User)
    requires u.firstName != [] && !IsTrimChar(u.firstName[0]) && !IsTrimChar(u.firstName[|u.firstName| - 1])
    requires u.lastName == ""
    ensures CreatorName(u) == u.firstName + " "
    ensures FullName(u) == u.firstName
    ensures CreatorName(u) != FullName(u)
  {
    var s := u.firstName + " " + u.lastName;
    assert s[0] == u.firstName[0];
    assert TrimLeft(s) == s;
    assert s[..|s| - 1] == u.firstName;
    assert TrimRight(s) == TrimRight(u.firstName);
  }

  datatype CreatorEntry = CreatorEntry(
    id: nat, firstName: string, lastName: string, fullName: string, email: string,
    avatar: Option<string>, productsCount: nat)

  function EntryOf(u: User, products: map<nat, Product>): CreatorEntry {
    CreatorEntry(u.id, u.firstName, u.lastName, CreatorName(u), u.email, u.avatar, |OwnedProducts(products, u.id)|)
  }

  function Entries(rows: seq<User>, products: map<nat, Product>): (r: seq<CreatorEntry>)
    ensures |r| == |rows|
    ensures forall i :: 0 <= i < |rows| ==> r[i] == EntryOf(rows[i], products)
  {
    if rows == [] then [] else [EntryOf(rows[0], products)] + Entries(rows[1..], products)
  }

  /** index: `whereIn('role', [admin, super_admin])`, in table order, with product counts. */
  function Index(users: map<nat, User>, products: map<nat, Product>, scan: seq<nat>): seq<CreatorEntry>
    requires IsScan(users, scan)
  {
    Entries(Select(users, scan, (u: User) => IsAdmin(u)), products)
  }

  /**
   * The listing holds exactly the admins and super admins, each with the
   * number of products they created.
   */
  lemma IndexSpec(users: map<nat, User>, products: map<nat, Product>, scan: seq<nat>)
    requires IsScan(users, scan)
    requires forall id :: id in users ==> users[id].id == id
    ensures var r := Index(users, products, scan);
      && (forall i :: 0 <= i < |r| ==>
            (r[i].id in ScopeAdmins(users) && r[i].productsCount == |OwnedProducts(products, r[i].id)|))
      && (forall id :: id in ScopeAdmins(users) ==> exists i :: 0 <= i < |r| && r[i].id == id)
  {
    var rows := Select(users, scan, (u: User) => IsAdmin(u));
    var r := Index(users, products, scan);
    ScopesPartitionUsers(users);
    forall i | 0 <= i < |r| ensures r[i].id in ScopeAdmins(users) {
      assert rows[i] in rows;
      var k :| 0 <= k < |scan| && users[scan[k]] == rows[i] && IsAdmin(rows[i]);
    }
    forall id | id in ScopeAdmins(users) ensures exists i :: 0 <= i < |r| && r[i].id == id {
      var k :| 0 <= k < |scan| && scan[k] == id;
      assert users[id] in rows;
      var i :| 0 <= i < |rows| && rows[i] == users[id];
      assert r[i].id == id;
    }
  }

  /** The fields of a store request (None: key absent). */
  datatype CreatorRequest = CreatorRequest(
    firstName: Option<string>, lastName: Option<string>, email: Option<string>,
    password: Option<string>, avatar: Option<string>)

  /** The same name and email rules as user creation; the password needs no confirmation here. */
  predicate StoreValid(users: map<nat, User>, r: CreatorRequest, isEmail: string -> bool) {
    && r.firstName.Some? && AdminUserController.NameValid(r.firstName.value)
    && r.lastName.Some? && AdminUserController.NameValid(r.lastName.value)
    && r.email.Some? && AdminUserController.EmailValid(users, r.email.value, None, isEmail)
    && r.password.Some? && |r.password.value| >= 8
  }

  function NewCreator(id: nat, r: CreatorRequest, hash: string -> string, now: int): (u: User)
    requires r.firstName.Some? && r.lastName.Some? && r.email.Some? && r.password.Some?
    ensures u.role == AdminRole && u.status == Active && u.emailVerifiedAt == Some(now)
    ensures u.password == hash(r.password.value) && u.avatar == r.avatar
  {
    User(id, r.firstName.value, r.lastName.value, r.email.value, hash(r.password.value), AdminRole, Active, Some(now), r.avatar)
  }

  /** A created creator is listed: it is an admin (not a super admin), active and verified. */
  lemma NewCreatorListed(users: map<nat, User>, id: nat, r: CreatorRequest, hash: string -> string, now: int)
    requires id !in users
    requires r.firstName.Some? && r.lastName.Some? && r.email.Some? && r.password.Some?
    ensures id in ScopeAdmins(users[id := NewCreator(id, r, hash, now)])
    ensures ScopeAdmins(users[id := NewCreator(id, r, hash, now)]) == ScopeAdmins(users) + {id}
    ensures !IsSuperAdmin(NewCreator(id, r, hash, now)) && IsActive(NewCreator(id, r, hash, now))
    ensures IsVerified(NewCreator(id, r, hash, now))
  {
  }

  method Store(db: Database, r: CreatorRequest, id: nat, isEmail: string -> bool, hash: string -> string, now: int)
    returns (status: int)
    requires id !in db.users
    modifies db`users
    ensures !StoreValid(old(db.users), r, isEmail) ==> status == 422 && unchanged(db)
    ensures StoreValid(old(db.users), r, isEmail) ==>
      status == 201 && db.users == old(db.users)[id := NewCreator(id, r, hash, now)]
  {
    if !StoreValid(db.users, r, isEmail) {
      return 422;
    }
    db.users := db.users[id := NewCreator(id, r, hash, now)];
    status := 201;
  }

  /**
   * The keys of an update request: names and email are `sometimes`
   * (None: absent); password and avatar are nullable (Some(None): null).
   */
  datatype CreatorPatch = CreatorPatch(
    firstName: Option<string>, lastName: Option<string>, email: Option<string>,
    password: Option<Option<string>>, avatar: Option<Option<string>>)

  predicate UpdateValid(users: map<nat, User>, id: nat, u: CreatorPatch, isEmail: string -> bool) {
    && (u.firstName.None? || AdminUserController.NameValid(u.firstName.value))
    && (u.lastName.None? || AdminUserController.NameValid(u.lastName.value))
    && (u.email.None? || AdminUserController.EmailValid(users, u.email.value, Some(id), isEmail))
    && (u.password.None? || u.password.value.None? || |u.password.value.value| >= 8)
  }

  predicate PasswordFilled(u: CreatorPatch) {
    u.password.Some? && u.password.value.Some? && Filled(u.password.value.value)
  }

  /** The sent keys overwrite the row (a null avatar clears it); the password only when filled. */
  function Updated(user: User, u: CreatorPatch, hash: string -> string): User {
    user.(firstName := u.firstName.GetOr(user.firstName),
          lastName := u.lastName.GetOr(user.lastName),
          email := u.email.GetOr(user.email),
          avatar := u.avatar.GetOr(user.avatar),
          password := if PasswordFilled(u) then hash(u.password.value.value) else user.password)
  }

  /** update never touches role, status or verification, and keeps the password unless one is filled. */
  lemma UpdatedShape(user: User, u: CreatorPatch, hash: string -> string)
    ensures var v := Updated(user, u, hash);
      && v.role == user.role && v.status == user.status && v.emailVerifiedAt == user.emailVerifiedAt
      && v.id == user.id
      && (PasswordFilled(u) ==> v.password == hash(u.password.value.value))
      && (!PasswordFilled(u) ==> v.password == user.password)
  {
  }

  method Update(db: Database, id: nat, u: CreatorPatch, isEmail: string -> bool, hash: string -> string)
    returns (status: int)
    modifies db`users
    ensures id !in old(db.users) ==> status == 404 && unchanged(db)
    ensures id in old(db.users) && !UpdateValid(old(db.users), id, u, isEmail) ==> status == 422 && unchanged(db)
    ensures id in old(db.users) && UpdateValid(old(db.users), id, u, isEmail) ==>
      status == 200 && db.users == old(db.users)[id := Updated(old(db.users)[id], u, hash)]
  {
    if id !in db.users {
      return 404;
    }
    if !UpdateValid(db.users, id, u, isEmail) {
      return 422;
    }
    db.users := db.users[id := Updated(db.users[id], u, hash)];
    status := 200;
  }

  /**
   * destroy: 404; 400 while the user owns a product; else the user is
   * removed with the ON DELETE rules: their orders, views and read receipts
   * go and their personal notifications become broadcasts (the guard
   * leaves no product to disown).
   */
  method Destroy(db: Database, id: nat) returns (status: int)
    modifies db`users, db`orders, db`products, db`views, db`readReceipts, db`customerNotifications
    ensures id !in old(db.users) ==> status == 404 && unchanged(db)
    ensures id in old(db.users) && OwnedProducts(old(db.products), id) != {} ==> status == 400 && unchanged(db)
    ensures id in old(db.users) && OwnedProducts(old(db.products), id) == {} ==>
      status == 200 && db.users == old(db.users) - {id} && db.products == old(db.products)
      && db.orders == OrdersOfOthers(old(db.orders), id)
      && db.views == RowsWhereNot(old(db.views), (v: ViewRow) => v.userId == Some(id))
      && db.readReceipts == ReceiptsOfOthers(old(db.readReceipts), id)
      && db.customerNotifications == NotificationsUnaddressed(old(db.customerNotifications), id)
  {
    if id !in db.users {
      return 404;
    }
    if |OwnedProducts(db.products, id)| > 0 {
      return 400;
    }
    assert forall pid :: pid in db.products ==> pid !in OwnedProducts(db.products, id);
    DeleteUser(db, id);
    status := 200;
  }
}
