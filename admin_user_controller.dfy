/**
 * User administration (app/Http/Controllers/Admin/UserController.php):
 * creating and updating users with the role restricted to `user` or
 * `admin`, the delete guards, marking an email verified and the
 * impersonation guard.
 *
 * Password hashing is the parameter `hash`, the `email` format rule the
 * parameter `isEmail`; a new user's id is the parameter `id`.
 */
module AdminUserController {
  import opened Common
  import opened UserModel
  import opened OrderModel
  import opened Schema

  /** The roles this controller may write: `in:user,admin`. */
  function WritableRole(t: string): (r: Option<Role>)
    ensures r.Some? ==> r.value != SuperAdminRole && RoleName(r.value) == t
    ensures r.None? <==> t != "user" && t != "admin"
  {
    if t == "user" then Some(CustomerRole) else if t == "admin" then Some(AdminRole) else None
  }

  /** Some other user already has this email (`unique:users,email`, ignoring `except`). */
  predicate EmailTaken(users: map<nat, User>, email: string, except: Option<nat>) {
    exists id :: id in users && users[id].email == email && Some(id) != except
  }

  /**
   * Without an exception the rule refuses exactly the e-mails some row
   * holds; on update the row's own e-mail does not count as taken.
   */
  lemma EmailTakenCases(users: map<nat, User>, email: string, id: nat)
    ensures EmailTaken(users, email, None) <==> exists u :: u in users && users[u].email == email
    ensures id in users && (forall u :: u in users && u != id ==> users[u].email != email) ==> !EmailTaken(users, email, Some(id))
    ensures EmailTaken(users, email, Some(id)) ==> EmailTaken(users, email, None)
  {
  }

  /** `required|string|max:255`. */
  predicate NameValid(s: string) {
    Filled(s) && |s| <= 255
  }

  predicate EmailValid(users: map<nat, User>, email: string, except: Option<nat>, isEmail: string -> bool) {
    Filled(email) && isEmail(email) && |email| <= 255 && !EmailTaken(users, email, except)
  }

  /** `min:8|confirmed`: at least eight characters and equal to its confirmation. */
  predicate PasswordValid(p: string, confirmation: Option<string>) {
    |p| >= 8 && confirmation == Some(p)
  }

  /** The fields of a store request (None: key absent). */
  datatype NewUserRequest = NewUserRequest(
    firstName: Option<string>, lastName: Option<string>, email: Option<string>,
    password: Option<string>, passwordConfirmation: Option<string>, role: Option<string>)

  predicate StoreValid(users: map<nat, User>, r: NewUserRequest, isEmail: string -> bool) {
    && r.firstName.Some? && NameValid(r.firstName.value)
    && r.lastName.Some? && NameValid(r.lastName.value)
    && r.email.Some? && EmailValid(users, r.email.value, None, isEmail)
    && r.password.Some? && PasswordValid(r.password.value, r.passwordConfirmation)
    && r.role.Some? && WritableRole(r.role.value).Some?
  }

  /** The created row: the hashed password, the role, and a verified email for admins only. */
  function NewUser(id: nat, r: NewUserRequest, hash: string -> string, now: int): (u: User)
    requires r.firstName.Some? && r.lastName.Some? && r.email.Some? && r.password.Some?
    requires r.role.Some? && WritableRole(r.role.value).Some?
  {
    var role := WritableRole(r.role.value).value;
    User(id, r.firstName.value, r.lastName.value, r.email.value, hash(r.password.value), role, Active,
         if role == AdminRole then Some(now) else None, None)
  }

  /**
   * A user created here is never a super admin, starts active, keeps the
   * hash of the given password, and has a verified email exactly when it
   * is an admin.
   */
  lemma NewUserShape(users: map<nat, User>, id: nat, r: NewUserRequest, isEmail: string -> bool,
                     hash: string -> string, now: int)
    requires StoreValid(users, r, isEmail)
    ensures var u := NewUser(id, r, hash, now);
      && !IsSuperAdmin(u) && IsActive(u)
      && u.password == hash(r.password.value)
      && (IsVerified(u) <==> r.role == Some("admin"))
      && (IsAdmin(u) <==> r.role == Some("admin"))
  {
  }

  /** store: 422 on any failed rule, else 201 and the new row. */
  method Store(db: Database, r: NewUserRequest, id: nat, isEmail: string -> bool,
               hash: string -> string, now: int) returns (status: int)
    requires id !in db.users
    modifies db`users
    ensures !StoreValid(old(db.users), r, isEmail) ==> status == 422 && unchanged(db)
    ensures StoreValid(old(db.users), r, isEmail) ==>
      status == 201 && db.users == old(db.users)[id := NewUser(id, r, hash, now)]
  {
    if !StoreValid(db.users, r, isEmail) {
      return 422;
    }
    db.users := db.users[id := NewUser(id, r, hash, now)];
    status := 201;
  }

  /** A store keeps emails unique: the new email belonged to no one. */
  lemma StoreKeepsEmailsUnique(users: map<nat, User>, id: nat, r: NewUserRequest, isEmail: string -> bool,
                               hash: string -> string, now: int)
    requires id !in users && StoreValid(users, r, isEmail)
    requires forall a, b :: a in users && b in users && a != b ==> users[a].email != users[b].email
    ensures var after := users[id := NewUser(id, r, hash, now)];
      forall a, b :: a in after && b in after && a != b ==> after[a].email != after[b].email
  {
  }

  /**
   * The keys of an update request: names, email and role are `sometimes`
   * (None: absent); the password is nullable (Some(None): sent as null).
   */
  datatype UserPatch = UserPatch(
    firstName: Option<string>, lastName: Option<string>, email: Option<string>,
    password: Option<Option<string>>, passwordConfirmation: Option<string>, role: Option<string>)

  predicate UpdateValid(users: map<nat, User>, id: nat, u: UserPatch, isEmail: string -> bool) {
    && (u.firstName.None? || NameValid(u.firstName.value))
    && (u.lastName.None? || NameValid(u.lastName.value))
    && (u.email.None? || EmailValid(users, u.email.value, Some(id), isEmail))
    && (u.password.None? || u.password.value.None? || PasswordValid(u.password.value.value, u.passwordConfirmation))
    && (u.role.None? || WritableRole(u.role.value).Some?)
  }

  /** `$request->filled('password')`. */
  predicate PasswordFilled(u: UserPatch) {
    u.password.Some? && u.password.value.Some? && Filled(u.password.value.value)
  }

  /** The sent keys overwrite the row; the password only when filled, and hashed. */
  function Updated(user: User, u: UserPatch, hash: string -> string): User
    requires u.role.None? || WritableRole(u.role.value).Some?
  {
    user.(firstName := u.firstName.GetOr(user.firstName),
          lastName := u.lastName.GetOr(user.lastName),
          email := u.email.GetOr(user.email),
          role := if u.role.Some? then WritableRole(u.role.value).value else user.role,
          password := if PasswordFilled(u) then hash(u.password.value.value) else user.password)
  }

  /**
   * update replaces the password with a hash exactly when a filled one is
   * sent, can only make a user a customer or an admin, and leaves a super
   * admin one only when no role is sent.
   */
  lemma UpdatedShape(user: User, u: UserPatch, hash: string -> string)
    requires u.role.None? || WritableRole(u.role.value).Some?
    ensures !PasswordFilled(u) ==> Updated(user, u, hash).password == user.password
    ensures PasswordFilled(u) ==> Updated(user, u, hash).password == hash(u.password.value.value)
    ensures IsSuperAdmin(Updated(user, u, hash)) <==> IsSuperAdmin(user) && u.role.None?
    ensures Updated(user, u, hash).id == user.id && Updated(user, u, hash).status == user.status
    ensures Updated(user, u, hash).emailVerifiedAt == user.emailVerifiedAt
  {
  }

  /** A null or blank password in an update leaves the stored hash alone. */
  lemma BlankPasswordKept(user: User, u: UserPatch, hash: string -> string)
    requires u.role.None? && u.firstName.None? && u.lastName.None? && u.email.None?
    requires u.password.None? || u.password.value.None? || !Filled(u.password.value.value)
    ensures Updated(user, u, hash) == user
  {
  }

  /** update: 404, then 422 on a failed rule, else the patched row. */
  method Update(db: Database, id: nat, u: UserPatch, isEmail: string -> bool, hash: string -> string)
    returns (status: int)
    modifies db`users
    ensures id !in old(db.users) ==> status == 404 && unchanged(db)
    ensures id in old(db.users) && !UpdateValid(old(db.users), id, u, isEmail) ==> status == 422 && unchanged(db)
    ensures id in old(db.users) && UpdateValid(old(db.users), id, u, isEmail) ==>
      status == 200 && db.users == old(db.users)[id := Updated(old(db.users)[id], u, hash)]
  {
    if id !in db.users {
      return 404;
    }
    if !UpdateValid(db.users, id, u, isEmail) {
      return 422;
    }
    db.users := db.users[id := Updated(db.users[id], u, hash)];
    status := 200;
  }

  /** `$user->orders()->exists()`. */
  predicate HasOrders(orders: map<nat, Order>, id: nat) {
    exists o :: o in orders && orders[o].userId == Some(id)
  }

  /**
   * destroy: 404; a super admin or a user with orders is kept (422); anyone
   * else is removed, and the ON DELETE rules clear what refers to them (the
   * guard leaves no orders to cascade).
   */
  method Destroy(db: Database, id: nat) returns (status: int)
    modifies db`users, db`orders, db`products, db`views, db`readReceipts, db`customerNotifications
    ensures id !in old(db.users) ==> status == 404 && unchanged(db)
    ensures id in old(db.users) && (IsSuperAdmin(old(db.users)[id]) || HasOrders(old(db.orders), id)) ==>
      status == 422 && unchanged(db)
    ensures id in old(db.users) && !IsSuperAdmin(old(db.users)[id]) && !HasOrders(old(db.orders), id) ==>
      status == 200 && db.users == old(db.users) - {id} && db.orders == old(db.orders)
      && db.products == ProductsDisowned(old(db.products), id)
      && db.views == RowsWhereNot(old(db.views), (v: ViewRow) => v.userId == Some(id))
      && db.readReceipts == ReceiptsOfOthers(old(db.readReceipts), id)
      && db.customerNotifications == NotificationsUnaddressed(old(db.customerNotifications), id)
  {
    if id !in db.users {
      return 404;
    }
    if IsSuperAdmin(db.users[id]) {
      return 422;
    }
    if HasOrders(db.orders, id) {
      return 422;
    }
    DeleteUser(db, id);
    status := 200;
  }

  /** The row after verifyEmail: stamped only when not yet verified. */
  function Verified(user: User, now: int): (v: User)
    ensures IsVerified(v)
  {
    if IsVerified(user) then user else user.(emailVerifiedAt := Some(now))
  }

  /** verifyEmail on a verified user changes nothing; a second call changes nothing either. */
  lemma VerifiedIdempotent(user: User, t1: int, t2: int)
    ensures IsVerified(user) ==> Verified(user, t1) == user
    ensures Verified(Verified(user, t1), t2) == Verified(user, t1)
    ensures !IsVerified(user) ==> Verified(user, t1).emailVerifiedAt == Some(t1)
  {
  }

  method VerifyEmail(db: Database, id: nat, now: int) returns (status: int)
    modifies db`users
    ensures id !in old(db.users) ==> status == 404 && unchanged(db)
    ensures id in old(db.users) ==> status == 200 && db.users == old(db.users)[id := Verified(old(db.users)[id], now)]
  {
    if id !in db.users {
      return 404;
    }
    db.users := db.users[id := Verified(db.users[id], now)];
    status := 200;
  }

  datatype Impersonation = UnknownUser | AdminRefused | Token(token: string, user: User)

  /** impersonate: 404, 422 for any admin (super admins included), else a token for the user. */
  function Impersonate(users: map<nat, User>, id: nat, token: string): (r: Impersonation)
    ensures r.UnknownUser? <==> id !in users
    ensures r.AdminRefused? <==> id in users && IsAdmin(users[id])
    ensures r.Token? ==> r.user == users[id] && users[id].role == CustomerRole
  {
    if id !in users then UnknownUser
    else if IsAdmin(users[id]) then AdminRefused
    else Token(token, users[id])
  }
}
