/**
 * The admin category actions (app/Http/Controllers/Admin/CategoryController.php):
 * the listing, the slug de-duplication loops of store and update, the owner
 * guards, the products guard of destroy, reorder, the parent-chain cycle
 * check and the bottom-banner update.
 *
 * `Str::slug` is the parameter `slugify`; the URL rule of the banner link is
 * the parameter `isUrl`.
 */
module AdminCategoryController {
  import opened Common
  import opened ProductModel
  import opened Schema
  import opened CategoryModel
  import UserModel

  // ---------------------------------------------------------------------
  // Owner guard and listing
  // ---------------------------------------------------------------------

  /** The guard of index, show, update and destroy: no caller, a super admin, or the category's creator. */
  predicate MayManage(caller: Option<UserModel.User>, c: Category) {
    caller.None? || caller.value.role == UserModel.SuperAdminRole || c.createdBy == Some(caller.value.id)
  }

  /** index: the categories the caller may see (search and ordering are not modelled). */
  function IndexIds(cats: map<nat, Category>, caller: Option<UserModel.User>): (ids: set<nat>)
    ensures ids <= cats.Keys
    ensures caller.Some? && caller.value.role != UserModel.SuperAdminRole ==>
      forall id :: id in ids <==> id in cats && cats[id].createdBy == Some(caller.value.id)
  {
    set id | id in cats && MayManage(caller, cats[id])
  }

  /** A caller lists exactly the categories it may update or delete. */
  lemma IndexMatchesGuard(cats: map<nat, Category>, caller: Option<UserModel.User>, id: nat)
    requires id in cats
    ensures id in IndexIds(cats, caller) <==> MayManage(caller, cats[id])
    ensures caller.Some? && UserModel.IsSuperAdmin(caller.value) ==> id in IndexIds(cats, caller)
  {
  }

  /** The sort column: the requested one when the table has it, else id. */
  function SortColumn(requested: Option<string>, columns: set<string>): (col: string)
    ensures requested.None? ==> col == "id"
    ensures requested.Some? && requested.value in columns ==> col == requested.value
    ensures requested.Some? && requested.value !in columns ==> col == "id"
  {
    var c := requested.GetOr("id");
    if c in columns then c else "id"
  }

  /** Whatever the request asks for, the listing sorts on an existing column (given that id is one). */
  lemma SortColumnExists(requested: Option<string>, columns: set<string>)
    requires "id" in columns
    ensures SortColumn(requested, columns) in columns
  {
  }

  // ---------------------------------------------------------------------
  // Slug de-duplication
  // ---------------------------------------------------------------------

  /** The k-th slug tried: the base itself, then base-1, base-2, … */
  function Candidate(base: string, k: nat): string {
    if k == 0 then base else base + "-" + NatToString(k)
  }

  lemma CandidateInjective(base: string, a: nat, b: nat)
    requires Candidate(base, a) == Candidate(base, b)
    ensures a == b
  {
    var p := base + "-";
    if a > 0 && b > 0 {
      var x, y := NatToString(a), NatToString(b);
      assert Candidate(base, a) == p + x && Candidate(base, b) == p + y;
      assert x == (p + x)[|p|..];
      assert y == (p + y)[|p|..];
      NatToStringInjective(a, b);
    }
  }

  /** The slugs tried before the n-th. */
  function CandidatesBelow(base: string, n: nat): (r: set<string>)
    ensures forall k :: 0 <= k < n ==> Candidate(base, k) in r
  {
    if n == 0 then {} else CandidatesBelow(base, n - 1) + {Candidate(base, n - 1)}
  }

  lemma {:induction false} CandidateNotBelow(base: string, n: nat, m: nat)
    requires m >= n
    ensures Candidate(base, m) !in CandidatesBelow(base, n)
  {
    if n > 0 {
      CandidateNotBelow(base, n - 1, m);
      if Candidate(base, m) == Candidate(base, n - 1) {
        CandidateInjective(base, m, n - 1);
      }
    }
  }

  /** `s` is the first candidate not in `taken`. */
  ghost predicate FirstFree(base: string, taken: set<string>, s: string) {
    s !in taken && exists n: nat :: s == Candidate(base, n) && forall k :: 0 <= k < n ==> Candidate(base, k) in taken
  }

  /** The loop's answer is unique: two first free candidates are the same slug. */
  lemma FirstFreeUnique(base: string, taken: set<string>, s: string, t: string)
    requires FirstFree(base, taken, s) && FirstFree(base, taken, t)
    ensures s == t
  {
    var n: nat :| s == Candidate(base, n) && forall k :: 0 <= k < n ==> Candidate(base, k) in taken;
    var m: nat :| t == Candidate(base, m) && forall k :: 0 <= k < m ==> Candidate(base, k) in taken;
    assert n == m;
  }

  /** An unused base is kept as it is. */
  lemma FirstFreeBase(base: string, taken: set<string>)
    requires base !in taken
    ensures FirstFree(base, taken, base)
  {
    assert base == Candidate(base, 0);
  }

  /**
   * The `while (… ->exists())` loop: try the base, then base-1, base-2, …
   * until a slug no other row uses. It ends because the candidates are
   * distinct and only finitely many slugs are in use.
   */
  method UniqueSlug(base: string, taken: set<string>) returns (slug: string)
    ensures FirstFree(base, taken, slug)
  {
    slug := base;
    var i: nat := 1;
    ghost var seen: set<string> := {};
    while slug in taken
      invariant i >= 1
      invariant slug == Candidate(base, i - 1)
      invariant seen == CandidatesBelow(base, i - 1)
      invariant seen <= taken
      invariant forall k :: 0 <= k < i - 1 ==> Candidate(base, k) in taken
      decreases |taken - seen|
    {
      CandidateNotBelow(base, i - 1, i - 1);
      assert taken - (seen + {slug}) < taken - seen;
      seen := seen + {slug};
      slug := base + "-" + NatToString(i);
      i := i + 1;
    }
    assert slug == Candidate(base, i - 1);
  }

  /** The slugs of the rows other than `except`. */
  function SlugsOf(cats: map<nat, Category>, except: Option<nat>): (r: set<string>)
    ensures forall id :: id in cats && Some(id) != except ==> cats[id].slug in r
  {
    set id | id in cats && Some(id) != except :: cats[id].slug
  }

  // ---------------------------------------------------------------------
  // store / update
  // ---------------------------------------------------------------------

  /**
   * A create or update request. `slug` is None when the key is absent,
   * null or blank (Laravel's `filled`).
   */
  datatype CategoryRequest = CategoryRequest(
    name: string, slug: Option<string>, description: Option<string>, image: Option<string>,
    status: Option<string>)

  /** The rules of store and update; `taken` holds the slugs the unique rule checks against. */
  predicate RequestValid(r: CategoryRequest, taken: set<string>) {
    && Filled(r.name) && |r.name| <= 255
    && (r.slug.Some? ==> |r.slug.value| <= 255 && r.slug.value !in taken)
    && (r.status.Some? ==> r.status.value == "active" || r.status.value == "inactive")
  }

  /** The slug the loop starts from: the one sent, else Str::slug(name). */
  function BaseSlug(r: CategoryRequest, slugify: string -> string): string {
    if r.slug.Some? then r.slug.value else slugify(r.name)
  }

  const NoBanner := Banner(None, None, None, None, None)

  /** The row store creates with slug `s`, after the creating hook. */
  function NewCategory(id: nat, caller: nat, r: CategoryRequest, s: string, slugify: string -> string): (c: Category)
    ensures c.id == id && c.name == r.name && c.createdBy == Some(caller) && c.parentId.None?
    ensures c.status == r.status.GetOr("active") && c.sortOrder == 0
    ensures Truthy(s) ==> c.slug == s
    ensures !Truthy(s) ==> c.slug == slugify(r.name)
  {
    Creating(Category(id, r.name, s, r.description, r.image, None, r.status.GetOr("active"), 0, Some(caller), NoBanner), slugify)
  }

  /**
   * isActive after a write: a new category is active unless created with
   * status 'inactive'; an update without a status keeps the activity.
   */
  lemma SavedActivity(c: Category, id: nat, caller: nat, r: CategoryRequest, s: string, slugify: string -> string)
    requires r.status.Some? ==> r.status.value == "active" || r.status.value == "inactive"
    ensures IsActive(NewCategory(id, caller, r, s, slugify)) <==> r.status != Some("inactive")
    ensures r.status.None? ==> (IsActive(UpdatedCategory(c, r, s, slugify)) <==> IsActive(c))
    ensures r.status.Some? ==> (IsActive(UpdatedCategory(c, r, s, slugify)) <==> r.status == Some("active"))
  {
  }

  /**
   * A sent slug that passes validation is used as it is; any chosen slug
   * that PHP finds non-empty is stored and is used by no other row.
   */
  lemma StoreSlugFresh(cats: map<nat, Category>, id: nat, caller: nat, r: CategoryRequest, s: string, slugify: string -> string)
    requires RequestValid(r, SlugsOf(cats, None))
    requires FirstFree(BaseSlug(r, slugify), SlugsOf(cats, None), s)
    ensures r.slug.Some? ==> s == r.slug.value
    ensures Truthy(s) ==> NewCategory(id, caller, r, s, slugify).slug !in SlugsOf(cats, None)
  {
    if r.slug.Some? {
      FirstFreeBase(r.slug.value, SlugsOf(cats, None));
      FirstFreeUnique(r.slug.value, SlugsOf(cats, None), s, r.slug.value);
    }
  }

  /** store: 422 for a rejected request, else 201 and one new row with a de-duplicated slug. */
  method StoreCategory(db: Database, caller: nat, r: CategoryRequest, slugify: string -> string, id: nat) returns (status: int)
    requires id !in db.categories
    modifies db`categories
    ensures !RequestValid(r, SlugsOf(old(db.categories), None)) ==> status == 422 && unchanged(db)
    ensures RequestValid(r, SlugsOf(old(db.categories), None)) ==> (status == 201 &&
      exists s :: FirstFree(BaseSlug(r, slugify), SlugsOf(old(db.categories), None), s)
        && db.categories == old(db.categories)[id := NewCategory(id, caller, r, s, slugify)])
  {
    var taken := SlugsOf(db.categories, None);
    if !RequestValid(r, taken) {
      return 422;
    }
    var slug := UniqueSlug(BaseSlug(r, slugify), taken);
    db.categories := db.categories[id := NewCategory(id, caller, r, slug, slugify)];
    status := 201;
  }

  /** The row update writes with slug `s`, after the updating hook. */
  function UpdatedCategory(c: Category, r: CategoryRequest, s: string, slugify: string -> string): (q: Category)
    ensures q.id == c.id && q.createdBy == c.createdBy && q.parentId == c.parentId && q.sortOrder == c.sortOrder
    ensures q.banner == c.banner && q.name == r.name && q.status == r.status.GetOr(c.status)
    ensures q.description == r.description && q.image == r.image
    ensures q.slug == (if r.name != c.name && !Truthy(c.slug) then slugify(r.name) else s)
  {
    Updating(c, c.(name := r.name, slug := s, description := r.description, image := r.image,
                   status := r.status.GetOr(c.status)), slugify)
  }

  /**
   * update: 404 for an unknown row, 403 for a caller who may not manage it,
   * 422 for a rejected request (the unique rule ignores the row itself),
   * else the row is rewritten with the de-duplicated slug, which the
   * updating hook replaces by Str::slug(name) when the name changes and the
   * stored slug was empty.
   */
  method UpdateCategory(db: Database, caller: Option<UserModel.User>, id: nat, r: CategoryRequest,
                        slugify: string -> string) returns (status: int)
    modifies db`categories
    ensures id !in old(db.categories) ==> status == 404 && unchanged(db)
    ensures id in old(db.categories) && !MayManage(caller, old(db.categories)[id]) ==> status == 403 && unchanged(db)
    ensures (id in old(db.categories) && MayManage(caller, old(db.categories)[id])
      && !RequestValid(r, SlugsOf(old(db.categories), Some(id)))) ==> status == 422 && unchanged(db)
    ensures (id in old(db.categories) && MayManage(caller, old(db.categories)[id])
      && RequestValid(r, SlugsOf(old(db.categories), Some(id)))) ==> (status == 200 &&
      exists s :: FirstFree(BaseSlug(r, slugify), SlugsOf(old(db.categories), Some(id)), s)
        && db.categories == old(db.categories)[id := UpdatedCategory(old(db.categories)[id], r, s, slugify)])
  {
    if id !in db.categories {
      return 404;
    }
    var c := db.categories[id];
    if caller.Some? && caller.value.role != UserModel.SuperAdminRole && c.createdBy != Some(caller.value.id) {
      return 403;
    }
    var taken := SlugsOf(db.categories, Some(id));
    if !RequestValid(r, taken) {
      return 422;
    }
    var slug := UniqueSlug(BaseSlug(r, slugify), taken);
    db.categories := db.categories[id := UpdatedCategory(c, r, slug, slugify)];
    status := 200;
  }

  /**
   * When the updating hook stays out of the way (the stored slug was
   * non-empty, or the name is unchanged), update stores the de-duplicated
   * slug, which no other row uses, and a sent slug that passed validation
   * is stored as it was sent.
   */
  lemma UpdateSlugFresh(cats: map<nat, Category>, id: nat, r: CategoryRequest, s: string, slugify: string -> string)
    requires id in cats && RequestValid(r, SlugsOf(cats, Some(id)))
    requires FirstFree(BaseSlug(r, slugify), SlugsOf(cats, Some(id)), s)
    requires Truthy(cats[id].slug) || r.name == cats[id].name
    ensures UpdatedCategory(cats[id], r, s, slugify).slug == s
    ensures s !in SlugsOf(cats, Some(id))
    ensures r.slug.Some? ==> s == r.slug.value
  {
    if r.slug.Some? {
      FirstFreeBase(r.slug.value, SlugsOf(cats, Some(id)));
      FirstFreeUnique(r.slug.value, SlugsOf(cats, Some(id)), s, r.slug.value);
    }
  }

  /**
   * Otherwise the hook overrides the de-duplicated slug, so a renamed row
   * whose stored slug was "" or "0" takes Str::slug(new name) even when
   * another row already uses it.
   */
  lemma UpdateSlugCanCollide(cats: map<nat, Category>, id: nat, other: nat, r: CategoryRequest, s: string,
                             slugify: string -> string)
    requires id in cats && other in cats && other != id
    requires !Truthy(cats[id].slug) && r.name != cats[id].name && cats[other].slug == slugify(r.name)
    ensures UpdatedCategory(cats[id], r, s, slugify).slug in SlugsOf(cats, Some(id))
  {
  }

  /**
   * Re-saving a category under its own name, without sending a slug, keeps
   * its slug when that slug is Str::slug(name) and no other row uses it:
   * the row's own slug does not count as taken.
   */
  lemma ResaveKeepsSlug(cats: map<nat, Category>, id: nat, r: CategoryRequest, s: string, slugify: string -> string)
    requires id in cats && r.slug.None? && r.name == cats[id].name
    requires slugify(r.name) == cats[id].slug && cats[id].slug !in SlugsOf(cats, Some(id))
    requires FirstFree(BaseSlug(r, slugify), SlugsOf(cats, Some(id)), s)
    ensures UpdatedCategory(cats[id], r, s, slugify).slug == cats[id].slug
  {
    FirstFreeBase(cats[id].slug, SlugsOf(cats, Some(id)));
    FirstFreeUnique(cats[id].slug, SlugsOf(cats, Some(id)), s, cats[id].slug);
  }

  // ---------------------------------------------------------------------
  // destroy
  // ---------------------------------------------------------------------

  predicate HasProducts(products: map<nat, Product>, categoryId: nat) {
    exists pid :: pid in products && products[pid].categoryId == categoryId
  }

  /** A set of ids that holds every row whose parent_id is in it. */
  ghost predicate ClosedUnderChildren(cats: map<nat, Category>, s: set<nat>) {
    forall c :: c in cats && cats[c].parentId.Some? && cats[c].parentId.value in s ==> c in s
  }

  /** One round of ON DELETE CASCADE on parent_id: the children of removed rows are removed too. */
  function CascadeStep(cats: map<nat, Category>, removed: set<nat>): (r: set<nat>)
    ensures removed <= r
    ensures forall c :: c in r ==> c in removed || (c in cats && cats[c].parentId.Some? && cats[c].parentId.value in removed)
    ensures forall c :: c in cats && cats[c].parentId.Some? && cats[c].parentId.value in removed ==> c in r
  {
    removed + set c | c in cats && cats[c].parentId.Some? && cats[c].parentId.value in removed
  }

  /** Cascade rounds until nothing more is removed, or `fuel` rounds have run. */
  function CascadeFrom(cats: map<nat, Category>, removed: set<nat>, fuel: nat): set<nat>
    decreases fuel
  {
    var next := CascadeStep(cats, removed);
    if fuel == 0 || next == removed then removed else CascadeFrom(cats, next, fuel - 1)
  }

  /** A round that removes something new removes a row of `cats` not removed before. */
  lemma CascadeStepGrows(cats: map<nat, Category>, removed: set<nat>)
    requires CascadeStep(cats, removed) != removed
    ensures |CascadeStep(cats, removed) * cats.Keys| > |removed * cats.Keys|
  {
    var next := CascadeStep(cats, removed);
    var c :| c in next && c !in removed;
    var grown := next * cats.Keys - removed * cats.Keys;
    assert c in grown;
    assert next * cats.Keys == removed * cats.Keys + grown;
  }

  /** Once every row of `cats` is removed, a round removes nothing more. */
  lemma CascadeStepSaturated(cats: map<nat, Category>, removed: set<nat>)
    requires |removed * cats.Keys| >= |cats|
    ensures CascadeStep(cats, removed) == removed
  {
    var missing := cats.Keys - removed * cats.Keys;
    assert cats.Keys == removed * cats.Keys + missing;
    assert missing == {};
    assert cats.Keys <= removed;
  }

  /** Every round that removes something removes a row of `cats`, so |cats| rounds reach the fixpoint. */
  lemma {:induction false} CascadeFromClosed(cats: map<nat, Category>, removed: set<nat>, fuel: nat)
    requires |removed * cats.Keys| + fuel >= |cats|
    ensures removed <= CascadeFrom(cats, removed, fuel)
    ensures ClosedUnderChildren(cats, CascadeFrom(cats, removed, fuel))
    decreases fuel
  {
    var next := CascadeStep(cats, removed);
    if fuel == 0 {
      CascadeStepSaturated(cats, removed);
    } else if next != removed {
      CascadeStepGrows(cats, removed);
      CascadeFromClosed(cats, next, fuel - 1);
    }
  }

  /** The cascade removes nothing that every closed superset does not contain. */
  lemma {:induction false} CascadeFromLeast(cats: map<nat, Category>, removed: set<nat>, fuel: nat, s: set<nat>)
    requires removed <= s && ClosedUnderChildren(cats, s)
    ensures CascadeFrom(cats, removed, fuel) <= s
    decreases fuel
  {
    var next := CascadeStep(cats, removed);
    if fuel != 0 && next != removed {
      assert next <= s;
      CascadeFromLeast(cats, next, fuel - 1, s);
    }
  }

  /**
   * The rows deleting `id` removes through ON DELETE CASCADE on parent_id:
   * the least set holding `id` and closed under children, that is `id`
   * and all its descendants.
   */
  function Subtree(cats: map<nat, Category>, id: nat): (r: set<nat>)
    ensures id in r
    ensures ClosedUnderChildren(cats, r)
    ensures r <= cats.Keys + {id}
  {
    CascadeFromClosed(cats, {id}, |cats|);
    CascadeFromLeast(cats, {id}, |cats|, cats.Keys + {id});
    CascadeFrom(cats, {id}, |cats|)
  }

  /** Every set closed under children that holds `id` holds its whole subtree. */
  lemma SubtreeLeast(cats: map<nat, Category>, id: nat, s: set<nat>)
    requires id in s && ClosedUnderChildren(cats, s)
    ensures Subtree(cats, id) <= s
  {
    CascadeFromLeast(cats, {id}, |cats|, s);
  }

  /**
   * destroy: 404, then 403 for a foreign category, then 422 while products
   * use it, else the row is deleted and ON DELETE CASCADE on parent_id
   * deletes its descendants with it.
   */
  method DestroyCategory(db: Database, caller: Option<UserModel.User>, id: nat) returns (status: int)
    modifies db`categories
    ensures id !in old(db.categories) ==> status == 404 && unchanged(db)
    ensures id in old(db.categories) && !MayManage(caller, old(db.categories)[id]) ==> status == 403 && unchanged(db)
    ensures id in old(db.categories) && MayManage(caller, old(db.categories)[id]) && HasProducts(db.products, id) ==>
      status == 422 && unchanged(db)
    ensures id in old(db.categories) && MayManage(caller, old(db.categories)[id]) && !HasProducts(db.products, id) ==>
      status == 200 && db.categories == old(db.categories) - Subtree(old(db.categories), id)
  {
    if id !in db.categories {
      return 404;
    }
    var c := db.categories[id];
    if caller.Some? && caller.value.role != UserModel.SuperAdminRole && c.createdBy != Some(caller.value.id) {
      return 403;
    }
    if HasProducts(db.products, id) {
      return 422;
    }
    db.categories := db.categories - Subtree(db.categories, id);
    status := 200;
  }

  /**
   * What a successful delete leaves behind: the guard looks at `id` only,
   * so a product filed under a child of `id` loses its category with the
   * cascade, while a product whose category lies outside the subtree keeps
   * it; no surviving row keeps a parent_id naming a deleted row.
   */
  lemma DestroyOrphansSubtreeProducts(products: map<nat, Product>, cats: map<nat, Category>, id: nat, pid: nat)
    requires id in cats && !HasProducts(products, id) && pid in products
    ensures products[pid].categoryId != id
    ensures products[pid].categoryId in cats && cats[products[pid].categoryId].parentId == Some(id) ==>
      products[pid].categoryId !in cats - Subtree(cats, id)
    ensures (products[pid].categoryId in cats - Subtree(cats, id)) <==>
      (products[pid].categoryId in cats && products[pid].categoryId !in Subtree(cats, id))
    ensures forall c :: c in cats - Subtree(cats, id) && cats[c].parentId.Some? ==>
      cats[c].parentId.value !in Subtree(cats, id)
  {
  }

  // ---------------------------------------------------------------------
  // reorder
  // ---------------------------------------------------------------------

  datatype OrderEntry = OrderEntry(id: nat, sortOrder: int)

  /** `categories` required (so not empty), every id existing, every sort order at least 0. */
  predicate ReorderValid(cats: map<nat, Category>, entries: seq<OrderEntry>) {
    |entries| >= 1 && forall i :: 0 <= i < |entries| ==> entries[i].id in cats && entries[i].sortOrder >= 0
  }

  /** The table after the updates of the loop, one entry after the other. */
  function Reordered(cats: map<nat, Category>, entries: seq<OrderEntry>): (r: map<nat, Category>)
    ensures r.Keys == cats.Keys
  {
    if entries == [] then cats
    else
      var prev := Reordered(cats, entries[..|entries| - 1]);
      var e := entries[|entries| - 1];
      if e.id in prev then prev[e.id := prev[e.id].(sortOrder := e.sortOrder)] else prev
  }

  /** The sort order the last entry for `id` carries, if any. */
  function LastOrderFor(entries: seq<OrderEntry>, id: nat): Option<int> {
    if entries == [] then None
    else if entries[|entries| - 1].id == id then Some(entries[|entries| - 1].sortOrder)
    else LastOrderFor(entries[..|entries| - 1], id)
  }

  /**
   * reorder sets sort_order of each listed id to the value of its last
   * entry, changes no other column, and leaves unlisted rows unchanged.
   */
  lemma {:induction false} ReorderedEffect(cats: map<nat, Category>, entries: seq<OrderEntry>, id: nat)
    requires id in cats
    ensures LastOrderFor(entries, id).None? ==> Reordered(cats, entries)[id] == cats[id]
    ensures LastOrderFor(entries, id).Some? ==>
      Reordered(cats, entries)[id] == cats[id].(sortOrder := LastOrderFor(entries, id).value)
  {
    if entries != [] {
      ReorderedEffect(cats, entries[..|entries| - 1], id);
    }
  }

  method Reorder(db: Database, entries: seq<OrderEntry>) returns (status: int)
    modifies db`categories
    ensures !ReorderValid(old(db.categories), entries) ==> status == 422 && unchanged(db)
    ensures ReorderValid(old(db.categories), entries) ==>
      status == 200 && db.categories == Reordered(old(db.categories), entries)
  {
    if !ReorderValid(db.categories, entries) {
      return 422;
    }
    ghost var cats0 := db.categories;
    var i := 0;
    while i < |entries|
      invariant 0 <= i <= |entries|
      invariant db.categories == Reordered(cats0, entries[..i])
    {
      assert entries[..i + 1][..i] == entries[..i];
      var e := entries[i];
      if e.id in db.categories {
        db.categories := db.categories[e.id := db.categories[e.id].(sortOrder := e.sortOrder)];
      }
      i := i + 1;
    }
    assert entries[..|entries|] == entries;
    status := 200;
  }

  // ---------------------------------------------------------------------
  // wouldCreateCircularReference
  // ---------------------------------------------------------------------

  /** `Category::find($id)`. */
  function Find(cats: map<nat, Category>, id: nat): (r: Option<nat>)
    ensures r.Some? <==> id in cats
    ensures r.Some? ==> r.value == id
  {
    if id in cats then Some(id) else None
  }

  lemma AncestryStep(cats: map<nat, Category>, rank: map<nat, nat>, x: nat, c: nat)
    requires x in cats && Ranked(cats, rank)
    ensures c in AncestryFrom(cats, rank, Some(x)) <==> c == x || c in AncestryFrom(cats, rank, ParentOf(cats, x))
  {
  }

  /**
   * wouldCreateCircularReference: walk up from the proposed parent; the
   * answer is whether the category itself is met on the way.
   */
  method WouldCreateCircularReference(cats: map<nat, Category>, ghost rank: map<nat, nat>, categoryId: nat, parentId: nat)
    returns (r: bool)
    requires Ranked(cats, rank)
    ensures r <==> categoryId in AncestryFrom(cats, rank, Find(cats, parentId))
  {
    var parent := Find(cats, parentId);
    while parent.Some?
      invariant parent.Some? ==> parent.value in cats
      invariant categoryId in AncestryFrom(cats, rank, Find(cats, parentId)) <==> categoryId in AncestryFrom(cats, rank, parent)
      decreases if parent.Some? then rank[parent.value] + 1 else 0
    {
      AncestryStep(cats, rank, parent.value, categoryId);
      if parent.value == categoryId {
        return true;
      }
      parent := ParentOf(cats, parent.value);
    }
    r := false;
  }

  /**
   * Making an existing category its own parent is circular; a root parent
   * other than the category is not.
   */
  lemma CircularCases(cats: map<nat, Category>, rank: map<nat, nat>, categoryId: nat, parentId: nat)
    requires Ranked(cats, rank) && parentId in cats
    ensures categoryId == parentId ==> categoryId in AncestryFrom(cats, rank, Find(cats, parentId))
    ensures categoryId != parentId && ParentOf(cats, parentId).None? ==>
      categoryId !in AncestryFrom(cats, rank, Find(cats, parentId))
  {
    AncestryStep(cats, rank, parentId, categoryId);
  }

  // ---------------------------------------------------------------------
  // updateBottomBanner
  // ---------------------------------------------------------------------

  datatype BannerRequest = BannerRequest(
    title: Option<string>, description: Option<string>, buttonText: Option<string>, buttonLink: Option<string>)

  predicate BannerValid(b: BannerRequest, isUrl: string -> bool) {
    && (b.title.None? || |b.title.value| <= 255)
    && (b.buttonText.None? || |b.buttonText.value| <= 255)
    && (b.buttonLink.None? || (isUrl(b.buttonLink.value) && |b.buttonLink.value| <= 500))
  }

  /**
   * The four text columns take the request's values (null when absent);
   * the image column changes only when a file was uploaded, to its stored name.
   */
  function NewBanner(old_: Banner, b: BannerRequest, upload: Option<string>): (r: Banner)
    ensures upload.None? ==> r.image == old_.image
    ensures upload.Some? ==> r.image == upload
  {
    Banner(b.title, b.description, b.buttonText, b.buttonLink, if upload.Some? then upload else old_.image)
  }

  /**
   * updateBottomBanner: 403 for anyone but a super admin (before the row
   * is even looked up), 404, 422, else only the banner columns change.
   */
  method UpdateBottomBanner(db: Database, caller: UserModel.User, id: nat, b: BannerRequest,
                            isUrl: string -> bool, upload: Option<string>) returns (status: int)
    modifies db`categories
    ensures caller.role != UserModel.SuperAdminRole ==> status == 403 && unchanged(db)
    ensures caller.role == UserModel.SuperAdminRole && id !in old(db.categories) ==> status == 404 && unchanged(db)
    ensures caller.role == UserModel.SuperAdminRole && id in old(db.categories) && !BannerValid(b, isUrl) ==>
      status == 422 && unchanged(db)
    ensures caller.role == UserModel.SuperAdminRole && id in old(db.categories) && BannerValid(b, isUrl) ==>
      status == 200 && db.categories == old(db.categories)[id := old(db.categories)[id].(banner := NewBanner(old(db.categories)[id].banner, b, upload))]
  {
    if caller.role != UserModel.SuperAdminRole {
      return 403;
    }
    if id !in db.categories {
      return 404;
    }
    if !BannerValid(b, isUrl) {
      return 422;
    }
    var c := db.categories[id];
    db.categories := db.categories[id := c.(banner := NewBanner(c.banner, b, upload))];
    status := 200;
  }
}
