/**
 * The `categories` row (app/Models/Category.php): the parent chain and the
 * full path built from it, the slug hooks run on create and on update, the
 * active predicate and the top-level scope.
 */
module CategoryModel {
  import opened Common

  /** The bottom-banner columns edited by updateBottomBanner. */
  datatype Banner = Banner(
    title: Option<string>, description: Option<string>, buttonText: Option<string>,
    buttonLink: Option<string>, image: Option<string>)

  datatype Category = Category(
    id: nat,
    name: string,
    slug: string,
    description: Option<string>,
    image: Option<string>,
    parentId: Option<nat>,
    status: string,
    sortOrder: int,
    createdBy: Option<nat>,
    banner: Banner)

  predicate IsActive(c: Category) {
    c.status == "active"
  }

  /** scopeParent: ids of the categories with a null parent_id. */
  function ScopeParent(cats: map<nat, Category>): (ids: set<nat>)
    ensures ids <= cats.Keys
    ensures forall id :: id in cats && cats[id].parentId.None? ==> id in ids
    ensures forall id :: id in ids ==> cats[id].parentId.None?
  {
    set id | id in cats && cats[id].parentId.None?
  }

  // ---------------------------------------------------------------------
  // Parent chains
  // ---------------------------------------------------------------------

  /** The row `$category->parent` loads: null when parent_id is null or names no row. */
  function ParentOf(cats: map<nat, Category>, id: nat): (r: Option<nat>)
    requires id in cats
    ensures r.Some? ==> r.value in cats
  {
    var p := cats[id].parentId;
    if p.Some? && p.value in cats then p else None
  }

  /**
   * The chains the source walks terminate only when the parent links have
   * no cycle. `rank` witnesses that: every parent ranks below its child.
   */
  ghost predicate Ranked(cats: map<nat, Category>, rank: map<nat, nat>) {
    forall id {:trigger ParentOf(cats, id)} :: id in cats ==>
      id in rank && (ParentOf(cats, id).Some? ==> ParentOf(cats, id).value in rank && rank[ParentOf(cats, id).value] < rank[id])
  }

  /** The ids from the root ancestor down to `id`. */
  ghost function Ancestry(cats: map<nat, Category>, rank: map<nat, nat>, id: nat): (r: seq<nat>)
    requires id in cats && Ranked(cats, rank)
    ensures |r| >= 1 && r[|r| - 1] == id
    ensures forall i :: 0 <= i < |r| ==> r[i] in cats
    ensures ParentOf(cats, r[0]).None?
    decreases rank[id]
  {
    var p := ParentOf(cats, id);
    if p.None? then [id] else Ancestry(cats, rank, p.value) + [id]
  }

  /** The ancestry of an optional starting row; a missing row has none. */
  ghost function AncestryFrom(cats: map<nat, Category>, rank: map<nat, nat>, start: Option<nat>): seq<nat>
    requires Ranked(cats, rank)
    requires start.Some? ==> start.value in cats
  {
    if start.None? then [] else Ancestry(cats, rank, start.value)
  }

  function NamesOf(cats: map<nat, Category>, ids: seq<nat>): (r: seq<string>)
    requires forall i :: 0 <= i < |ids| ==> ids[i] in cats
    ensures |r| == |ids|
    ensures forall i :: 0 <= i < |ids| ==> r[i] == cats[ids[i]].name
  {
    if ids == [] then [] else [cats[ids[0]].name] + NamesOf(cats, ids[1..])
  }

  lemma {:induction false} NamesOfAppend(cats: map<nat, Category>, a: seq<nat>, b: seq<nat>)
    requires forall i :: 0 <= i < |a| ==> a[i] in cats
    requires forall i :: 0 <= i < |b| ==> b[i] in cats
    ensures NamesOf(cats, a + b) == NamesOf(cats, a) + NamesOf(cats, b)
  {
    var l, r := NamesOf(cats, a + b), NamesOf(cats, a) + NamesOf(cats, b);
    assert |l| == |r|;
    forall i | 0 <= i < |l| ensures l[i] == r[i] {
      if i < |a| {
        assert (a + b)[i] == a[i];
      } else {
        assert (a + b)[i] == b[i - |a|];
      }
    }
  }

  /** `$collection->implode($sep)`. */
  function Join(parts: seq<string>, sep: string): string {
    if parts == [] then ""
    else if |parts| == 1 then parts[0]
    else parts[0] + sep + Join(parts[1..], sep)
  }

  lemma {:induction false} JoinEndsWithLast(parts: seq<string>, sep: string)
    requires |parts| >= 1
    ensures EndsWith(Join(parts, sep), parts[|parts| - 1])
  {
    if |parts| > 1 {
      JoinEndsWithLast(parts[1..], sep);
      var rest := Join(parts[1..], sep);
      var last := parts[|parts| - 1];
      var whole := parts[0] + sep + rest;
      assert whole[|whole| - |last|..] == rest[|rest| - |last|..];
    }
  }

  /** One step up the chain: a category's names are its parent's chain followed by its own name. */
  lemma NamesStep(cats: map<nat, Category>, rank: map<nat, nat>, c: nat)
    requires c in cats && Ranked(cats, rank)
    ensures NamesOf(cats, Ancestry(cats, rank, c)) == NamesOf(cats, AncestryFrom(cats, rank, ParentOf(cats, c))) + [cats[c].name]
  {
    NamesOfAppend(cats, AncestryFrom(cats, rank, ParentOf(cats, c)), [c]);
  }

  lemma StepUp(cats: map<nat, Category>, rank: map<nat, nat>, id: nat, c: nat, names: seq<string>)
    requires id in cats && c in cats && Ranked(cats, rank)
    requires NamesOf(cats, AncestryFrom(cats, rank, Some(c))) + names == NamesOf(cats, Ancestry(cats, rank, id))
    ensures NamesOf(cats, AncestryFrom(cats, rank, ParentOf(cats, c))) + ([cats[c].name] + names) == NamesOf(cats, Ancestry(cats, rank, id))
  {
    NamesStep(cats, rank, c);
  }

  lemma NamesOfNone(cats: map<nat, Category>, rank: map<nat, nat>, names: seq<string>)
    requires Ranked(cats, rank)
    ensures NamesOf(cats, AncestryFrom(cats, rank, None)) + names == names
  {
  }

  /**
   * getFullPathAttribute: start from the category's own name and prepend
   * each ancestor's name while a parent row is found, then join with ' > '.
   */
  method FullPath(cats: map<nat, Category>, ghost rank: map<nat, nat>, id: nat) returns (path: string)
    requires id in cats && Ranked(cats, rank)
    ensures path == Join(NamesOf(cats, Ancestry(cats, rank, id)), " > ")
  {
    var names := [cats[id].name];
    var cur := ParentOf(cats, id);
    NamesStep(cats, rank, id);
    while cur.Some?
      invariant cur.Some? ==> cur.value in cats
      invariant NamesOf(cats, AncestryFrom(cats, rank, cur)) + names == NamesOf(cats, Ancestry(cats, rank, id))
      decreases if cur.Some? then rank[cur.value] + 1 else 0
    {
      var c := cur.value;
      StepUp(cats, rank, id, c, names);
      names := [cats[c].name] + names;
      cur := ParentOf(cats, c);
    }
    NamesOfNone(cats, rank, names);
    path := Join(names, " > ");
  }

  /** A top-level category's path is its own name; every path ends with the category's name. */
  lemma FullPathShape(cats: map<nat, Category>, rank: map<nat, nat>, id: nat)
    requires id in cats && Ranked(cats, rank)
    ensures ParentOf(cats, id).None? ==> Join(NamesOf(cats, Ancestry(cats, rank, id)), " > ") == cats[id].name
    ensures EndsWith(Join(NamesOf(cats, Ancestry(cats, rank, id)), " > "), cats[id].name)
  {
    var names := NamesOf(cats, Ancestry(cats, rank, id));
    JoinEndsWithLast(names, " > ");
  }

  // ---------------------------------------------------------------------
  // Slug hooks
  // ---------------------------------------------------------------------

  /** creating: a slug PHP's empty() rejects becomes Str::slug(name). */
  function Creating(c: Category, slugify: string -> string): (q: Category)
    ensures Truthy(c.slug) ==> q == c
    ensures !Truthy(c.slug) ==> q == c.(slug := slugify(c.name))
  {
    if Truthy(c.slug) then c else c.(slug := slugify(c.name))
  }

  /**
   * updating: when the name changes and the slug stored before the update
   * was empty, the slug is regenerated from the new name, replacing any
   * slug the update itself supplied.
   */
  function Updating(original: Category, c: Category, slugify: string -> string): (q: Category)
    ensures q == c.(slug := q.slug)
    ensures q.slug != c.slug ==> c.name != original.name && !Truthy(original.slug)
    ensures c.name != original.name && !Truthy(original.slug) ==> q.slug == slugify(c.name)
  {
    if c.name != original.name && !Truthy(original.slug) then c.(slug := slugify(c.name)) else c
  }

  /** A category that already had a slug keeps the slug the update gives it. */
  lemma UpdatingKeepsSuppliedSlug(original: Category, c: Category, slugify: string -> string)
    requires Truthy(original.slug) || c.name == original.name
    ensures Updating(original, c, slugify) == c
  {
  }
}
