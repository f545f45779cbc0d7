/**
 * Product view counters (app/Http/Controllers/Admin/ProductAnalyticsController.php):
 * `incrementView` finds or creates the counter of a (viewer, product) pair,
 * raises it by one and stamps the visit; `totalViewsOverview` aggregates
 * the table. A viewer is the owner of the bearer token, or the visitor
 * (null user) when there is no token or it is unknown; resolving the token
 * is the parameter `tokenOwner`.
 */
module ProductAnalyticsController {
  import opened Common
  import opened Schema

  /** The row a `firstOrCreate` on (user_id, product_id) finds: the first with that pair. */
  function FirstView(views: seq<ViewRow>, user: Option<nat>, productId: nat): (r: Option<nat>)
    ensures r.Some? ==> r.value < |views| && views[r.value].userId == user && views[r.value].productId == productId
    ensures r.Some? ==> forall j :: 0 <= j < r.value ==> !(views[j].userId == user && views[j].productId == productId)
    ensures r.None? ==> forall j :: 0 <= j < |views| ==> !(views[j].userId == user && views[j].productId == productId)
  {
    if views == [] then None
    else if views[0].userId == user && views[0].productId == productId then Some(0)
    else
      var rest := FirstView(views[1..], user, productId);
      if rest.None? then None else Some(rest.value + 1)
  }

  /** The counter of a pair: the `views` of its row, 0 before the first view. */
  function CountOf(views: seq<ViewRow>, user: Option<nat>, productId: nat): int {
    var k := FirstView(views, user, productId);
    if k.Some? then views[k.value].views else 0
  }

  /** The table after one view of `productId` by `user` at time `now`. */
  function Viewed(views: seq<ViewRow>, user: Option<nat>, productId: nat, now: int): seq<ViewRow> {
    var k := FirstView(views, user, productId);
    if k.Some? then views[k.value := views[k.value].(views := views[k.value].views + 1, lastVisitedAt := Some(now))]
    else views + [ViewRow(user, productId, 1, Some(now))]
  }

  /**
   * incrementView: 404 for an unknown product; otherwise the pair's row is
   * found or created at 0, incremented and stamped, and its count returned.
   */
  method IncrementView(db: Database, productId: nat, tokenOwner: Option<nat>, now: int) returns (status: int, count: int)
    modifies db`views
    ensures productId !in db.products ==> status == 404 && unchanged(db)
    ensures productId in db.products ==> status == 200 && db.views == Viewed(old(db.views), tokenOwner, productId, now)
    ensures productId in db.products ==> count == CountOf(db.views, tokenOwner, productId)
  {
    if productId !in db.products {
      return 404, 0;
    }
    var found := FirstView(db.views, tokenOwner, productId);
    var k: nat;
    if found.Some? {
      k := found.value;
    } else {
      db.views := db.views + [ViewRow(tokenOwner, productId, 0, Some(now))];
      k := |db.views| - 1;
    }
    ghost var created := db.views;
    db.views := db.views[k := db.views[k].(views := db.views[k].views + 1)];
    db.views := db.views[k := db.views[k].(lastVisitedAt := Some(now))];
    status, count := 200, db.views[k].views;
    assert FirstView(db.views, tokenOwner, productId) == Some(k) by {
      FirstViewKeys(created, db.views, tokenOwner, productId);
      if found.None? {
        FirstViewAppend(old(db.views), ViewRow(tokenOwner, productId, 0, Some(now)), tokenOwner, productId);
      }
    }
  }

  /** Rows with the same pairs in the same places have the same first row for every pair. */
  lemma {:induction false} FirstViewKeys(a: seq<ViewRow>, b: seq<ViewRow>, user: Option<nat>, productId: nat)
    requires |a| == |b|
    requires forall j :: 0 <= j < |a| ==> a[j].userId == b[j].userId && a[j].productId == b[j].productId
    ensures FirstView(a, user, productId) == FirstView(b, user, productId)
  {
    if a != [] {
      FirstViewKeys(a[1..], b[1..], user, productId);
    }
  }

  /** Appending a row leaves an existing pair's row where it was; a new pair gets the last row. */
  lemma {:induction false} FirstViewAppend(views: seq<ViewRow>, row: ViewRow, user: Option<nat>, productId: nat)
    ensures FirstView(views, user, productId).Some? ==> FirstView(views + [row], user, productId) == FirstView(views, user, productId)
    ensures FirstView(views, user, productId).None? && row.userId == user && row.productId == productId ==>
      FirstView(views + [row], user, productId) == Some(|views|)
    ensures FirstView(views, user, productId).None? && !(row.userId == user && row.productId == productId) ==>
      FirstView(views + [row], user, productId).None?
  {
    if views == [] {
      assert views + [row] == [row];
    } else {
      assert (views + [row])[1..] == views[1..] + [row];
      FirstViewAppend(views[1..], row, user, productId);
    }
  }

  /**
   * Each view raises the pair's counter by exactly one (so the first view
   * leaves it at 1) and leaves every other pair's counter as it was.
   */
  lemma ViewedCounts(views: seq<ViewRow>, user: Option<nat>, productId: nat, now: int, u: Option<nat>, p: nat)
    ensures CountOf(Viewed(views, user, productId, now), user, productId) == CountOf(views, user, productId) + 1
    ensures (u, p) != (user, productId) ==>
      CountOf(Viewed(views, user, productId, now), u, p) == CountOf(views, u, p)
    ensures FirstView(views, user, productId).None? ==> CountOf(Viewed(views, user, productId, now), user, productId) == 1
  {
    var after := Viewed(views, user, productId, now);
    var k := FirstView(views, user, productId);
    if k.Some? {
      FirstViewKeys(views, after, user, productId);
      FirstViewKeys(views, after, u, p);
    } else {
      var row := ViewRow(user, productId, 1, Some(now));
      FirstViewAppend(views, row, user, productId);
      FirstViewAppend(views, row, u, p);
      var ku := FirstView(views, u, p);
      if ku.Some? {
        assert after[ku.value] == views[ku.value];
      }
    }
  }

  /** The visit stamp of the viewed pair is the time of the view. */
  lemma ViewedStamps(views: seq<ViewRow>, user: Option<nat>, productId: nat, now: int)
    ensures var after := Viewed(views, user, productId, now);
      var k := FirstView(after, user, productId);
      k.Some? && after[k.value].lastVisitedAt == Some(now)
  {
    var k := FirstView(views, user, productId);
    if k.Some? {
      FirstViewKeys(views, Viewed(views, user, productId, now), user, productId);
    } else {
      FirstViewAppend(views, ViewRow(user, productId, 1, Some(now)), user, productId);
    }
  }

  // ---------------------------------------------------------------------
  // totalViewsOverview
  // ---------------------------------------------------------------------

  /** `SUM(views)`. */
  function SumViews(views: seq<ViewRow>): int {
    if views == [] then 0 else SumViews(views[..|views| - 1]) + views[|views| - 1].views
  }

  /** `COUNT(DISTINCT product_id)` counts this set. */
  function ViewedProducts(views: seq<ViewRow>): set<nat> {
    set i | 0 <= i < |views| :: views[i].productId
  }

  /** `COUNT(DISTINCT user_id) WHERE user_id IS NOT NULL` counts this set. */
  function ViewingUsers(views: seq<ViewRow>): set<nat> {
    set i | 0 <= i < |views| && views[i].userId.Some? :: views[i].userId.value
  }

  datatype Overview = Overview(totalViews: int, totalProductsViewed: nat, totalUsersViewed: nat)

  function TotalViewsOverview(views: seq<ViewRow>): Overview {
    Overview(SumViews(views), |ViewedProducts(views)|, |ViewingUsers(views)|)
  }

  lemma {:induction false} SumViewsUpdate(views: seq<ViewRow>, k: nat, row: ViewRow)
    requires k < |views|
    ensures SumViews(views[k := row]) == SumViews(views) - views[k].views + row.views
  {
    var last := |views| - 1;
    if k < last {
      SumViewsUpdate(views[..last], k, row);
      assert views[k := row][..last] == views[..last][k := row];
    } else {
      assert views[k := row][..last] == views[..last];
    }
  }

  /** Changing counts and stamps in place keeps the viewed products and the viewing users. */
  lemma SameKeysSameSets(a: seq<ViewRow>, b: seq<ViewRow>)
    requires |a| == |b|
    requires forall j :: 0 <= j < |a| ==> a[j].userId == b[j].userId && a[j].productId == b[j].productId
    ensures ViewedProducts(a) == ViewedProducts(b) && ViewingUsers(a) == ViewingUsers(b)
  {
  }

  /** An appended row adds its product, and its user when it has one. */
  lemma AppendSets(views: seq<ViewRow>, row: ViewRow)
    ensures ViewedProducts(views + [row]) == ViewedProducts(views) + {row.productId}
    ensures ViewingUsers(views + [row]) == ViewingUsers(views) + (if row.userId.Some? then {row.userId.value} else {})
  {
    var after := views + [row];
    assert after[|views|] == row;
    assert forall i :: 0 <= i < |views| ==> after[i] == views[i];
  }

  /**
   * One view adds exactly one to the total, the product is then counted as
   * viewed, and a visitor's view never adds to the user count.
   */
  lemma ViewedOverview(views: seq<ViewRow>, user: Option<nat>, productId: nat, now: int)
    ensures var after := TotalViewsOverview(Viewed(views, user, productId, now));
      && after.totalViews == TotalViewsOverview(views).totalViews + 1
      && ViewedProducts(Viewed(views, user, productId, now)) == ViewedProducts(views) + {productId}
      && (user.None? ==> ViewingUsers(Viewed(views, user, productId, now)) == ViewingUsers(views))
      && (user.Some? ==> ViewingUsers(Viewed(views, user, productId, now)) == ViewingUsers(views) + {user.value})
  {
    var after := Viewed(views, user, productId, now);
    var k := FirstView(views, user, productId);
    if k.Some? {
      SumViewsUpdate(views, k.value, after[k.value]);
      SameKeysSameSets(views, after);
      assert productId == views[k.value].productId;
      assert productId in ViewedProducts(views);
      assert user.Some? ==> user.value in ViewingUsers(views);
    } else {
      var row := ViewRow(user, productId, 1, Some(now));
      assert after[..|after| - 1] == views;
      AppendSets(views, row);
    }
  }
}
