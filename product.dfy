/**
 * The `products` row (app/Models/Product.php): per-size stock, the stock
 * predicates and scopes, and the saving hook that keeps `promo_price` in
 * step with `price` and `promotion_percentage`.
 *
 * Money is in integer cents (the columns are decimal(…, 2)).
 */
module ProductModel {
  import opened Common

  /**
   * The `size_stock` JSON object as PHP decodes it: an ordered array of
   * (size, count) entries. Lookups find the first entry with the key and
   * writes replace that entry, so the functions below agree with PHP's
   * arrays whether or not the keys are unique.
   */
  type SizeStock = seq<(string, int)>

  /** The `images` column: a decoded list, a JSON text left undecoded, or anything else. */
  datatype ImagesField = ImageList(paths: seq<string>) | ImageJson(text: string) | NoImages

  datatype Product = Product(
    id: nat,
    name: string,
    description: string,
    price: int,
    promotionPercentage: Option<int>,
    promoPrice: Option<int>,
    stock: int,
    sizeStock: Option<SizeStock>,
    categoryId: nat,
    createdBy: Option<nat>,
    images: ImagesField,
    marque: string,
    couleur: Option<string>,
    style: Option<string>,
    gender: Option<string>,
    sizes: Option<seq<string>>,
    material: Option<string>)

  // ---------------------------------------------------------------------
  // size_stock as a PHP array
  // ---------------------------------------------------------------------

  /** Position of the first entry for `size`, or -1 when there is none. */
  function KeyIndex(m: SizeStock, size: string): (k: int)
    ensures -1 <= k < |m|
    ensures k >= 0 ==> m[k].0 == size && forall j :: 0 <= j < k ==> m[j].0 != size
    ensures k < 0 ==> forall j :: 0 <= j < |m| ==> m[j].0 != size
  {
    if m == [] then -1
    else if m[0].0 == size then 0
    else
      var k := KeyIndex(m[1..], size);
      if k < 0 then -1 else k + 1
  }

  /** `$sizeStock[$size] ?? null`. */
  function SizeValue(m: SizeStock, size: string): Option<int> {
    var k := KeyIndex(m, size);
    if k < 0 then None else Some(m[k].1)
  }

  /** `$sizeStock[$size] = $v`: overwrite the entry in place, or append a new one. */
  function SetSize(m: SizeStock, size: string, v: int): (r: SizeStock)
    ensures SizeValue(r, size) == Some(v)
    ensures forall s :: s != size ==> SizeValue(r, s) == SizeValue(m, s)
  {
    var k := KeyIndex(m, size);
    if k < 0 then
      assert forall s :: KeyIndex(m + [(size, v)], s) == (if s == size then |m| else KeyIndex(m, s)) by {
        forall s ensures KeyIndex(m + [(size, v)], s) == (if s == size then |m| else KeyIndex(m, s)) {
          KeyIndexAppend(m, (size, v), s);
        }
      }
      m + [(size, v)]
    else
      assert forall s :: KeyIndex(m[k := (size, v)], s) == KeyIndex(m, s) by {
        forall s ensures KeyIndex(m[k := (size, v)], s) == KeyIndex(m, s) {
          KeyIndexUpdate(m, k, v, s);
        }
      }
      m[k := (size, v)]
  }

  lemma {:induction false} KeyIndexAppend(m: SizeStock, e: (string, int), s: string)
    ensures KeyIndex(m + [e], s) == (if KeyIndex(m, s) >= 0 then KeyIndex(m, s) else if e.0 == s then |m| else -1)
  {
    if m != [] && m[0].0 != s {
      assert (m + [e])[1..] == m[1..] + [e];
      KeyIndexAppend(m[1..], e, s);
    }
  }

  lemma KeyIndexUpdate(m: SizeStock, k: int, v: int, s: string)
    requires 0 <= k < |m| && KeyIndex(m, m[k].0) == k
    ensures KeyIndex(m[k := (m[k].0, v)], s) == KeyIndex(m, s)
  {
    var m' := m[k := (m[k].0, v)];
    assert forall j :: 0 <= j < |m| ==> m'[j].0 == m[j].0;
  }

  /** `array_sum(array_map('intval', $sizeStock))`. */
  function SumCounts(m: SizeStock): int {
    if m == [] then 0 else m[0].1 + SumCounts(m[1..])
  }

  predicate NonNegativeCounts(m: SizeStock) {
    forall i :: 0 <= i < |m| ==> m[i].1 >= 0
  }

  /** Overwriting one entry changes the sum by the difference of the counts. */
  lemma {:induction false} SumCountsUpdate(m: SizeStock, k: nat, v: int)
    requires k < |m|
    ensures SumCounts(m[k := (m[k].0, v)]) == SumCounts(m) - m[k].1 + v
  {
    if k > 0 {
      assert m[k := (m[k].0, v)][1..] == m[1..][k - 1 := (m[k].0, v)];
      SumCountsUpdate(m[1..], k - 1, v);
    }
  }

  lemma {:induction false} SumCountsAppend(m: SizeStock, e: (string, int))
    ensures SumCounts(m + [e]) == SumCounts(m) + e.1
  {
    if m != [] {
      assert (m + [e])[1..] == m[1..] + [e];
      SumCountsAppend(m[1..], e);
    }
  }

  /** With no negative counts, every entry is at most the sum. */
  lemma {:induction false} EntryAtMostSum(m: SizeStock, k: nat)
    requires NonNegativeCounts(m) && k < |m|
    ensures m[k].1 <= SumCounts(m)
    ensures SumCounts(m) >= 0
  {
    if k == 0 {
      SumNonNegative(m[1..]);
    } else {
      EntryAtMostSum(m[1..], k - 1);
    }
  }

  lemma {:induction false} SumNonNegative(m: SizeStock)
    requires NonNegativeCounts(m)
    ensures SumCounts(m) >= 0
  {
    if m != [] {
      SumNonNegative(m[1..]);
    }
  }

  // ---------------------------------------------------------------------
  // Product accessors and predicates
  // ---------------------------------------------------------------------

  /** getStockForSize: the entry for `size`, 0 for a null map or an absent size. */
  function StockForSize(p: Product, size: string): (r: int)
    ensures p.sizeStock.None? ==> r == 0
    ensures p.sizeStock.Some? && SizeValue(p.sizeStock.value, size).None? ==> r == 0
    ensures p.sizeStock.Some? && SizeValue(p.sizeStock.value, size).Some? ==>
              r == SizeValue(p.sizeStock.value, size).value
  {
    if p.sizeStock.None? then 0 else SizeValue(p.sizeStock.value, size).GetOr(0)
  }

  predicate IsSizeInStock(p: Product, size: string) {
    StockForSize(p, size) > 0
  }

  /** calculateTotalStockFromSizes: the sum of the counts, 0 for a null map. */
  function TotalStockFromSizes(p: Product): int {
    if p.sizeStock.None? then 0 else SumCounts(p.sizeStock.value)
  }

  /** A size in stock has a count no greater than the total of all sizes. */
  lemma SizeAtMostTotal(p: Product, size: string)
    requires p.sizeStock.Some? && NonNegativeCounts(p.sizeStock.value)
    ensures 0 <= StockForSize(p, size) <= TotalStockFromSizes(p)
    ensures IsSizeInStock(p, size) ==> TotalStockFromSizes(p) > 0
  {
    var m := p.sizeStock.value;
    var k := KeyIndex(m, size);
    SumNonNegative(m);
    if k >= 0 {
      EntryAtMostSum(m, k);
    }
  }

  predicate IsOutOfStock(p: Product) {
    p.stock <= 0
  }

  predicate IsLowStock(p: Product, threshold: int) {
    0 < p.stock <= threshold
  }

  /** The default threshold of isLowStock() and scopeLowStock(). */
  const DefaultLowStockThreshold := 10

  /** getStockStatusAttribute: the two labels split products exactly as isOutOfStock does. */
  function StockStatus(p: Product): (r: string)
    ensures r == "instock" || r == "outstock"
    ensures r == "outstock" <==> IsOutOfStock(p)
  {
    if p.stock > 0 then "instock" else "outstock"
  }

  /** No product is both low on stock and out of stock, whatever the threshold. */
  lemma LowStockNotOutOfStock(p: Product, threshold: int)
    ensures !(IsLowStock(p, threshold) && IsOutOfStock(p))
    ensures IsLowStock(p, threshold) ==> StockStatus(p) == "instock"
  {
  }

  /** scopeLowStock: ids of the products with 0 < stock <= threshold. */
  function ScopeLowStock(products: map<nat, Product>, threshold: int): (ids: set<nat>)
    ensures ids <= products.Keys
  {
    set id | id in products && IsLowStock(products[id], threshold)
  }

  /** scopeOutOfStock: ids of the products whose stock is exactly 0. */
  function ScopeOutOfStock(products: map<nat, Product>): (ids: set<nat>)
    ensures ids <= products.Keys
  {
    set id | id in products && products[id].stock == 0
  }

  /**
   * The query scope and the instance predicate disagree exactly on
   * negative stock: those products are "out of stock" for isOutOfStock()
   * but are not returned by scopeOutOfStock().
   */
  lemma OutOfStockScopeVsPredicate(products: map<nat, Product>, id: nat)
    requires id in products
    ensures id in ScopeOutOfStock(products) ==> IsOutOfStock(products[id])
    ensures (IsOutOfStock(products[id]) && id !in ScopeOutOfStock(products)) <==> products[id].stock < 0
    ensures id in ScopeLowStock(products, DefaultLowStockThreshold) <==> IsLowStock(products[id], DefaultLowStockThreshold)
  {
  }

  // ---------------------------------------------------------------------
  // Saving hook
  // ---------------------------------------------------------------------

  /**
   * round(price * (1 - pct / 100), 2) in cents when pct > 0, else the price.
   * A null percentage compares as not greater than 0.
   */
  function PromoPrice(price: int, pct: Option<int>): int {
    if pct.Some? && pct.value > 0 then RoundDiv(price * (100 - pct.value), 100) else price
  }

  /** The saving hook: promo_price is recomputed, nothing else changes. */
  function Saving(p: Product): (q: Product)
    ensures q.promoPrice.Some?
    ensures q == p.(promoPrice := q.promoPrice)
    ensures (p.promotionPercentage.None? || p.promotionPercentage.value <= 0) ==> q.promoPrice == Some(p.price)
  {
    p.(promoPrice := Some(PromoPrice(p.price, p.promotionPercentage)))
  }

  /**
   * For a percentage in 0..100 (the range the product forms accept) and a
   * non-negative price the promo price lies between 0 and the price; 100%
   * gives 0 and 0% gives the price.
   */
  lemma PromoPriceBounds(price: int, pct: int)
    requires price >= 0 && 0 <= pct <= 100
    ensures 0 <= PromoPrice(price, Some(pct)) <= price
    ensures pct == 100 ==> PromoPrice(price, Some(pct)) == 0
    ensures pct == 0 ==> PromoPrice(price, Some(pct)) == price
  {
    if pct > 0 {
      var n := price * (100 - pct);
      var r := RoundDiv(n, 100);
      assert 0 <= n <= price * 100;
      assert 2 * r * 100 <= 2 * n + 100;
      assert r * 200 <= price * 200 + 100;
      if pct == 100 {
        assert n == 0;
      }
    }
  }

  /** The price a cart, an order line or a checkout uses: promo_price ?? price. */
  function UnitPrice(p: Product): (r: int)
    ensures p.promoPrice.None? ==> r == p.price
    ensures p.promoPrice.Some? ==> r == p.promoPrice.value
  {
    p.promoPrice.GetOr(p.price)
  }

  /** After a save with a percentage in 0..100 the unit price never exceeds the list price. */
  lemma SavedUnitPriceAtMostPrice(p: Product)
    requires p.price >= 0
    requires p.promotionPercentage.Some? ==> 0 <= p.promotionPercentage.value <= 100
    ensures 0 <= UnitPrice(Saving(p)) <= p.price
  {
    if p.promotionPercentage.Some? {
      PromoPriceBounds(p.price, p.promotionPercentage.value);
    }
  }
}
