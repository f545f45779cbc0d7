/**
 * The admin product actions (app/Http/Controllers/Admin/ProductController.php):
 * creating a product with its stock taken from the per-size map, partial
 * updates that recompute that stock, the owner guard on deletion, the
 * set/add/subtract stock operation and the SKU generator.
 *
 * The category slug lookup (`Category::where('slug', …)->first…`) is done by
 * the caller: requests carry the id it found, None when no category has the
 * slug. Fresh ids are parameters.
 */
module AdminProductController {
  import opened Common
  import opened ProductModel
  import opened Schema
  import UserModel

  const Marques: seq<string> := ["Nike", "Adidas", "Zara", "H&M", "Uniqlo", "Gap", "Levi's", "Calvin Klein",
    "Tommy Hilfiger", "Ralph Lauren", "Puma", "Polo", "Lacoste", "Guess", "Forever 21"]
  const Styles: seq<string> := ["Casual", "Formel", "Sport", "Élégant", "Décontracté", "Chic", "Vintage", "Moderne"]
  const Genders: seq<string> := ["Homme", "Femme", "Unisexe", "Enfant"]
  const Sizes: seq<string> := ["XS", "S", "M", "L", "XL", "XXL", "XXXL", "30", "32", "34", "36", "38", "39",
    "40", "41", "42", "43", "44", "45"]

  /** `nullable|in:…`: absent/null, or one of the listed values. */
  predicate NullableIn(v: Option<string>, allowed: seq<string>) {
    v.None? || v.value in allowed
  }

  /** `nullable|string|max:n`. */
  predicate NullableMax(v: Option<string>, n: nat) {
    v.None? || |v.value| <= n
  }

  predicate SizesAllowed(sizes: seq<string>) {
    forall i :: 0 <= i < |sizes| ==> sizes[i] in Sizes
  }

  // ---------------------------------------------------------------------
  // store
  // ---------------------------------------------------------------------

  /** The body of a create request. */
  datatype NewProduct = NewProduct(
    name: string, description: string, price: int, stock: int,
    category: Option<nat>,
    sizeStock: Option<SizeStock>, images: seq<string>, marque: string,
    couleur: Option<string>, style: Option<string>, gender: Option<string>,
    sizes: Option<seq<string>>, material: Option<string>)

  /** The validation rules of store, with the category required to exist. */
  predicate NewProductValid(categories: set<nat>, r: NewProduct) {
    && Filled(r.name) && |r.name| <= 255
    && Filled(r.description)
    && r.price >= 0 && r.stock >= 0
    && r.category.Some? && r.category.value in categories
    && |r.images| >= 1
    && r.marque in Marques
    && NullableMax(r.couleur, 50) && NullableIn(r.style, Styles) && NullableIn(r.gender, Genders)
    && (r.sizes.None? || SizesAllowed(r.sizes.value))
    && (r.sizeStock.None? || NonNegativeCounts(r.sizeStock.value))
    && NullableMax(r.material, 100)
  }

  /**
   * The row store creates (after the saving hook): stock is the sum of the
   * size map when one is sent, gender defaults to 'Unisexe', sizes to [],
   * and the caller is recorded as creator.
   */
  function Created(id: nat, caller: nat, r: NewProduct): (p: Product)
    requires r.category.Some?
    ensures p.id == id && p.createdBy == Some(caller) && p.categoryId == r.category.value
    ensures p.sizeStock == r.sizeStock
    ensures r.sizeStock.Some? ==> p.stock == TotalStockFromSizes(p)
    ensures r.sizeStock.None? ==> p.stock == r.stock
    ensures p.gender.Some? && (r.gender.None? ==> p.gender.value == "Unisexe")
    ensures p.name == r.name && p.description == r.description && p.price == r.price
    ensures p.images == ImageList(r.images) && p.marque == r.marque
    ensures p.couleur == r.couleur && p.style == r.style && p.material == r.material
    ensures r.gender.Some? ==> p.gender == r.gender
    ensures r.sizes.None? ==> p.sizes == Some([])
    ensures r.sizes.Some? ==> p.sizes == r.sizes
    ensures p.promotionPercentage.None? && p.promoPrice == Some(p.price)
  {
    var stock := if r.sizeStock.Some? then SumCounts(r.sizeStock.value) else r.stock;
    Saving(Product(id, r.name, r.description, r.price, None, None, stock, r.sizeStock,
      r.category.value, Some(caller), ImageList(r.images), r.marque, r.couleur, r.style,
      Some(r.gender.GetOr("Unisexe")), Some(r.sizes.GetOr([])), r.material))
  }

  /** A product created from a valid request has non-negative stock and a gender from the list. */
  lemma CreatedWellFormed(categories: set<nat>, id: nat, caller: nat, r: NewProduct)
    requires NewProductValid(categories, r)
    ensures Created(id, caller, r).stock >= 0
    ensures Created(id, caller, r).gender.value in Genders
    ensures Created(id, caller, r).price >= 0
  {
    if r.sizeStock.Some? {
      SumNonNegative(r.sizeStock.value);
    }
  }

  /** store: 422 on a request the rules reject, 201 and one new row otherwise. */
  method StoreProduct(db: Database, caller: nat, r: NewProduct, id: nat) returns (status: int)
    requires id !in db.products
    modifies db`products
    ensures !NewProductValid(db.categories.Keys, r) ==> status == 422 && unchanged(db)
    ensures NewProductValid(db.categories.Keys, r) ==>
      status == 201 && db.products == old(db.products)[id := Created(id, caller, r)]
  {
    if !NewProductValid(db.categories.Keys, r) {
      return 422;
    }
    var stock := r.stock;
    if r.sizeStock.Some? {
      stock := SumCounts(r.sizeStock.value);
    }
    var p := Product(id, r.name, r.description, r.price, None, None, stock, r.sizeStock,
      r.category.value, Some(caller), ImageList(r.images), r.marque, r.couleur, r.style,
      Some(r.gender.GetOr("Unisexe")), Some(r.sizes.GetOr([])), r.material);
    db.products := db.products[id := Saving(p)];
    status := 201;
  }

  // ---------------------------------------------------------------------
  // update
  // ---------------------------------------------------------------------

  /**
   * The keys an update request sends: None is an absent key, Some(None) a key
   * sent as null. `category` carries the id its slug resolves to.
   */
  datatype ProductPatch = ProductPatch(
    name: Option<string>, description: Option<string>, price: Option<int>, stock: Option<int>,
    category: Option<Option<nat>>, images: Option<seq<string>>, marque: Option<string>,
    couleur: Option<Option<string>>, style: Option<Option<string>>, gender: Option<Option<string>>,
    sizes: Option<Option<seq<string>>>, sizeStock: Option<Option<SizeStock>>, material: Option<Option<string>>)

  /** The `sometimes|required|…` and `nullable|…` rules of update. */
  predicate PatchValid(categories: set<nat>, u: ProductPatch) {
    && (u.name.None? || (Filled(u.name.value) && |u.name.value| <= 255))
    && (u.description.None? || Filled(u.description.value))
    && (u.price.None? || u.price.value >= 0)
    && (u.stock.None? || u.stock.value >= 0)
    && (u.category.None? || (u.category.value.Some? && u.category.value.value in categories))
    && (u.images.None? || |u.images.value| >= 1)
    && (u.marque.None? || u.marque.value in Marques)
    && (u.couleur.None? || NullableMax(u.couleur.value, 50))
    && (u.style.None? || NullableIn(u.style.value, Styles))
    && (u.gender.None? || NullableIn(u.gender.value, Genders))
    && (u.sizes.None? || u.sizes.value.None? || SizesAllowed(u.sizes.value.value))
    && (u.sizeStock.None? || u.sizeStock.value.None? || NonNegativeCounts(u.sizeStock.value.value))
    && (u.material.None? || NullableMax(u.material.value, 100))
  }

  /**
   * `$product->update($data)` followed by the saving hook: every sent key
   * overwrites its column, the stock is the sum of a sent size map, and a
   * sent category replaces category_id.
   */
  function Patched(p: Product, u: ProductPatch): (q: Product)
    requires u.category.Some? ==> u.category.value.Some?
    ensures q.id == p.id && q.createdBy == p.createdBy && q.promotionPercentage == p.promotionPercentage
    ensures u.sizeStock.Some? && u.sizeStock.value.Some? ==> q.stock == TotalStockFromSizes(q)
    ensures (u.sizeStock.None? || u.sizeStock.value.None?) ==> q.stock == u.stock.GetOr(p.stock)
    ensures u.sizeStock.None? ==> q.sizeStock == p.sizeStock
    ensures u.category.None? ==> q.categoryId == p.categoryId
    ensures u.sizes.Some? ==> q.sizes == u.sizes.value
    ensures u.sizes.None? ==> q.sizes == p.sizes
  {
    var sizeStock := if u.sizeStock.Some? then u.sizeStock.value else p.sizeStock;
    var stock :=
      if u.sizeStock.Some? && u.sizeStock.value.Some? then SumCounts(u.sizeStock.value.value)
      else u.stock.GetOr(p.stock);
    Saving(p.(
      name := u.name.GetOr(p.name),
      description := u.description.GetOr(p.description),
      price := u.price.GetOr(p.price),
      stock := stock,
      sizeStock := sizeStock,
      categoryId := if u.category.Some? then u.category.value.value else p.categoryId,
      images := if u.images.Some? then ImageList(u.images.value) else p.images,
      marque := u.marque.GetOr(p.marque),
      couleur := u.couleur.GetOr(p.couleur),
      style := u.style.GetOr(p.style),
      gender := u.gender.GetOr(p.gender),
      sizes := u.sizes.GetOr(p.sizes),
      material := u.material.GetOr(p.material)))
  }

  const EmptyPatch := ProductPatch(None, None, None, None, None, None, None, None, None, None, None, None, None)

  /**
   * An update that sends nothing only re-runs the saving hook; a size map
   * sent together with a stock value wins over that value.
   */
  lemma PatchedKeys(p: Product, u: ProductPatch, m: SizeStock, n: int)
    requires p.promoPrice == Some(PromoPrice(p.price, p.promotionPercentage))
    ensures Patched(p, EmptyPatch) == p
    ensures u.sizeStock == Some(Some(m)) && u.stock == Some(n) && (u.category.Some? ==> u.category.value.Some?) ==>
      Patched(p, u).stock == SumCounts(m)
  {
  }

  /** A valid update keeps the stock of a product with non-negative stock non-negative. */
  lemma PatchedStockNonNegative(categories: set<nat>, p: Product, u: ProductPatch)
    requires PatchValid(categories, u) && p.stock >= 0
    ensures Patched(p, u).stock >= 0
  {
    if u.sizeStock.Some? && u.sizeStock.value.Some? {
      SumNonNegative(u.sizeStock.value.value);
    }
  }

  /** update: 404 for an unknown product, then 422 for a rejected request, else 200. */
  method UpdateProduct(db: Database, id: nat, u: ProductPatch) returns (status: int)
    modifies db`products
    ensures id !in old(db.products) ==> status == 404 && unchanged(db)
    ensures id in old(db.products) && !PatchValid(db.categories.Keys, u) ==> status == 422 && unchanged(db)
    ensures id in old(db.products) && PatchValid(db.categories.Keys, u) ==>
      status == 200 && db.products == old(db.products)[id := Patched(old(db.products)[id], u)]
  {
    if id !in db.products {
      return 404;
    }
    if !PatchValid(db.categories.Keys, u) {
      return 422;
    }
    db.products := db.products[id := Patched(db.products[id], u)];
    status := 200;
  }

  // ---------------------------------------------------------------------
  // destroy
  // ---------------------------------------------------------------------

  /**
   * The destroy guard: with an authenticated caller who is not a super
   * admin, the product must record that caller as its creator.
   */
  predicate MayDelete(caller: Option<UserModel.User>, p: Product) {
    caller.None? || caller.value.role == UserModel.SuperAdminRole || p.createdBy == Some(caller.value.id)
  }

  /** A super admin deletes any product, an admin only the products they created. */
  lemma MayDeleteCases(u: UserModel.User, p: Product)
    ensures UserModel.IsSuperAdmin(u) ==> MayDelete(Some(u), p)
    ensures !UserModel.IsSuperAdmin(u) ==> (MayDelete(Some(u), p) <==> p.createdBy == Some(u.id))
    ensures !UserModel.IsSuperAdmin(u) && p.createdBy.None? ==> !MayDelete(Some(u), p)
  {
  }

  /** destroy: 404, 403, else the product and (by cascade) its view counters are deleted. */
  method DestroyProduct(db: Database, caller: Option<UserModel.User>, id: nat) returns (status: int)
    modifies db`products, db`views
    ensures id !in old(db.products) ==> status == 404 && unchanged(db)
    ensures id in old(db.products) && !MayDelete(caller, old(db.products)[id]) ==> status == 403 && unchanged(db)
    ensures id in old(db.products) && MayDelete(caller, old(db.products)[id]) ==>
      status == 200 && db.products == old(db.products) - {id}
      && db.views == RowsWhereNot(old(db.views), (v: ViewRow) => v.productId == id)
  {
    if id !in db.products {
      return 404;
    }
    var p := db.products[id];
    if caller.Some? && caller.value.role != UserModel.SuperAdminRole && p.createdBy != Some(caller.value.id) {
      return 403;
    }
    db.products := db.products - {id};
    db.views := RowsWhereNot(db.views, (v: ViewRow) => v.productId == id);
    status := 200;
  }

  // ---------------------------------------------------------------------
  // updateStock
  // ---------------------------------------------------------------------

  datatype StockOp = SetStock | AddStock | SubtractStock

  /** `sometimes|in:set,add,subtract` followed by `?? 'set'`; None for any other value. */
  function ParseStockOp(op: Option<string>): (r: Option<StockOp>)
    ensures op.None? ==> r == Some(SetStock)
    ensures r.None? <==> op.Some? && op.value != "set" && op.value != "add" && op.value != "subtract"
  {
    if op.None? || op.value == "set" then Some(SetStock)
    else if op.value == "add" then Some(AddStock)
    else if op.value == "subtract" then Some(SubtractStock)
    else None
  }

  function NewStock(current: int, op: StockOp, n: int): (r: int)
  {
    match op
    case SetStock => n
    case AddStock => current + n
    case SubtractStock => if current - n > 0 then current - n else 0
  }

  /**
   * The three operations: set yields n, add raises by n, subtract lowers by
   * n but never below 0; for n >= 0 non-negative stock stays non-negative.
   */
  lemma NewStockCases(current: int, n: int)
    ensures NewStock(current, SetStock, n) == n
    ensures NewStock(current, AddStock, n) - current == n
    ensures NewStock(current, SubtractStock, n) >= 0
    ensures n <= current ==> NewStock(current, SubtractStock, n) == current - n
    ensures n > current ==> NewStock(current, SubtractStock, n) == 0
    ensures n >= 0 && current >= 0 ==> forall op :: NewStock(current, op, n) >= 0
  {
  }

  /**
   * updateStock: 422 unless n >= 0 and the operation is one of the three,
   * then 404 for an unknown product; only the stock column changes.
   */
  method UpdateStock(db: Database, id: nat, n: int, op: Option<string>) returns (status: int)
    modifies db`products
    ensures (n < 0 || ParseStockOp(op).None?) ==> status == 422 && unchanged(db)
    ensures n >= 0 && ParseStockOp(op).Some? && id !in old(db.products) ==> status == 404 && unchanged(db)
    ensures n >= 0 && ParseStockOp(op).Some? && id in old(db.products) ==>
      var p := old(db.products)[id];
      status == 200 && db.products == old(db.products)[id := Saving(p.(stock := NewStock(p.stock, ParseStockOp(op).value, n)))]
  {
    var operation := ParseStockOp(op);
    if n < 0 || operation.None? {
      return 422;
    }
    if id !in db.products {
      return 404;
    }
    var p := db.products[id];
    var stock := p.stock;
    match operation.value {
      case AddStock => stock := stock + n;
      case SubtractStock => stock := if stock - n > 0 then stock - n else 0;
      case SetStock => stock := n;
    }
    db.products := db.products[id := Saving(p.(stock := stock))];
    status := 200;
  }

  /**
   * updateStock leaves size_stock alone, so the total stock and the sum of
   * the per-size counts can drift apart.
   */
  lemma StockAndSizesDiverge(p: Product, op: StockOp, n: int)
    requires p.sizeStock.Some? && p.stock == TotalStockFromSizes(p)
    requires NewStock(p.stock, op, n) != p.stock
    ensures TotalStockFromSizes(Saving(p.(stock := NewStock(p.stock, op, n)))) == TotalStockFromSizes(p)
    ensures Saving(p.(stock := NewStock(p.stock, op, n))).stock != TotalStockFromSizes(p)
  {
  }

  // ---------------------------------------------------------------------
  // generateSku
  // ---------------------------------------------------------------------

  /**
   * generateSku: up to six characters of the upper-cased slug (the slug of
   * the name with no separator is given), then the product count plus one,
   * zero-padded to at least four digits.
   */
  function GenerateSku(slug: string, count: nat): (sku: string)
    ensures |sku| >= 4
  {
    var base := Upper(slug);
    var prefix := if |base| <= 6 then base else base[..6];
    prefix + PadLeft(NatToString(count + 1), 4, '0')
  }

  /** The padded counter: digits only, worth n, four of them while n is at most 9999. */
  lemma PaddedCounter(n: nat)
    ensures var padded := PadLeft(NatToString(n), 4, '0');
      && (forall i :: 0 <= i < |padded| ==> IsDigit(padded[i]))
      && DigitsValue(padded) == n
      && (n <= 9999 ==> |padded| == 4)
  {
    NatToStringValue(n);
    ZeroPadValue(NatToString(n), 4);
    if n <= 9999 {
      NatToStringShort(n);
    }
  }

  /**
   * The SKU starts with the upper-cased slug cut to six characters and ends
   * in a run of digits whose value is count + 1.
   */
  lemma SkuParts(slug: string, count: nat)
    ensures var sku := GenerateSku(slug, count);
      var k := if |slug| <= 6 then |slug| else 6;
      var suffix := sku[k..];
      && sku[..k] == Upper(slug)[..k]
      && (forall i :: 0 <= i < |suffix| ==> IsDigit(suffix[i]))
      && DigitsValue(suffix) == count + 1
      && (count < 9999 ==> |suffix| == 4)
  {
    var k := if |slug| <= 6 then |slug| else 6;
    var padded := PadLeft(NatToString(count + 1), 4, '0');
    var sku := GenerateSku(slug, count);
    assert sku == Upper(slug)[..k] + padded;
    assert sku[..k] == Upper(slug)[..k];
    assert sku[k..] == padded;
    PaddedCounter(count + 1);
  }

  /** Numbers below 10000 take at most four digits. */
  lemma NatToStringShort(n: nat)
    requires n < 10000
    ensures |NatToString(n)| <= 4
  {
    if n >= 10 {
      var a := n / 10;
      assert |NatToString(n)| == |NatToString(a)| + 1;
      if a >= 10 {
        var b := a / 10;
        assert |NatToString(a)| == |NatToString(b)| + 1;
        if b >= 10 {
          assert |NatToString(b)| == |NatToString(b / 10)| + 1;
        }
      }
    }
  }

  /** Two products with the same slug but different counts get different SKUs. */
  lemma SkuDistinct(slug: string, a: nat, b: nat)
    requires a != b
    ensures GenerateSku(slug, a) != GenerateSku(slug, b)
  {
    SkuParts(slug, a);
    SkuParts(slug, b);
  }
}
