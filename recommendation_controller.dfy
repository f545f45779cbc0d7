/**
 * Matching products to image file names
 * (app/Http/Controllers/RecommendationController.php): a product matches
 * when the basename of one of its images equals one of the requested
 * basenames; the first such image (in image order) is the one reported,
 * and a product is reported at most once. `findProductsByImages` also
 * filters by glasses type, `processRecommendations` runs the same search
 * once per recommendation.
 *
 * Decoding the JSON text of a doubly encoded `images` value is the
 * parameter `decode` (None when the text is not a JSON list).
 */
module RecommendationController {
  import opened Common
  import opened ProductModel

  /** getImagesArray: a list as is, a JSON text decoded (`?? []`), anything else empty. */
  function ImagesOf(images: ImagesField, decode: string -> Option<seq<string>>): (r: seq<string>)
    ensures images.ImageList? ==> r == images.paths
    ensures images.NoImages? ==> r == []
  {
    match images
    case ImageList(paths) => paths
    case ImageJson(text) => decode(text).GetOr([])
    case NoImages => []
  }

  /** `array_map('basename', $filenames)`. */
  function BaseNames(names: seq<string>): (r: seq<string>)
    ensures |r| == |names|
    ensures forall i :: 0 <= i < |names| ==> r[i] == Basename(names[i])
  {
    seq(|names|, i requires 0 <= i < |names| => Basename(names[i]))
  }

  /**
   * The basename of the first image, from image i on, whose basename is
   * one of `names`: the value of `matched_image` where the double loop stops.
   */
  function FirstMatchFrom(images: seq<string>, names: seq<string>, i: nat): Option<string>
    requires i <= |images|
    decreases |images| - i
  {
    if i == |images| then None
    else if Basename(images[i]) in names then Some(Basename(images[i]))
    else FirstMatchFrom(images, names, i + 1)
  }

  function FirstMatch(images: seq<string>, names: seq<string>): Option<string> {
    FirstMatchFrom(images, names, 0)
  }

  /** When the scan from image i finds nothing, no image from i on has a requested basename. */
  lemma {:induction false} FirstMatchNoneAt(images: seq<string>, names: seq<string>, i: nat, j: nat)
    requires i <= j < |images| && FirstMatchFrom(images, names, i).None?
    ensures Basename(images[j]) !in names
    decreases j - i
  {
    if i < j {
      FirstMatchNoneAt(images, names, i + 1, j);
    }
  }

  /** Where the scan from image i stops: the first image from i on with a requested basename. */
  lemma {:induction false} FirstMatchIndex(images: seq<string>, names: seq<string>, i: nat) returns (k: nat)
    requires i <= |images| && FirstMatchFrom(images, names, i).Some?
    ensures i <= k < |images| && Basename(images[k]) == FirstMatchFrom(images, names, i).value
    ensures FirstMatchFrom(images, names, i).value in names
    ensures forall j :: i <= j < k ==> Basename(images[j]) !in names
    decreases |images| - i
  {
    if Basename(images[i]) in names {
      k := i;
    } else {
      k := FirstMatchIndex(images, names, i + 1);
    }
  }

  /** The scan finds nothing exactly when no image has a requested basename. */
  lemma FirstMatchNone(images: seq<string>, names: seq<string>)
    ensures FirstMatch(images, names).None? <==> forall i :: 0 <= i < |images| ==> Basename(images[i]) !in names
  {
    if FirstMatch(images, names).Some? {
      var k := FirstMatchIndex(images, names, 0);
    } else {
      forall i | 0 <= i < |images| ensures Basename(images[i]) !in names {
        FirstMatchNoneAt(images, names, 0, i);
      }
    }
  }

  /**
   * The double loop reports a name exactly when some image has a requested
   * basename, and then it is the basename of the first such image.
   */
  lemma FirstMatchSpec(images: seq<string>, names: seq<string>)
    ensures FirstMatch(images, names).None? <==> forall i :: 0 <= i < |images| ==> Basename(images[i]) !in names
    ensures FirstMatch(images, names).Some? ==>
      exists i :: (0 <= i < |images| && Basename(images[i]) == FirstMatch(images, names).value
                   && FirstMatch(images, names).value in names
                   && (forall j :: 0 <= j < i ==> Basename(images[j]) !in names))
  {
    FirstMatchNone(images, names);
    if FirstMatch(images, names).Some? {
      var k := FirstMatchIndex(images, names, 0);
    }
  }

  /**
   * The two loops over one product's images and the requested names,
   * left together by `break 2` at the first equal basename.
   */
  method ScanImages(images: seq<string>, names: seq<string>) returns (found: Option<string>)
    ensures found == FirstMatch(images, names)
  {
    var i := 0;
    while i < |images|
      invariant 0 <= i <= |images|
      invariant FirstMatch(images, names) == FirstMatchFrom(images, names, i)
    {
      var b := Basename(images[i]);
      var j := 0;
      while j < |names|
        invariant 0 <= j <= |names|
        invariant forall k :: 0 <= k < j ==> names[k] != b
      {
        if b == names[j] {
          return Some(names[j]);
        }
        j := j + 1;
      }
      i := i + 1;
    }
    return None;
  }

  datatype GlassType = Sunglasses | Eyeglasses

  /** `type` must be `sunglasses` or `eyeglasses`. */
  function ParseGlassType(s: string): (r: Option<GlassType>)
    ensures r == Some(Sunglasses) <==> s == "sunglasses"
    ensures r == Some(Eyeglasses) <==> s == "eyeglasses"
  {
    if s == "sunglasses" then Some(Sunglasses) else if s == "eyeglasses" then Some(Eyeglasses) else None
  }

  /** A product is a pair of sunglasses when one of its image paths lies under /images/sunglasses/. */
  predicate IsSunglass(images: seq<string>) {
    exists i :: 0 <= i < |images| && Contains(images[i], "/images/sunglasses/")
  }

  predicate TypeMatch(t: GlassType, images: seq<string>) {
    (t == Sunglasses && IsSunglass(images)) || (t == Eyeglasses && !IsSunglass(images))
  }

  /** One reported product (the nonexistent `forme` attribute is not modelled). */
  datatype Matched = Matched(
    id: nat, name: string, price: int, description: string, marque: string,
    couleur: Option<string>, images: seq<string>, matchedImage: string)

  /** What the search reports for one product: its first matching image, if it passes the filter. */
  function Report(p: Product, names: seq<string>, decode: string -> Option<seq<string>>,
                  filter: Option<GlassType>): Option<Matched>
  {
    var images := ImagesOf(p.images, decode);
    var found := FirstMatch(images, names);
    if found.Some? && (filter.None? || TypeMatch(filter.value, images)) then
      Some(Matched(p.id, p.name, p.price, p.description, p.marque, p.couleur, images, found.value))
    else None
  }

  /**
   * A product is reported exactly when one of its images has a requested
   * basename and it passes the filter; the report names that basename.
   */
  lemma ReportSpec(p: Product, names: seq<string>, decode: string -> Option<seq<string>>, filter: Option<GlassType>)
    ensures var images := ImagesOf(p.images, decode);
      Report(p, names, decode, filter).Some? <==>
        (exists i :: 0 <= i < |images| && Basename(images[i]) in names) && (filter.None? || TypeMatch(filter.value, images))
    ensures var m := Report(p, names, decode, filter);
      m.Some? ==>
        && m.value.id == p.id && m.value.images == ImagesOf(p.images, decode) && m.value.matchedImage in names
        && (exists i :: 0 <= i < |m.value.images| && Basename(m.value.images[i]) == m.value.matchedImage)
  {
    FirstMatchSpec(ImagesOf(p.images, decode), names);
  }

  /** What the search reports for each product, as a function of the product alone. */
  function Reporter(names: seq<string>, decode: string -> Option<seq<string>>,
                    filter: Option<GlassType>): Product -> Option<Matched>
  {
    p => Report(p, names, decode, filter)
  }

  /** The reports of the first n products, in table order. */
  function Collect(all: seq<Product>, rep: Product -> Option<Matched>, n: nat): (r: seq<Matched>)
    requires n <= |all|
    ensures |r| <= n
  {
    if n == 0 then []
    else
      var m := rep(all[n - 1]);
      Collect(all, rep, n - 1) + if m.Some? then [m.value] else []
  }

  /** Each collected entry is the report of one of the first n products. */
  lemma {:induction false} CollectSound(all: seq<Product>, rep: Product -> Option<Matched>, n: nat, k: nat)
    returns (j: nat)
    requires n <= |all| && k < |Collect(all, rep, n)|
    ensures j < n && rep(all[j]).Some? && Collect(all, rep, n)[k] == rep(all[j]).value
  {
    var prev := Collect(all, rep, n - 1);
    if k < |prev| {
      j := CollectSound(all, rep, n - 1, k);
    } else {
      j := n - 1;
    }
  }

  /** Each report of one of the first n products is collected. */
  lemma {:induction false} CollectListed(all: seq<Product>, rep: Product -> Option<Matched>, n: nat, j: nat)
    returns (k: nat)
    requires j < n <= |all| && rep(all[j]).Some?
    ensures k < |Collect(all, rep, n)| && Collect(all, rep, n)[k] == rep(all[j]).value
  {
    var prev := Collect(all, rep, n - 1);
    if j < n - 1 {
      k := CollectListed(all, rep, n - 1, j);
    } else {
      k := |prev|;
    }
  }

  /**
   * The products reported, in table order, for a type filter (None: no
   * filter, as in processRecommendations).
   */
  function Matches(all: seq<Product>, names: seq<string>, decode: string -> Option<seq<string>>,
                   filter: Option<GlassType>): (r: seq<Matched>)
    ensures |r| <= |all|
  {
    Collect(all, Reporter(names, decode, filter), |all|)
  }

  /** The loop over all products, shared by both endpoints. */
  method MatchProducts(all: seq<Product>, names: seq<string>, decode: string -> Option<seq<string>>,
                       filter: Option<GlassType>) returns (matched: seq<Matched>)
    ensures matched == Matches(all, names, decode, filter)
  {
    matched := [];
    var i := 0;
    while i < |all|
      invariant 0 <= i <= |all|
      invariant matched == Collect(all, Reporter(names, decode, filter), i)
    {
      var p := all[i];
      var images := ImagesOf(p.images, decode);
      var found := ScanImages(images, names);
      if found.Some? && (filter.None? || TypeMatch(filter.value, images)) {
        matched := matched + [Matched(p.id, p.name, p.price, p.description, p.marque, p.couleur, images, found.value)];
      }
      i := i + 1;
    }
  }

  /**
   * Every reported product has an image whose basename is a requested
   * name, that basename is the reported one, and it passes the filter.
   */
  lemma MatchesSound(all: seq<Product>, names: seq<string>, decode: string -> Option<seq<string>>,
                     filter: Option<GlassType>, k: nat)
    requires k < |Matches(all, names, decode, filter)|
    ensures var m := Matches(all, names, decode, filter)[k];
      && m.matchedImage in names
      && (exists i :: 0 <= i < |m.images| && Basename(m.images[i]) == m.matchedImage)
      && (filter.None? || TypeMatch(filter.value, m.images))
      && (exists j :: 0 <= j < |all| && all[j].id == m.id && m.images == ImagesOf(all[j].images, decode))
  {
    var j := CollectSound(all, Reporter(names, decode, filter), |all|, k);
    ReportSpec(all[j], names, decode, filter);
  }

  /** Where the entry of a reported product sits in the result. */
  lemma ReportedIsListed(all: seq<Product>, names: seq<string>, decode: string -> Option<seq<string>>,
                         filter: Option<GlassType>, j: nat) returns (k: nat)
    requires j < |all| && Report(all[j], names, decode, filter).Some?
    ensures k < |Matches(all, names, decode, filter)|
    ensures Matches(all, names, decode, filter)[k] == Report(all[j], names, decode, filter).value
  {
    k := CollectListed(all, Reporter(names, decode, filter), |all|, j);
  }

  /** A product with an image of a requested basename that passes the filter is reported. */
  lemma MatchesComplete(all: seq<Product>, names: seq<string>, decode: string -> Option<seq<string>>,
                        filter: Option<GlassType>, j: nat, i: nat)
    requires j < |all| && i < |ImagesOf(all[j].images, decode)|
    requires Basename(ImagesOf(all[j].images, decode)[i]) in names
    requires filter.None? || TypeMatch(filter.value, ImagesOf(all[j].images, decode))
    ensures exists k :: 0 <= k < |Matches(all, names, decode, filter)| && Matches(all, names, decode, filter)[k].id == all[j].id
  {
    ReportSpec(all[j], names, decode, filter);
    var k := ReportedIsListed(all, names, decode, filter, j);
  }

  /** The two glasses types split the reports of the first n products. */
  lemma {:induction false} TypesPartitionUpTo(all: seq<Product>, names: seq<string>,
                                              decode: string -> Option<seq<string>>, n: nat)
    requires n <= |all|
    ensures |Collect(all, Reporter(names, decode, Some(Sunglasses)), n)|
          + |Collect(all, Reporter(names, decode, Some(Eyeglasses)), n)|
         == |Collect(all, Reporter(names, decode, None), n)|
  {
    if n > 0 {
      TypesPartitionUpTo(all, names, decode, n - 1);
    }
  }

  /**
   * The two glasses types split the unfiltered result: every matched
   * product is reported for exactly one of them.
   */
  lemma TypesPartition(all: seq<Product>, names: seq<string>, decode: string -> Option<seq<string>>)
    ensures |Matches(all, names, decode, Some(Sunglasses))| + |Matches(all, names, decode, Some(Eyeglasses))|
      == |Matches(all, names, decode, None)|
  {
    TypesPartitionUpTo(all, names, decode, |all|);
  }

  datatype SearchResponse = Invalid422 | Found(count: nat, products: seq<Matched>, kind: GlassType)

  /**
   * findProductsByImages: `filenames` must be a non-empty list and `type`
   * one of the two glasses types; the names are reduced to basenames first.
   */
  method FindProductsByImages(all: seq<Product>, filenames: seq<string>, kind: string,
                              decode: string -> Option<seq<string>>) returns (r: SearchResponse)
    ensures (filenames == [] || ParseGlassType(kind).None?) <==> r.Invalid422?
    ensures r.Found? ==>
      (r.products == Matches(all, BaseNames(filenames), decode, ParseGlassType(kind))
       && r.count == |r.products| && Some(r.kind) == ParseGlassType(kind))
  {
    var t := ParseGlassType(kind);
    if filenames == [] || t.None? {
      return Invalid422;
    }
    var products := MatchProducts(all, BaseNames(filenames), decode, t);
    r := Found(|products|, products, t.value);
  }

  /** One AI recommendation: its `model` and its `stock_matches` (None when absent or not a list). */
  datatype Recommendation = Recommendation(model: Option<string>, stockMatches: Option<seq<Option<string>>>)

  /** The basenames of the stock matches that carry a `filename`, in order. */
  function FilenamesOf(matches: seq<Option<string>>): seq<string> {
    if matches == [] then []
    else
      var m := matches[|matches| - 1];
      FilenamesOf(matches[..|matches| - 1]) + if m.Some? then [Basename(m.value)] else []
  }

  /** The names searched for are exactly the basenames of the given filenames. */
  lemma {:induction false} FilenamesOfSpec(matches: seq<Option<string>>)
    ensures forall n :: n in FilenamesOf(matches) <==> exists i :: 0 <= i < |matches| && matches[i].Some? && n == Basename(matches[i].value)
  {
    if matches != [] {
      var init := matches[..|matches| - 1];
      FilenamesOfSpec(init);
      assert forall i :: 0 <= i < |init| ==> init[i] == matches[i];
    }
  }

  method CollectFilenames(rec: Recommendation) returns (names: seq<string>)
    ensures rec.stockMatches.None? ==> names == []
    ensures rec.stockMatches.Some? ==> names == FilenamesOf(rec.stockMatches.value)
  {
    names := [];
    if rec.stockMatches.Some? {
      var ms := rec.stockMatches.value;
      var i := 0;
      while i < |ms|
        invariant 0 <= i <= |ms|
        invariant names == FilenamesOf(ms[..i])
      {
        assert ms[..i + 1][..i] == ms[..i];
        if ms[i].Some? {
          names := names + [Basename(ms[i].value)];
        }
        i := i + 1;
      }
      assert ms[..|ms|] == ms;
    }
  }

  datatype Processed = Processed(model: Option<string>, matching: seq<Matched>)

  function ProcessedOf(all: seq<Product>, rec: Recommendation, decode: string -> Option<seq<string>>): Processed {
    Processed(rec.model, Matches(all, if rec.stockMatches.Some? then FilenamesOf(rec.stockMatches.value) else [], decode, None))
  }

  /** processRecommendations: 422 on an empty list, else one entry per recommendation, in order. */
  method ProcessRecommendations(all: seq<Product>, recs: seq<Recommendation>, decode: string -> Option<seq<string>>)
    returns (r: Option<seq<Processed>>)
    ensures r.None? <==> recs == []
    ensures r.Some? ==>
      (|r.value| == |recs| && forall i :: 0 <= i < |recs| ==> r.value[i] == ProcessedOf(all, recs[i], decode))
  {
    if recs == [] {
      return None;
    }
    var result: seq<Processed> := [];
    var i := 0;
    while i < |recs|
      invariant 0 <= i <= |recs|
      invariant |result| == i
      invariant forall k :: 0 <= k < i ==> result[k] == ProcessedOf(all, recs[k], decode)
    {
      var names := CollectFilenames(recs[i]);
      var matched := MatchProducts(all, names, decode, None);
      result := result + [Processed(recs[i].model, matched)];
      i := i + 1;
    }
    r := Some(result);
  }

  /** A recommendation without stock matches finds nothing. */
  lemma NoNamesNoMatches(all: seq<Product>, decode: string -> Option<seq<string>>)
    ensures Matches(all, [], decode, None) == []
  {
    if Matches(all, [], decode, None) != [] {
      var j := CollectSound(all, Reporter([], decode, None), |all|, 0);
      ReportSpec(all[j], [], decode, None);
      assert false;
    }
  }
}
