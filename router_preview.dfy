/** The `/preview` handler of the Express router (routes/preview.routes.js:7-138), with
    the fetch and the HTML parser replaced by their outcome: the fetched `Page`. */
module RouterPreview {
  import opened JsValues
  import opened JsStrings
  import opened PageModel
  import opened Platforms

  /** The HTTP answer: status code and JSON body. */
  datatype Response = Response(status: int, body: PreviewResult)

  // ---------------------------------------------------------------- price

  /** The price selectors of each platform, in the order they are tried
      (routes/preview.routes.js:49-61); none for an unknown platform. */
  function PriceSelectors(p: Platform): seq<string> {
    match p
    case Amazon => ["#priceblock_ourprice", "#priceblock_dealprice", "#priceblock_saleprice",
                    ".a-price .a-offscreen", "span.a-price-whole"]
    case Flipkart => ["div._30jeq3", "div._16Jk6d"]
    case Meesho => ["div.sc-eDvSVe", "div[data-testid=\"price\"]"]
    case Unknown => []
  }

  /** The price before clean-up: `null` for an unknown platform; otherwise the first
      non-empty text of the platform's selectors, and `""` (not `null`) when all are empty. */
  function PriceCascade(d: Doc, p: Platform): (r: Option<string>)
    ensures r == None <==> p == Unknown
    ensures forall i :: FirstTruthyAt(TextsOf(d, PriceSelectors(p)), i) ==> r == Some(Text(d, PriceSelectors(p)[i]))
    ensures p != Unknown && (forall i :: 0 <= i < |PriceSelectors(p)| ==> Text(d, PriceSelectors(p)[i]) == "") ==>
              r == Some("")
  {
    if p == Unknown then None else OrChain(TextsOf(d, PriceSelectors(p)))
  }

  // ---------------------------------------------------------------- image

  /** The generic image sources (routes/preview.routes.js:64-69). */
  const MetaImageSources: seq<Source> := [
    ("meta[property=\"og:image\"]", "content"),
    ("meta[name=\"twitter:image\"]", "content"),
    ("meta[property=\"og:image:secure_url\"]", "content"),
    ("link[rel=\"image_src\"]", "href")]

  /** The platform image sources, in order (routes/preview.routes.js:73-96). */
  function PlatformImageSources(p: Platform): seq<Source> {
    match p
    case Amazon => [("#landingImage", "data-old-hires"), ("#landingImage", "src"), ("#imgBlkFront", "src"),
                    ("img[data-image-index=\"0\"]", "src"), ("img.a-dynamic-image", "src"),
                    ("div.imgTagWrapper img", "src"), ("img[alt*=\"product\"]", "src")]
    case Flipkart => [("img._396cs4", "src"), ("img[data-src]", "data-src"),
                      ("img[alt*=\"product\"]", "src"), ("div._312yBx img", "src")]
    case Meesho => [("img[data-src]", "data-src"), ("img[alt*=\"product\"]", "src"),
                    ("div[data-testid=\"image\"] img", "src")]
    case Unknown => []
  }

  /** `og:image || twitter:image || og:image:secure_url || image_src || null`. */
  function MetaImage(d: Doc): (r: Option<string>)
    ensures r == None || Truthy(r)
    ensures forall i :: FirstTruthyAt(AttrsOf(d, MetaImageSources), i) ==>
              r == Attr(d, MetaImageSources[i].0, MetaImageSources[i].1)
    ensures (forall i :: 0 <= i < |MetaImageSources| ==> !Truthy(AttrsOf(d, MetaImageSources)[i])) ==> r == None
  {
    var cands := AttrsOf(d, MetaImageSources) + [None];
    assert forall i :: FirstTruthyAt(AttrsOf(d, MetaImageSources), i) ==> FirstTruthyAt(cands, i);
    OrChain(cands)
  }

  const AcMarker := "._AC_"
  const HiResMarker := "._AC_SL1500_"

  /** The end of the run of non-`.` characters that starts at `k`. */
  function NonDotRunEnd(s: string, k: nat): (j: nat)
    requires k <= |s|
    ensures k <= j <= |s| && (j == |s| || s[j] == '.')
    ensures forall m :: k <= m < j ==> s[m] != '.'
    decreases |s| - k
  {
    if k == |s| || s[k] == '.' then k else NonDotRunEnd(s, k + 1)
  }

  /** `image.replace(/\._AC_[^.]*\/, '._AC_SL1500_')`: the first `._AC_` and the run of
      non-`.` characters after it become `._AC_SL1500_`; the rest is kept. */
  function HiRes(image: string): (r: string)
    ensures IndexOf(image, AcMarker) < 0 ==> r == image
    ensures IndexOf(image, AcMarker) >= 0 ==>
              var i := IndexOf(image, AcMarker);
              exists j :: i + |AcMarker| <= j <= |image| && (j == |image| || image[j] == '.')
                && (forall m :: i + |AcMarker| <= m < j ==> image[m] != '.')
                && r == image[..i] + HiResMarker + image[j..]
  {
    var i := IndexOf(image, AcMarker);
    if i < 0 then image
    else image[..i] + HiResMarker + image[NonDotRunEnd(image, i + |AcMarker|)..]
  }

  /** Two strings that agree on their first `n` characters have the same occurrences
      of `pat` that end within those characters. */
  lemma OccursInCommonPrefix(a: string, b: string, n: nat, pat: string, k: int)
    requires n <= |a| && n <= |b| && a[..n] == b[..n]
    requires 0 <= k && k + |pat| <= n
    ensures OccursAt(a, pat, k) == OccursAt(b, pat, k)
  {
    assert a[k..k + |pat|] == a[..n][k..k + |pat|];
    assert b[k..k + |pat|] == b[..n][k..k + |pat|];
  }

  /** The rewrite puts its marker where the first `._AC_` was, and that is still the
      first `._AC_` of the result. */
  lemma HiResKeepsFirstMarker(image: string)
    requires IndexOf(image, AcMarker) >= 0
    ensures IndexOf(HiRes(image), AcMarker) == IndexOf(image, AcMarker)
  {
    var i := IndexOf(image, AcMarker);
    var r := HiRes(image);
    var n := i + |AcMarker|;
    assert r[..n] == image[..n];
    forall k | 0 <= k < i
      ensures !OccursAt(r, AcMarker, k)
    {
      OccursInCommonPrefix(r, image, n, AcMarker, k);
    }
    OccursInCommonPrefix(r, image, n, AcMarker, i);
  }

  /** The rewrite of an image whose first `._AC_` is at `i` and whose non-`.` run
      after it ends at `j`. */
  lemma HiResAt(s: string, i: nat, j: nat)
    requires IndexOf(s, AcMarker) == i
    requires i + |AcMarker| <= j <= |s| && (j == |s| || s[j] == '.')
    requires forall m :: i + |AcMarker| <= m < j ==> s[m] != '.'
    ensures HiRes(s) == s[..i] + HiResMarker + s[j..]
  {
    assert NonDotRunEnd(s, i + |AcMarker|) == j;
  }

  /** Rewriting an already rewritten image changes nothing. */
  lemma HiResIdempotent(image: string)
    ensures HiRes(HiRes(image)) == HiRes(image)
  {
    var i := IndexOf(image, AcMarker);
    if i >= 0 {
      var j := NonDotRunEnd(image, i + |AcMarker|);
      var r := HiRes(image);
      assert r == image[..i] + HiResMarker + image[j..];
      RewrittenRun(image, i, j);
      HiResKeepsFirstMarker(image);
      HiResAt(r, i, i + |HiResMarker|);
    }
  }

  /** The shape of a rewrite: the marker `._AC_SL1500_` stands between the kept
      prefix and the kept tail, and its own non-`.` run ends where the tail begins. */
  lemma RewrittenRun(image: string, i: nat, j: nat)
    requires i + |AcMarker| <= j <= |image| && (j == |image| || image[j] == '.')
    ensures var r := image[..i] + HiResMarker + image[j..];
            var e := i + |HiResMarker|;
            && e <= |r| && r[..i] == image[..i] && r[e..] == image[j..]
            && (e == |r| || r[e] == '.')
            && forall m :: i + |AcMarker| <= m < e ==> r[m] != '.'
  {
    var r := image[..i] + HiResMarker + image[j..];
    var e := i + |HiResMarker|;
    forall m | i + |AcMarker| <= m < e
      ensures r[m] != '.'
    {
      assert r[m] == HiResMarker[m - i];
    }
    assert r[..i] == image[..i];
    assert r[e..] == image[j..];
  }

  /** The platform cascade, run only when the generic sources give nothing; for
      Amazon, a truthy result containing `._AC_` is rewritten to the large rendition. */
  function PlatformImage(d: Doc, p: Platform): (r: Option<string>)
    requires p != Unknown
    ensures forall i :: FirstTruthyAt(AttrsOf(d, PlatformImageSources(p)), i) ==>
              var v := Attr(d, PlatformImageSources(p)[i].0, PlatformImageSources(p)[i].1).value;
              r == Some(if p == Amazon && Includes(v, AcMarker) then HiRes(v) else v)
    ensures Truthy(r) <==> exists i :: 0 <= i < |PlatformImageSources(p)| && Truthy(AttrsOf(d, PlatformImageSources(p))[i])
  {
    var c := OrChain(AttrsOf(d, PlatformImageSources(p)));
    if p == Amazon && Truthy(c) && Includes(c.value, AcMarker) then Some(HiRes(c.value)) else c
  }

  const MinDimension := 200

  /** `!v || parseInt(v) > 200`. */
  predicate DimensionAllows(v: Option<string>) {
    !Truthy(v) || (ParseInt(v.value).Some? && ParseInt(v.value).value > MinDimension)
  }

  /** The filter of the generic fallback (routes/preview.routes.js:101-106): a truthy
      `src`, and a width and a height (attribute, else inline style) that are each
      absent or read as a number above 200. */
  predicate IsLargeImage(img: ImgTag) {
    && Truthy(img.src)
    && DimensionAllows(OrChain([img.widthAttr, img.widthStyle]))
    && DimensionAllows(OrChain([img.heightAttr, img.heightStyle]))
  }

  /** The `src` of the first large `<img>`, `undefined` if there is none. */
  function FallbackImage(d: Doc): (r: Option<string>)
    ensures r == None <==> forall i :: 0 <= i < |d.imgs| ==> !IsLargeImage(d.imgs[i])
    ensures r == None || Truthy(r)
    ensures forall i :: FirstKeptAt(d.imgs, IsLargeImage, i) ==> r == d.imgs[i].src
  {
    FirstSrc(d.imgs, IsLargeImage)
  }

  /** A dimension whose attribute is a numeral, with or without a unit, passes the
      filter exactly when the number exceeds 200, whatever the inline style says. */
  lemma DimensionByNumeral(attr: Option<string>, style: Option<string>, n: nat, unit: string)
    requires unit == [] || !IsDigit(unit[0])
    requires attr == Some(Decimal(n) + unit)
    ensures DimensionAllows(OrChain([attr, style])) <==> n > MinDimension
  {
    ParseIntOfNumeral(n, unit);
    assert Truthy(attr);
    assert FirstTruthyAt([attr, style], 0);
  }

  /** An `<img>` whose width and height attributes are numerals, with or without a
      unit, is large exactly when both numbers exceed 200. */
  lemma LargeImageByNumerals(img: ImgTag, w: nat, h: nat, wUnit: string, hUnit: string)
    requires Truthy(img.src)
    requires wUnit == [] || !IsDigit(wUnit[0])
    requires hUnit == [] || !IsDigit(hUnit[0])
    requires img.widthAttr == Some(Decimal(w) + wUnit) && img.heightAttr == Some(Decimal(h) + hUnit)
    ensures IsLargeImage(img) <==> w > MinDimension && h > MinDimension
  {
    DimensionByNumeral(img.widthAttr, img.widthStyle, w, wUnit);
    DimensionByNumeral(img.heightAttr, img.heightStyle, h, hUnit);
  }

  /** The image before it is made absolute: the generic sources, else the platform
      cascade, else the large-image fallback. */
  function ChosenImage(d: Doc, p: Platform): (r: Option<string>)
    ensures r == None || Truthy(r)
    ensures Truthy(MetaImage(d)) ==> r == MetaImage(d)
    ensures !Truthy(MetaImage(d)) && p != Unknown && Truthy(PlatformImage(d, p)) ==> r == PlatformImage(d, p)
    ensures !Truthy(MetaImage(d)) && (p == Unknown || !Truthy(PlatformImage(d, p))) ==> r == FallbackImage(d)
  {
    var meta := MetaImage(d);
    if Truthy(meta) then meta
    else
      var plat := if p == Unknown then meta else PlatformImage(d, p);
      if Truthy(plat) then plat else FallbackImage(d)
  }

  /** `baseUrl.substring(0, baseUrl.lastIndexOf('/') + 1)`: the longest prefix of the
      URL that ends in `/`, or `""` when it has no `/`. */
  function DirectoryOf(url: string): (r: string)
    ensures |r| <= |url| && r == url[..|r|]
    ensures r == [] || r[|r| - 1] == '/'
    ensures forall i :: |r| <= i < |url| ==> url[i] != '/'
  {
    url[..LastIndexOf(url, '/') + 1]
  }

  /** Making an image URL absolute (routes/preview.routes.js:110-121): `http…` is kept,
      `//x` gains `https:`, `/p` gains the origin, anything else gains the directory of
      the page URL. The image is always kept as the suffix. */
  function Absolutize(image: string, baseUrl: string, origin: string): (r: string)
    ensures |image| <= |r| && r[|r| - |image|..] == image
    ensures StartsWith(image, "http") ==> r == image
    ensures !StartsWith(image, "http") && StartsWith(image, "//") ==> r == "https:" + image
    ensures !StartsWith(image, "http") && !StartsWith(image, "//") && StartsWith(image, "/") ==> r == origin + image
    ensures !StartsWith(image, "/") && !StartsWith(image, "http") ==> r == DirectoryOf(baseUrl) + image
  {
    if StartsWith(image, "http") then image
    else if StartsWith(image, "//") then "https:" + image
    else if StartsWith(image, "/") then origin + image
    else DirectoryOf(baseUrl) + image
  }

  /** For an `http(s)` page URL with a `/` after its scheme, every image comes out as
      an `http…` URL. */
  lemma AbsolutizeGivesHttp(image: string, baseUrl: string, origin: string)
    requires StartsWith(baseUrl, "http") && StartsWith(origin, "http")
    requires exists i :: 4 <= i < |baseUrl| && baseUrl[i] == '/'
    ensures StartsWith(Absolutize(image, baseUrl, origin), "http")
  {
    var r := Absolutize(image, baseUrl, origin);
    if !StartsWith(image, "http") && !StartsWith(image, "/") {
      var dir := DirectoryOf(baseUrl);
      var i :| 4 <= i < |baseUrl| && baseUrl[i] == '/';
      assert |dir| > i;
      assert dir[..4] == baseUrl[..4];
      assert r[..4] == dir[..4];
    } else if !StartsWith(image, "http") && StartsWith(image, "//") {
      assert r[..4] == "http";
    } else if !StartsWith(image, "http") {
      assert r[..4] == origin[..4];
    }
  }

  /** Making `/img/a.jpg`, `//cdn.site.com/a.jpg` and `a.jpg` absolute against the
      page `https://site.com/product/123`. */
  lemma AbsolutizePathExample(base: string, origin: string, path: string)
    requires base == "https://site.com/product/123" && origin == "https://site.com"
    requires path == "/img/a.jpg"
    ensures Absolutize(path, base, origin) == "https://site.com/img/a.jpg"
  {
    assert origin + path == "https://site.com/img/a.jpg";
    assert !StartsWith(path, "http") && !StartsWith(path, "//") && StartsWith(path, "/") by {
      assert path[0] == '/' && path[1] == 'i';
    }
  }

  lemma AbsolutizeProtocolRelativeExample(base: string, origin: string, image: string)
    requires base == "https://site.com/product/123" && origin == "https://site.com"
    requires image == "//cdn.site.com/a.jpg"
    ensures Absolutize(image, base, origin) == "https://cdn.site.com/a.jpg"
  {
    assert "https:" + image == "https://cdn.site.com/a.jpg";
    assert !StartsWith(image, "http") && StartsWith(image, "//") by {
      assert image[0] == '/' && image[1] == '/';
    }
  }

  lemma AbsolutizeRelativeExample(base: string, origin: string, image: string)
    requires base == "https://site.com/product/123" && origin == "https://site.com"
    requires image == "a.jpg"
    ensures Absolutize(image, base, origin) == "https://site.com/product/a.jpg"
  {
    assert base[..25] + image == "https://site.com/product/a.jpg";
    assert DirectoryOf(base) == base[..25] by {
      assert base[24] == '/' && base[25] == '1' && base[26] == '2' && base[27] == '3' && |base| == 28;
    }
    assert !StartsWith(image, "http") && !StartsWith(image, "/") by {
      assert image[0] == 'a';
    }
  }

  // ---------------------------------------------------------------- text clean-up

  /** `s.trim().replace(/\s+/g, ' ')`: no whitespace at the ends, no two whitespace
      characters in a row, only plain spaces, and the same non-whitespace characters. */
  function CleanText(s: string): (r: string)
    ensures Trimmed(r) && SpacesCollapsed(r)
    ensures NonSpace(r) == NonSpace(s)
  {
    var t := Trim(s);
    CollapseSpacesCollapsed(t);
    CollapseSpacesNonSpace(t);
    if t == [] then CollapseSpaces(t)
    else CollapseSpacesLast(t); CollapseSpaces(t)
  }

  lemma TrimOfTrimmed(s: string)
    requires Trimmed(s)
    ensures Trim(s) == s
  {
  }

  /** Cleaning a cleaned text changes nothing. */
  lemma CleanTextIdempotent(s: string)
    ensures CleanText(CleanText(s)) == CleanText(s)
  {
    var c := CleanText(s);
    TrimOfTrimmed(c);
    CollapseSpacesFixpoint(c);
  }

  /** Two words separated by a whitespace run and padded with whitespace are cleaned
      to the two words separated by one space. */
  lemma CleanTwoWords(pad1: string, word: string, run: string, num: string, pad2: string)
    requires AllSpaces(pad1) && AllSpaces(run) && AllSpaces(pad2) && run != []
    requires word != [] && num != []
    requires forall i :: 0 <= i < |word| ==> !IsSpace(word[i])
    requires forall i :: 0 <= i < |num| ==> !IsSpace(num[i])
    ensures CleanText(pad1 + word + run + num + pad2) == word + " " + num
  {
    var m := word + run + num;
    TrimTwoWords(pad1, word, run, num, pad2);
    CollapseTwoWords(word, run, num);
    assert m != [];
  }

  lemma TrimTwoWords(pad1: string, word: string, run: string, num: string, pad2: string)
    requires AllSpaces(pad1) && AllSpaces(pad2) && word != [] && num != []
    requires !IsSpace(word[0]) && !IsSpace(num[|num| - 1])
    ensures Trim(pad1 + word + run + num + pad2) == word + run + num
  {
    var m := word + run + num;
    assert pad1 + word + run + num + pad2 == pad1 + m + pad2;
    assert m[0] == word[0] && m[|m| - 1] == num[|num| - 1];
    TrimPadded(pad1, m, pad2);
  }

  lemma CollapseTwoWords(word: string, run: string, num: string)
    requires AllSpaces(run) && run != [] && num != []
    requires forall i :: 0 <= i < |word| ==> !IsSpace(word[i])
    requires forall i :: 0 <= i < |num| ==> !IsSpace(num[i])
    ensures CollapseSpaces(word + run + num) == word + " " + num
  {
    assert word + run + num == word + (run + num);
    CollapsePlainPrefix(word, run + num);
    CollapseRun(run, num);
    CollapsePlainPrefix(num, []);
    assert num + [] == num;
  }

  /** A price text read as `"  Price:  \n 499  "` is cleaned to `"Price: 499"`. */
  lemma CleanTextExample(s: string)
    requires s == "  Price:  \n 499  "
    ensures CleanText(s) == "Price: 499"
  {
    var pad, word, run, num, pad2 := s[..2], s[2..8], s[8..12], s[12..15], s[15..];
    assert word + " " + num == "Price: 499" by {
      assert word == "Price:" && num == "499";
    }
    assert s == pad + word + run + num + pad2;
    assert AllSpaces(pad) && AllSpaces(run) && AllSpaces(pad2);
    assert forall i :: 0 <= i < |word| ==> !IsSpace(word[i]);
    assert forall i :: 0 <= i < |num| ==> !IsSpace(num[i]);
    CleanTwoWords(pad, word, run, num, pad2);
  }

  /** `if (x) x = x.trim().replace(/\s+/g, ' ')`. */
  function CleanIfTruthy(v: Option<string>): (r: Option<string>)
    ensures !Truthy(v) ==> r == v
    ensures Truthy(v) ==> r.Some? && Trimmed(r.value) && SpacesCollapsed(r.value) && NonSpace(r.value) == NonSpace(v.value)
  {
    if Truthy(v) then Some(CleanText(v.value)) else v
  }

  // ---------------------------------------------------------------- the handler

  /** The image of the answer: the chosen image made absolute, `undefined` if none. */
  function ImageField(page: Page, p: Platform): (r: Option<string>)
    ensures r == None <==> ChosenImage(page.doc, p) == None
    ensures r.Some? ==> Truthy(r) && EndsWith(r.value, ChosenImage(page.doc, p).value)
  {
    var chosen := ChosenImage(page.doc, p);
    if chosen.Some? then Some(Absolutize(chosen.value, page.baseUrl, page.origin)) else None
  }

  /** The answer for a fetched page: every field, as the handler assembles it. */
  function Preview(page: Page): (r: PreviewResult)
    ensures r.platform == Some(Detect(page.hostname))
    ensures r.price == None <==> Detect(page.hostname) == Unknown
    ensures r.image == None || Truthy(r.image)
    ensures r.title.Some? ==> Trimmed(r.title.value) && SpacesCollapsed(r.title.value)
    ensures r.price.Some? ==> Trimmed(r.price.value) && SpacesCollapsed(r.price.value)
  {
    var p := Detect(page.hostname);
    PreviewResult(ImageField(page, p), CleanIfTruthy(TitleCascade(page.doc)), CleanIfTruthy(PriceCascade(page.doc, p)), Some(p))
  }

  /** The choice of the image (routes/preview.routes.js:64-107): the generic sources,
      then, while nothing truthy is found, the platform cascade with the Amazon
      rewrite, then the large-image fallback. */
  method PickImage(d: Doc, platform: Platform) returns (image: Option<string>)
    ensures image == ChosenImage(d, platform)
  {
    image := MetaImage(d);
    if !Truthy(image) {
      if platform == Amazon {
        image := OrChain(AttrsOf(d, PlatformImageSources(Amazon)));
        if Truthy(image) && Includes(image.value, AcMarker) {
          image := Some(HiRes(image.value));
        }
        assert image == PlatformImage(d, Amazon);
      } else if platform == Flipkart {
        image := OrChain(AttrsOf(d, PlatformImageSources(Flipkart)));
      } else if platform == Meesho {
        image := OrChain(AttrsOf(d, PlatformImageSources(Meesho)));
      }
    }

    if !Truthy(image) {
      image := FallbackImage(d);
    }
  }

  /** The image steps of the handler (routes/preview.routes.js:64-121): the chosen
      image, then made absolute in place. */
  method ResolveImage(page: Page, platform: Platform) returns (image: Option<string>)
    ensures image == ImageField(page, platform)
  {
    image := PickImage(page.doc, platform);
    if Truthy(image) && !StartsWith(image.value, "http") {
      if StartsWith(image.value, "//") {
        image := Some("https:" + image.value);
      } else if StartsWith(image.value, "/") {
        image := Some(page.origin + image.value);
      } else {
        var base := page.baseUrl[..LastIndexOf(page.baseUrl, '/') + 1];
        assert base == DirectoryOf(page.baseUrl);
        image := Some(base + image.value);
      }
    }
  }

  /** The handler body: `url` is the query parameter and `fetched` the outcome of the
      fetch (`None` when it throws). A missing or empty `url` gets status 400, a failed
      fetch the all-null body with status 200, any other request the extracted preview. */
  method HandlePreview(url: Option<string>, fetched: Option<Page>) returns (resp: Response)
    ensures !Truthy(url) ==> resp == Response(400, NullResult)
    ensures Truthy(url) && fetched.None? ==> resp == Response(200, NullResult)
    ensures Truthy(url) && fetched.Some? ==> resp == Response(200, Preview(fetched.value))
  {
    if !Truthy(url) {
      return Response(400, NullResult);
    }
    if fetched.None? {
      return Response(200, NullResult);
    }
    var page := fetched.value;
    var d := page.doc;

    var platform := Unknown;
    var host := ToLowerAscii(page.hostname);
    if Includes(host, "amazon") {
      platform := Amazon;
    } else if Includes(host, "flipkart") {
      platform := Flipkart;
    } else if Includes(host, "meesho") {
      platform := Meesho;
    }
    assert platform == Detect(page.hostname);

    var title := TitleCascade(d);

    var price: Option<string> := None;
    if platform == Amazon {
      price := OrChain(TextsOf(d, PriceSelectors(Amazon)));
    } else if platform == Flipkart {
      price := OrChain(TextsOf(d, PriceSelectors(Flipkart)));
    } else if platform == Meesho {
      price := OrChain(TextsOf(d, PriceSelectors(Meesho)));
    }
    assert price == PriceCascade(d, platform);

    var image := ResolveImage(page, platform);

    if Truthy(title) {
      title := Some(CollapseSpaces(Trim(title.value)));
    }
    if Truthy(price) {
      price := Some(CollapseSpaces(Trim(price.value)));
    }

    resp := Response(200, PreviewResult(image, title, price, Some(platform)));
  }
}
