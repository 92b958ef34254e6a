/** The extraction part of the standalone server's `/api/preview` handler
    (server.js:65-153): the shorter cascades, the `http`-prefixed image fallback, the
    `//` fix-up and the trim-or-null result. The general URL resolution
    `new URL(image, baseUrl).href` is a parameter, `resolve`, which answers `None` where
    the URL constructor throws. */
module ServerPreview {
  import opened JsValues
  import opened JsStrings
  import opened PageModel
  import opened Platforms

  /** `new URL(relative, base).href`, or `None` when it throws. */
  type Resolver = (string, string) -> Option<string>

  // ---------------------------------------------------------------- price

  /** The price selectors of each platform, in order (server.js:93-106): three for
      Amazon, one each for Flipkart and Meesho, none for an unknown platform. */
  function PriceSelectors(p: Platform): seq<string> {
    match p
    case Amazon => ["#priceblock_ourprice", "#priceblock_dealprice", ".a-price .a-offscreen"]
    case Flipkart => ["div._30jeq3"]
    case Meesho => ["div[data-testid=\"price\"]"]
    case Unknown => []
  }

  /** The price before trimming: `null` unless the platform is known, otherwise the
      first non-empty text of its selectors, `""` when all are empty. */
  function PriceCascade(d: Doc, p: Platform): (r: Option<string>)
    ensures r == None <==> p == Unknown
    ensures forall i :: FirstTruthyAt(TextsOf(d, PriceSelectors(p)), i) ==> r == Some(Text(d, PriceSelectors(p)[i]))
    ensures p != Unknown && (forall i :: 0 <= i < |PriceSelectors(p)| ==> Text(d, PriceSelectors(p)[i]) == "") ==>
              r == Some("")
  {
    if p == Unknown then None else OrChain(TextsOf(d, PriceSelectors(p)))
  }

  // ---------------------------------------------------------------- image

  /** The generic image sources (server.js:111-115). */
  const MetaImageSources: seq<Source> := [
    ("meta[property=\"og:image\"]", "content"),
    ("meta[name=\"twitter:image\"]", "content"),
    ("meta[property=\"og:image:secure_url\"]", "content")]

  /** The platform image sources, in order (server.js:117-130). */
  function PlatformImageSources(p: Platform): seq<Source> {
    match p
    case Amazon => [("#landingImage", "data-old-hires"), ("#landingImage", "src"), ("img.a-dynamic-image", "src")]
    case Flipkart => [("img._396cs4", "src")]
    case Meesho => [("img[data-src]", "data-src")]
    case Unknown => []
  }

  /** `og:image || twitter:image || og:image:secure_url || null`. */
  function MetaImage(d: Doc): (r: Option<string>)
    ensures r == None || Truthy(r)
    ensures forall i :: FirstTruthyAt(AttrsOf(d, MetaImageSources), i) ==>
              r == Attr(d, MetaImageSources[i].0, MetaImageSources[i].1)
    ensures (forall i :: 0 <= i < |MetaImageSources| ==> !Truthy(AttrsOf(d, MetaImageSources)[i])) ==> r == None
  {
    var cands := AttrsOf(d, MetaImageSources) + [None];
    assert forall i :: FirstTruthyAt(AttrsOf(d, MetaImageSources), i) ==> FirstTruthyAt(cands, i);
    OrChain(cands)
  }

  /** The filter of the generic fallback (server.js:134-137): a truthy `src` that
      starts with `http`. */
  predicate IsHttpImage(img: ImgTag) {
    Truthy(img.src) && StartsWith(img.src.value, "http")
  }

  /** The `src` of the first `<img>` whose `src` starts with `http`, `undefined` if none. */
  function FallbackImage(d: Doc): (r: Option<string>)
    ensures r == None <==> forall i :: 0 <= i < |d.imgs| ==> !IsHttpImage(d.imgs[i])
    ensures r.Some? ==> Truthy(r) && StartsWith(r.value, "http")
    ensures forall i :: FirstKeptAt(d.imgs, IsHttpImage, i) ==> r == d.imgs[i].src
  {
    FirstSrc(d.imgs, IsHttpImage)
  }

  /** The image before the fix-up: the generic sources, else (for a known platform)
      its cascade, else the `http` fallback. */
  function ChosenImage(d: Doc, p: Platform): (r: Option<string>)
    ensures r == None || Truthy(r)
    ensures Truthy(MetaImage(d)) ==> r == MetaImage(d)
    ensures !Truthy(MetaImage(d)) && Truthy(OrChainOrNone(AttrsOf(d, PlatformImageSources(p)))) ==>
              r == OrChainOrNone(AttrsOf(d, PlatformImageSources(p)))
    ensures !Truthy(MetaImage(d)) && !Truthy(OrChainOrNone(AttrsOf(d, PlatformImageSources(p)))) ==>
              r == FallbackImage(d)
  {
    var meta := MetaImage(d);
    if Truthy(meta) then meta
    else
      var plat := OrChainOrNone(AttrsOf(d, PlatformImageSources(p)));
      if Truthy(plat) then plat else FallbackImage(d)
  }

  /** The `||` chain of a possibly empty list of operands; no operand is `undefined`. */
  function OrChainOrNone(cands: seq<Option<string>>): (r: Option<string>)
    ensures cands == [] ==> r == None
    ensures Truthy(r) <==> exists i :: 0 <= i < |cands| && Truthy(cands[i])
    ensures forall i :: FirstTruthyAt(cands, i) ==> r == cands[i]
  {
    if cands == [] then None else OrChain(cands)
  }

  /** The fix-up of a relative image (server.js:143-146): an `http…` image is kept,
      `//x` gains `https:`, anything else is resolved against the page URL; `None`
      when the resolution throws. */
  function FixImage(image: string, baseUrl: string, resolve: Resolver): (r: Option<string>)
    ensures StartsWith(image, "http") ==> r == Some(image)
    ensures !StartsWith(image, "http") && StartsWith(image, "//") ==> r == Some("https:" + image)
    ensures !StartsWith(image, "http") && !StartsWith(image, "//") ==> r == resolve(image, baseUrl)
  {
    if !StartsWith(image, "http") then
      if StartsWith(image, "//") then Some("https:" + image) else resolve(image, baseUrl)
    else Some(image)
  }

  /** A protocol-relative image keeps its host and path behind the `https:` scheme. */
  lemma FixProtocolRelative(image: string, baseUrl: string, resolve: Resolver)
    requires StartsWith(image, "//")
    ensures var r := FixImage(image, baseUrl, resolve);
            r.Some? && StartsWith(r.value, "https://") && r.value[|"https:"|..] == image
  {
    assert !StartsWith(image, "http") by { assert image[0] == '/'; }
    assert ("https:" + image)[..8] == "https:" + image[..2];
  }

  /** `x?.trim() || null`: the trimmed text, or `null` when that is empty. */
  function TrimOrNull(v: Option<string>): (r: Option<string>)
    ensures r == None || (Truthy(r) && Trimmed(r.value))
    ensures r.Some? ==> v.Some? && NonSpace(r.value) == NonSpace(v.value)
    ensures r == None <==> v == None || NonSpace(v.value) == []
    ensures r.Some? ==> exists i, j :: 0 <= i <= j <= |v.value| && r.value == v.value[i..j] &&
                                       AllSpaces(v.value[..i]) && AllSpaces(v.value[j..])
  {
    if v.Some? then
      var t := Trim(v.value);
      NonSpaceEmptyIffAllSpaces(t);
      if t == "" then None else Some(t)
    else None
  }

  /** Unlike the router, the server only trims: `"  Price:  \n 499  "` keeps its inner
      whitespace. */
  lemma TrimOrNullExample(s: string)
    requires s == "  Price:  \n 499  "
    ensures TrimOrNull(Some(s)) == Some("Price:  \n 499")
  {
    var pad, m, pad2 := s[..2], s[2..15], s[15..];
    assert m == "Price:  \n 499";
    assert s == pad + m + pad2;
    assert AllSpaces(pad) && AllSpaces(pad2);
    assert m[0] == 'P' && m[12] == '9';
    TrimPadded(pad, m, pad2);
  }

  /** A text of whitespace only becomes `null`. */
  lemma TrimOrNullBlankExample(blank: string)
    requires blank == " \n\t "
    ensures TrimOrNull(Some(blank)) == None
  {
    assert AllSpaces(blank) by {
      assert IsSpace(blank[0]) && IsSpace(blank[1]) && IsSpace(blank[2]) && IsSpace(blank[3]);
    }
    BlankNonSpace(blank);
  }

  /** Whitespace only has no non-whitespace characters. */
  lemma {:induction false} BlankNonSpace(s: string)
    requires AllSpaces(s)
    ensures NonSpace(s) == []
  {
    if s != [] {
      BlankNonSpace(s[1..]);
    }
  }

  /** A trimmed string is empty exactly when it has no non-whitespace character. */
  lemma NonSpaceEmptyIffAllSpaces(t: string)
    requires Trimmed(t)
    ensures t == [] <==> NonSpace(t) == []
  {
    if t != [] {
      assert NonSpace(t) == [t[0]] + NonSpace(t[1..]);
    }
  }

  // ---------------------------------------------------------------- the extraction

  /** The shape of every answer the extraction produces: a platform tag, an image that
      is `null` or non-empty, a title and a price that are `null` or non-empty trimmed
      text, and no price for an unknown platform. */
  predicate WellFormedAnswer(r: PreviewResult) {
    && r.platform.Some?
    && (r.image == None || Truthy(r.image))
    && (r.title == None || (Truthy(r.title) && Trimmed(r.title.value)))
    && (r.price == None || (Truthy(r.price) && Trimmed(r.price.value)))
    && (r.price.Some? ==> r.platform.value != Unknown)
  }

  /** The answer for a fetched page, or `None` when the fix-up throws (the handler
      then answers with the all-null body and stores nothing). */
  function Preview(page: Page, resolve: Resolver): (r: Option<PreviewResult>)
    ensures r.Some? ==> r.value.platform == Some(Detect(page.hostname)) && WellFormedAnswer(r.value)
    ensures r.None? <==> (var c := ChosenImage(page.doc, Detect(page.hostname));
              c.Some? && !StartsWith(c.value, "http") && !StartsWith(c.value, "//") &&
              resolve(c.value, page.baseUrl).None?)
  {
    var p := Detect(page.hostname);
    var chosen := ChosenImage(page.doc, p);
    var fixed := if chosen.Some? then FixImage(chosen.value, page.baseUrl, resolve) else Some("");
    if fixed.None? then None
    else Some(PreviewResult(OrNull(fixed), TrimOrNull(TitleCascade(page.doc)),
                            TrimOrNull(PriceCascade(page.doc, p)), Some(p)))
  }

  /** The answer's image is absolute whenever the URL resolver yields `http…`
      addresses, which `new URL` does for a reference without a scheme; an image with
      its own scheme, such as `data:`, keeps it (see `SchemedImageKept`). */
  lemma ImageIsAbsolute(page: Page, resolve: Resolver)
    requires forall a, b :: resolve(a, b).Some? ==> StartsWith(resolve(a, b).value, "http")
    ensures var r := Preview(page, resolve);
            r.Some? && r.value.image.Some? ==> StartsWith(r.value.image.value, "http")
  {
    var chosen := ChosenImage(page.doc, Detect(page.hostname));
    if chosen.Some? && !StartsWith(chosen.value, "http") && StartsWith(chosen.value, "//") {
      var fixed := "https:" + chosen.value;
      assert fixed[..4] == "http";
    }
  }

  /** An image with its own scheme, such as a `data:` placeholder in `#landingImage`,
      is handed to `new URL`, which returns it unchanged: the answer then carries an
      image that does not start with `http`. */
  lemma SchemedImageKept(page: Page, resolve: Resolver, scheme: string, image: string)
    requires scheme == "data:" && StartsWith(image, scheme)
    requires ChosenImage(page.doc, Detect(page.hostname)) == Some(image)
    requires resolve(image, page.baseUrl) == Some(image)
    ensures Preview(page, resolve).Some?
    ensures Preview(page, resolve).value.image == Some(image)
    ensures !StartsWith(Preview(page, resolve).value.image.value, "http")
  {
    assert image[0] == scheme[0] == 'd';
    assert !StartsWith(image, "http") && !StartsWith(image, "//");
    assert FixImage(image, page.baseUrl, resolve) == Some(image);
    assert OrNull(Some(image)) == Some(image);
  }

  /** The choice of the image (server.js:111-140), through successive `if` statements
      that each run only while no truthy image has been found. */
  method PickImage(d: Doc, platform: Platform) returns (image: Option<string>)
    ensures image == ChosenImage(d, platform)
  {
    image := MetaImage(d);
    if !Truthy(image) && platform == Amazon {
      image := OrChain(AttrsOf(d, PlatformImageSources(Amazon)));
    }
    if !Truthy(image) && platform == Flipkart {
      image := Attr(d, "img._396cs4", "src");
    }
    if !Truthy(image) && platform == Meesho {
      image := Attr(d, "img[data-src]", "data-src");
    }
    if !Truthy(image) {
      image := FallbackImage(d);
    }
  }

  /** The extraction steps of the handler (server.js:72-153), reassigning `platform`,
      `price` and `image` through successive `if` statements. */
  method Extract(page: Page, resolve: Resolver) returns (r: Option<PreviewResult>)
    ensures r == Preview(page, resolve)
  {
    var d := page.doc;
    var host := ToLowerAscii(page.hostname);
    var platform := Unknown;
    if Includes(host, "amazon") {
      platform := Amazon;
    } else if Includes(host, "flipkart") {
      platform := Flipkart;
    } else if Includes(host, "meesho") {
      platform := Meesho;
    }
    assert platform == Detect(page.hostname);

    var title := TitleCascade(d);

    var price: Option<string> := None;
    if platform == Amazon {
      price := OrChain(TextsOf(d, PriceSelectors(Amazon)));
    }
    if platform == Flipkart {
      price := Some(Text(d, "div._30jeq3"));
    }
    if platform == Meesho {
      price := Some(Text(d, "div[data-testid=\"price\"]"));
    }
    assert price == PriceCascade(d, platform);

    var image := PickImage(d, platform);

    if Truthy(image) && !StartsWith(image.value, "http") {
      if StartsWith(image.value, "//") {
        image := Some("https:" + image.value);
      } else {
        var href := resolve(image.value, page.baseUrl);
        if href.None? {
          return None;
        }
        image := href;
      }
    }

    r := Some(PreviewResult(OrNull(image), TrimOrNull(title), TrimOrNull(price), Some(platform)));
  }
}
