/** What the preview handlers read from a fetched page. The HTML parser and its CSS
    selector engine are not modelled: the outcome of every selector the handlers query
    is part of the input. */
module PageModel {
  import opened JsValues
  import opened Platforms

  /** One `<img>` element: its `src` attribute, and its `width`/`height` attributes
      and inline-style values (`None` when absent). */
  datatype ImgTag = ImgTag(
    src: Option<string>,
    widthAttr: Option<string>, widthStyle: Option<string>,
    heightAttr: Option<string>, heightStyle: Option<string>)

  /** A parsed document, as the selector queries see it.
      `attrs[(selector, name)]` is the attribute `name` of the first element matching
      `selector` (absent key: no such element or no such attribute); `texts[selector]`
      is the text the handler reads for `selector` (absent key: no match, which reads
      as `""`); `imgs` are all `<img>` elements in document order. */
  datatype Doc = Doc(attrs: map<(string, string), string>, texts: map<string, string>, imgs: seq<ImgTag>)

  /** `$(selector).attr(name)`. */
  function Attr(d: Doc, selector: string, name: string): (r: Option<string>)
    ensures r.Some? <==> (selector, name) in d.attrs
  {
    if (selector, name) in d.attrs then Some(d.attrs[(selector, name)]) else None
  }

  /** `$(selector).text()`: an empty selection has the empty text. */
  function Text(d: Doc, selector: string): (r: string)
    ensures selector !in d.texts ==> r == ""
  {
    if selector in d.texts then d.texts[selector] else ""
  }

  /** A `(selector, attribute)` pair read by an image cascade. */
  type Source = (string, string)

  /** The attribute each source reads, in order. */
  function AttrsOf(d: Doc, sources: seq<Source>): (r: seq<Option<string>>)
    ensures |r| == |sources|
    ensures forall i :: 0 <= i < |sources| ==> r[i] == Attr(d, sources[i].0, sources[i].1)
  {
    if sources == [] then [] else [Attr(d, sources[0].0, sources[0].1)] + AttrsOf(d, sources[1..])
  }

  /** The text each selector reads, in order; `.text()` always yields a string. */
  function TextsOf(d: Doc, selectors: seq<string>): (r: seq<Option<string>>)
    ensures |r| == |selectors|
    ensures forall i :: 0 <= i < |selectors| ==> r[i] == Some(Text(d, selectors[i]))
  {
    if selectors == [] then [] else [Some(Text(d, selectors[0]))] + TextsOf(d, selectors[1..])
  }

  /** The fetched page: the final URL after redirects, its host name and origin as the
      URL parser gives them, and the parsed body. */
  datatype Page = Page(baseUrl: string, hostname: string, origin: string, doc: Doc)

  /** `imgs[i]` is the first element that `keep` accepts. */
  predicate FirstKeptAt(imgs: seq<ImgTag>, keep: ImgTag -> bool, i: int) {
    0 <= i < |imgs| && keep(imgs[i]) && forall j :: 0 <= j < i ==> !keep(imgs[j])
  }

  /** `$('img').filter(keep).first().attr('src')`: the `src` of the first accepted
      element, `undefined` when no element is accepted. */
  function FirstSrc(imgs: seq<ImgTag>, keep: ImgTag -> bool): (r: Option<string>)
    ensures (forall i :: 0 <= i < |imgs| ==> !keep(imgs[i])) ==> r == None
    ensures (exists i :: 0 <= i < |imgs| && keep(imgs[i])) ==> exists i :: FirstKeptAt(imgs, keep, i)
    ensures forall i :: FirstKeptAt(imgs, keep, i) ==> r == imgs[i].src
  {
    if imgs == [] then None
    else if keep(imgs[0]) then
      assert FirstKeptAt(imgs, keep, 0);
      imgs[0].src
    else
      var r := FirstSrc(imgs[1..], keep);
      assert forall i :: FirstKeptAt(imgs, keep, i) ==> FirstKeptAt(imgs[1..], keep, i - 1);
      assert forall i :: FirstKeptAt(imgs[1..], keep, i) ==> FirstKeptAt(imgs, keep, i + 1);
      assert forall i :: 1 <= i < |imgs| ==> imgs[i] == imgs[1..][i - 1];
      r
  }

  /** The JSON answer of both handlers, `{ image, title, price, platform }`; `None`
      stands for `null` (or, for the router's image, `undefined`). */
  datatype PreviewResult = PreviewResult(
    image: Option<string>, title: Option<string>, price: Option<string>, platform: Option<Platform>)

  /** The all-null answer given for a missing `url` and on any error. */
  const NullResult := PreviewResult(None, None, None, None)

  const OgTitle := "meta[property=\"og:title\"]"
  const TwitterTitle := "meta[name=\"twitter:title\"]"

  function TitleCandidates(d: Doc): seq<Option<string>> {
    [Attr(d, OgTitle, "content"), Attr(d, TwitterTitle, "content"), Some(Text(d, "title")), None]
  }

  /** The title cascade, the same in both handlers (routes/preview.routes.js:41-45,
      server.js:82-86): the Open Graph title, else the Twitter title, else the text of
      `<title>`, else `null`; never the empty string. */
  function TitleCascade(d: Doc): (r: Option<string>)
    ensures r == None || Truthy(r)
  {
    OrChain(TitleCandidates(d))
  }

  /** The title precedence: a non-empty Open Graph title always wins, a non-empty
      Twitter title wins over `<title>`, and the title is `null` exactly when all three
      are empty or missing. */
  lemma TitlePrecedence(d: Doc)
    ensures Truthy(Attr(d, OgTitle, "content")) ==> TitleCascade(d) == Attr(d, OgTitle, "content")
    ensures !Truthy(Attr(d, OgTitle, "content")) && Truthy(Attr(d, TwitterTitle, "content")) ==>
              TitleCascade(d) == Attr(d, TwitterTitle, "content")
    ensures !Truthy(Attr(d, OgTitle, "content")) && !Truthy(Attr(d, TwitterTitle, "content")) && Text(d, "title") != "" ==>
              TitleCascade(d) == Some(Text(d, "title"))
    ensures TitleCascade(d) == None <==>
              !Truthy(Attr(d, OgTitle, "content")) && !Truthy(Attr(d, TwitterTitle, "content")) && Text(d, "title") == ""
  {
    var cands := TitleCandidates(d);
    if Truthy(cands[0]) {
      assert FirstTruthyAt(cands, 0);
    } else if Truthy(cands[1]) {
      assert FirstTruthyAt(cands, 1);
    } else if Truthy(cands[2]) {
      assert FirstTruthyAt(cands, 2);
    } else {
      assert !Truthy(cands[3]);
    }
  }
}
