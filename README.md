# Link-preview extraction, modelled in Dafny

The repository serves one endpoint in two variants. Given a product-page `url`, it
fetches the page, reads a few meta tags and platform-specific elements, and answers
with the JSON object `{ image, title, price, platform }`:

- `routes/preview.routes.js` is an Express router handling `GET /preview`. It has long
  selector cascades, rewrites Amazon images to their large rendition, falls back to
  the first "large" `<img>`, joins relative image URLs by hand, and cleans whitespace
  in the title and price.
- `server.js` is a standalone server handling `GET /api/preview`. It has shorter
  cascades, an `http`-prefixed `<img>` fallback and trim-or-null fields. It puts a
  six-hour in-memory response cache in front of the extraction.

The model leaves out the network fetch and the HTML parser. A fetched page is a
`PageModel.Page`: the final URL, its host name and origin, and a `PageModel.Doc` that
holds the outcome of every selector query the handlers make. What remains is modelled
as follows:

- **JavaScript semantics.** The `||` chain (`JsValues.OrChain`) returns the first
  truthy operand, or else the last operand, as JavaScript does. The string operations
  used (`JsStrings`) are modelled with the ECMAScript whitespace set: `trim`,
  `replace(/\s+/g, ' ')`, `includes`, `indexOf`, `lastIndexOf`, `startsWith`, ASCII
  `toLowerCase` and a decimal `parseInt`.
- **The platform classifier** (`Platforms`), which both files share.
- **The router's handler** (`RouterPreview`). Its cascades and pure string functions
  are functions. Its step-by-step reassignments of `image`, `title` and `price` are
  the methods `PickImage`, `ResolveImage` and `HandlePreview`, each proved equal to
  the function that specifies it.
- **The server's extraction** (`ServerPreview`), in the same two forms: functions,
  plus the methods `PickImage` and `Extract`.
- **The server's cache and handler** (`ResponseCache`). The class `PreviewServer` holds
  the cache as a `map` field, which `Lookup`, `Store` and `HandlePreview` update in
  place. Client methods replay request sequences against a fresh server to show the
  caching behaviour: a repeat within the TTL, a refetch after it, an uncached failure,
  and independent keys.

The clock, the fetch outcome and the general URL resolver `new URL(image, baseUrl)`
are parameters.

Five behaviours of the code worth noting, all of which the model keeps:

- The router answers a missing `url` with status 400 and the all-null body
  (routes/preview.routes.js:11), while the server answers it with status 200.
- The server only trims the title and price. Inner whitespace, line breaks included,
  is kept (server.js:150-151).
- In the router, a title made only of whitespace is cleaned to `""`. It does not
  become `null` (routes/preview.routes.js:124-126).
- In the server, an expired entry is deleted before the fetch. A failing request for
  an expired `url` therefore leaves the cache without that key (server.js:51, 162-170).
- The server can answer with an image that does not start with `http`. An image with
  its own scheme, such as a `data:` placeholder, is handed to `new URL`, which keeps
  the scheme (server.js:143-146). The router instead puts the page directory in front
  of such an image (routes/preview.routes.js:116-119).

## Model

| member | source | states |
|---|---|---|
| JsValues.Truthy | routes/preview.routes.js:41-45 | JavaScript truthiness of a selector outcome: `undefined`, `null` and `""` are falsy and every other string is truthy; it decides every `\|\|` and every `if (!image)` |
| JsValues.OrChain | routes/preview.routes.js:41-45 | `a \|\| b \|\| …` is truthy iff some operand is; it is the first truthy operand; with no truthy operand it is the last one |
| JsValues.OrNull | server.js:149 | `x \|\| null` is `x` whenever `x` is truthy and `null` whenever it is not, so it is never `""` |
| JsStrings.IsSpace | routes/preview.routes.js:125 | the ECMAScript WhiteSpace and LineTerminator characters (tab, vertical tab, form feed, space, no-break space, byte-order mark, the Unicode space separators, line feed, carriage return, line and paragraph separators), which `\s` matches and `trim` removes |
| JsStrings.StartsWith | routes/preview.routes.js:110-113 | `s.startsWith(p)`: `p` is a prefix of `s` |
| JsStrings.IndexOfFrom | routes/preview.routes.js:84-85 | the result is an occurrence at or after the start and no earlier one exists there, or -1 when there is none |
| JsStrings.IndexOf | routes/preview.routes.js:84-85 | the first occurrence of the pattern, or -1 exactly when it does not occur |
| JsStrings.Includes | routes/preview.routes.js:36-38 | `includes` holds iff the pattern occurs at some position |
| JsStrings.LastIndexOf | routes/preview.routes.js:118 | the last position holding the character, or -1 when it does not occur |
| JsStrings.ToLowerAscii | routes/preview.routes.js:34 | lower-cases each character in place and leaves no upper-case ASCII letter |
| JsStrings.ToLowerAsciiIdempotent | server.js:72 | lower-casing twice is lower-casing once |
| JsStrings.TrimStart | routes/preview.routes.js:125 | the result is a suffix; the part cut off is all whitespace; the result does not start with whitespace |
| JsStrings.TrimEnd | routes/preview.routes.js:125 | the result is a prefix; the part cut off is all whitespace; the result does not end with whitespace |
| JsStrings.Trim | routes/preview.routes.js:125 | the result has no whitespace at either end, is a slice of the input with only whitespace around it, and keeps every non-whitespace character |
| JsStrings.TrimPadded | server.js:150-151 | trimming a text padded with whitespace returns exactly the text |
| JsStrings.TrimStartPadded | routes/preview.routes.js:125 | `trimStart` removes exactly a whitespace prefix in front of text that starts with non-whitespace |
| JsStrings.TrimEndPadded | routes/preview.routes.js:125 | `trimEnd` removes exactly a whitespace suffix after text that ends with non-whitespace |
| JsStrings.CollapseSpaces | routes/preview.routes.js:125 | the result is empty iff the input is, and starts with whitespace iff the input does |
| JsStrings.CollapseSpacesCollapsed | routes/preview.routes.js:125 | after the collapse no two whitespace characters are adjacent and every whitespace character is a plain space |
| JsStrings.CollapseSpacesNonSpace | routes/preview.routes.js:125 | the collapse keeps the non-whitespace characters, in order |
| JsStrings.CollapseSpacesLast | routes/preview.routes.js:125 | the collapse ends in whitespace iff its input does |
| JsStrings.CollapseSpacesFixpoint | routes/preview.routes.js:125 | an already collapsed text is unchanged by the collapse |
| JsStrings.CollapsePlainPrefix | routes/preview.routes.js:125 | text without whitespace passes through the collapse unchanged |
| JsStrings.CollapseRun | routes/preview.routes.js:125 | a whole whitespace run becomes exactly one space |
| JsStrings.LeadingDigits | routes/preview.routes.js:105 | the longest all-digit prefix: a prefix of digits followed by a non-digit or the end |
| JsStrings.ParseInt | routes/preview.routes.js:105 | `parseInt` is `NaN` exactly when no digit follows the leading whitespace and sign |
| JsStrings.Decimal | routes/preview.routes.js:105 | a numeral is non-empty and all digits |
| JsStrings.DecimalValue | routes/preview.routes.js:105 | reading back a numeral gives its number |
| JsStrings.ParseIntOfNumeral | routes/preview.routes.js:103-105 | `parseInt` of a numeral followed by a unit such as `px` is the number |
| PageModel.Attr | routes/preview.routes.js:42 | `.attr(name)` is defined exactly when the element has the attribute |
| PageModel.Text | routes/preview.routes.js:44 | `.text()` of an empty selection is `""` |
| PageModel.AttrsOf | routes/preview.routes.js:75-81 | the i-th operand of an attribute cascade is the i-th source's attribute |
| PageModel.TextsOf | routes/preview.routes.js:50-54 | the i-th operand of a text cascade is the i-th selector's text |
| PageModel.FirstSrc | routes/preview.routes.js:101-106 | `filter(...).first().attr('src')` is `undefined` when no element is accepted, and otherwise the `src` of the first accepted element |
| PageModel.TitleCascade | routes/preview.routes.js:41-45 | the title is `null` or non-empty, never `""` |
| PageModel.TitlePrecedence | server.js:82-86 | a non-empty `og:title` always wins; else a non-empty `twitter:title` wins; else a non-empty `<title>` text is the title; the title is `null` iff all three sources are empty |
| Platforms.Classify | routes/preview.routes.js:35-38 | a known platform's name occurs in the host, and no name earlier in the order amazon, flipkart, meesho occurs |
| Platforms.Detect | routes/preview.routes.js:34-38 | the same first-match rule on the lower-cased host name |
| Platforms.DetectIsUniqueFirstMatch | server.js:72-77 | any platform satisfying the first-match rule is the one detected, so the rule determines the result |
| Platforms.DetectIgnoresCase | routes/preview.routes.js:34 | classification does not depend on the case of the host name |
| Platforms.AmazonTakesPrecedence | routes/preview.routes.js:36-37 | a host naming Amazon is Amazon even when it also names another platform |
| Platforms.ClassifyAmazonExample | routes/preview.routes.js:36 | `www.amazon.in` is Amazon |
| Platforms.ClassifyFlipkartExample | routes/preview.routes.js:37 | `flipkart.com` is Flipkart |
| Platforms.ClassifyMeeshoExample | routes/preview.routes.js:38 | `meesho.com` is Meesho |
| Platforms.ClassifyUnknownExample | routes/preview.routes.js:35-38 | `example.com` is unknown |
| RouterPreview.PriceCascade | routes/preview.routes.js:48-61 | the price is `null` iff the platform is unknown; otherwise it is the first non-empty candidate, and `""` when all are empty |
| RouterPreview.MetaImage | routes/preview.routes.js:64-69 | the generic image is the first non-empty of the four meta/link sources, and `null` when none of them is non-empty |
| RouterPreview.NonDotRunEnd | routes/preview.routes.js:85 | the end of the maximal run of non-`.` characters after a position |
| RouterPreview.HiRes | routes/preview.routes.js:84-86 | without `._AC_` the image is unchanged; otherwise exactly the first `._AC_` and its following non-`.` run become `._AC_SL1500_` and the rest is kept |
| RouterPreview.HiResKeepsFirstMarker | routes/preview.routes.js:85 | after the rewrite, the first `._AC_` is still where it was |
| RouterPreview.HiResAt | routes/preview.routes.js:85 | the rewrite at a given marker position and run end, stated for any string |
| RouterPreview.HiResIdempotent | routes/preview.routes.js:84-86 | rewriting an already rewritten image changes nothing |
| RouterPreview.RewrittenRun | routes/preview.routes.js:85 | in a rewritten image, the non-`.` run after the new marker ends exactly where the kept tail begins |
| RouterPreview.PlatformImage | routes/preview.routes.js:72-96 | the first non-empty platform source wins, rewritten to the large rendition when the platform is Amazon and it contains `._AC_`; the result is non-empty iff some source is, so an all-empty cascade passes control to the fallback |
| RouterPreview.FallbackImage | routes/preview.routes.js:100-107 | the fallback is `undefined` iff no `<img>` is large, and otherwise the non-empty `src` of the first large one |
| RouterPreview.DimensionByNumeral | routes/preview.routes.js:103-105 | a width or height attribute that is a numeral (with or without a unit) passes iff the number exceeds 200, whatever the style says |
| RouterPreview.LargeImageByNumerals | routes/preview.routes.js:100-106 | an `<img>` with numeral width and height attributes is large iff both exceed 200 |
| RouterPreview.DimensionAllows | routes/preview.routes.js:105 | a width or height passes when it is missing or empty, or when `parseInt` reads a number above 200 |
| RouterPreview.IsLargeImage | routes/preview.routes.js:101-105 | the fallback filter: a non-empty `src`, and the width (attribute, else style) and height both pass |
| RouterPreview.ChosenImage | routes/preview.routes.js:64-107 | the platform cascade runs only when the generic sources give nothing non-empty, and the fallback only when both give nothing |
| RouterPreview.DirectoryOf | routes/preview.routes.js:118 | the directory is a prefix of the URL that is empty or ends in `/`, with no `/` after it in the URL |
| RouterPreview.Absolutize | routes/preview.routes.js:110-121 | the image is always kept as the suffix; an `http` image is unchanged, `//x` gains `https:`, `/p` gains the origin, anything else gains the page's directory |
| RouterPreview.AbsolutizeGivesHttp | routes/preview.routes.js:110-121 | for an `http` page URL, every absolutized image starts with `http` |
| RouterPreview.AbsolutizePathExample | routes/preview.routes.js:113-115 | `/img/a.jpg` on `https://site.com/product/123` gives `https://site.com/img/a.jpg` |
| RouterPreview.AbsolutizeProtocolRelativeExample | routes/preview.routes.js:111-112 | `//cdn.site.com/a.jpg` gives `https://cdn.site.com/a.jpg` |
| RouterPreview.AbsolutizeRelativeExample | routes/preview.routes.js:116-119 | `a.jpg` on `https://site.com/product/123` gives `https://site.com/product/a.jpg` |
| RouterPreview.CleanText | routes/preview.routes.js:125 | the cleaned text has no whitespace at the ends, no adjacent whitespace, only plain spaces, and the same non-whitespace characters |
| RouterPreview.TrimTwoWords | routes/preview.routes.js:125 | trimming removes exactly the padding around a text that starts and ends with non-whitespace |
| RouterPreview.CollapseTwoWords | routes/preview.routes.js:125 | two words separated by a whitespace run collapse to the words separated by one space |
| RouterPreview.CleanTwoWords | routes/preview.routes.js:125 | padded words separated by a whitespace run are cleaned to the words separated by one space |
| RouterPreview.CleanTextExample | routes/preview.routes.js:127-129 | `"  Price:  \n 499  "` is cleaned to `"Price: 499"` |
| RouterPreview.TrimOfTrimmed | routes/preview.routes.js:125 | trimming text with no whitespace at either end changes nothing |
| RouterPreview.CleanTextIdempotent | routes/preview.routes.js:124-129 | cleaning a cleaned text changes nothing |
| RouterPreview.CleanIfTruthy | routes/preview.routes.js:124-129 | an empty or missing value is left as is; a non-empty one is cleaned and keeps its non-whitespace characters |
| RouterPreview.ImageField | routes/preview.routes.js:109-121 | the answer's image is missing iff no image was chosen; otherwise it is non-empty and ends with the chosen image |
| RouterPreview.Preview | routes/preview.routes.js:33-133 | the platform is the detected one; the price is `null` iff the platform is unknown; the image is missing or non-empty; the title and price are trimmed and collapsed |
| RouterPreview.PickImage | routes/preview.routes.js:64-107 | the step-by-step reassignment of `image` computes the specified choice |
| RouterPreview.ResolveImage | routes/preview.routes.js:64-121 | the reassignments, including the absolutizing branches, compute the answer's image |
| RouterPreview.HandlePreview | routes/preview.routes.js:7-138 | a missing or empty `url` gives 400 with the all-null body; a failed fetch gives 200 all-null; otherwise 200 with the extracted preview |
| ServerPreview.PriceCascade | server.js:91-106 | the price is `null` iff the platform is unknown; otherwise the first non-empty of its candidates (three for Amazon, one each otherwise), `""` when all are empty |
| ServerPreview.MetaImage | server.js:111-115 | the generic image is the first non-empty of the three meta tags, and `null` when none of them is non-empty |
| ServerPreview.FallbackImage | server.js:132-140 | the fallback is `undefined` iff no `<img>` has a `src` starting with `http`; otherwise it is the first such `src` |
| ServerPreview.IsHttpImage | server.js:134-137 | the fallback filter: a non-empty `src` that starts with `http` |
| ServerPreview.ChosenImage | server.js:111-140 | the meta tags win; the platform candidates are used only when they give nothing; the `http` fallback only when both give nothing |
| ServerPreview.OrChainOrNone | server.js:117-130 | a platform's candidate chain is non-empty iff some candidate is, is the first non-empty candidate when there is one, and is nothing for a platform without candidates |
| ServerPreview.FixImage | server.js:143-146 | an `http` image is kept, `//x` gains `https:`, anything else is resolved against the page URL |
| ServerPreview.FixProtocolRelative | server.js:144 | a `//` image comes out as an `https://` URL with the same host and path |
| ServerPreview.TrimOrNull | server.js:150-151 | the result is `null` or non-empty trimmed text; it is `null` iff the input is missing or all whitespace; otherwise it is a slice of the input with only whitespace cut off at either end, so inner whitespace is kept |
| ServerPreview.TrimOrNullExample | server.js:150-151 | `"  Price:  \n 499  "` becomes `"Price:  \n 499"`, keeping its inner whitespace |
| ServerPreview.TrimOrNullBlankExample | server.js:150 | a whitespace-only text becomes `null` |
| ServerPreview.NonSpaceEmptyIffAllSpaces | server.js:150-151 | a trimmed text is empty iff it has no non-whitespace character |
| ServerPreview.Preview | server.js:72-153 | a successful extraction has the detected platform and a well-formed answer; it fails iff the chosen image is relative, does not start with `//`, and the resolver throws on it |
| ServerPreview.ImageIsAbsolute | server.js:142-146 | if the resolver yields `http` URLs, every image in an answer starts with `http` |
| ServerPreview.SchemedImageKept | server.js:143-146 | a chosen `data:` image that the resolver returns unchanged ends up in the answer as is, not starting with `http` |
| ServerPreview.PickImage | server.js:111-140 | the successive `if` statements compute the specified image choice |
| ServerPreview.Extract | server.js:72-153 | the step-by-step extraction computes the specified answer, including the throwing resolver |
| ResponseCache.PreviewServer.constructor | server.js:27 | the cache starts empty and valid |
| ResponseCache.PreviewServer.Lookup | server.js:46-52 | an entry younger than `CACHE_TTL` is returned and nothing changes; otherwise nothing is returned and only that key is removed |
| ResponseCache.PreviewServer.Store | server.js:156-159 | the entry for exactly that `url` is overwritten and no other changes |
| ResponseCache.PreviewServer.HandlePreview | server.js:33-170 | a missing `url` leaves the cache alone; a hit returns the stored answer unchanged; a failure answers all-null and stores nothing; a success stores the answer under `url`; every cached answer stays well formed |
| ResponseCache.PreviewServer.Refresh | server.js:54-170 | on a miss, a failed fetch or fix-up answers all-null and leaves the cache unchanged; a success answers the extraction and stores it under `url`; the cache stays valid |
| ResponseCache.IsFresh | server.js:48 | an entry is served only while strictly less than six hours have passed since it was stored |
| ResponseCache.HitIn | server.js:46-48 | a request is a hit iff its `url` has an entry and that entry is fresh |
| ResponseCache.RepeatWithinTtl | server.js:46-50 | a second request within six hours of the store gets the same answer, even if the page changed |
| ResponseCache.RefetchAfterTtl | server.js:48-52 | a request six hours or more after the store gets a fresh extraction |
| ResponseCache.FailureNotCached | server.js:162-170 | after a failed request, the next one for the same `url` is extracted afresh |
| ResponseCache.DistinctUrlsIndependent | server.js:156-159 | a cached answer for one `url` is never served for another |

## Left out

- The outbound fetch, with its headers, redirect following and timeout: a parameter
  `fetched: Option<Page>`, where `None` is any error the handler catches. This
  includes `new URL(baseUrl)` throwing.
- Cheerio's parsing and CSS selector evaluation. Each selector's outcome is part of
  `Doc`. `.attr` and `.first().attr` read the same first match, and the text of a
  multi-element selection is whatever the parser concatenates.
- URL parsing:
  - The host name and origin of the final URL are inputs (`Page.hostname`,
    `Page.origin`).
  - The server's `new URL(image, baseUrl).href`, which follows the WHATWG URL
    Standard's basic URL parser (section 4.4), is the parameter `resolve`. It returns
    `None` where the constructor throws.
- Express routing, `res.status(...).json(...)` serialisation, CORS, `express.json` and
  `app.listen`: framework glue. The server always answers with status 200, so only
  its body is modelled.
- The distinction between `undefined` and `null` in the JSON answer. Both are `None`,
  so the router's missing image (the `image` key left out of the JSON) and a `null`
  are not told apart.
- Logging through `console.log` and `console.error`.
- Concurrency: `ResponseCache.PreviewServer.HandlePreview` runs atomically. Two
  overlapping requests for the same missed `url` both fetch, and the last `set`
  wins, which the model does not capture. Request cancellation is left out too.
- The two `Date.now()` readings are independent parameters, `now` and `storeTime`.
  No order between them is assumed.
- `parseInt` reads decimal digits only. The hexadecimal `0x` prefix is not modelled,
  and `NaN` is `None`.
- `toLowerCase` is modelled on ASCII letters only. Host names from the URL parser
  are ASCII, in punycode form.
- A repeated `url` query parameter, which Express turns into an array: `url` is a
  string or missing.
- Memory limits: the cache is an unbounded `map`, as in the source, which has no
  capacity bound.

## Findings

None: every natural contract on the modelled code was provable as written.
