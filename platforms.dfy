/** The platform classifier shared by both handlers (routes/preview.routes.js:34-38,
    server.js:72-77): the lower-cased host name is searched for the platform names by
    substring containment, in a fixed order. */
module Platforms {
  import opened JsStrings

  datatype Platform = Amazon | Flipkart | Meesho | Unknown

  /** The tag the handlers put in the `platform` field of their JSON answer. */
  function Tag(p: Platform): string {
    match p
    case Amazon => "amazon"
    case Flipkart => "flipkart"
    case Meesho => "meesho"
    case Unknown => "unknown"
  }

  /** The position of a platform in the order the classifier tries them; `Unknown`
      comes last, as the default. */
  function Rank(p: Platform): nat {
    match p
    case Amazon => 0
    case Flipkart => 1
    case Meesho => 2
    case Unknown => 3
  }

  /** The classification of a lower-cased host name: the first known platform, in
      the fixed order, whose name occurs in it; `Unknown` if none does. */
  function Classify(host: string): (p: Platform)
    ensures p != Unknown ==> Includes(host, Tag(p))
    ensures forall q :: Rank(q) < Rank(p) ==> !Includes(host, Tag(q))
  {
    if Includes(host, "amazon") then Amazon
    else if Includes(host, "flipkart") then Flipkart
    else if Includes(host, "meesho") then Meesho
    else Unknown
  }

  /** `new URL(baseUrl).hostname.toLowerCase()` then the ordered substring tests. */
  function Detect(hostname: string): (p: Platform)
    ensures p != Unknown ==> Includes(ToLowerAscii(hostname), Tag(p))
    ensures forall q :: Rank(q) < Rank(p) ==> !Includes(ToLowerAscii(hostname), Tag(q))
  {
    Classify(ToLowerAscii(hostname))
  }

  /** Classification ignores the case of the host name. */
  lemma DetectIgnoresCase(hostname: string)
    ensures Detect(ToLowerAscii(hostname)) == Detect(hostname)
  {
    ToLowerAsciiIdempotent(hostname);
  }

  /** A host that names Amazon is classified as Amazon whatever else it names
      (for instance a host containing both "flipkart" and "amazon"). */
  lemma AmazonTakesPrecedence(hostname: string, i: int)
    requires OccursAt(ToLowerAscii(hostname), "amazon", i)
    ensures Detect(hostname) == Amazon
  {
  }

  /** The first-match rule determines the classification: a platform whose name
      occurs in the lower-cased host (or `Unknown`), and none of whose predecessors'
      names occurs, is the one `Detect` returns. */
  lemma DetectIsUniqueFirstMatch(hostname: string, p: Platform)
    requires p != Unknown ==> Includes(ToLowerAscii(hostname), Tag(p))
    requires forall q :: Rank(q) < Rank(p) ==> !Includes(ToLowerAscii(hostname), Tag(q))
    ensures Detect(hostname) == p
  {
  }

  /** A string lacking one of the letters of `pat` cannot contain `pat`. */
  lemma MissingLetterExcludes(s: string, pat: string, c: char)
    requires c in pat && c !in s
    ensures !Includes(s, pat)
  {
  }

  lemma NamesAt(host: string, name: string, i: int)
    requires OccursAt(host, name, i)
    ensures Includes(host, name)
  {
  }

  /** The classification of four concrete (lower-case) host names. */
  lemma ClassifyAmazonExample(host: string)
    requires host == "www.amazon.in"
    ensures Classify(host) == Amazon
  {
    NamesAt(host, "amazon", 4);
  }

  lemma ClassifyFlipkartExample(host: string)
    requires host == "flipkart.com"
    ensures Classify(host) == Flipkart
  {
    NamesAt(host, "flipkart", 0);
    MissingLetterExcludes(host, "amazon", 'z');
  }

  lemma ClassifyMeeshoExample(host: string)
    requires host == "meesho.com"
    ensures Classify(host) == Meesho
  {
    NamesAt(host, "meesho", 0);
    MissingLetterExcludes(host, "amazon", 'z');
    MissingLetterExcludes(host, "flipkart", 'f');
  }

  lemma ClassifyUnknownExample(host: string)
    requires host == "example.com"
    ensures Classify(host) == Unknown
  {
    MissingLetterExcludes(host, "amazon", 'z');
    MissingLetterExcludes(host, "flipkart", 'f');
    MissingLetterExcludes(host, "meesho", 'h');
  }
}
