/** The standalone server's `/api/preview` handler (server.js:27-170) around its
    process-wide response cache: a map from the requested `url` to the answer and the
    time it was stored, valid for six hours. The clock is a parameter: `now` is the
    reading taken at the lookup and `storeTime` the one taken when the answer is
    stored. The fetch is a parameter too: `None` when it fails. */
module ResponseCache {
  import opened JsValues
  import opened PageModel
  import opened ServerPreview

  /** The lifetime of a cached answer, in milliseconds: six hours. */
  const CacheTtl := 1000 * 60 * 60 * 6

  /** A cache value: the clock reading when it was stored and the answer. */
  datatype CacheEntry = CacheEntry(time: int, data: PreviewResult)

  /** An entry is served only while strictly less than `CacheTtl` has passed since it
      was stored. */
  predicate IsFresh(e: CacheEntry, now: int) {
    now - e.time < CacheTtl
  }

  /** `url` has an entry that is still fresh at `now`. */
  predicate HitIn(entries: map<string, CacheEntry>, url: string, now: int) {
    url in entries && IsFresh(entries[url], now)
  }

  /** The handler together with the state it shares between requests. */
  class PreviewServer {
    /** The `Map` of cached answers, keyed by the requested `url`. */
    var cache: map<string, CacheEntry>

    /** Every cached answer is one the extraction produced, under a non-empty `url`. */
    predicate Valid()
      reads this
    {
      forall u :: u in cache ==> u != "" && WellFormedAnswer(cache[u].data)
    }

    /** The server starts with an empty cache. */
    constructor ()
      ensures cache == map[]
      ensures Valid()
    {
      cache := map[];
    }

    /** The cache probe (server.js:46-52): a fresh entry is served as is; a stale one
        is deleted; a missing one changes nothing. */
    method Lookup(url: string, now: int) returns (hit: Option<PreviewResult>)
      modifies this
      ensures HitIn(old(cache), url, now) ==> hit == Some(old(cache)[url].data) && cache == old(cache)
      ensures !HitIn(old(cache), url, now) ==> hit == None && cache == old(cache) - {url}
    {
      hit := None;
      if url in cache {
        var cached := cache[url];
        if now - cached.time < CacheTtl {
          hit := Some(cached.data);
          return;
        }
        cache := cache - {url};
      }
    }

    /** `cache.set(url, { time, data })` (server.js:156-159): the new entry replaces any
        earlier one and no other entry changes. */
    method Store(url: string, time: int, data: PreviewResult)
      modifies this
      ensures cache == old(cache)[url := CacheEntry(time, data)]
    {
      cache := cache[url := CacheEntry(time, data)];
    }

    /** One request (server.js:33-170). A missing or empty `url` is answered with the
        all-null body and leaves the cache alone; a fresh entry is answered from the
        cache; otherwise the page is extracted, and the answer is stored only when
        the fetch and the extraction both succeed; any failure answers all-null. */
    method HandlePreview(url: Option<string>, now: int, fetched: Option<Page>, resolve: Resolver, storeTime: int)
      returns (body: PreviewResult)
      requires Valid()
      modifies this
      ensures Valid()
      ensures body == NullResult || WellFormedAnswer(body)
      ensures !Truthy(url) ==> body == NullResult && cache == old(cache)
      ensures Truthy(url) && HitIn(old(cache), url.value, now) ==>
                body == old(cache)[url.value].data && cache == old(cache)
      ensures Truthy(url) && !HitIn(old(cache), url.value, now) &&
              (fetched.None? || Preview(fetched.value, resolve).None?) ==>
                body == NullResult && cache == old(cache) - {url.value}
      ensures Truthy(url) && !HitIn(old(cache), url.value, now) &&
              fetched.Some? && Preview(fetched.value, resolve).Some? ==>
                body == Preview(fetched.value, resolve).value &&
                cache == old(cache)[url.value := CacheEntry(storeTime, body)]
    {
      if !Truthy(url) {
        return NullResult;
      }
      var hit := Lookup(url.value, now);
      if hit.Some? {
        return hit.value;
      }
      body := Refresh(url.value, fetched, resolve, storeTime);
    }

    /** A cache miss (server.js:54-170): the page is extracted and the answer stored
        under `url`; a failed fetch or fix-up answers all-null and stores nothing. */
    method Refresh(url: string, fetched: Option<Page>, resolve: Resolver, storeTime: int)
      returns (body: PreviewResult)
      requires Valid() && url != ""
      modifies this
      ensures Valid()
      ensures body == NullResult || WellFormedAnswer(body)
      ensures (fetched.None? || Preview(fetched.value, resolve).None?) ==>
                body == NullResult && cache == old(cache)
      ensures fetched.Some? && Preview(fetched.value, resolve).Some? ==>
                body == Preview(fetched.value, resolve).value &&
                cache == old(cache)[url := CacheEntry(storeTime, body)]
    {
      if fetched.None? {
        return NullResult;
      }
      var result := Extract(fetched.value, resolve);
      if result.None? {
        return NullResult;
      }
      Store(url, storeTime, result.value);
      body := result.value;
    }
  }

  /** Two requests for the same `url` less than six hours apart get the same answer,
      even when the page has changed in between: the second is served from the cache. */
  method RepeatWithinTtl(url: string, page1: Page, page2: Option<Page>, resolve: Resolver,
                         t1: int, s1: int, t2: int)
    returns (first: PreviewResult, second: PreviewResult)
    requires url != "" && Preview(page1, resolve).Some?
    requires t2 - s1 < CacheTtl
    ensures first == Preview(page1, resolve).value
    ensures second == first
  {
    var server := new PreviewServer();
    first := server.HandlePreview(Some(url), t1, Some(page1), resolve, s1);
    second := server.HandlePreview(Some(url), t2, page2, resolve, t2);
  }

  /** Once six hours have passed since the answer was stored, the page is extracted
      again and the new answer replaces the old one. */
  method RefetchAfterTtl(url: string, page1: Page, page2: Page, resolve: Resolver,
                         t1: int, s1: int, t2: int, s2: int)
    returns (first: PreviewResult, second: PreviewResult)
    requires url != "" && Preview(page1, resolve).Some? && Preview(page2, resolve).Some?
    requires t2 - s1 >= CacheTtl
    ensures first == Preview(page1, resolve).value
    ensures second == Preview(page2, resolve).value
  {
    var server := new PreviewServer();
    first := server.HandlePreview(Some(url), t1, Some(page1), resolve, s1);
    second := server.HandlePreview(Some(url), t2, Some(page2), resolve, s2);
  }

  /** A failed request leaves nothing behind: the next request for the same `url` is
      extracted afresh. */
  method FailureNotCached(url: string, page: Page, resolve: Resolver, t1: int, t2: int, s2: int)
    returns (first: PreviewResult, second: PreviewResult)
    requires url != "" && Preview(page, resolve).Some?
    ensures first == NullResult
    ensures second == Preview(page, resolve).value
  {
    var server := new PreviewServer();
    first := server.HandlePreview(Some(url), t1, None, resolve, t1);
    second := server.HandlePreview(Some(url), t2, Some(page), resolve, s2);
  }

  /** Requests for different `url`s do not share answers: a cached answer for one
      address is never served for another. */
  method DistinctUrlsIndependent(url1: string, url2: string, page1: Page, page2: Page, resolve: Resolver,
                                 t1: int, t2: int)
    returns (first: PreviewResult, second: PreviewResult)
    requires url1 != "" && url2 != "" && url1 != url2
    requires Preview(page1, resolve).Some? && Preview(page2, resolve).Some?
    ensures first == Preview(page1, resolve).value
    ensures second == Preview(page2, resolve).value
  {
    var server := new PreviewServer();
    first := server.HandlePreview(Some(url1), t1, Some(page1), resolve, t1);
    second := server.HandlePreview(Some(url2), t2, Some(page2), resolve, t2);
  }
}
