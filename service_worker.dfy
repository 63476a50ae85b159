/**
 * The offline cache worker: install precaches the application shell into the
 * static bucket, activate purges every bucket of another version and then
 * claims the open pages, and fetch answers requests network-first for the
 * weather API and cache-first for everything else, writing into the runtime
 * bucket. The browser's cache storage is a class whose state is the bucket
 * names in creation order, each bucket's URL-to-response entries, and a log of
 * the network fetches, deletions and the client claim the worker performs.
 */
module ServiceWorker {
  import opened Wrappers
  import opened Strings

  const CacheVersion := "nimbus-v5"
  const StaticCache := CacheVersion + "-static"
  const RuntimeCache := CacheVersion + "-runtime"

  /** The application shell fetched at install time. */
  const PrecacheAssets: seq<string> := ["./", "./index.html", "./style.css", "./script.js", "./manifest.json"]

  /** A request is for the weather API when its origin contains this text. */
  const ApiMarker := "open-meteo.com"

  datatype Request = Request(verb: string, url: string, origin: string)
  datatype Response = Response(status: int, body: string)

  /** What the network gives for a request: a response (of any status) or a network error. */
  datatype NetOutcome = Got(response: Response) | NetFailed

  /** What the page receives for an intercepted request. */
  datatype Reply = Served(response: Response) | NetworkError

  datatype Event = NetworkFetch(url: string) | Deleted(name: string) | ClientsClaimed

  /** The entries of one bucket, keyed by request URL. */
  type Entries = map<string, Response>

  predicate Distinct(names: seq<string>) {
    forall i, j :: 0 <= i < j < |names| ==> names[i] != names[j]
  }

  /* ---------- bucket names ---------- */

  /** `caches.open(name)`: a bucket of that name exists afterwards, new ones at the end. */
  function OpenNames(names: seq<string>, name: string): (r: seq<string>)
    ensures forall n :: n in r <==> n in names || n == name
    ensures |names| <= |r| && r[..|names|] == names
    ensures name !in names ==> r == names + [name]
    ensures Distinct(names) ==> Distinct(r)
  {
    if name in names then names else names + [name]
  }

  function OpenBuckets(buckets: map<string, Entries>, name: string): (r: map<string, Entries>)
    ensures name in r && r.Keys == buckets.Keys + {name}
    ensures forall n :: n in buckets ==> r[n] == buckets[n]
    ensures name !in buckets ==> r[name] == map[]
  {
    if name in buckets then buckets else buckets[name := map[]]
  }

  /** The names with `x` removed. */
  function Without(names: seq<string>, x: string): (r: seq<string>)
    ensures forall n :: n in r <==> n in names && n != x
    ensures x !in names ==> r == names
    ensures Distinct(names) ==> Distinct(r)
  {
    if |names| == 0 then []
    else if names[0] == x then Without(names[1..], x)
    else
      var rest := Without(names[1..], x);
      assert Distinct(names) ==> names[0] !in names[1..];
      [names[0]] + rest
  }

  lemma {:induction false} WithoutConcat(a: seq<string>, b: seq<string>, x: string)
    ensures Without(a + b, x) == Without(a, x) + Without(b, x)
    decreases |a|
  {
    if |a| > 0 {
      assert (a + b)[1..] == a[1..] + b;
      WithoutConcat(a[1..], b, x);
    } else {
      assert a + b == b;
    }
  }

  /**
   * The names activate keeps, in their original order: those of the current
   * version. `RetainedMembers` gives its members, `RetainedConcat` its order.
   */
  function Retained(names: seq<string>): (r: seq<string>)
    ensures |r| <= |names|
  {
    if |names| == 0 then []
    else
      var n := |names| - 1;
      Retained(names[..n]) + (if StartsWith(names[n], CacheVersion) then [names[n]] else [])
  }

  /** The deletions activate performs, in key order. `DeletionLogMembers` gives which ones. */
  function DeletionLog(names: seq<string>): (r: seq<Event>)
    ensures |r| <= |names|
  {
    if |names| == 0 then []
    else
      var n := |names| - 1;
      DeletionLog(names[..n]) + (if StartsWith(names[n], CacheVersion) then [] else [Deleted(names[n])])
  }

  /**
   * Filtering keeps order: the kept names of a concatenation are those of the
   * first part followed by those of the second.
   */
  lemma {:induction false} RetainedConcat(a: seq<string>, b: seq<string>)
    ensures Retained(a + b) == Retained(a) + Retained(b)
    decreases |b|
  {
    if |b| == 0 {
      assert a + b == a;
    } else {
      var n := |b| - 1;
      RetainedConcat(a, b[..n]);
      assert (a + b)[..|a + b| - 1] == a + b[..n];
      assert (a + b)[|a + b| - 1] == b[n];
    }
  }

  /** Activate keeps exactly the names of this version, and never more names than there were. */
  lemma {:induction false} RetainedMembers(names: seq<string>)
    ensures forall n :: n in Retained(names) <==> n in names && StartsWith(n, CacheVersion)
    ensures |Retained(names)| <= |names|
    decreases |names|
  {
    if |names| > 0 {
      var n := |names| - 1;
      RetainedMembers(names[..n]);
      assert names == names[..n] + [names[n]];
    }
  }

  /** Every logged deletion is of a name of another version, and every such name is deleted. */
  lemma {:induction false} DeletionLogMembers(names: seq<string>)
    ensures forall e :: e in DeletionLog(names) ==> e.Deleted? && e.name in names && !StartsWith(e.name, CacheVersion)
    ensures forall n :: n in names && !StartsWith(n, CacheVersion) ==> Deleted(n) in DeletionLog(names)
    decreases |names|
  {
    if |names| > 0 {
      var n := |names| - 1;
      DeletionLogMembers(names[..n]);
      assert names == names[..n] + [names[n]];
    }
  }

  /** The names activate deletes: those of other versions. `DoomedMembers` gives its members. */
  function Doomed(names: seq<string>): (r: set<string>)
    ensures |r| <= |names|
  {
    if |names| == 0 then {}
    else
      var n := |names| - 1;
      Doomed(names[..n]) + (if StartsWith(names[n], CacheVersion) then {} else {names[n]})
  }

  /** One more key processed by activate: how the kept names, the deletions and the doomed names grow. */
  lemma ActivateStep(keys: seq<string>, i: nat)
    requires i < |keys|
    ensures Retained(keys[..i + 1])
         == Retained(keys[..i]) + (if StartsWith(keys[i], CacheVersion) then [keys[i]] else [])
    ensures DeletionLog(keys[..i + 1])
         == DeletionLog(keys[..i]) + (if StartsWith(keys[i], CacheVersion) then [] else [Deleted(keys[i])])
    ensures Doomed(keys[..i + 1])
         == Doomed(keys[..i]) + (if StartsWith(keys[i], CacheVersion) then {} else {keys[i]})
  {
    assert keys[..i + 1][..i] == keys[..i];
    assert keys[..i + 1] == keys[..i] + [keys[i]];
  }

  /** The current version's buckets, after the others are deleted, are again a valid storage. */
  lemma RetainedValid(keys: seq<string>, buckets: map<string, Entries>)
    requires Distinct(keys) && forall n :: n in buckets <==> n in keys
    ensures Distinct(Retained(keys))
    ensures forall n :: n in buckets - Doomed(keys) <==> n in Retained(keys)
  {
    RetainedMembers(keys);
    RetainedDistinct(keys);
    DoomedMembers(keys);
  }

  lemma {:induction false} DoomedMembers(names: seq<string>)
    ensures forall n :: n in Doomed(names) <==> n in names && !StartsWith(n, CacheVersion)
    decreases |names|
  {
    if |names| > 0 {
      var n := |names| - 1;
      DoomedMembers(names[..n]);
      assert names == names[..n] + [names[n]];
    }
  }

  lemma {:induction false} RetainedDistinct(keys: seq<string>)
    requires Distinct(keys)
    ensures Distinct(Retained(keys))
    decreases |keys|
  {
    if |keys| > 0 {
      var n := |keys| - 1;
      RetainedDistinct(keys[..n]);
      RetainedMembers(keys[..n]);
      assert keys[n] !in keys[..n];
    }
  }

  /** A key of another version is deleted: it leaves the names and joins the deletions. */
  lemma PurgeStep(keys: seq<string>, i: nat)
    requires Distinct(keys) && i < |keys| && !StartsWith(keys[i], CacheVersion)
    ensures Without(Retained(keys[..i]) + keys[i..], keys[i]) == Retained(keys[..i + 1]) + keys[i + 1..]
    ensures Doomed(keys[..i + 1]) == Doomed(keys[..i]) + {keys[i]}
    ensures DeletionLog(keys[..i + 1]) == DeletionLog(keys[..i]) + [Deleted(keys[i])]
  {
    ActivateStep(keys, i);
    RetainedMembers(keys[..i]);
    DropKey(Retained(keys[..i]), keys, i);
    assert Retained(keys[..i + 1]) == Retained(keys[..i]);
  }

  /** Deleting one more doomed bucket from those already purged leaves the buckets less the grown doomed set. */
  lemma DeleteBucketStep(buckets: map<string, Entries>, keys: seq<string>, i: nat)
    requires i < |keys| && !StartsWith(keys[i], CacheVersion)
    ensures buckets - Doomed(keys[..i]) - {keys[i]} == buckets - Doomed(keys[..i + 1])
  {
    ActivateStep(keys, i);
  }

  /** A key of this version is kept: the names, buckets and deletions still to come are as before. */
  lemma KeepStep(keys: seq<string>, i: nat)
    requires i < |keys| && StartsWith(keys[i], CacheVersion)
    ensures Retained(keys[..i]) + keys[i..] == Retained(keys[..i + 1]) + keys[i + 1..]
    ensures Doomed(keys[..i + 1]) == Doomed(keys[..i])
    ensures DeletionLog(keys[..i + 1]) == DeletionLog(keys[..i])
  {
    ActivateStep(keys, i);
    assert keys[i..] == [keys[i]] + keys[i + 1..];
  }

  /** Deleting a doomed key from the names still to be processed leaves the rest in order. */
  lemma {:induction false} DropKey(kept: seq<string>, keys: seq<string>, i: nat)
    requires Distinct(keys) && i < |keys|
    requires forall n :: n in kept ==> n in keys[..i]
    ensures Without(kept + keys[i..], keys[i]) == kept + keys[i + 1..]
  {
    var key := keys[i];
    assert keys[i..] == [key] + keys[i + 1..];
    assert key !in keys[..i];
    assert key !in kept;
    assert key !in keys[i + 1..];
    WithoutConcat(kept, [key] + keys[i + 1..], key);
    WithoutConcat([key], keys[i + 1..], key);
    assert Without([key], key) == [];
  }

  /** Names all of this version are kept as they are, and none is deleted. */
  lemma {:induction false} CurrentNamesKept(names: seq<string>)
    requires forall i :: 0 <= i < |names| ==> StartsWith(names[i], CacheVersion)
    ensures Retained(names) == names
    ensures DeletionLog(names) == []
    decreases |names|
  {
    if |names| > 0 {
      var n := |names| - 1;
      CurrentNamesKept(names[..n]);
      assert names == names[..n] + [names[n]];
    }
  }

  /** A second activation of the same version deletes nothing more. */
  lemma RetainedIdempotent(names: seq<string>)
    ensures Retained(Retained(names)) == Retained(names)
    ensures DeletionLog(Retained(names)) == []
  {
    RetainedMembers(names);
    var kept := Retained(names);
    assert forall i :: 0 <= i < |kept| ==> kept[i] in kept;
    CurrentNamesKept(kept);
  }

  /** Older versions' buckets are deleted; both buckets of this version survive activation, as would one named `nimbus-v50-…`. */
  lemma CurrentBucketsSurvive()
    ensures Retained(["nimbus-v3", "nimbus-v4-static", StaticCache, RuntimeCache])
         == [StaticCache, RuntimeCache]
    ensures Retained(["nimbus-v50-static"]) == ["nimbus-v50-static"]
  {
    var names := ["nimbus-v3", "nimbus-v4-static", StaticCache, RuntimeCache];
    assert !StartsWith(names[0], CacheVersion) by {
      assert names[0][..9][8] != CacheVersion[8];
    }
    assert !StartsWith(names[1], CacheVersion) by {
      assert names[1][..9][8] != CacheVersion[8];
    }
    assert StartsWith(names[2], CacheVersion);
    assert StartsWith(names[3], CacheVersion);
    assert Retained(names[..1]) == [] by {
      assert names[..1][..0] == [];
    }
    assert Retained(names[..2]) == [] by {
      assert names[..2][..1] == names[..1];
    }
    assert Retained(names[..3]) == [StaticCache] by {
      assert names[..3][..2] == names[..2];
    }
    assert names[..4][..3] == names[..3];
    assert names[..4] == names;
    assert StartsWith("nimbus-v50-static", CacheVersion);
    assert ["nimbus-v50-static"][..0] == [];
  }

  /* ---------- entries ---------- */

  /**
   * The platform's `Cache.put` refuses a request whose URL scheme is not http
   * or https, a request that is not a GET, and a 206 (partial) response.
   */
  predicate PutAccepted(req: Request, resp: Response) {
    && (StartsWith(req.url, "http:") || StartsWith(req.url, "https:"))
    && req.verb == "GET"
    && resp.status != 206
  }

  /** `cache.put(req, resp)` into the bucket `name`. */
  function PutEntry(buckets: map<string, Entries>, name: string, req: Request, resp: Response)
    : (r: map<string, Entries>)
    requires name in buckets
    ensures r.Keys == buckets.Keys
    ensures forall n :: n in buckets && n != name ==> r[n] == buckets[n]
    ensures PutAccepted(req, resp) ==> r[name] == buckets[name][req.url := resp]
    ensures !PutAccepted(req, resp) ==> r == buckets
  {
    if PutAccepted(req, resp) then buckets[name := buckets[name][req.url := resp]] else buckets
  }

  /** Bucket `names[i]` holds an entry for `url`. */
  predicate Holds(names: seq<string>, buckets: map<string, Entries>, url: string, i: nat) {
    i < |names| && names[i] in buckets && url in buckets[names[i]]
  }

  /** The first bucket at or after position `from` (in creation order) holding `url`. */
  function MatchFrom(names: seq<string>, buckets: map<string, Entries>, url: string, from: nat)
    : (r: Option<Response>)
    requires from <= |names|
    ensures r.None? <==> forall i :: from <= i < |names| ==> !Holds(names, buckets, url, i)
    ensures r.Some? ==> exists i :: from <= i < |names| && Holds(names, buckets, url, i)
                          && r.value == buckets[names[i]][url]
                          && forall j :: from <= j < i ==> !Holds(names, buckets, url, j)
    decreases |names| - from
  {
    if from == |names| then None
    else if Holds(names, buckets, url, from) then Some(buckets[names[from]][url])
    else MatchFrom(names, buckets, url, from + 1)
  }

  /** `caches.match(req)`: the entry of the oldest bucket holding the URL; never one for a non-GET. */
  function Match(names: seq<string>, buckets: map<string, Entries>, req: Request): (r: Option<Response>)
    ensures req.verb != "GET" ==> r.None?
    ensures req.verb == "GET" ==> r == MatchFrom(names, buckets, req.url, 0)
  {
    if req.verb == "GET" then MatchFrom(names, buckets, req.url, 0) else None
  }

  /** A GET for a URL that some bucket holds is always a cache hit; for a precached asset this is what serves the shell offline. */
  lemma HeldUrlMatches(names: seq<string>, buckets: map<string, Entries>, req: Request, name: string)
    requires req.verb == "GET" && name in names && name in buckets && req.url in buckets[name]
    ensures Match(names, buckets, req).Some?
  {
    var i :| 0 <= i < |names| && names[i] == name;
    assert Holds(names, buckets, req.url, i);
  }

  /** What the page gets from `respondWith(caches.match(req))`: nothing found is a network error. */
  function ReplyOf(found: Option<Response>): (r: Reply)
    ensures r.Served? <==> found.Some?
    ensures r.Served? ==> r.response == found.value
  {
    match found
    case Some(resp) => Served(resp)
    case None => NetworkError
  }

  /* ---------- install ---------- */

  /** `Cache.addAll` accepts a fetched response only when its status is OK (2xx) and not 206. */
  predicate FetchOk(outcome: NetOutcome) {
    outcome.Got? && 200 <= outcome.response.status <= 299 && outcome.response.status != 206
  }

  predicate AllFetchedOk(urls: seq<string>, network: string -> NetOutcome) {
    forall i :: 0 <= i < |urls| ==> FetchOk(network(urls[i]))
  }

  /** The entries `addAll` writes when every fetch succeeded. */
  function Batch(urls: seq<string>, network: string -> NetOutcome): (r: Entries)
    requires AllFetchedOk(urls, network)
    ensures r.Keys == set u | u in urls
    ensures forall u :: u in r ==> r[u] == network(u).response
  {
    if |urls| == 0 then map[]
    else
      var n := |urls| - 1;
      Batch(urls[..n], network)[urls[n] := network(urls[n]).response]
  }

  /** The network fetches `addAll` issues: one per URL, in order. */
  function FetchLog(urls: seq<string>): (r: seq<Event>)
    ensures |r| == |urls| && forall i :: 0 <= i < |urls| ==> r[i] == NetworkFetch(urls[i])
  {
    if |urls| == 0 then []
    else
      var n := |urls| - 1;
      FetchLog(urls[..n]) + [NetworkFetch(urls[n])]
  }

  /** One more URL processed by `addAll`. */
  lemma AddAllStep(urls: seq<string>, network: string -> NetOutcome, i: nat)
    requires i < |urls|
    ensures AllFetchedOk(urls[..i + 1], network)
        <==> AllFetchedOk(urls[..i], network) && FetchOk(network(urls[i]))
    ensures AllFetchedOk(urls[..i + 1], network) ==>
      Batch(urls[..i + 1], network) == Batch(urls[..i], network)[urls[i] := network(urls[i]).response]
    ensures FetchLog(urls[..i + 1]) == FetchLog(urls[..i]) + [NetworkFetch(urls[i])]
  {
    assert urls[..i + 1][..i] == urls[..i];
    if AllFetchedOk(urls[..i], network) && FetchOk(network(urls[i])) {
      assert forall j :: 0 <= j < i + 1 ==> urls[..i + 1][j] == (if j < i then urls[..i][j] else urls[i]);
    }
  }

  /* ---------- fetch routing ---------- */

  /** `url.origin.includes("open-meteo.com")`: the request goes network-first. */
  predicate IsApiRequest(req: Request) {
    Contains(req.origin, ApiMarker)
  }

  /** The forecast host and the geocoding host are both routed network-first. */
  lemma WeatherHostsAreApi(verb: string, url: string)
    ensures IsApiRequest(Request(verb, url, "https://api.open-meteo.com"))
    ensures IsApiRequest(Request(verb, url, "https://geocoding-api.open-meteo.com"))
  {
    assert OccursAt("https://api.open-meteo.com", ApiMarker, 12);
    assert OccursAt("https://geocoding-api.open-meteo.com", ApiMarker, 22);
  }

  /**
   * Storing a fetched response: open the runtime bucket (creating it last if
   * absent), then put the response under the request. Every other bucket,
   * the static one included, keeps its entries.
   */
  function StoreNames(names: seq<string>): seq<string> {
    OpenNames(names, RuntimeCache)
  }

  function StoreBuckets(buckets: map<string, Entries>, req: Request, resp: Response): (r: map<string, Entries>)
    ensures RuntimeCache in r && r.Keys == buckets.Keys + {RuntimeCache}
    ensures forall n :: n in buckets && n != RuntimeCache ==> r[n] == buckets[n]
    ensures PutAccepted(req, resp) ==> req.url in r[RuntimeCache] && r[RuntimeCache][req.url] == resp
    ensures var before := if RuntimeCache in buckets then buckets[RuntimeCache] else map[];
      r[RuntimeCache] == if PutAccepted(req, resp) then before[req.url := resp] else before
  {
    PutEntry(OpenBuckets(buckets, RuntimeCache), RuntimeCache, req, resp)
  }

  /** A response to a browser-extension request is never stored, although cache-first fetches it. */
  lemma ExtensionRequestsNotStored(buckets: map<string, Entries>, origin: string, resp: Response)
    ensures var req := Request("GET", "chrome-extension://abc/inject.js", origin);
      StoreBuckets(buckets, req, resp) == OpenBuckets(buckets, RuntimeCache)
  {
    var url := "chrome-extension://abc/inject.js";
    assert url[..5][0] != "http:"[0];
    assert url[..6][0] != "https:"[0];
  }

  /**
   * The deletions of activate, one key at a time over the names as they were
   * when it started: the names, buckets and deletion events that result.
   */
  method Purge(keys: seq<string>, buckets: map<string, Entries>)
    returns (remaining: seq<string>, kept: map<string, Entries>, deletions: seq<Event>)
    requires Distinct(keys)
    ensures remaining == Retained(keys)
    ensures kept == buckets - Doomed(keys)
    ensures deletions == DeletionLog(keys)
  {
    remaining, kept, deletions := keys, buckets, [];
    var i := 0;
    assert keys[..0] == [] && keys[0..] == keys;
    while i < |keys|
      invariant i <= |keys|
      invariant remaining == Retained(keys[..i]) + keys[i..]
      invariant kept == buckets - Doomed(keys[..i])
      invariant deletions == DeletionLog(keys[..i])
    {
      var key := keys[i];
      if !StartsWith(key, CacheVersion) {
        PurgeStep(keys, i);
        DeleteBucketStep(buckets, keys, i);
        remaining, kept, deletions := Without(remaining, key), kept - {key}, deletions + [Deleted(key)];
      } else {
        KeepStep(keys, i);
      }
      i := i + 1;
    }
    assert keys[..i] == keys;
  }

  class CacheStorage {
    /** Bucket names in creation order (the order `caches.keys()` and `caches.match` use). */
    var names: seq<string>
    var buckets: map<string, Entries>
    /** Network fetches, bucket deletions and the client claim, in the order they happen. */
    var events: seq<Event>

    ghost predicate Valid()
      reads this`names, this`buckets
    {
      Distinct(names) && forall n :: n in buckets <==> n in names
    }

    constructor (existing: seq<string>, contents: map<string, Entries>)
      requires Distinct(existing) && forall n :: n in contents <==> n in existing
      ensures Valid() && names == existing && buckets == contents && events == []
    {
      names, buckets, events := existing, contents, [];
    }

    method Open(name: string)
      requires Valid()
      modifies this
      ensures Valid()
      ensures names == OpenNames(old(names), name) && buckets == OpenBuckets(old(buckets), name)
      ensures events == old(events)
    {
      if name !in buckets {
        names := names + [name];
        buckets := buckets[name := map[]];
      }
    }

    method Put(name: string, req: Request, resp: Response)
      requires Valid() && name in buckets
      modifies this
      ensures Valid()
      ensures names == old(names) && buckets == PutEntry(old(buckets), name, req, resp)
      ensures events == old(events)
    {
      if PutAccepted(req, resp) {
        buckets := buckets[name := buckets[name][req.url := resp]];
      }
    }

    /**
     * `cache.addAll(urls)` on bucket `name`: every URL is fetched; the entries
     * are written only if every fetch gave an acceptable response, and then
     * all of them at once.
     */
    method AddAll(name: string, urls: seq<string>, network: string -> NetOutcome) returns (ok: bool)
      requires Valid() && name in buckets
      modifies this
      ensures Valid()
      ensures ok <==> AllFetchedOk(urls, network)
      ensures names == old(names)
      ensures ok ==> buckets == old(buckets)[name := old(buckets)[name] + Batch(urls, network)]
      ensures !ok ==> buckets == old(buckets)
      ensures events == old(events) + FetchLog(urls)
    {
      ok := true;
      var batch: Entries := map[];
      var i := 0;
      while i < |urls|
        invariant 0 <= i <= |urls|
        invariant ok <==> AllFetchedOk(urls[..i], network)
        invariant ok ==> batch == Batch(urls[..i], network)
        invariant names == old(names) && buckets == old(buckets)
        invariant events == old(events) + FetchLog(urls[..i])
      {
        AddAllStep(urls, network, i);
        var outcome := network(urls[i]);
        events := events + [NetworkFetch(urls[i])];
        if FetchOk(outcome) {
          batch := batch[urls[i] := outcome.response];
        } else {
          ok := false;
        }
        i := i + 1;
      }
      assert urls[..i] == urls;
      if ok {
        buckets := buckets[name := buckets[name] + batch];
      }
    }

    /**
     * The install handler: open the static bucket and add the whole shell to
     * it. Either every asset is stored or none is; the bucket itself is created
     * by the open in either case.
     */
    method Install(network: string -> NetOutcome) returns (installed: bool)
      requires Valid()
      modifies this
      ensures Valid()
      ensures installed <==> AllFetchedOk(PrecacheAssets, network)
      ensures names == OpenNames(old(names), StaticCache)
      ensures installed ==>
        var withStatic := OpenBuckets(old(buckets), StaticCache);
        && buckets == withStatic[StaticCache := withStatic[StaticCache] + Batch(PrecacheAssets, network)]
        && forall a :: a in PrecacheAssets ==> a in buckets[StaticCache]
      ensures !installed ==> buckets == OpenBuckets(old(buckets), StaticCache)
      ensures events == old(events) + FetchLog(PrecacheAssets)
    {
      Open(StaticCache);
      installed := AddAll(StaticCache, PrecacheAssets, network);
    }

    /**
     * The activate handler: delete every bucket whose name does not start with
     * the version, in key order, and claim the pages only after all deletions.
     */
    method Activate()
      requires Valid()
      modifies this
      ensures Valid()
      ensures names == Retained(old(names))
      ensures buckets == old(buckets) - Doomed(old(names))
      ensures events == old(events) + DeletionLog(old(names)) + [ClientsClaimed]
    {
      PurgeOtherVersions();
      events := events + [ClientsClaimed];
    }

    /**
     * `Promise.all` over `caches.keys()`: every bucket of another version is
     * deleted (`caches.delete`), in key order; the others are left alone.
     */
    method PurgeOtherVersions()
      requires Valid()
      modifies this
      ensures Valid()
      ensures names == Retained(old(names))
      ensures buckets == old(buckets) - Doomed(old(names))
      ensures events == old(events) + DeletionLog(old(names))
    {
      RetainedValid(names, buckets);
      var remaining, kept, deletions := Purge(names, buckets);
      names, buckets, events := remaining, kept, events + deletions;
    }

    /** Network-first: the network's response is returned and stored; on failure, whatever the caches hold. */
    method NetworkFirst(req: Request, network: NetOutcome) returns (reply: Reply)
      requires Valid()
      modifies this
      ensures Valid()
      ensures events == old(events) + [NetworkFetch(req.url)]
      ensures network.Got? ==>
        && reply == Served(network.response)
        && names == StoreNames(old(names))
        && buckets == StoreBuckets(old(buckets), req, network.response)
      ensures network.NetFailed? ==>
        && reply == ReplyOf(Match(old(names), old(buckets), req))
        && names == old(names) && buckets == old(buckets)
    {
      events := events + [NetworkFetch(req.url)];
      match network
      case Got(resp) =>
        Open(RuntimeCache);
        Put(RuntimeCache, req, resp);
        reply := Served(resp);
      case NetFailed =>
        reply := ReplyOf(Match(names, buckets, req));
    }

    /** Cache-first: a cached entry is returned untouched; otherwise fetch, store and return, with no fallback. */
    method CacheFirst(req: Request, network: NetOutcome) returns (reply: Reply)
      requires Valid()
      modifies this
      ensures Valid()
      ensures Match(old(names), old(buckets), req).Some? ==>
        && reply == Served(Match(old(names), old(buckets), req).value)
        && names == old(names) && buckets == old(buckets) && events == old(events)
      ensures Match(old(names), old(buckets), req).None? ==>
        && events == old(events) + [NetworkFetch(req.url)]
        && (network.Got? ==>
              && reply == Served(network.response)
              && names == StoreNames(old(names))
              && buckets == StoreBuckets(old(buckets), req, network.response))
        && (network.NetFailed? ==>
              reply == NetworkError && names == old(names) && buckets == old(buckets))
    {
      var cached := Match(names, buckets, req);
      if cached.Some? {
        reply := Served(cached.value);
        return;
      }
      events := events + [NetworkFetch(req.url)];
      match network
      case Got(resp) =>
        Open(RuntimeCache);
        Put(RuntimeCache, req, resp);
        reply := Served(resp);
      case NetFailed =>
        reply := NetworkError;
    }

    /** The fetch handler: network-first exactly for the weather API, cache-first for the rest. */
    method HandleFetch(req: Request, network: NetOutcome) returns (reply: Reply)
      requires Valid()
      modifies this
      ensures Valid()
      ensures IsApiRequest(req) ==> events == old(events) + [NetworkFetch(req.url)]
      ensures forall n :: n in old(buckets) && n != RuntimeCache ==> n in buckets && buckets[n] == old(buckets)[n]
      ensures forall n :: n in old(names) ==> n in names
      ensures network.NetFailed? ==> names == old(names) && buckets == old(buckets)
      ensures IsApiRequest(req) && network.Got? ==>
        names == StoreNames(old(names)) && buckets == StoreBuckets(old(buckets), req, network.response)
      ensures !IsApiRequest(req) && Match(old(names), old(buckets), req).Some? ==>
        names == old(names) && buckets == old(buckets) && events == old(events)
      ensures !IsApiRequest(req) && Match(old(names), old(buckets), req).None? ==>
        && events == old(events) + [NetworkFetch(req.url)]
        && (network.Got? ==>
              names == StoreNames(old(names)) && buckets == StoreBuckets(old(buckets), req, network.response))
      ensures reply ==
        if IsApiRequest(req) then
          (if network.Got? then Served(network.response) else ReplyOf(Match(old(names), old(buckets), req)))
        else
          (if Match(old(names), old(buckets), req).Some? then Served(Match(old(names), old(buckets), req).value)
           else if network.Got? then Served(network.response) else NetworkError)
    {
      if IsApiRequest(req) {
        reply := NetworkFirst(req, network);
      } else {
        reply := CacheFirst(req, network);
      }
    }
  }
}
