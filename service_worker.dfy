/**
 * The service worker script: install, activate, fetch and message handlers
 * over an abstract CacheStorage.
 *
 * The platform is replaced by inputs and recorded outputs: the network's
 * answers are parameters, the window clients are a parameter, and the calls
 * `skipWaiting`, `clients.claim` and `postMessage` are appended to an effect
 * log. The cache storage keeps its names in creation order, because
 * `caches.match` searches the caches in that order (section 5.5.1 of the W3C
 * Service Workers specification).
 */
module ServiceWorker {
  import opened Wrappers
  import opened Messages

  /** The one cache generation this build of the worker owns. */
  const CACHE_NAME: string := "appnehmen-cache-v1"

  /** The application shell stored on install, relative to the worker's scope. */
  const ASSETS_TO_CACHE: seq<string> := [
    "./",
    "./index.html",
    "./manifest.json",
    "./favicon.png",
    "./icons/Icon-192.png",
    "./icons/Icon-512.png",
    "./icons/Icon-maskable-192.png",
    "./icons/Icon-maskable-512.png"
  ]

  /** A request as the cache sees it: its HTTP method and its URL. */
  datatype Request = Request(verb: string, url: string)

  /** A response, opaque apart from the status the cache operations look at. */
  datatype Response = Response(status: int, body: string)

  /** What one network attempt yields: a response (of any status) or a network error. */
  datatype NetResult = Ok(response: Response) | Fail

  /** One named cache: the stored response per request URL. */
  type Cache = map<string, Response>

  datatype ClientType = Window | DedicatedWorker | SharedWorker

  /** A client within the worker's scope. */
  datatype Client = Client(id: nat, kind: ClientType)

  /**
   * The `data` of a message event: a falsy value, or a truthy value whose
   * `type` property is a string (`Some`) or anything else (`None`).
   */
  datatype MessageData = Falsy | Truthy(typeField: Option<string>)

  /** The calls into the platform that the handlers make. */
  datatype Effect = SkipWaiting | ClaimClients | PostMessage(client: nat, msgType: string)

  predicate Distinct<T(==)>(s: seq<T>) {
    forall i, j :: 0 <= i < j < |s| ==> s[i] != s[j]
  }

  function Count<T(==)>(s: seq<T>, x: T): nat {
    if s == [] then 0 else (if s[0] == x then 1 else 0) + Count(s[1..], x)
  }

  /**
   * `Cache.addAll` accepts a fetched asset only when the network answered
   * with an ok status (200 to 299) that is not 206 (section 5.4.4 of the W3C
   * Service Workers specification).
   */
  predicate AddAllAccepts(r: NetResult) {
    r.Ok? && 200 <= r.response.status <= 299 && r.response.status != 206
  }

  /**
   * `Cache.put` rejects a request that is not GET and a 206 response
   * (section 5.4.5 of the W3C Service Workers specification).
   */
  predicate PutAccepts(req: Request, resp: Response) {
    req.verb == "GET" && resp.status != 206
  }

  /** The cache named `CACHE_NAME` as `caches.open(CACHE_NAME)` finds it: existing, or a new empty one. */
  function CurrentCache(caches: map<string, Cache>): Cache {
    if CACHE_NAME in caches then caches[CACHE_NAME] else map[]
  }

  /** The cache names after `caches.open(CACHE_NAME)`: a new name goes last. */
  function WithCurrent(order: seq<string>): seq<string> {
    if CACHE_NAME in order then order else order + [CACHE_NAME]
  }

  /** `base` after a successful `addAll(urls)`: every URL maps to its fetched response. */
  function StoreAll(base: Cache, urls: seq<string>, network: string -> NetResult): Cache
    requires forall u :: u in urls ==> network(u).Ok?
  {
    base + map u | u in urls :: network(u).response
  }

  lemma StoreAllSnoc(base: Cache, urls: seq<string>, u: string, network: string -> NetResult)
    requires forall v :: v in urls + [u] ==> network(v).Ok?
    ensures StoreAll(base, urls + [u], network) == StoreAll(base, urls, network)[u := network(u).response]
  {
  }

  /** The install batch names no asset twice, so `addAll` does not refuse it as a duplicate. */
  lemma AssetsDistinct()
    ensures |ASSETS_TO_CACHE| == 8 && Distinct(ASSETS_TO_CACHE)
  {
  }

  /** `c` after `c.put(req, resp)`: the entry for the URL is replaced when put accepts. */
  function Refreshed(c: Cache, req: Request, resp: Response): Cache {
    if PutAccepts(req, resp) then c[req.url := resp] else c
  }

  /** The cache at position `i` of `order` is the first one holding `url`. */
  predicate FirstHolderAt(order: seq<string>, caches: map<string, Cache>, url: string, i: int)
    requires forall n :: n in order ==> n in caches
  {
    0 <= i < |order| && url in caches[order[i]] &&
    forall j :: 0 <= j < i ==> url !in caches[order[j]]
  }

  /**
   * `caches.match(req)`: searches every cache in creation order and answers
   * with the first stored response for the request; a request that is not GET
   * matches nothing. A response is never invented.
   */
  function Lookup(order: seq<string>, caches: map<string, Cache>, req: Request): (r: Option<Response>)
    requires forall n :: n in order ==> n in caches
    ensures req.verb != "GET" ==> r == None
    ensures req.verb == "GET" ==> (r.None? <==> forall n :: n in order ==> req.url !in caches[n])
    ensures r.Some? ==> exists i :: FirstHolderAt(order, caches, req.url, i) && r.value == caches[order[i]][req.url]
  {
    if req.verb != "GET" || order == [] then None
    else if req.url in caches[order[0]] then
      assert FirstHolderAt(order, caches, req.url, 0);
      Some(caches[order[0]][req.url])
    else
      var r := Lookup(order[1..], caches, req);
      if r.Some? then
        var i :| FirstHolderAt(order[1..], caches, req.url, i) && r.value == caches[order[1..][i]][req.url];
        assert FirstHolderAt(order, caches, req.url, i + 1);
        r
      else
        r
  }

  /** `order` without the name `x`, as `caches.delete(x)` leaves it. */
  function Without(order: seq<string>, x: string): (r: seq<string>)
    ensures forall y :: y in r <==> y in order && y != x
    ensures Distinct(order) ==> Distinct(r)
  {
    if order == [] then []
    else if order[0] == x then Without(order[1..], x)
    else
      var rest := Without(order[1..], x);
      assert Distinct(order) ==> order[0] !in order[1..];
      [order[0]] + rest
  }

  /** `clients.matchAll({type: 'window'})`: the window clients, in order. */
  function WindowClients(clients: seq<Client>): (r: seq<Client>)
    ensures forall c :: c in r <==> c in clients && c.kind == Window
  {
    if clients == [] then []
    else if clients[0].kind == Window then [clients[0]] + WindowClients(clients[1..])
    else WindowClients(clients[1..])
  }

  /** One `postMessage({type: 'RELOAD'})` per client, in order. */
  function Reloads(windows: seq<Client>): seq<Effect> {
    seq(|windows|, i requires 0 <= i < |windows| => PostMessage(windows[i].id, RELOAD))
  }

  predicate DistinctIds(clients: seq<Client>) {
    forall i, j :: 0 <= i < j < |clients| ==> clients[i].id != clients[j].id
  }

  /** The ids after the first client are still distinct, and none equals the first client's. */
  lemma DistinctIdsTail(clients: seq<Client>)
    requires clients != [] && DistinctIds(clients)
    ensures DistinctIds(clients[1..])
    ensures forall d :: d in clients[1..] ==> d.id != clients[0].id
  {
    var rest := clients[1..];
    forall i, j | 0 <= i < j < |rest| ensures rest[i].id != rest[j].id {
      assert rest[i] == clients[i + 1] && rest[j] == clients[j + 1];
    }
    forall d | d in rest ensures d.id != clients[0].id {
      var k :| 0 <= k < |rest| && rest[k] == d;
      assert clients[k + 1] == d;
    }
  }

  /** Counting the messages to one window client ahead of the others. */
  lemma ReloadsCons(c: Client, ws: seq<Client>, m: Effect)
    ensures Count(Reloads([c] + ws), m) == (if PostMessage(c.id, RELOAD) == m then 1 else 0) + Count(Reloads(ws), m)
  {
    var msgs := Reloads([c] + ws);
    assert msgs[0] == PostMessage(c.id, RELOAD);
    assert msgs[1..] == Reloads(ws);
  }

  /**
   * Activation's messages reach every window client exactly once and no other
   * client at all.
   */
  lemma {:induction false} ReloadedExactlyOnce(clients: seq<Client>, id: nat)
    requires DistinctIds(clients)
    ensures Count(Reloads(WindowClients(clients)), PostMessage(id, RELOAD)) ==
            if exists c :: c in clients && c.id == id && c.kind == Window then 1 else 0
  {
    if clients != [] {
      var c, rest := clients[0], clients[1..];
      DistinctIdsTail(clients);
      ReloadedExactlyOnce(rest, id);
      assert clients == [c] + rest;
      if c.kind == Window {
        ReloadsCons(c, WindowClients(rest), PostMessage(id, RELOAD));
      }
    }
  }

  /**
   * The fetch phase of `Cache.addAll`: every asset is requested, and the batch
   * is refused as soon as one answer is unacceptable. On success the answers
   * come back in asset order.
   */
  method FetchAssets(urls: seq<string>, network: string -> NetResult) returns (fetched: Option<seq<Response>>)
    ensures fetched.Some? <==> forall u :: u in urls ==> AddAllAccepts(network(u))
    ensures fetched.Some? ==>
      |fetched.value| == |urls| &&
      forall i :: 0 <= i < |urls| ==> fetched.value[i] == network(urls[i]).response
  {
    var responses: seq<Response> := [];
    var i := 0;
    while i < |urls|
      invariant 0 <= i <= |urls| && |responses| == i
      invariant forall j :: 0 <= j < i ==> AddAllAccepts(network(urls[j])) && responses[j] == network(urls[j]).response
    {
      var answer := network(urls[i]);
      if !AddAllAccepts(answer) {
        return None;
      }
      responses := responses + [answer.response];
      i := i + 1;
    }
    return Some(responses);
  }

  /**
   * The storage step of `Cache.addAll`: the fetched responses are written
   * into `base` one by one, in request order.
   */
  method Batch(base: Cache, urls: seq<string>, responses: seq<Response>, network: string -> NetResult) returns (cache: Cache)
    requires |responses| == |urls|
    requires forall i :: 0 <= i < |urls| ==> network(urls[i]).Ok? && responses[i] == network(urls[i]).response
    ensures forall u :: u in urls ==> network(u).Ok?
    ensures cache == StoreAll(base, urls, network)
  {
    cache := base;
    var i := 0;
    while i < |urls|
      invariant 0 <= i <= |urls|
      invariant cache == StoreAll(base, urls[..i], network)
    {
      assert urls[..i + 1] == urls[..i] + [urls[i]];
      StoreAllSnoc(base, urls[..i], urls[i], network);
      cache := cache[urls[i] := responses[i]];
      i := i + 1;
    }
    assert urls[..i] == urls;
  }

  /** The worker's global scope: the origin's cache storage and the worker's calls into the platform. */
  class WorkerScope {
    /** Cache names in creation order (the keys of CacheStorage's ordered map). */
    var order: seq<string>
    /** The caches themselves, by name. */
    var caches: map<string, Cache>
    /** `skipWaiting`, `clients.claim` and `postMessage` calls, in order. */
    var effects: seq<Effect>

    ghost predicate Valid()
      reads this
    {
      Distinct(order) && forall n :: n in order <==> n in caches
    }

    /** A worker starting over the storage its origin already has. */
    constructor (order: seq<string>, caches: map<string, Cache>)
      requires Distinct(order) && forall n :: n in order <==> n in caches
      ensures Valid()
      ensures this.order == order && this.caches == caches && effects == []
    {
      this.order := order;
      this.caches := caches;
      effects := [];
    }

    /** `caches.open(name)`: the existing cache, or a new empty one registered last. */
    method Open(name: string)
      requires Valid()
      modifies this
      ensures Valid() && effects == old(effects)
      ensures order == if name in old(order) then old(order) else old(order) + [name]
      ensures caches == if name in old(caches) then old(caches) else old(caches)[name := map[]]
    {
      if name !in caches {
        order := order + [name];
        caches := caches[name := map[]];
      }
    }

    /** `caches.delete(name)`: drops the whole cache; reports whether it existed. */
    method Delete(name: string) returns (existed: bool)
      requires Valid()
      modifies this
      ensures Valid() && effects == old(effects)
      ensures existed <==> name in old(caches)
      ensures caches == old(caches) - {name}
      ensures order == Without(old(order), name)
    {
      existed := name in caches;
      caches := caches - {name};
      order := Without(order, name);
    }

    /** `cache.put(req, resp)` on the cache called `name`: replaces the request's entry. */
    method Put(name: string, req: Request, resp: Response)
      requires Valid() && name in caches
      modifies this
      ensures Valid() && order == old(order) && effects == old(effects)
      ensures caches == old(caches)[name := Refreshed(old(caches)[name], req, resp)]
    {
      if PutAccepts(req, resp) {
        caches := caches[name := caches[name][req.url := resp]];
      }
    }

    /**
     * `Cache.addAll(urls)` on the cache called `name`: all answers are fetched
     * first and the batch is stored only when every one is acceptable, no
     * request appears twice (a duplicate is refused with InvalidStateError)
     * and the storage step itself succeeds (`storageOk`; it fails, for one,
     * on an exceeded quota). So the cache gains either every URL or nothing.
     */
    method AddAll(name: string, urls: seq<string>, network: string -> NetResult, storageOk: bool) returns (stored: bool)
      requires Valid() && name in caches
      modifies this
      ensures Valid() && order == old(order) && effects == old(effects)
      ensures stored <==> storageOk && Distinct(urls) && forall u :: u in urls ==> AddAllAccepts(network(u))
      ensures caches == old(caches)[name := if stored then StoreAll(old(caches)[name], urls, network) else old(caches)[name]]
    {
      var fetched := FetchAssets(urls, network);
      if fetched.None? || !Distinct(urls) || !storageOk {
        return false;
      }
      var cache := Batch(caches[name], urls, fetched.value, network);
      caches := caches[name := cache];
      return true;
    }

    /**
     * The install handler: open `CACHE_NAME`, store all of `ASSETS_TO_CACHE`
     * at once, then ask to skip waiting. One refused asset, or a failure of
     * the storage step (`storageOk` false), rejects the install: nothing is
     * stored and `skipWaiting` is not called, but the cache that
     * `caches.open` created stays.
     */
    method Install(network: string -> NetResult, storageOk: bool) returns (installed: bool)
      requires Valid()
      modifies this
      ensures Valid()
      ensures installed <==> storageOk && forall u :: u in ASSETS_TO_CACHE ==> AddAllAccepts(network(u))
      ensures order == WithCurrent(old(order))
      ensures caches == old(caches)[CACHE_NAME :=
        if installed then StoreAll(CurrentCache(old(caches)), ASSETS_TO_CACHE, network)
        else CurrentCache(old(caches))]
      ensures installed ==> forall u :: u in ASSETS_TO_CACHE ==>
        u in caches[CACHE_NAME] && caches[CACHE_NAME][u] == network(u).response
      ensures effects == old(effects) + if installed then [SkipWaiting] else []
    {
      Open(CACHE_NAME);
      AssetsDistinct();
      installed := AddAll(CACHE_NAME, ASSETS_TO_CACHE, network, storageOk);
      if installed {
        effects := effects + [SkipWaiting];
      }
    }

    /** The first half of the activate handler: delete every cache not called `CACHE_NAME`. */
    method DeleteOldCaches()
      requires Valid()
      modifies this
      ensures Valid() && effects == old(effects)
      ensures forall n :: n in order <==> n in old(order) && n == CACHE_NAME
      ensures caches == if CACHE_NAME in old(caches) then map[CACHE_NAME := old(caches)[CACHE_NAME]] else map[]
    {
      var names := order;
      var i := 0;
      while i < |names|
        invariant 0 <= i <= |names|
        invariant Valid() && effects == old(effects)
        invariant forall n :: n in caches <==> n in old(caches) && (n == CACHE_NAME || n !in names[..i])
        invariant forall n :: n in caches ==> caches[n] == old(caches)[n]
      {
        assert names[..i + 1] == names[..i] + [names[i]];
        if names[i] != CACHE_NAME {
          var existed := Delete(names[i]);
        }
        i := i + 1;
      }
      assert names[..i] == names;
      assert forall n :: n in caches <==> n in old(caches) && n == CACHE_NAME;
    }

    /** The second half of the activate handler: claim the clients, then post `RELOAD` to every window client. */
    method ReloadClients(clients: seq<Client>)
      requires Valid()
      modifies this
      ensures Valid() && order == old(order) && caches == old(caches)
      ensures effects == old(effects) + [ClaimClients] + Reloads(WindowClients(clients))
    {
      effects := effects + [ClaimClients];
      var windows := WindowClients(clients);
      var k := 0;
      while k < |windows|
        invariant 0 <= k <= |windows|
        invariant order == old(order) && caches == old(caches)
        invariant effects == old(effects) + [ClaimClients] + Reloads(windows[..k])
      {
        effects := effects + [PostMessage(windows[k].id, RELOAD)];
        k := k + 1;
      }
      assert windows[..k] == windows;
    }

    /**
     * The activate handler: delete every cache not called `CACHE_NAME`, claim
     * the clients, then post `RELOAD` to every window client.
     */
    method Activate(clients: seq<Client>)
      requires Valid()
      modifies this
      ensures Valid()
      ensures forall n :: n in order <==> n in old(order) && n == CACHE_NAME
      ensures caches == if CACHE_NAME in old(caches) then map[CACHE_NAME := old(caches)[CACHE_NAME]] else map[]
      ensures effects == old(effects) + [ClaimClients] + Reloads(WindowClients(clients))
    {
      DeleteOldCaches();
      ReloadClients(clients);
    }

    /**
     * The fetch handler, network first. A network answer is returned as it is
     * and, when the detached cache write runs to its end, also stored under
     * `CACHE_NAME`; a network error falls back to `caches.match`, which may
     * find nothing, and leaves the storage alone.
     */
    method Fetch(req: Request, network: NetResult, writeCompletes: bool) returns (r: Option<Response>)
      requires Valid()
      modifies this
      ensures Valid() && effects == old(effects)
      ensures network.Ok? ==> r == Some(network.response)
      ensures network.Fail? ==> r == Lookup(old(order), old(caches), req)
      ensures network.Fail? || !writeCompletes ==> order == old(order) && caches == old(caches)
      ensures network.Ok? && writeCompletes ==>
        order == WithCurrent(old(order)) &&
        caches == old(caches)[CACHE_NAME := Refreshed(CurrentCache(old(caches)), req, network.response)]
    {
      if network.Fail? {
        r := Lookup(order, caches, req);
        return;
      }
      r := Some(network.response);
      if writeCompletes {
        Open(CACHE_NAME);
        Put(CACHE_NAME, req, network.response);
      }
    }

    /** The message handler: only `{type: 'SKIP_WAITING'}` asks to skip waiting. */
    method OnMessage(data: MessageData)
      requires Valid()
      modifies this
      ensures Valid() && order == old(order) && caches == old(caches)
      ensures effects == old(effects) + if data == Truthy(Some(SKIP_WAITING)) then [SkipWaiting] else []
    {
      if data.Truthy? && data.typeField == Some(SKIP_WAITING) {
        effects := effects + [SkipWaiting];
      }
    }
  }

  /**
   * Network-first read-back: once a network answer has been written under
   * `CACHE_NAME`, and no other generation holds the URL (as after
   * activation), an offline fetch of the same request returns that answer.
   */
  lemma OfflineReadBack(order: seq<string>, caches: map<string, Cache>, req: Request, resp: Response)
    requires forall n :: n in order ==> n in caches
    requires PutAccepts(req, resp)
    requires forall n :: n in order && n != CACHE_NAME ==> req.url !in caches[n]
    ensures Lookup(WithCurrent(order), caches[CACHE_NAME := Refreshed(CurrentCache(caches), req, resp)], req) == Some(resp)
  {
    var order', caches' := WithCurrent(order), caches[CACHE_NAME := Refreshed(CurrentCache(caches), req, resp)];
    assert CACHE_NAME in order';
  }

  /**
   * An upgrade from an older generation: install succeeds, activation leaves
   * only `CACHE_NAME`, and an asset is then served offline from it.
   */
  method UpgradeFromOlderGeneration(older: Cache, network: string -> NetResult, clients: seq<Client>, asset: string)
    returns (installed: bool, names: seq<string>, offline: Option<Response>)
    requires forall u :: u in ASSETS_TO_CACHE ==> AddAllAccepts(network(u))
    requires asset in ASSETS_TO_CACHE
    ensures installed
    ensures forall n :: n in names <==> n == CACHE_NAME
    ensures network(asset).Ok? && offline == Some(network(asset).response)
  {
    var sw := new WorkerScope(["appnehmen-cache-v0"], map["appnehmen-cache-v0" := older]);
    installed := sw.Install(network, true);
    sw.Activate(clients);
    names := sw.order;
    offline := sw.Fetch(Request("GET", asset), Fail, false);
  }
}
