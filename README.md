# Offline cache and update hand-off of the appnehmen web app, in Dafny

This project models the two cooperating state machines that keep the app's
offline cache and its updates consistent:

- **The service worker** (`web/service_worker.js`), module `ServiceWorker`.
  Class `WorkerScope` holds the origin's cache storage: cache names in
  creation order, plus a map from cache name to a map from request URL to
  response. It also holds an effect log of the worker's platform calls
  (`skipWaiting`, `clients.claim`, `postMessage`). Its handlers are:
  - `Install` stores the fixed asset list all-or-nothing (`Cache.addAll`)
    under `CACHE_NAME`, then asks to skip waiting.
  - `Activate` deletes every other cache, claims the clients and posts
    `RELOAD` to each window client.
  - `Fetch` is network-first. A network answer is returned unchanged and,
    when the detached write completes, stored with `Cache.put`. A network
    error falls back to `caches.match`.
  - `OnMessage` asks to skip waiting only for `{type: 'SKIP_WAITING'}`.

  Network answers, the client list and whether the detached cache write
  completes are inputs.
- **The page's `UpdateManager`** (`web/update_manager.js`), module
  `UpdateCoordinator`.
  - The class has the source's four fields, plus the set of workers that
    have a `statechange` listener attached.
  - A `Page` object holds `sessionStorage` and an effect log. The log
    records registration, update checks, timers scheduled and messages
    posted to the worker.
  - Whether service workers are supported, the `<base href>` value, the
    outcome of `register`, the controller's presence, worker state
    changes and whether `sessionStorage` calls throw are inputs.
  - `OnLoad` models the window `load` handler.

Cache-operation semantics follow the W3C Service Workers specification:
- `Cache.addAll` (section 5.4.4) rejects the whole batch on a network
  error, on a status outside 200–299, on 206, on a request named twice
  (InvalidStateError) and on a failure of its storage step (such as an
  exceeded quota). Whether the storage step succeeds is an input.
- `Cache.put` (section 5.4.5) rejects a non-GET request and a 206 response.
  Otherwise it replaces the entry.
- `CacheStorage.match` (section 5.5.1) searches every cache in creation
  order. It matches nothing for a non-GET request.
- `caches.open` creates a missing cache and registers it last.

Points where the code behaves differently from what a reader might expect:
- The offline fallback is `caches.match`, which searches every cache
  generation, not only the current one. Read-back of the latest stored
  answer is therefore proved only when no other generation holds the URL,
  as is the case after activation (`OfflineReadBack`).
- A failed install still leaves the cache that `caches.open(CACHE_NAME)`
  created, empty.
- There is one update policy, auto-apply. `updateCallback` is stored but
  never called, and the page has no `RELOAD` or `controllerchange`
  listener.

## Model

| member | source | states |
|---|---|---|
| ServiceWorker.Lookup | web/service_worker.js:77-80 | The offline fallback returns a response only if some cache stores one for the request, and then it is the response of the first such cache in creation order. It is absent exactly when no cache holds the URL, and always absent for a non-GET request. It never fabricates a response. |
| ServiceWorker.FetchAssets | web/service_worker.js:22 | The fetch phase of `addAll` succeeds exactly when every asset's answer is acceptable. On success it yields one response per asset, in order, each equal to that asset's network answer. |
| ServiceWorker.AssetsDistinct | web/service_worker.js:4-13 | The asset list has exactly 8 entries and none repeats, so `addAll` never refuses it as a duplicate batch. |
| ServiceWorker.Batch | web/service_worker.js:22 | The storage step of `addAll` writes every fetched response under its URL, so the result is the base cache with each URL mapped to its network answer. |
| ServiceWorker.WorkerScope.AddAll | web/service_worker.js:22 | The batch is stored exactly when every answer is acceptable, no URL appears twice and the storage step succeeds. The cache then gains every URL with its fetched response. Otherwise the cache is unchanged. No other cache and no name changes. |
| ServiceWorker.WorkerScope.Install | web/service_worker.js:16-29 | Only `CACHE_NAME` is opened (created last if absent). Install succeeds exactly when all 8 (distinct) assets are acceptable and the storage step succeeds, and then each asset maps to its response. On failure no asset is added. `skipWaiting` is logged exactly once on success and never on failure. |
| ServiceWorker.WorkerScope.DeleteOldCaches | web/service_worker.js:37-46 | Every cache whose name is not `CACHE_NAME` is deleted. `CACHE_NAME` is kept with its contents. Afterwards the names are a subset of {`CACHE_NAME`}. |
| ServiceWorker.WorkerScope.ReloadClients | web/service_worker.js:48-56 | The clients are claimed, then one `RELOAD` is posted per window client, in order. The cache storage is untouched. |
| ServiceWorker.WorkerScope.Activate | web/service_worker.js:32-60 | The activate handler is the purge followed by claim and the `RELOAD` broadcast. Its postconditions combine both. |
| ServiceWorker.ReloadedExactlyOnce | web/service_worker.js:51-55 | With distinct client ids, each window client receives exactly one `RELOAD`, and a client that is not a window client receives none. |
| ServiceWorker.WindowClients | web/service_worker.js:51 | `matchAll({type: 'window'})` keeps exactly the window clients of the scope. |
| ServiceWorker.WorkerScope.Fetch | web/service_worker.js:63-82 | On network success the live response is returned unchanged. When the write completes, `CACHE_NAME` then maps the request's URL to that response (replacing any earlier entry), if put accepts it. On network failure the result is `caches.match` over the storage and the storage is unchanged. The log is never touched. |
| ServiceWorker.OfflineReadBack | web/service_worker.js:65-80 | After an online fetch has stored response R, an offline fetch of the same GET request returns R, provided no other generation holds the URL. |
| ServiceWorker.WorkerScope.Open | web/service_worker.js:19 | `caches.open` returns an existing cache unchanged, or creates an empty one registered last. |
| ServiceWorker.WorkerScope.Delete | web/service_worker.js:42 | `caches.delete` removes the named cache and its name and reports whether it existed. |
| ServiceWorker.WorkerScope.Put | web/service_worker.js:72 | `cache.put` replaces the request's entry in the named cache, unless put rejects (non-GET, 206). |
| ServiceWorker.WorkerScope.OnMessage | web/service_worker.js:85-89 | `skipWaiting` is logged exactly when the data is truthy and its `type` is `'SKIP_WAITING'`. Any other message changes nothing. |
| ServiceWorker.UpgradeFromOlderGeneration | web/service_worker.js:16-80 | Starting from an older generation with all assets reachable: install succeeds, activation leaves only `CACHE_NAME`, and each asset is then served offline from it. |
| UpdateCoordinator.UpdateManager.constructor | web/update_manager.js:3-8 | A fresh manager has `updateAvailable` false and no registration, waiting worker or callback. |
| UpdateCoordinator.RegistrationFor | web/update_manager.js:20-24 | The scope is the `<base href>` value, or `'/'` when it is absent or empty. The script URL is the scope followed by `service_worker.js`, so the scope is a prefix of the script URL. |
| UpdateCoordinator.UpdateManager.Init | web/update_manager.js:11-63 | If unsupported, nothing happens. If `register` rejects, the request is logged and the registration stays as it was. On success the registration is recorded, then 60-second polling and one update check are logged. No other field or the session changes. |
| UpdateCoordinator.UpdateManager.OnUpdateFound | web/update_manager.js:29-34 | The installing worker gets watched only when registered and a controller already exists. Otherwise nothing changes (first-install silence). `updateAvailable` and `waitingWorker` never change here. |
| UpdateCoordinator.UpdateManager.OnStateChange | web/update_manager.js:36-48 | A watched worker reaching `installed` sets `updateAvailable`, becomes `waitingWorker` and schedules `applyUpdate` after 500 ms. Any other state or worker leaves fields and log unchanged. |
| UpdateCoordinator.UpdateManager.OnUpdateAvailable | web/update_manager.js:66-68 | The stored callback becomes the given one, so the last call wins; a `null` or missing argument clears it. Nothing else changes. |
| UpdateCoordinator.UpdateManager.ApplyUpdate | web/update_manager.js:71-98 | With no waiting worker, neither session nor log changes. Otherwise `isUpdating` and `showNewsAfterUpdate` become `'true'`, exactly one `SKIP_WAITING` is posted to the waiting worker, and exactly one reload is scheduled after 300 ms. If a `sessionStorage.setItem` throws, the call ends there: only the writes before it stay, nothing is posted or scheduled, and the call reports that it did not complete. |
| UpdateCoordinator.UpdateManager.CheckForUpdates | web/update_manager.js:101-105 | An update check is logged only when registered. The session never changes. |
| UpdateCoordinator.OnLoad | web/update_manager.js:113-135 | If `isUpdating` is `'true'`, the flag is removed and the overlay hides after 1000 ms. Otherwise the session is untouched and the overlay hides after 500 ms. When `sessionStorage` access throws, nothing changes and no hide is scheduled. |
| UpdateCoordinator.FirstInstallIsSilent | web/update_manager.js:29-49 | With no controller, a new worker reaching `installed` leaves no update available, no waiting worker and nothing logged beyond registration, polling and the first check. A later `applyUpdate` does nothing. |
| UpdateCoordinator.FailedRegistrationIsInert | web/update_manager.js:17-62 | After `register` rejects, worker events, `checkForUpdates` and `applyUpdate` change nothing. Only the registration attempt is logged and the session stays empty. |
| UpdateCoordinator.UpdateHandOff | web/update_manager.js:29-135 | With a controller present, a new worker's installation leads to exactly one `SKIP_WAITING` and one reload. The reloaded page consumes `isUpdating`, keeps `showNewsAfterUpdate` and uses the 1000 ms overlay delay. Every other session key is preserved. |
| UpdateCoordinator.QuotaStopsHandOff | web/update_manager.js:71-98 | When the first flag write in `applyUpdate` throws, no `SKIP_WAITING` is posted, no reload is scheduled and the session is unchanged, while the manager keeps the waiting worker and `updateAvailable` for a retry. |

## Left out

- Real network, HTTP semantics and `response.clone()`: a network attempt is an input, either a response or a network error. A response is an opaque status and body. URL resolution against the scope, URL normalisation, `Vary` and opaque responses are not modelled.
- The timers: the `setTimeout` delays and the 60-second `setInterval` are recorded as scheduled effects with their constants. The timer firing later is modelled by the caller invoking `ApplyUpdate` (or reloading). Each polling tick is the same `registration.update()` call that `CheckForUpdates` logs, and is not a separate operation.
- Promise concurrency: activate's `Promise.all` runs the purge and the claim/broadcast concurrently. The model runs the purge first. The fetch handler's detached cache write is an input that says whether it ran to completion. Interleavings across tabs are not modelled.
- ServiceWorker.WorkerScope.Fetch: failures inside the detached write (quota, storage errors) are modelled as the write not completing, which also skips `caches.open(CACHE_NAME)`. The state where the open succeeds (creating an empty `CACHE_NAME` if it was absent) and only the `put` then fails is not modelled.
- `clients.claim`, `skipWaiting`, `registration.update()` and registration itself are platform calls: they are recorded in the effect logs, and their lifecycle consequences (activation, controller hand-off) are not modelled.
- The DOM overlay (`getElementById`, `classList`) and all `console` logging. The load handler's overlay hiding is recorded only as the delay it schedules.
- The global singleton wiring (`window.updateManager = new UpdateManager(); init()`).
- ServiceWorker.WorkerScope.Install: a rejection of `caches.open(CACHE_NAME)` itself (storage unavailable) is not modelled; install's storage failures are modelled only at the storage step of `addAll`, which leaves the opened cache in place.
- `sessionStorage` failures are inputs: `ApplyUpdate` is told how many `setItem` calls succeed before one throws, and `OnLoad` whether storage is accessible. `removeItem` throwing after a successful `getItem` is not modelled.
- UpdateCoordinator.UpdateManager.OnUpdateAvailable: `null` and `undefined` are both modelled as `None`; the stored callback is never called, so the difference is never observed.
- The value of a message's `type` that is not a string is folded into "no string type", since strict equality with `'SKIP_WAITING'` fails for it anyway.
