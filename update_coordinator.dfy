/**
 * The page side of the update hand-off: the `UpdateManager` class and the
 * window `load` handler.
 *
 * The browser is replaced by inputs and recorded outputs. Whether service
 * workers are supported, the `<base href>` value, the result of
 * `register`, the controller's presence and the new worker's state changes
 * are parameters. Registration, update checks, timers and messages to the
 * worker are appended to the page's effect log. `sessionStorage` is a
 * string map on the page.
 */
module UpdateCoordinator {
  import opened Wrappers
  import opened Messages

  type WorkerId = nat
  type RegistrationId = nat
  type CallbackId = nat

  /** The states a worker reports through `statechange`. */
  datatype WorkerState = Installing | Installed | Activating | Activated | Redundant

  /** The page's calls into the platform, in the order it makes them. */
  datatype PageEffect =
    | Register(scriptUrl: string, scope: string)
    | UpdateCheck
    | StartPolling(intervalMs: nat)
    | ScheduleApplyUpdate(delayMs: nat)
    | PostToWorker(worker: WorkerId, msgType: string)
    | ScheduleReload(delayMs: nat)
    | ScheduleHideOverlay(delayMs: nat)

  const WORKER_SCRIPT: string := "service_worker.js"
  const POLL_INTERVAL_MS: nat := 60000
  const APPLY_DELAY_MS: nat := 500
  const RELOAD_DELAY_MS: nat := 300
  const UPDATE_HIDE_DELAY_MS: nat := 1000
  const NORMAL_HIDE_DELAY_MS: nat := 500

  /** The session flags that survive the reload. */
  const IS_UPDATING: string := "isUpdating"
  const SHOW_NEWS: string := "showNewsAfterUpdate"

  /**
   * The registration `init` asks for. The base is the `<base href>` value;
   * a missing `<base>`, a missing `href` and an empty `href` all fall back
   * to "/". The script lies inside the scope it is registered for.
   */
  function RegistrationFor(href: Option<string>): (e: PageEffect)
    ensures e.Register?
    ensures e.scriptUrl == e.scope + WORKER_SCRIPT
    ensures e.scope <= e.scriptUrl && e.scope != ""
    ensures href.Some? && href.value != "" ==> e.scope == href.value
    ensures href == None || href == Some("") ==> e.scope == "/"
  {
    var base := if href.Some? && href.value != "" then href.value else "/";
    Register(base + WORKER_SCRIPT, base)
  }

  /** `sessionStorage.getItem(key) === 'true'`. */
  predicate FlagSet(session: map<string, string>, key: string) {
    key in session && session[key] == "true"
  }

  /** The browsing context: its `sessionStorage` and the calls the page makes. */
  class Page {
    var session: map<string, string>
    var log: seq<PageEffect>

    /** A page loaded with the session storage its tab already holds. */
    constructor (session: map<string, string>)
      ensures this.session == session && log == []
    {
      this.session := session;
      log := [];
    }
  }

  class UpdateManager {
    var updateAvailable: bool
    var registration: Option<RegistrationId>
    var waitingWorker: Option<WorkerId>
    var updateCallback: Option<CallbackId>
    /** The installing workers that have had a `statechange` listener attached. */
    var observed: set<WorkerId>

    /** A fresh manager: no update, no registration, no waiting worker, no callback. */
    constructor ()
      ensures !updateAvailable && registration == None && waitingWorker == None && updateCallback == None
      ensures observed == {}
    {
      updateAvailable := false;
      registration := None;
      waitingWorker := None;
      updateCallback := None;
      observed := {};
    }

    /**
     * `init`: register the worker at the base-derived scope, then start
     * polling and check once. When service workers are unsupported nothing
     * happens; when `register` rejects (`registered == None`) the request was
     * made but the manager keeps no registration, so no update logic is
     * attached.
     */
    method Init(page: Page, supported: bool, href: Option<string>, registered: Option<RegistrationId>)
      modifies this, page
      ensures updateAvailable == old(updateAvailable) && waitingWorker == old(waitingWorker)
      ensures updateCallback == old(updateCallback) && observed == old(observed)
      ensures page.session == old(page.session)
      ensures !supported ==> registration == old(registration) && page.log == old(page.log)
      ensures supported && registered.None? ==>
        registration == old(registration) && page.log == old(page.log) + [RegistrationFor(href)]
      ensures supported && registered.Some? ==>
        registration == registered &&
        page.log == old(page.log) + [RegistrationFor(href), StartPolling(POLL_INTERVAL_MS), UpdateCheck]
    {
      if !supported {
        return;
      }
      page.log := page.log + [RegistrationFor(href)];
      if registered.None? {
        return;
      }
      registration := registered;
      page.log := page.log + [StartPolling(POLL_INTERVAL_MS), UpdateCheck];
    }

    /**
     * The `updatefound` listener, attached only once registration succeeded.
     * It watches the installing worker only when a controller already runs
     * the page: a first install stays silent.
     */
    method OnUpdateFound(controllerPresent: bool, installing: WorkerId)
      modifies this
      ensures updateAvailable == old(updateAvailable) && waitingWorker == old(waitingWorker)
      ensures registration == old(registration) && updateCallback == old(updateCallback)
      ensures observed == if registration.Some? && controllerPresent then old(observed) + {installing} else old(observed)
    {
      if registration.Some? && controllerPresent {
        observed := observed + {installing};
      }
    }

    /**
     * The `statechange` listener of a watched worker: reaching `installed`
     * records it as the waiting worker, marks an update available and
     * schedules `applyUpdate`. Every other change leaves everything alone.
     */
    method OnStateChange(page: Page, worker: WorkerId, state: WorkerState)
      modifies this, page
      ensures registration == old(registration) && updateCallback == old(updateCallback) && observed == old(observed)
      ensures page.session == old(page.session)
      ensures worker in observed && state == Installed ==>
        updateAvailable && waitingWorker == Some(worker) &&
        page.log == old(page.log) + [ScheduleApplyUpdate(APPLY_DELAY_MS)]
      ensures !(worker in observed && state == Installed) ==>
        updateAvailable == old(updateAvailable) && waitingWorker == old(waitingWorker) && page.log == old(page.log)
    {
      if worker in observed && state == Installed {
        updateAvailable := true;
        waitingWorker := Some(worker);
        page.log := page.log + [ScheduleApplyUpdate(APPLY_DELAY_MS)];
      }
    }

    /**
     * `onUpdateAvailable`: the last callback given wins. Passing `null` or no
     * argument (`None`) clears the stored callback.
     */
    method OnUpdateAvailable(callback: Option<CallbackId>)
      modifies this
      ensures updateCallback == callback
      ensures updateAvailable == old(updateAvailable) && registration == old(registration)
      ensures waitingWorker == old(waitingWorker) && observed == old(observed)
    {
      updateCallback := callback;
    }

    /**
     * `applyUpdate`: with no waiting worker nothing happens. Otherwise both
     * session flags are set, the waiting worker is told to skip waiting once
     * and one reload is scheduled.
     *
     * `writesOk` is how many `sessionStorage.setItem` calls succeed before one
     * throws (a full quota or blocked storage); 2 or more means none throws.
     * A throwing write ends `applyUpdate` there: what was written before it
     * stays, and nothing is posted or scheduled. `completed` is false exactly
     * when the call ended in such an exception.
     */
    method ApplyUpdate(page: Page, writesOk: nat) returns (completed: bool)
      modifies page
      ensures completed <==> waitingWorker.None? || writesOk >= 2
      ensures waitingWorker.None? || writesOk == 0 ==> page.session == old(page.session) && page.log == old(page.log)
      ensures waitingWorker.Some? && writesOk == 1 ==>
        page.session == old(page.session)[IS_UPDATING := "true"] && page.log == old(page.log)
      ensures waitingWorker.Some? && writesOk >= 2 ==>
        page.session == old(page.session)[IS_UPDATING := "true"][SHOW_NEWS := "true"] &&
        page.log == old(page.log) + [PostToWorker(waitingWorker.value, SKIP_WAITING), ScheduleReload(RELOAD_DELAY_MS)]
    {
      if waitingWorker.None? {
        return true;
      }
      if writesOk == 0 {
        return false;
      }
      page.session := page.session[IS_UPDATING := "true"];
      if writesOk == 1 {
        return false;
      }
      page.session := page.session[SHOW_NEWS := "true"];
      page.log := page.log + [PostToWorker(waitingWorker.value, SKIP_WAITING)];
      page.log := page.log + [ScheduleReload(RELOAD_DELAY_MS)];
      completed := true;
    }

    /** `checkForUpdates`: asks for an update check only when registered. */
    method CheckForUpdates(page: Page)
      modifies page
      ensures page.session == old(page.session)
      ensures page.log == old(page.log) + if registration.Some? then [UpdateCheck] else []
    {
      if registration.Some? {
        page.log := page.log + [UpdateCheck];
      }
    }
  }

  /**
   * The window `load` handler: a load that follows an update consumes the
   * `isUpdating` flag and keeps the overlay up longer; any other load leaves
   * the session alone. When `sessionStorage` is not accessible (`getItem`
   * throws), the handler ends at once and no overlay hide is scheduled.
   */
  method OnLoad(page: Page, accessible: bool)
    modifies page
    ensures !accessible ==> page.session == old(page.session) && page.log == old(page.log)
    ensures accessible && FlagSet(old(page.session), IS_UPDATING) ==>
      page.session == old(page.session) - {IS_UPDATING} &&
      page.log == old(page.log) + [ScheduleHideOverlay(UPDATE_HIDE_DELAY_MS)]
    ensures accessible && !FlagSet(old(page.session), IS_UPDATING) ==>
      page.session == old(page.session) &&
      page.log == old(page.log) + [ScheduleHideOverlay(NORMAL_HIDE_DELAY_MS)]
  {
    if !accessible {
      return;
    }
    if IS_UPDATING in page.session && page.session[IS_UPDATING] == "true" {
      page.session := page.session - {IS_UPDATING};
      page.log := page.log + [ScheduleHideOverlay(UPDATE_HIDE_DELAY_MS)];
    } else {
      page.log := page.log + [ScheduleHideOverlay(NORMAL_HIDE_DELAY_MS)];
    }
  }

  /**
   * First-install silence: with no controller, a new worker that installs
   * leaves the manager with no update, no waiting worker and nothing
   * scheduled beyond registration and polling.
   */
  method FirstInstallIsSilent(href: Option<string>, reg: RegistrationId, worker: WorkerId)
    returns (available: bool, waiting: Option<WorkerId>, log: seq<PageEffect>)
    ensures !available && waiting == None
    ensures log == [RegistrationFor(href), StartPolling(POLL_INTERVAL_MS), UpdateCheck]
  {
    var page := new Page(map[]);
    var manager := new UpdateManager();
    manager.Init(page, true, href, Some(reg));
    manager.OnUpdateFound(false, worker);
    manager.OnStateChange(page, worker, Installing);
    manager.OnStateChange(page, worker, Installed);
    var _ := manager.ApplyUpdate(page, 2);
    available, waiting, log := manager.updateAvailable, manager.waitingWorker, page.log;
  }

  /**
   * A failed registration leaves the manager inert: it stays unregistered and
   * later worker events, update checks and `applyUpdate` do nothing.
   */
  method FailedRegistrationIsInert(href: Option<string>, worker: WorkerId)
    returns (registered: bool, available: bool, log: seq<PageEffect>, session: map<string, string>)
    ensures !registered && !available
    ensures log == [RegistrationFor(href)]
    ensures session == map[]
  {
    var page := new Page(map[]);
    var manager := new UpdateManager();
    manager.Init(page, true, href, None);
    manager.OnUpdateFound(true, worker);
    manager.OnStateChange(page, worker, Installed);
    manager.CheckForUpdates(page);
    var _ := manager.ApplyUpdate(page, 2);
    registered, available, log, session := manager.registration.Some?, manager.updateAvailable, page.log, page.session;
  }

  /**
   * The full hand-off: with a controller present, a new worker reaching
   * `installed` is told to skip waiting exactly once, one reload is
   * scheduled, and the reloaded page consumes `isUpdating`, keeps
   * `showNewsAfterUpdate` and holds the overlay for the longer delay.
   */
  method UpdateHandOff(href: Option<string>, reg: RegistrationId, worker: WorkerId, tab: map<string, string>)
    returns (before: seq<PageEffect>, after: seq<PageEffect>, session: map<string, string>)
    ensures before == [RegistrationFor(href), StartPolling(POLL_INTERVAL_MS), UpdateCheck,
                       ScheduleApplyUpdate(APPLY_DELAY_MS), PostToWorker(worker, SKIP_WAITING), ScheduleReload(RELOAD_DELAY_MS)]
    ensures after == [ScheduleHideOverlay(UPDATE_HIDE_DELAY_MS)]
    ensures IS_UPDATING !in session && FlagSet(session, SHOW_NEWS)
    ensures forall k :: k in tab && k != IS_UPDATING && k != SHOW_NEWS ==> k in session && session[k] == tab[k]
  {
    var page := new Page(tab);
    var manager := new UpdateManager();
    manager.Init(page, true, href, Some(reg));
    manager.OnUpdateFound(true, worker);
    manager.OnStateChange(page, worker, Installing);
    manager.OnStateChange(page, worker, Installed);
    var _ := manager.ApplyUpdate(page, 2);
    before := page.log;
    // The reload: a new page in the same tab sees the same session storage.
    var reloaded := new Page(page.session);
    OnLoad(reloaded, true);
    after, session := reloaded.log, reloaded.session;
  }

  /**
   * A full quota stops the hand-off: when the first `setItem` in
   * `applyUpdate` throws, the waiting worker is never told to skip waiting,
   * no reload is scheduled and the session is as it was, while the manager
   * still holds the update so a later `applyUpdate` can retry it.
   */
  method QuotaStopsHandOff(href: Option<string>, reg: RegistrationId, worker: WorkerId, tab: map<string, string>)
    returns (completed: bool, available: bool, waiting: Option<WorkerId>, log: seq<PageEffect>, session: map<string, string>)
    ensures !completed && available && waiting == Some(worker)
    ensures log == [RegistrationFor(href), StartPolling(POLL_INTERVAL_MS), UpdateCheck, ScheduleApplyUpdate(APPLY_DELAY_MS)]
    ensures session == tab
  {
    var page := new Page(tab);
    var manager := new UpdateManager();
    manager.Init(page, true, href, Some(reg));
    manager.OnUpdateFound(true, worker);
    manager.OnStateChange(page, worker, Installed);
    completed := manager.ApplyUpdate(page, 0);
    available, waiting, log, session := manager.updateAvailable, manager.waitingWorker, page.log, page.session;
  }
}
