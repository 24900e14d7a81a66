/**
 * The composition root (src/prov_application.cpp): who may outlive whom. Components hold raw pointers and
 * references to each other, modelled by the identity of the object they were given.
 */
module Application {
  import opened Types

  datatype InitStage = NoStage | StoreOpened | ProvidersReady | ServiceReady | IpcStarted

  /** A service remembers the providers it was built on; the store it refers to is the one optional slot. */
  datatype Service = Service(id: nat, uidProvider: nat, snProvider: nat, initialized: bool, shuttingDown: bool)

  datatype Dispatcher = Dispatcher(id: nat, service: nat)

  /** A running server calls the dispatcher its handler captured. */
  datatype Server = Stopped | Running(handler: nat)

  datatype Parts = Parts(
    stage: InitStage,
    store: bool,
    uidProvider: Option<nat>,
    snProvider: Option<nat>,
    service: Option<Service>,
    dispatcher: Option<Dispatcher>,
    server: Option<Server>)

  const NOTHING := Parts(NoStage, false, None, None, None, None, None)

  /** Which of the steps of initialize succeed. */
  datatype Setup = Setup(configAvailable: bool, storeOpens: bool, serviceStarts: bool, serverStarts: bool)

  // ----- Lifetime rules -----

  predicate ServerRuns(p: Parts) {
    p.server.Some? && p.server.value.Running?
  }

  /** The objects the service refers to are the ones that are alive. */
  predicate Anchored(p: Parts) {
    && p.service.Some?
    && p.store
    && p.uidProvider == Some(p.service.value.uidProvider)
    && p.snProvider == Some(p.service.value.snProvider)
  }

  /**
   * A running server has its dispatcher, a dispatcher its service, an initialized service its store and providers.
   * Only a service that failed to initialize may be left without them, and nothing can call it. Once up, the server
   * is stopped only under a service that already refuses writes.
   */
  predicate Safe(p: Parts) {
    && (ServerRuns(p) ==> p.dispatcher.Some? && p.server.value.handler == p.dispatcher.value.id)
    && (p.dispatcher.Some? ==>
          && p.service.Some?
          && p.dispatcher.value.service == p.service.value.id
          && p.service.value.initialized)
    && (p.service.Some? && p.service.value.initialized ==> Anchored(p))
    && (p.stage == IpcStarted && p.service.Some? && !ServerRuns(p) ==> p.service.value.shuttingDown)
  }

  /** Between lifecycle calls the application is either up or down. */
  predicate Up(p: Parts) {
    p.stage == IpcStarted && Safe(p) && ServerRuns(p)
  }

  /** Down, nothing is held but a stopped server and, after a failed start, a service nobody can reach. */
  predicate Down(p: Parts) {
    p == NOTHING.(server := p.server, service := p.service) && !ServerRuns(p) &&
    (p.service.Some? ==> !p.service.value.initialized)
  }

  predicate Orphaned(p: Parts) {
    p.service.Some? && !Anchored(p)
  }

  function AfterCleanup(p: Parts): Parts {
    NOTHING.(server := if p.server.Some? then Some(Stopped) else None)
  }

  /** Cleanup releases everything but a stopped server; a second one changes nothing. */
  lemma CleanupIsFinal(p: Parts)
    ensures Down(AfterCleanup(p)) && !Orphaned(AfterCleanup(p))
    ensures AfterCleanup(p).server == (if p.server.Some? then Some(Stopped) else None)
    ensures AfterCleanup(AfterCleanup(p)) == AfterCleanup(p)
  {
  }

  class ProvApplication {
    var initStage: InitStage
    var store: bool
    var uidProvider: Option<nat>
    var snProvider: Option<nat>
    var service: Option<Service>
    var dispatcher: Option<Dispatcher>
    var ipcServer: Option<Server>
    var nextId: nat

    // The states that broke the lifetime rules, recorded after every assignment.
    ghost var violations: seq<Parts>

    constructor ()
      ensures Snapshot() == NOTHING && violations == []
    {
      initStage, store, uidProvider, snProvider := NoStage, false, None, None;
      service, dispatcher, ipcServer, nextId := None, None, None, 0;
      violations := [];
    }

    function Snapshot(): Parts
      reads this
    {
      Parts(initStage, store, uidProvider, snProvider, service, dispatcher, ipcServer)
    }

    ghost method Record()
      modifies this`violations
      ensures violations == if Safe(Snapshot()) then old(violations) else old(violations) + [Snapshot()]
    {
      if !Safe(Snapshot()) {
        violations := violations + [Snapshot()];
      }
    }

    method Allocate() returns (id: nat)
      modifies this`nextId
      ensures id == old(nextId) && nextId == id + 1
    {
      id := nextId;
      nextId := nextId + 1;
    }

    /**
     * From a stopped application every state on the way is safe. From a running one the very first assignment
     * destroys the store under the service, unless the configuration is missing and nothing is done.
     */
    method Initialize(setup: Setup) returns (ok: bool)
      requires Up(Snapshot()) || Down(Snapshot())
      modifies this
      ensures old(violations) <= violations
      ensures Down(old(Snapshot())) ==> violations == old(violations)
      ensures Up(old(Snapshot())) && setup.configAvailable ==> violations != old(violations)
      ensures !setup.configAvailable ==> !ok && violations == old(violations) && Snapshot() == old(Snapshot())
      ensures Down(old(Snapshot())) ==>
                && (ok <==> setup == Setup(true, true, true, true))
                && (ok ==> Up(Snapshot()))
                && (!ok ==> Down(Snapshot()))
                && (!ok && setup.configAvailable && setup.storeOpens && setup.serviceStarts ==> ipcServer.None?)
                && (!(setup.configAvailable && setup.storeOpens && setup.serviceStarts) ==>
                      ipcServer == old(ipcServer))
                && (Orphaned(Snapshot()) <==>
                      || (setup.configAvailable && setup.storeOpens && !setup.serviceStarts)
                      || (!(setup.configAvailable && setup.storeOpens) && old(Snapshot()).service.Some?))
    {
      if !setup.configAvailable {
        return false;
      }
      ok := Assemble(setup);
    }

    method Assemble(setup: Setup) returns (ok: bool)
      requires (Up(Snapshot()) || Down(Snapshot())) && setup.configAvailable
      modifies this
      ensures old(violations) <= violations
      ensures Down(old(Snapshot())) ==> violations == old(violations)
      ensures Up(old(Snapshot())) ==> violations != old(violations)
      ensures Down(old(Snapshot())) ==>
                && (ok <==> setup == Setup(true, true, true, true))
                && (ok ==> Up(Snapshot()))
                && (!ok ==> Down(Snapshot()))
                && (!ok && setup.storeOpens && setup.serviceStarts ==> ipcServer.None?)
                && (!(setup.storeOpens && setup.serviceStarts) ==> ipcServer == old(ipcServer))
                && (Orphaned(Snapshot()) <==>
                      if setup.storeOpens then !setup.serviceStarts else old(Snapshot()).service.Some?)
    {
      // Store: emplace destroys a previous one first.
      if store {
        store := false;
        Record();
      }
      store := true;
      Record();
      if !setup.storeOpens {
        store := false;
        Record();
        return false;
      }
      initStage := StoreOpened;
      Record();

      ok := AssembleOnStore(setup);
    }

    /** Providers, service, dispatcher and server. */
    method AssembleOnStore(setup: Setup) returns (ok: bool)
      modifies this
      ensures old(violations) <= violations
      ensures old(OnStoreOnly(Snapshot())) ==> violations == old(violations)
      ensures old(OnStoreOnly(Snapshot())) ==>
                && (ok <==> setup.serviceStarts && setup.serverStarts)
                && (ok ==> Up(Snapshot()))
                && (!ok ==> Down(Snapshot()))
                && (!ok && setup.serviceStarts ==> ipcServer.None?)
                && (!setup.serviceStarts ==> ipcServer == old(ipcServer))
                && (Orphaned(Snapshot()) <==> !setup.serviceStarts)
    {
      var uid, sn := CreateProviders();
      var id := Allocate();
      service := Some(Service(id, uid, sn, false, false));
      Record();
      if !setup.serviceStarts {
        RollbackInitialization();
        return false;
      }
      service := Some(Service(id, uid, sn, true, false));
      Record();
      initStage := ServiceReady;
      Record();

      ok := StartServing(setup.serverStarts, id);
    }

    method CreateProviders() returns (uid: nat, sn: nat)
      modifies this
      ensures Snapshot() == old(Snapshot()).(stage := ProvidersReady, uidProvider := Some(uid), snProvider := Some(sn))
      ensures old(violations) <= violations
      ensures old(Safe(Snapshot()) && (service.Some? ==> !service.value.initialized)) ==> violations == old(violations)
    {
      uid := Allocate();
      uidProvider := Some(uid);
      Record();
      sn := Allocate();
      snProvider := Some(sn);
      Record();
      initStage := ProvidersReady;
      Record();
    }

    method StartServing(serverStarts: bool, serviceId: nat) returns (ok: bool)
      modifies this
      ensures old(violations) <= violations
      ensures old(Serviceable(Snapshot(), serviceId)) ==> violations == old(violations)
      ensures old(Serviceable(Snapshot(), serviceId)) ==>
                && ok == serverStarts
                && (ok ==> Up(Snapshot()))
                && (!ok ==> Down(Snapshot()) && ipcServer.None?)
                && !Orphaned(Snapshot())
    {
      var id := Allocate();
      dispatcher := Some(Dispatcher(id, serviceId));
      Record();
      ipcServer := Some(Stopped);
      Record();
      if !serverStarts {
        ReleaseUnstarted();
        return false;
      }
      ipcServer := Some(Running(id));
      Record();
      initStage := IpcStarted;
      Record();
      return true;
    }

    /** A server that never ran goes with its dispatcher, and then everything the stage says was built. */
    method ReleaseUnstarted()
      modifies this
      ensures old(violations) <= violations
      ensures Snapshot() == AfterRollback(old(Snapshot()).(server := None, dispatcher := None))
      ensures old(Unstarted(Snapshot())) ==> violations == old(violations)
    {
      ipcServer := None;
      Record();
      dispatcher := None;
      Record();
      RollbackInitialization();
    }

    method ReleaseProviders()
      modifies this
      ensures Snapshot() == old(Snapshot()).(snProvider := None, uidProvider := None)
      ensures old(violations) <= violations
      ensures old(Safe(Snapshot()) && (service.Some? ==> !service.value.initialized)) ==> violations == old(violations)
    {
      snProvider := None;
      Record();
      uidProvider := None;
      Record();
    }

    method ReleaseService()
      modifies this
      ensures Snapshot() == old(Snapshot()).(service := None, stage := ProvidersReady)
      ensures old(violations) <= violations
      ensures old(Safe(Snapshot()) && dispatcher.None?) ==> violations == old(violations)
    {
      service := None;
      Record();
      initStage := ProvidersReady;
      Record();
    }

    method ReleaseStore()
      modifies this
      ensures Snapshot() == old(Snapshot()).(store := false, stage := NoStage)
      ensures old(violations) <= violations
      ensures old(Safe(Snapshot()) && (service.Some? ==> !service.value.initialized)) ==> violations == old(violations)
    {
      store := false;
      Record();
      initStage := NoStage;
      Record();
    }

    method StopServer()
      modifies this
      ensures Snapshot() == old(Snapshot()).(server := if old(ipcServer).Some? then Some(Stopped) else None)
      ensures old(violations) <= violations
      ensures old(Safe(Snapshot()) && (service.Some? ==> service.value.shuttingDown)) ==> violations == old(violations)
    {
      if ipcServer.Some? {
        ipcServer := Some(Stopped);
        Record();
      }
    }

    method ReleaseServing()
      modifies this
      ensures Snapshot() == old(Snapshot()).(server := None, dispatcher := None)
      ensures old(violations) <= violations
    {
      StopServer();
      ipcServer := None;
      Record();
      dispatcher := None;
      Record();
    }

    /**
     * Releases in reverse order what the stage says was built, and only that. It is called for a stage that did not
     * complete; its branch for a running server would skip the quiesce.
     */
    method RollbackInitialization()
      modifies this
      ensures old(violations) <= violations
      ensures Snapshot() == AfterRollback(old(Snapshot()))
      ensures old(StageFits(Snapshot())) ==> violations == old(violations)
    {
      if initStage == IpcStarted {
        ReleaseServing();
        initStage := ServiceReady;
        Record();
      }
      if initStage == ServiceReady {
        ReleaseService();
      }
      if initStage == ProvidersReady {
        ReleaseProviders();
        initStage := StoreOpened;
        Record();
      }
      if initStage == StoreOpened {
        ReleaseStore();
      }
    }

    /** Ordered shutdown, safe at every assignment from any safe state and whatever the stage. */
    method Cleanup()
      requires Safe(Snapshot())
      modifies this
      ensures Snapshot() == AfterCleanup(old(Snapshot()))
      ensures violations == old(violations)
    {
      if service.Some? {
        service := Some(service.value.(shuttingDown := true));
        Record();
      }
      StopServer();
      dispatcher := None;
      Record();
      service := None;
      Record();
      ReleaseProviders();
      store := false;
      Record();
      initStage := NoStage;
      Record();
    }
  }

  // ----- Whole lives -----

  datatype LifeCall = Start(setup: Setup) | Stop

  /**
   * Any sequence of starts and stops, a start coming only when the application is down, keeps the lifetime rules
   * at every assignment; and one stop at the end leaves nothing but a stopped server.
   */
  method Live(app: ProvApplication, calls: seq<LifeCall>)
    requires Up(app.Snapshot()) || Down(app.Snapshot())
    modifies app
    ensures app.violations == old(app.violations)
    ensures app.Snapshot() == NOTHING.(server := app.ipcServer) && !ServerRuns(app.Snapshot())
  {
    for i := 0 to |calls|
      invariant Up(app.Snapshot()) || Down(app.Snapshot())
      invariant app.violations == old(app.violations)
    {
      match calls[i]
      case Stop => app.Cleanup();
      case Start(setup) =>
        if app.initStage == NoStage {
          var ok := app.Initialize(setup);
        }
    }
    app.Cleanup();
  }

  function AfterRollback(p: Parts): Parts {
    match p.stage
    case NoStage => p
    case StoreOpened => p.(stage := NoStage, store := false)
    case ProvidersReady => p.(stage := NoStage, store := false, snProvider := None, uidProvider := None)
    case ServiceReady => p.(stage := NoStage, store := false, snProvider := None, uidProvider := None, service := None)
    case IpcStarted => NOTHING
  }

  /** The stage does not lag behind what has been built. */
  predicate StageFits(p: Parts) {
    && Safe(p) && p.stage != IpcStarted
    && (p.stage == ServiceReady ==> p.dispatcher.None?)
    && (p.stage == ProvidersReady || p.stage == StoreOpened ==> p.service.Some? ==> !p.service.value.initialized)
  }

  /** The store is open and everything above it is as a stopped application left it. */
  predicate OnStoreOnly(p: Parts) {
    Down(p.(stage := NoStage, store := false)) && p.stage == StoreOpened && p.store
  }

  predicate Unstarted(p: Parts) {
    p.stage == ServiceReady && Safe(p) && !ServerRuns(p)
  }

  predicate Serviceable(p: Parts, id: nat) {
    && p.stage == ServiceReady && Safe(p) && Anchored(p)
    && p.service.value.id == id && p.service.value.initialized
    && p.dispatcher.None? && !ServerRuns(p)
  }
}
