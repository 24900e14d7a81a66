/**
 * The service across crashes and restarts: one call at a time inside the mutex, advancing by micro-steps,
 * the process dying at any boundary and coming back with whatever the disk then holds.
 */
module CrashSafety {
  import opened Types
  import opened Provisioning
  import C = Codec
  import Vin

  /**
   * What has happened so far, beside the state. Calls are numbered as they enter, from 1; uids are those the
   * provider gave when it was asked; firstSaves are the VINs of the first-stage binding saves that reached the disk;
   * bindingBy and configBy number the calls that last saved the two records, 0 standing for what was there before;
   * bound holds the calls whose save as BOUND went through, readBack the bytes each call read back equal.
   */
  datatype Record = Record(
    entered: nat,
    uids: set<string>,
    firstSaves: seq<string>,
    bindingBy: nat,
    bound: set<nat>,
    configBy: nat,
    readBack: set<(nat, seq<uint8>)>)

  const NO_RECORD := Record(0, {}, [], 0, {}, 0, {})

  datatype Core = Core(call: Call, frame: Frame, record: Record)

  datatype Event =
    | Enter(call: Call)
    | Advance
    | Leave
    | Shutdown
    | Crash(enableWriteProtection: bool)
    | Skip

  function SetShuttingDown(m: Mem): Mem {
    m.(shuttingDown := true)
  }

  /** The record after the call in frame f has made its micro-step to next. */
  function Noted(r: Record, c: Call, f: Frame, next: Frame): Record {
    match f.stage
    case ReadUid(_) => if next.stage.LoadExisting? then r.(uids := r.uids + {c.env.uid.uid}) else r
    case FirstSave(b) =>
      if next.stage.SecondSave? then r.(firstSaves := r.firstSaves + [b.vin], bindingBy := r.entered) else r
    case SecondSave(_) =>
      if next.stage.Readback? then r.(bindingBy := r.entered, bound := r.bound + {r.entered}) else r
    case ConfigSave(_) => if next.stage.ConfigReadback? then r.(configBy := r.entered) else r
    case ConfigReadback(_) =>
      if next.stage.VerifiedSave? && f.disk.config.Some?
      then r.(readBack := r.readBack + {(r.entered, f.disk.config.value.variantCoding)}) else r
    case VerifiedSave(_) =>
      if WriteCode(f.mem.writeProtected, c.env.secondSave) == Success then r.(configBy := r.entered) else r
    case _ => r
  }

  function Step(k: Core, e: Event): Core {
    match e
    case Enter(call) =>
      if k.frame.stage.Idle?
      then Core(call, k.frame.(stage := Entry), k.record.(entered := k.record.entered + 1)) else k
    case Advance =>
      var next := Micro(k.call, k.frame);
      Core(k.call, next, Noted(k.record, k.call, k.frame, next))
    case Leave => if k.frame.stage.Done? then k.(frame := k.frame.(stage := Idle)) else k
    case Shutdown => k.(frame := k.frame.(mem := SetShuttingDown(k.frame.mem)))
    case Crash(enable) => k.(frame := Frame(Idle, Booted(enable), k.frame.disk))
    case Skip => k
  }

  function Run(k: Core, events: seq<Event>): Core
    decreases events
  {
    if events == [] then k else Run(Step(k, events[0]), events[1..])
  }

  lemma {:induction false} RunInTwoParts(k: Core, before: seq<Event>, after: seq<Event>)
    ensures Run(k, before + after) == Run(Run(k, before), after)
    decreases before
  {
    if before == [] {
      assert before + after == after;
    } else {
      assert (before + after)[1..] == before[1..] + after;
      RunInTwoParts(Step(k, before[0]), before[1..], after);
    }
  }

  ghost predicate CallsSatisfy(events: seq<Event>, p: Call -> bool) {
    forall i :: 0 <= i < |events| && events[i].Enter? ==> p(events[i].call)
  }

  ghost predicate InsideSatisfies(k: Core, p: Call -> bool) {
    k.frame.stage.Idle? || p(k.call)
  }

  /** A process just started over some disk. */
  predicate JustBooted(k: Core) {
    k.frame.stage.Idle? && k.frame.mem == Booted(k.frame.mem.enableWriteProtection)
  }

  predicate FreshDevice(k: Core) {
    JustBooted(k) && k.frame.disk == EMPTY_DISK && k.record == NO_RECORD
  }

  // ----- Assumptions on single calls -----

  predicate ProtectionLoads(c: Call) {
    c.op.Initialize? ==> c.env.protectionLoads
  }

  predicate HonestSaves(c: Call) {
    HonestEnv(c.env)
  }

  /** Only the two saves of the binding are trusted. */
  predicate HonestRecords(c: Call) {
    !c.env.firstSave.Garbled? && !c.env.secondSave.Garbled?
  }

  /** The failure codes SeUidProvider documents: 1008, 1009 and 1010. */
  predicate DocumentedUidFailure(c: Call) {
    !c.env.uid.success ==>
      c.env.uid.errorCode in {SeUidReadFailed, SeMissingConfigNotFound, SeMissingProductionFailClosed}
  }

  predicate Honest(c: Call) {
    ProtectionLoads(c) && HonestSaves(c)
  }

  // ----- Freeze -----

  predicate Underway(stage: Stage) {
    !Resting(stage) && !stage.Entry? && !stage.OpenStore? && !stage.LoadProtection?
  }

  /** What keeps a locked disk locked, with arbitrary saves. */
  predicate Guarded(c: Call, f: Frame) {
    && (f.stage.OpenStore? || f.stage.LoadProtection? ==> c.op.Initialize? && !f.mem.initialized)
    && (Underway(f.stage) ==> f.mem.initialized)
    && (f.stage.SecondSave? || f.stage.Readback? || f.stage.ProtectionSave? ==> !f.mem.writeProtected)
    && (f.mem.initialized && f.disk.protection ==> f.mem.writeProtected || f.stage.SetFlag?)
  }

  lemma GuardedMicro(c: Call, f: Frame)
    requires Guarded(c, f) && ProtectionLoads(c)
    ensures Guarded(c, Micro(c, f))
    ensures f.disk.protection ==> Micro(c, f).disk == f.disk
  {
  }

  lemma {:induction false} GuardedRun(k: Core, events: seq<Event>)
    requires Guarded(k.call, k.frame) && InsideSatisfies(k, ProtectionLoads)
    requires CallsSatisfy(events, ProtectionLoads)
    ensures Guarded(Run(k, events).call, Run(k, events).frame)
    ensures InsideSatisfies(Run(k, events), ProtectionLoads)
    ensures k.frame.disk.protection ==> Run(k, events).frame.disk == k.frame.disk
    decreases events
  {
    if events != [] {
      if events[0].Advance? && !k.frame.stage.Idle? {
        GuardedMicro(k.call, k.frame);
      }
      GuardedRun(Step(k, events[0]), events[1..]);
    }
  }

  /**
   * Once "protection" is "1" on disk nothing on disk changes again: not by any calls, whatever their saves do,
   * not by crashes between any two micro-steps, not by restarts with any configuration. Only initialize must
   * read the protection key faithfully.
   */
  lemma FrozenForever(k: Core, before: seq<Event>, after: seq<Event>)
    requires JustBooted(k)
    requires CallsSatisfy(before, ProtectionLoads) && CallsSatisfy(after, ProtectionLoads)
    requires Run(k, before).frame.disk.protection
    ensures Run(k, before + after).frame.disk == Run(k, before).frame.disk
  {
    GuardedRun(k, before);
    GuardedRun(Run(k, before), after);
    RunInTwoParts(k, before, after);
  }

  /** Initialization restores the flag exactly when the key is read or was not "1" in the first place. */
  lemma FlagRestoredIffLoaded(m: Mem, d: Disk, e: Env)
    requires !m.initialized && e.storeOpens
    ensures RunInitialize(m, d, e).mem.writeProtected == d.protection <==> e.protectionLoads || !d.protection
  {
  }

  // ----- The shape of stored bindings -----

  predicate Provisioned(uids: set<string>, b: VehicleBinding) {
    && Vin.Valid(b.vin)
    && b.ecuUid in uids
    && b.sn == "" && b.lastError == "" && b.retryCount == 0 && !b.locked
    && (b.state == VIN_WRITTEN || b.state == BOUND)
  }

  predicate ShapedStage(uids: set<string>, stage: Stage) {
    match stage
    case LoadForAuthorization(vin) => Vin.Valid(vin)
    case ReadUid(vin) => Vin.Valid(vin)
    case LoadExisting(vin, uid) => Vin.Valid(vin) && uid in uids
    case FirstSave(b) => Provisioned(uids, b)
    case SecondSave(b) => Provisioned(uids, b)
    case _ => true
  }

  predicate Shaped(k: Core) {
    && (k.frame.disk.binding.Some? ==> Provisioned(k.record.uids, k.frame.disk.binding.value))
    && ShapedStage(k.record.uids, k.frame.stage)
    && (DocumentedUidFailure(k.call) ==> k.frame.stage != Done(Code(VinConflictUnauthorized)))
  }

  lemma ShapedEntry(k: Core)
    requires Shaped(k) && k.frame.stage.Entry?
    ensures Shaped(Step(k, Advance))
  {
  }

  lemma ShapedSave(k: Core)
    requires Shaped(k) && HonestRecords(k.call) && (k.frame.stage.FirstSave? || k.frame.stage.SecondSave?)
    ensures Shaped(Step(k, Advance))
  {
  }

  predicate Preparing(stage: Stage) {
    stage.LoadForAuthorization? || stage.ReadUid? || stage.LoadExisting?
  }

  predicate BeforeBound(stage: Stage) {
    stage.Entry? || Preparing(stage) || stage.FirstSave? || stage.SecondSave?
  }

  lemma ShapedPreparing(k: Core)
    requires Shaped(k) && Preparing(k.frame.stage)
    ensures Shaped(Step(k, Advance))
  {
  }

  lemma ShapedRest(k: Core)
    requires Shaped(k) && !BeforeBound(k.frame.stage)
    ensures Shaped(Step(k, Advance))
  {
    OnlySavesChangeTheBinding(k.call, k.frame);
  }

  lemma ShapedStep(k: Core, e: Event)
    requires Shaped(k) && InsideSatisfies(k, HonestRecords) && (e.Enter? ==> HonestRecords(e.call))
    ensures Shaped(Step(k, e)) && InsideSatisfies(Step(k, e), HonestRecords)
  {
    if e.Advance? {
      if k.frame.stage.Entry? {
        ShapedEntry(k);
      } else if k.frame.stage.FirstSave? || k.frame.stage.SecondSave? {
        ShapedSave(k);
      } else if Preparing(k.frame.stage) {
        ShapedPreparing(k);
      } else {
        ShapedRest(k);
      }
    }
  }

  lemma {:induction false} ShapedRun(k: Core, events: seq<Event>)
    requires Shaped(k) && InsideSatisfies(k, HonestRecords) && CallsSatisfy(events, HonestRecords)
    ensures Shaped(Run(k, events))
    decreases events
  {
    if events != [] {
      ShapedStep(k, events[0]);
      ShapedRun(Step(k, events[0]), events[1..]);
    }
  }

  /**
   * Every persisted binding has the shape write_vin gives it and a UID the provider gave when asked, at every
   * crash point of every run, whether or not initialize can read the protection key.
   */
  lemma StoredBindingsAreProvisioned(k: Core, events: seq<Event>)
    requires FreshDevice(k) && CallsSatisfy(events, HonestRecords)
    ensures var k' := Run(k, events);
            k'.frame.disk.binding.Some? ==> Provisioned(k'.record.uids, k'.frame.disk.binding.value)
  {
    ShapedRun(k, events);
  }

  /** In no reachable state does authorize_rewrite differ from write_vin, whatever either finds on disk. */
  lemma AuthorizeRewriteIsWriteVin(k: Core, events: seq<Event>, vin: string, e: Env)
    requires FreshDevice(k) && CallsSatisfy(events, HonestRecords)
    ensures var f := Run(k, events).frame;
            RunAuthorizeRewrite(f.mem, f.disk, vin, e) == RunWriteVin(f.mem, f.disk, vin, e)
  {
    ShapedRun(k, events);
  }

  /** The conflict error is never returned, although the interface documents it for authorize_rewrite. */
  lemma ConflictIsNeverReported(k: Core, events: seq<Event>)
    requires FreshDevice(k) && CallsSatisfy(events, HonestRecords)
    requires DocumentedUidFailure(Run(k, events).call)
    ensures Run(k, events).frame.stage != Done(Code(VinConflictUnauthorized))
  {
    ShapedRun(k, events);
  }

  /**
   * In every reachable state the sn that read_binding answers with is the provider's or empty, and the rest of
   * the answer is the stored binding: a failed SN read neither borrows the ECU UID nor spoils the binding.
   */
  lemma AnsweredSnIsTheProviders(k: Core, events: seq<Event>, e: Env)
    requires FreshDevice(k) && CallsSatisfy(events, HonestRecords)
    requires var f := Run(k, events).frame;
             f.mem.initialized && f.disk.binding.Some? && e.readLoads
    ensures var f := Run(k, events).frame;
            RunRead(ReadBinding, f.mem, f.disk, e).result ==
            BindingIs(f.disk.binding.value.(sn := if e.sn.success then e.sn.sn else ""))
  {
    ShapedRun(k, events);
  }

  // ----- Locked implies bound -----

  predicate LockedImpliesBound(d: Disk) {
    d.protection ==> d.binding.Some? && d.binding.value.state == BOUND
  }

  predicate Sound(c: Call, f: Frame) {
    && Guarded(c, f)
    && LockedImpliesBound(f.disk)
    && (f.mem.initialized && f.mem.writeProtected ==> f.disk.protection)
    && (f.stage.Readback? || f.stage.ProtectionSave? ==>
          f.disk.binding.Some? && f.disk.binding.value.state == BOUND)
    && (f.stage.SetFlag? ==> f.disk.protection)
  }

  lemma SoundSave(c: Call, f: Frame)
    requires Sound(c, f) && Honest(c)
    requires f.stage.FirstSave? || f.stage.SecondSave? || f.stage.ProtectionSave?
    ensures Sound(c, Micro(c, f))
  {
    GuardedMicro(c, f);
  }

  lemma SoundMicro(c: Call, f: Frame)
    requires Sound(c, f) && Honest(c)
    ensures Sound(c, Micro(c, f))
  {
    if f.stage.FirstSave? || f.stage.SecondSave? || f.stage.ProtectionSave? {
      SoundSave(c, f);
    } else {
      GuardedMicro(c, f);
    }
  }

  lemma {:induction false} SoundRun(k: Core, events: seq<Event>)
    requires Sound(k.call, k.frame) && InsideSatisfies(k, Honest) && CallsSatisfy(events, Honest)
    ensures Sound(Run(k, events).call, Run(k, events).frame)
    decreases events
  {
    if events != [] {
      if events[0].Advance? && !k.frame.stage.Idle? {
        SoundMicro(k.call, k.frame);
      }
      SoundRun(Step(k, events[0]), events[1..]);
    }
  }

  /** At every crash point of every run: "1" on disk means a bound VIN that validates and a provided UID. */
  lemma LockedImpliesBoundEverywhere(k: Core, events: seq<Event>)
    requires FreshDevice(k) && CallsSatisfy(events, Honest)
    ensures var k' := Run(k, events);
            var d := k'.frame.disk;
            d.protection ==>
              && d.binding.Some?
              && d.binding.value.state == BOUND
              && Vin.Valid(d.binding.value.vin)
              && d.binding.value.ecuUid in k'.record.uids
  {
    SoundRun(k, events);
    ShapedRun(k, events);
  }

  /** Between calls the flag in memory says what is on disk, from the first successful initialize on. */
  lemma FlagAgreesWithDisk(k: Core, events: seq<Event>)
    requires FreshDevice(k) && CallsSatisfy(events, Honest)
    ensures var f := Run(k, events).frame;
            Resting(f.stage) && f.mem.initialized ==> f.mem.writeProtected == f.disk.protection
  {
    SoundRun(k, events);
  }

  // ----- What readers see -----

  /** A binding marked VIN_WRITTEN is the work of a call that has not had it marked BOUND. */
  predicate Authored(k: Core) {
    && k.record.bindingBy <= k.record.entered
    && (forall n :: n in k.record.bound ==> n <= k.record.entered)
    && (!Settled(k.frame.disk) ==> k.record.bindingBy !in k.record.bound)
    && (BeforeBound(k.frame.stage) ==> k.record.entered !in k.record.bound)
    && (k.frame.stage.Entry? || k.frame.stage.LoadForReader? ==> k.record.bindingBy < k.record.entered)
  }

  lemma OnlySavesChangeTheBinding(c: Call, f: Frame)
    requires !f.stage.FirstSave? && !f.stage.SecondSave?
    ensures Micro(c, f).disk.binding == f.disk.binding
    ensures !Micro(c, f).stage.SecondSave?
  {
  }

  lemma AuthoredSave(k: Core)
    requires Authored(k) && HonestRecords(k.call) && (k.frame.stage.FirstSave? || k.frame.stage.SecondSave?)
    ensures Authored(Step(k, Advance))
  {
  }

  lemma AuthoredStep(k: Core, e: Event)
    requires Authored(k) && InsideSatisfies(k, HonestRecords) && (e.Enter? ==> HonestRecords(e.call))
    ensures Authored(Step(k, e)) && InsideSatisfies(Step(k, e), HonestRecords)
  {
    if e.Advance? {
      if k.frame.stage.FirstSave? || k.frame.stage.SecondSave? {
        AuthoredSave(k);
      } else {
        OnlySavesChangeTheBinding(k.call, k.frame);
      }
    }
  }

  lemma {:induction false} AuthoredRun(k: Core, events: seq<Event>)
    requires Authored(k) && InsideSatisfies(k, HonestRecords) && CallsSatisfy(events, HonestRecords)
    ensures Authored(Run(k, events)) && InsideSatisfies(Run(k, events), HonestRecords)
    decreases events
  {
    if events != [] {
      AuthoredStep(k, events[0]);
      AuthoredRun(Step(k, events[0]), events[1..]);
    }
  }

  /** A call that is over without having bound will never have bound. */
  lemma {:induction false} OverIsOver(k: Core, n: nat, events: seq<Event>)
    requires n < k.record.entered && n !in k.record.bound
    ensures n !in Run(k, events).record.bound
    decreases events
  {
    if events != [] {
      OverIsOver(Step(k, events[0]), n, events[1..]);
    }
  }

  /**
   * A reader that answers with VIN_WRITTEN has read the binding of a call that never has it marked BOUND, neither
   * before nor in any continuation: the intermediate state of a call that goes on to complete is not seen. The
   * device may start with any disk; crashes and failing saves come anywhere.
   */
  lemma ReadersSeeNoCompletingWrite(k: Core, before: seq<Event>, after: seq<Event>)
    requires JustBooted(k) && k.record == NO_RECORD && CallsSatisfy(before, HonestRecords)
    requires Run(k, before).frame.stage.LoadForReader?
    ensures var reading := Run(k, before);
            var answered := Step(reading, Advance);
            && answered.frame.stage.Done?
            && (!SettledResult(answered.frame.stage.result) ==>
                  reading.record.bindingBy !in Run(answered, after).record.bound)
  {
    AuthoredRun(k, before);
    var reading := Run(k, before);
    if !Settled(reading.frame.disk) {
      OverIsOver(Step(reading, Advance), reading.record.bindingBy, after);
    }
  }

  // ----- The rewrite counter -----

  /** How many of the last entries of a history are equal to its very last one. */
  function TrailingRun(history: seq<string>): nat {
    if |history| == 0 then 0
    else if |history| == 1 then 1
    else if history[|history| - 2] == history[|history| - 1] then TrailingRun(history[..|history| - 1]) + 1
    else 1
  }

  predicate FaithfulBindings(c: Call) {
    HonestRecords(c) && c.env.existingLoads
  }

  predicate CounterOnDisk(history: seq<string>, d: Disk) {
    match d.binding
    case None => history == []
    case Some(b) =>
      && history != []
      && b.vin == history[|history| - 1]
      && b.rewriteCount == (TrailingRun(history) - 1) % 0x1_0000_0000
  }

  predicate Counted(k: Core) {
    && CounterOnDisk(k.record.firstSaves, k.frame.disk)
    && match k.frame.stage
       case FirstSave(b) =>
         b.rewriteCount == (if k.frame.disk.binding.Some? && k.frame.disk.binding.value.vin == b.vin
                            then (k.frame.disk.binding.value.rewriteCount + 1) % 0x1_0000_0000 else 0)
       case SecondSave(b) => k.frame.disk.binding == Some(C.StoredBinding(b))
       case _ => true
  }

  lemma TrailingRunGrows(history: seq<string>, vin: string)
    ensures TrailingRun(history + [vin]) ==
            if history != [] && history[|history| - 1] == vin then TrailingRun(history) + 1 else 1
  {
    var longer := history + [vin];
    assert longer[..|longer| - 1] == history;
  }

  lemma CountedFirstSave(k: Core)
    requires Counted(k) && k.frame.stage.FirstSave? && HonestRecords(k.call)
    ensures Counted(Step(k, Advance))
  {
    TrailingRunGrows(k.record.firstSaves, k.frame.stage.binding.vin);
    CounterWraps(TrailingRun(k.record.firstSaves));
  }

  lemma CounterWraps(length: nat)
    ensures ((length - 1) % 0x1_0000_0000 + 1) % 0x1_0000_0000 == length % 0x1_0000_0000
  {
  }

  lemma CountedStep(k: Core, e: Event)
    requires Counted(k) && InsideSatisfies(k, FaithfulBindings)
    requires e.Enter? ==> FaithfulBindings(e.call)
    ensures Counted(Step(k, e)) && InsideSatisfies(Step(k, e), FaithfulBindings)
  {
    if e.Advance? && k.frame.stage.FirstSave? {
      CountedFirstSave(k);
    } else if e.Advance? && !k.frame.stage.SecondSave? {
      OnlySavesChangeTheBinding(k.call, k.frame);
    }
  }

  lemma {:induction false} CountedRun(k: Core, events: seq<Event>)
    requires Counted(k) && InsideSatisfies(k, FaithfulBindings) && CallsSatisfy(events, FaithfulBindings)
    ensures Counted(Run(k, events))
    decreases events
  {
    if events != [] {
      CountedStep(k, events[0]);
      CountedRun(Step(k, events[0]), events[1..]);
    }
  }

  /**
   * The stored counter is, modulo 2^32, one less than the number of times in a row the present VIN has been
   * written, across failed second saves, crashes and restarts.
   */
  lemma RewriteCounterIsHistory(k: Core, events: seq<Event>)
    requires FreshDevice(k) && CallsSatisfy(events, FaithfulBindings)
    ensures CounterOnDisk(Run(k, events).record.firstSaves, Run(k, events).frame.disk)
  {
    CountedRun(k, events);
  }

  // ----- Verified configurations -----

  /** A verified configuration belongs to a call that has read its very bytes back. */
  predicate Confirmed(k: Core) {
    && (k.frame.disk.config.Some? && k.frame.disk.config.value.verified ==>
          (k.record.configBy, k.frame.disk.config.value.variantCoding) in k.record.readBack)
    && match k.frame.stage
       case ConfigSave(config) => !config.verified
       case ConfigReadback(config) => !config.verified
       case VerifiedSave(config) => (k.record.entered, config.variantCoding) in k.record.readBack
       case _ => true
  }

  lemma ConfirmedStep(k: Core, e: Event)
    requires Confirmed(k) && InsideSatisfies(k, HonestRecords)
    requires e.Enter? ==> HonestRecords(e.call)
    ensures Confirmed(Step(k, e)) && InsideSatisfies(Step(k, e), HonestRecords)
  {
  }

  lemma {:induction false} ConfirmedRun(k: Core, events: seq<Event>)
    requires Confirmed(k) && InsideSatisfies(k, HonestRecords) && CallsSatisfy(events, HonestRecords)
    ensures Confirmed(Run(k, events))
    decreases events
  {
    if events != [] {
      ConfirmedStep(k, events[0]);
      ConfirmedRun(Step(k, events[0]), events[1..]);
    }
  }

  /**
   * A configuration marked verified holds the bytes that the very call that wrote it had read back equal, across
   * other calls, failures, crashes and restarts.
   */
  lemma VerifiedMeansReadBack(k: Core, events: seq<Event>)
    requires FreshDevice(k) && CallsSatisfy(events, HonestRecords)
    ensures var k' := Run(k, events);
            var config := k'.frame.disk.config;
            config.Some? && config.value.verified ==>
              (k'.record.configBy, config.value.variantCoding) in k'.record.readBack
  {
    ConfirmedRun(k, events);
  }
}
