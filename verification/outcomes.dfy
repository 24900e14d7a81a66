/**
 * What each answer of a write call says about the disk, for every pattern of faults; when the service recovers;
 * and what the readback is worth when saves lie (src/prov_service.cpp:193-349, 402-566).
 */
module Outcomes {
  import opened Types
  import opened Provisioning
  import C = Codec
  import CS = CrashSafety
  import F = FileStore
  import T = Concurrency
  import TS = ThreadedSafety
  import Vin

  // ----- write_vin and authorize_rewrite -----

  /** The record a binding flow leaves on disk before it is marked bound, field by field as it will be read. */
  function Written(d: Disk, vin: string, e: Env): VehicleBinding {
    var again := e.existingLoads && d.binding.Some? && d.binding.value.vin == vin;
    VehicleBinding(vin, e.uid.uid, "", 1, false, C.WholeSeconds(e.now), "", 0,
                   if again then (d.binding.value.rewriteCount + 1) % 0x1_0000_0000 else 0,
                   if again then C.WholeSeconds(e.rewriteNow) else 0)
  }

  function AfterFirstSave(d: Disk, vin: string, e: Env): Disk {
    d.(binding := Some(Written(d, vin, e)))
  }

  function AfterSecondSave(d: Disk, vin: string, e: Env): Disk {
    d.(binding := Some(Written(d, vin, e).(state := 2)))
  }

  lemma ConstructedIsWritten(d: Disk, vin: string, e: Env)
    ensures C.StoredBinding(ConstructBinding(vin, e.uid.uid, Loaded(d.binding, e.existingLoads), e)) ==
            Written(d, vin, e)
  {
  }

  /**
   * The chain of a binding flow, fault by fault: the first step that fails gives the error code, and exactly the
   * steps before it are on disk.
   */
  lemma FlowOutcome(m: Mem, d: Disk, vin: string, e: Env)
    requires e.uid.success && HonestEnv(e)
    ensures BindingFlow(m, d, vin, e) ==
            if m.writeProtected || !e.firstSave.Sound? then Outcome(Code(VinWriteFailed), m, d)
            else if !e.secondSave.Sound? then Outcome(Code(VinWriteFailed), m, AfterFirstSave(d, vin, e))
            else if !e.readLoads then Outcome(Code(ReadbackVerificationFailed), m, AfterSecondSave(d, vin, e))
            else if !m.enableWriteProtection then Outcome(Code(Success), m, AfterSecondSave(d, vin, e))
            else if !e.protectionSave.Sound? then Outcome(Code(StorageError), m, AfterSecondSave(d, vin, e))
            else Outcome(Code(Success), m.(writeProtected := true),
                         AfterSecondSave(d, vin, e).(protection := true))
  {
    ConstructedIsWritten(d, vin, e);
  }

  predicate UidFailure(r: Result) {
    r in {Code(SeUidReadFailed), Code(SeMissingConfigNotFound), Code(SeMissingProductionFailClosed)}
  }

  /** The disk that write_vin leaves with each of its answers; anything else is not an answer of it. */
  ghost predicate LeftWith(r: Result, m: Mem, d: Disk, d': Disk, vin: string, e: Env) {
    match r
    case Code(VinWriteFailed) => d' == if m.writeProtected || !e.firstSave.Sound? then d else AfterFirstSave(d, vin, e)
    case Code(ReadbackVerificationFailed) => d' == AfterSecondSave(d, vin, e)
    case Code(StorageError) => m.enableWriteProtection && d' == AfterSecondSave(d, vin, e)
    case Code(Success) =>
      d' == AfterSecondSave(d, vin, e).(protection := d.protection || m.enableWriteProtection)
    case _ => (r == Code(InvalidState) || r == Code(InvalidVinFormat) || UidFailure(r)) && d' == d
  }

  /**
   * Read the other way: the answers write_vin can give, when it gives those of before the flow, and the prefix of the
   * chain each leaves on disk; VIN_WRITE_FAILED stands for two of them.
   */
  lemma CodeDeterminesPrefix(m: Mem, d: Disk, vin: string, e: Env)
    requires HonestEnv(e) && CS.DocumentedUidFailure(Call(WriteVin(vin), e))
    ensures var o := Whole(Call(WriteVin(vin), e), m, d);
            && (o.result == Code(InvalidState) <==> !m.initialized || m.shuttingDown)
            && (o.result == Code(InvalidVinFormat) <==> m.initialized && !m.shuttingDown && !Vin.Valid(vin))
            && (UidFailure(o.result) <==> m.initialized && !m.shuttingDown && Vin.Valid(vin) && !e.uid.success)
            && (UidFailure(o.result) ==> o.result == Code(e.uid.errorCode))
            && LeftWith(o.result, m, d, o.disk, vin, e)
            && (o.result != Code(Success) ==> o.mem == m)
  {
    if Accepting(m) && Vin.Valid(vin) && e.uid.success {
      FlowOutcome(m, d, vin, e);
    }
  }

  predicate GarbledVin(fault: F.SaveFault, vin: string) {
    && fault.Garbled?
    && var read := BindingIn(TextOf(fault.content)); read.None? || read.value.vin != vin
  }

  /**
   * With any saves, the answer of a flow that read its UID: a write failed if a save was refused or not reported; the
   * readback failed if the record then does not load, or the second save left another VIN or none; the lock failed
   * if its save was not reported.
   */
  lemma FlowCodes(m: Mem, d: Disk, vin: string, e: Env)
    requires m.initialized && !m.shuttingDown && Vin.Valid(vin) && e.uid.success
    ensures var r := Whole(Call(WriteVin(vin), e), m, d).result;
            var saved := !m.writeProtected && F.Reports(e.firstSave) && F.Reports(e.secondSave);
            var found := e.readLoads && !GarbledVin(e.secondSave, vin);
            var locked := m.enableWriteProtection ==> F.Reports(e.protectionSave);
            && (r == Code(VinWriteFailed) <==> !saved)
            && (r == Code(ReadbackVerificationFailed) <==> saved && !found)
            && (r == Code(StorageError) <==> saved && found && !locked)
            && (r == Code(Success) <==> saved && found && locked)
  {
  }

  predicate ForeignLock(d: Disk, vin: string, e: Env) {
    e.authorizeLoads && d.binding.Some? && d.binding.value.locked && d.binding.value.vin != vin
  }

  /**
   * On every disk, authorize_rewrite answers VIN_CONFLICT_UNAUTHORIZED and does nothing if it finds another VIN locked,
   * and is write_vin otherwise.
   */
  lemma AuthorizeRewriteOutcome(m: Mem, d: Disk, vin: string, e: Env)
    ensures var o := Whole(Call(AuthorizeRewrite(vin), e), m, d);
            if m.initialized && !m.shuttingDown && Vin.Valid(vin) && ForeignLock(d, vin, e)
            then o == Outcome(Code(VinConflictUnauthorized), m, d)
            else o == Whole(Call(WriteVin(vin), e), m, d)
    ensures CS.DocumentedUidFailure(Call(AuthorizeRewrite(vin), e)) ==>
              (Whole(Call(AuthorizeRewrite(vin), e), m, d).result == Code(VinConflictUnauthorized) <==>
               m.initialized && !m.shuttingDown && Vin.Valid(vin) && ForeignLock(d, vin, e))
  {
  }

  /** The two calls are given the same record to write. */
  predicate SameRecord(e1: Env, e2: Env) {
    && e1.uid == e2.uid && e1.existingLoads == e2.existingLoads
    && e1.now == e2.now && e1.rewriteNow == e2.rewriteNow
  }

  /**
   * Two writes of the same record that answer alike leave the same disk, except that VIN_WRITE_FAILED does not tell
   * a failed first save from a failed second one.
   */
  lemma AnswerFixesDiskIff(m: Mem, d: Disk, vin: string, e1: Env, e2: Env)
    requires HonestEnv(e1) && HonestEnv(e2) && SameRecord(e1, e2)
    requires CS.DocumentedUidFailure(Call(WriteVin(vin), e1))
    requires RunWriteVin(m, d, vin, e1).result == RunWriteVin(m, d, vin, e2).result
    ensures RunWriteVin(m, d, vin, e1).disk == RunWriteVin(m, d, vin, e2).disk <==>
            || RunWriteVin(m, d, vin, e1).result != Code(VinWriteFailed)
            || m.writeProtected
            || e1.firstSave.Sound? == e2.firstSave.Sound?
            || d == AfterFirstSave(d, vin, e1)
  {
    CodeDeterminesPrefix(m, d, vin, e1);
    CodeDeterminesPrefix(m, d, vin, e2);
  }

  /** On an empty store the two failures do differ: one VIN_WRITE_FAILED leaves nothing, the other a VIN. */
  lemma WriteFailedIsAmbiguous(vin: string, e: Env)
    requires Vin.Valid(vin) && e.uid.success
    ensures var m := Mem(true, false, false, true);
            var first := RunWriteVin(m, EMPTY_DISK, vin, e.(firstSave := F.OpenFails));
            var second := RunWriteVin(m, EMPTY_DISK, vin, e.(firstSave := F.Sound, secondSave := F.OpenFails));
            && first.result == Code(VinWriteFailed) == second.result
            && first.disk == EMPTY_DISK
            && second.disk == AfterFirstSave(EMPTY_DISK, vin, e)
            && second.disk.binding.Some?
  {
  }

  // ----- Recovery -----

  predicate FaultFree(e: Env) {
    e.uid.success && e.readLoads && e.firstSave.Sound? && e.secondSave.Sound? && e.protectionSave.Sound?
  }

  /** What the three readers answer on a disk whose binding is b, when it loads. */
  ghost predicate ReadersFind(m: Mem, d: Disk, b: VehicleBinding) {
    forall e: Env | e.readLoads ::
      && Whole(Call(ReadVin, e), m, d) == Outcome(VinIs(b.vin), m, d)
      && Whole(Call(GetProvisionState, e), m, d) == Outcome(StateIs(b.state), m, d)
      && Whole(Call(ReadBinding, e), m, d) ==
         Outcome(BindingIs(b.(sn := if b.sn != "" then b.sn else if e.sn.success then e.sn.sn else "")), m, d)
  }

  /**
   * From every reachable unlocked state of a service that accepts writes, whatever failed or crashed before, one
   * fault-free write_vin of a valid VIN binds it and, if configured, locks it; every reader then finds it BOUND.
   */
  lemma Recovery(k: CS.Core, events: seq<CS.Event>, vin: string, e: Env)
    requires CS.FreshDevice(k) && CS.CallsSatisfy(events, CS.Honest)
    requires var f := CS.Run(k, events).frame;
             Resting(f.stage) && f.mem.initialized && !f.mem.shuttingDown && !f.disk.protection
    requires Vin.Valid(vin) && FaultFree(e)
    ensures var f := CS.Run(k, events).frame;
            var o := Whole(Call(WriteVin(vin), e), f.mem, f.disk);
            && o.result == Code(Success)
            && o.disk == AfterSecondSave(f.disk, vin, e).(protection := f.mem.enableWriteProtection)
            && o.mem == f.mem.(writeProtected := f.mem.enableWriteProtection)
            && ReadersFind(o.mem, o.disk, Written(f.disk, vin, e).(state := BOUND))
  {
    CS.FlagAgreesWithDisk(k, events);
    var f := CS.Run(k, events).frame;
    FlowOutcome(f.mem, f.disk, vin, e);
  }

  /** From every reachable locked state a write_vin changes nothing and, if it can read the UID, fails as a write. */
  lemma LockedWritesFail(k: CS.Core, events: seq<CS.Event>, vin: string, e: Env)
    requires CS.FreshDevice(k) && CS.CallsSatisfy(events, CS.Honest)
    requires var f := CS.Run(k, events).frame;
             Resting(f.stage) && f.mem.initialized && !f.mem.shuttingDown && f.disk.protection
    ensures var f := CS.Run(k, events).frame;
            var o := Whole(Call(WriteVin(vin), e), f.mem, f.disk);
            && o.mem == f.mem && o.disk == f.disk
            && (Vin.Valid(vin) && e.uid.success ==> o.result == Code(VinWriteFailed))
            && (!Vin.Valid(vin) ==> o.result == Code(InvalidVinFormat))
  {
    CS.FlagAgreesWithDisk(k, events);
  }

  // ----- Readback, with saves that may lie -----

  predicate Holds(d: Disk, vin: string) {
    d.binding.Some? && d.binding.value.vin == vin
  }

  /**
   * Whatever saves do behind a report of success, write_vin says SUCCESS without the VIN being on disk in one
   * case only: a UID read that fails with the code SUCCESS, which UidReadResult's default constructor gives,
   * is passed on as the answer before anything is written.
   */
  lemma SuccessWithoutVinIff(m: Mem, d: Disk, vin: string, e: Env)
    ensures var o := RunWriteVin(m, d, vin, e);
            o.result == Code(Success) && !Holds(o.disk, vin) <==>
            && Accepting(m) && Vin.Valid(vin)
            && !e.uid.success && e.uid.errorCode == Success && !Holds(d, vin)
  {
  }

  /** Such a state and environment exist: an empty store stays empty under a "successful" write. */
  lemma SuccessWithoutVinHappens(e: Env, vin: string)
    requires Vin.Valid(vin) && e.uid == UidRead(false, "", Success)
    ensures RunWriteVin(Mem(true, false, false, true), EMPTY_DISK, vin, e) ==
            Outcome(Code(Success), Mem(true, false, false, true), EMPTY_DISK)
  {
  }

  /** With a provider that reports failures as failures, SUCCESS means the VIN was read back from the disk. */
  lemma SuccessMeansStored(m: Mem, d: Disk, vin: string, e: Env)
    requires CS.DocumentedUidFailure(Call(WriteVin(vin), e))
    requires RunWriteVin(m, d, vin, e).result == Code(Success)
    ensures Holds(RunWriteVin(m, d, vin, e).disk, vin) && Accepting(m) && Vin.Valid(vin)
  {
    SuccessWithoutVinIff(m, d, vin, e);
  }

  /** SUCCESS from write_production_info means its three texts are on disk, whatever the save did. */
  lemma ProductionSuccessMeansStored(m: Mem, d: Disk, info: ProductionInfo, e: Env)
    requires RunWriteProductionInfo(m, d, info, e).result == Code(Success)
    ensures var stored := RunWriteProductionInfo(m, d, info, e).disk.production;
            stored.Some? && SameTexts(stored.value, info)
    ensures Accepting(m) && !m.writeProtected
  {
  }

  /** SUCCESS from write_vehicle_config means its bytes are on disk, unless the save after the readback lies. */
  lemma ConfigSuccessMeansStored(m: Mem, d: Disk, data: seq<uint8>, e: Env)
    requires RunWriteVehicleConfig(m, d, data, e).result == Code(Success)
    ensures var stored := RunWriteVehicleConfig(m, d, data, e).disk.config;
            && (!e.secondSave.Garbled? ==> stored.Some? && stored.value.variantCoding == data)
            && (e.secondSave.Sound? ==> stored.value.verified)
  {
  }

  /** What SUCCESS from the call c claims of the disk; a configuration is saved once more after its readback. */
  predicate Claims(c: Call, d: Disk) {
    match c.op
    case WriteVehicleConfig(data) =>
      !c.env.secondSave.Garbled? ==> d.config.Some? && d.config.value.variantCoding == data
    case WriteVin(vin) => Holds(d, vin)
    case AuthorizeRewrite(vin) => Holds(d, vin)
    case WriteProductionInfo(info) => d.production.Some? && SameTexts(d.production.value, info)
    case _ => true
  }

  lemma SuccessIsTrue(c: Call, m: Mem, d: Disk)
    requires CS.DocumentedUidFailure(c) && Whole(c, m, d).result == Code(Success)
    ensures Claims(c, Whole(c, m, d).disk)
  {
    match c.op
    case WriteVin(vin) => SuccessMeansStored(m, d, vin, c.env);
    case AuthorizeRewrite(vin) => SuccessMeansStored(m, d, vin, c.env);
    case WriteVehicleConfig(data) => ConfigSuccessMeansStored(m, d, data, c.env);
    case WriteProductionInfo(info) => ProductionSuccessMeansStored(m, d, info, c.env);
    case _ =>
  }

  /** The call of the i-th result left the disk, in the serial order, as its success claims. */
  ghost predicate ClaimKept(w: T.World, i: nat)
    requires i < |w.returned|
  {
    exists p ::
      T.ResultOf(w.boot, w.order, i, p) && Claims(w.returned[i].call, T.SerialRun(w.boot, w.order[..p + 1]).disk)
  }

  lemma ClaimKeptAt(w: T.World, i: nat)
    requires i < |w.returned| && w.returned <= T.SerialRun(w.boot, w.order).results
    requires T.CallsIn(w, CS.DocumentedUidFailure) && w.returned[i].result == Code(Success)
    ensures ClaimKept(w, i)
  {
    assert w.returned[i] == T.SerialRun(w.boot, w.order).results[i];
    var p := T.ResultHasPosition(w.boot, w.order, i);
    var s := T.SerialRun(w.boot, w.order[..p]);
    T.SerialRunGrows(w.boot, w.order[..p], w.order[p]);
    assert w.order[..p + 1] == w.order[..p] + [w.order[p]];
    SuccessIsTrue(w.order[p].call, s.mem, s.disk);
  }

  /**
   * Readback soundness under threads, crashes and saves that lie: every SUCCESS ever returned by a write of the VIN,
   * of a configuration or of production data was true of the disk when its call left the mutex.
   */
  lemma ReturnedSuccessWasStored(m: Mem, d: Disk, events: seq<T.Event>)
    requires T.InvokedSatisfy(events, CS.DocumentedUidFailure)
    ensures var w := T.Run(T.Boot(m, d), events);
            forall i :: 0 <= i < |w.returned| && w.returned[i].result == Code(Success) ==> ClaimKept(w, i)
  {
    var w := T.Run(T.Boot(m, d), events);
    T.CallsInRun(T.Boot(m, d), events, CS.DocumentedUidFailure);
    T.Serializability(m, d, events);
    forall i | 0 <= i < |w.returned| && w.returned[i].result == Code(Success)
      ensures ClaimKept(w, i)
    {
      ClaimKeptAt(w, i);
    }
  }

  // ----- The other two writes -----

  predicate Open(m: Mem) {
    m.initialized && !m.shuttingDown && !m.writeProtected
  }

  /** A write that is refused before it begins says why, and leaves everything as it is. */
  predicate RefusedOutright(m: Mem, d: Disk, o: Outcome) {
    && (o.result == Code(InvalidState) <==> !m.initialized || m.shuttingDown)
    && (o.result == Code(SecurityAccessNotGranted) <==> m.initialized && !m.shuttingDown && m.writeProtected)
    && (!Open(m) ==> o.mem == m && o.disk == d)
  }

  /**
   * write_vehicle_config, fault by fault. With an honest first save it never reports a mismatch; and since it ignores
   * its last save, SUCCESS marks the bytes verified exactly when that save goes through.
   */
  lemma ConfigOutcome(m: Mem, d: Disk, data: seq<uint8>, e: Env)
    requires HonestEnv(e)
    ensures var o := Whole(Call(WriteVehicleConfig(data), e), m, d);
            var stored := VehicleConfig(data, C.WholeSeconds(e.now), e.secondSave.Sound?);
            && RefusedOutright(m, d, o)
            && (Open(m) && !e.firstSave.Sound? ==> o == Outcome(Code(ConfigWriteFailed), m, d))
            && (Open(m) && e.firstSave.Sound? && !e.readLoads ==>
                  o == Outcome(Code(ConfigWriteFailed), m, d.(config := Some(stored.(verified := false)))))
            && (Open(m) && e.firstSave.Sound? && e.readLoads ==>
                  o == Outcome(Code(Success), m, d.(config := Some(stored))))
  {
  }

  predicate GarbledBytes(fault: F.SaveFault, data: seq<uint8>) {
    && fault.Garbled?
    && var read := ConfigIn(TextOf(fault.content)); read.Some? && read.value.variantCoding != data
  }

  /** With any saves: refused as with honest ones, and a mismatch is reported iff other bytes were read back. */
  lemma ConfigMismatchIff(m: Mem, d: Disk, data: seq<uint8>, e: Env)
    ensures var o := Whole(Call(WriteVehicleConfig(data), e), m, d);
            && RefusedOutright(m, d, o)
            && (o.result == Code(ReadbackVerificationFailed) <==>
                  Open(m) && e.readLoads && GarbledBytes(e.firstSave, data))
  {
  }

  /** write_production_info, fault by fault. */
  lemma ProductionOutcome(m: Mem, d: Disk, info: ProductionInfo, e: Env)
    requires HonestEnv(e)
    ensures var o := Whole(Call(WriteProductionInfo(info), e), m, d);
            var stored :=
              ProductionInfo(info.productionDate, info.batchNum, info.stationId, C.WholeSeconds(e.now));
            && RefusedOutright(m, d, o)
            && (Open(m) && !e.firstSave.Sound? ==> o == Outcome(Code(ProductionInfoWriteFailed), m, d))
            && (Open(m) && e.firstSave.Sound? ==>
                  o == Outcome(Code(if e.readLoads then Success else ProductionInfoWriteFailed), m,
                               d.(production := Some(stored))))
  {
  }

  predicate GarbledTexts(fault: F.SaveFault, info: ProductionInfo) {
    && fault.Garbled?
    && var read := ProductionIn(TextOf(fault.content));
       && read.Some?
       && (|| read.value.productionDate != info.productionDate
           || read.value.batchNum != info.batchNum
           || read.value.stationId != info.stationId)
  }

  /** With any save: a mismatch is reported iff one of the three texts was read back different; times do not matter. */
  lemma ProductionMismatchIff(m: Mem, d: Disk, info: ProductionInfo, e: Env)
    ensures var o := Whole(Call(WriteProductionInfo(info), e), m, d);
            && RefusedOutright(m, d, o)
            && (o.result == Code(ReadbackVerificationFailed) <==>
                  Open(m) && e.readLoads && GarbledTexts(e.firstSave, info))
  {
  }

  // ----- Readers -----

  /** In every state whatever the readers answer is what is on disk if it loads, and otherwise that nothing is there. */
  lemma ReadersAnswer(m: Mem, d: Disk, e: Env)
    ensures m.initialized && d.binding.Some? ==> ReadersFind(m, d, d.binding.value)
    ensures !m.initialized || d.binding.None? || !e.readLoads ==>
              && Whole(Call(ReadVin, e), m, d) == Outcome(VinIs(""), m, d)
              && Whole(Call(GetProvisionState, e), m, d) == Outcome(StateIs(0), m, d)
              && Whole(Call(ReadBinding, e), m, d) ==
                 Outcome(BindingIs(VehicleBinding("", "", "", 0, false, 0, "", 0, 0, 0)), m, d)
    ensures Whole(Call(IsInitialized, e), m, d) == Outcome(InitializedIs(m.initialized), m, d)
  {
  }

  /**
   * In every reachable state of an initialized service the provisioning state that a loading reader is given tells
   * exactly what is on disk: BOUND on every locked device, NONE iff nothing is bound, FAILED never.
   */
  lemma ProvisionStateTells(k: CS.Core, events: seq<CS.Event>, e: Env)
    requires CS.FreshDevice(k) && CS.CallsSatisfy(events, CS.Honest)
    requires CS.Run(k, events).frame.mem.initialized && e.readLoads
    ensures var f := CS.Run(k, events).frame;
            var answer := Whole(Call(GetProvisionState, e), f.mem, f.disk).result;
            && (f.disk.protection ==> answer == StateIs(BOUND))
            && (answer == StateIs(NONE) <==> f.disk.binding.None?)
            && (answer == StateIs(VIN_WRITTEN) <==>
                  f.disk.binding.Some? && f.disk.binding.value.state == VIN_WRITTEN)
            && (answer == StateIs(BOUND) <==> f.disk.binding.Some? && f.disk.binding.value.state == BOUND)
            && answer in {StateIs(NONE), StateIs(VIN_WRITTEN), StateIs(BOUND)}
  {
    CS.LockedImpliesBoundEverywhere(k, events);
    CS.StoredBindingsAreProvisioned(k, events);
  }

  // ----- Starting up -----

  /** What initialize answers, and what it leaves in memory; it never touches the disk. */
  lemma InitializeOutcome(m: Mem, d: Disk, e: Env)
    ensures var o := Whole(Call(Initialize, e), m, d);
            && o.disk == d
            && o.result == Code(if m.initialized || e.storeOpens then Success else StorageError)
            && (o.mem.initialized <==> o.result == Code(Success))
            && (m.initialized ==> o.mem == m)
            && (!m.initialized ==> (o.mem.writeProtected <==> e.storeOpens && e.protectionLoads && d.protection))
            && o.mem.shuttingDown == m.shuttingDown && o.mem.enableWriteProtection == m.enableWriteProtection
  {
  }

  /** A failed initialize leaves no trace on the next, and a successful one makes the next do nothing. */
  lemma InitializeAgain(m: Mem, d: Disk, first: Env, second: Env)
    ensures var o := Whole(Call(Initialize, first), m, d);
            Whole(Call(Initialize, second), o.mem, d) ==
            if o.result == Code(Success) then o else Whole(Call(Initialize, second), m, d)
  {
  }

  /** A new device: started and written to without faults it is bound and, if so configured, locked. */
  lemma NewDeviceIsProvisioned(enable: bool, t: T.Tid, start: Env, vin: string, e: Env)
    requires start.storeOpens && Vin.Valid(vin) && FaultFree(e)
    ensures var up := TS.Served(T.Boot(Booted(enable), EMPTY_DISK), t, Call(Initialize, start));
            var w := TS.Served(up, t, Call(WriteVin(vin), e));
            && w.returned == [T.Return(t, Call(Initialize, start), Code(Success)),
                              T.Return(t, Call(WriteVin(vin), e), Code(Success))]
            && w.mem == Mem(true, enable, false, enable)
            && w.disk == Disk(Some(VehicleBinding(vin, e.uid.uid, "", 2, false, C.WholeSeconds(e.now), "", 0, 0, 0)),
                              None, None, enable)
  {
    FlowOutcome(Mem(true, false, false, enable), EMPTY_DISK, vin, e);
  }

  lemma LockedAfterStartIff(enable: bool, d: Disk, start: Env, vin: string, e: Env)
    requires d.protection && start.storeOpens
    requires Vin.Valid(vin) && FaultFree(e) && e.existingLoads
    ensures var up := Whole(Call(Initialize, start), Booted(enable), d);
            Whole(Call(WriteVin(vin), e), up.mem, up.disk).disk == d <==> start.protectionLoads
  {
  }

  /**
   * A crash and restart of a locked device at any moment, followed by a fault-free write of any valid VIN, leaves the
   * disk as it was exactly when initialize could read the protection key: an unreadable key is taken for an open lock.
   */
  lemma RestartKeepsTheLockIff(w: T.World, enable: bool, t: T.Tid, start: Env, vin: string, e: Env)
    requires w.disk.protection && start.storeOpens
    requires Vin.Valid(vin) && FaultFree(e) && e.existingLoads
    ensures var up := TS.Served(T.Step(w, T.Crash(enable)), t, Call(Initialize, start));
            TS.Served(up, t, Call(WriteVin(vin), e)).disk == w.disk <==> start.protectionLoads
  {
    LockedAfterStartIff(enable, w.disk, start, vin, e);
    AfterRestart(w, enable, t, start, Call(WriteVin(vin), e));
  }

  lemma AfterRestart(w: T.World, enable: bool, t: T.Tid, start: Env, c: Call)
    ensures var up := TS.Served(T.Step(w, T.Crash(enable)), t, Call(Initialize, start));
            var o := Whole(Call(Initialize, start), Booted(enable), w.disk);
            TS.Served(up, t, c).disk == Whole(c, o.mem, o.disk).disk
  {
  }
}
