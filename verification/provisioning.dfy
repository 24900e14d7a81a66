/**
 * The calls of ProvService (src/prov_service.cpp) over the records on disk and the fields in memory, twice:
 * run whole, and cut into micro-steps between which a crash or another thread may come.
 */
module Provisioning {
  import opened Types
  import opened Codec
  import Vin
  import F = FileStore

  // ----- State -----

  /** What the four keys of the store read back as; "protection" counts only as being "1" or not. */
  datatype Disk = Disk(
    binding: Option<VehicleBinding>,
    config: Option<VehicleConfig>,
    production: Option<ProductionInfo>,
    protection: bool)

  const EMPTY_DISK := Disk(None, None, None, false)

  /** The fields lost in a crash, and the configured switch a restart may change. */
  datatype Mem = Mem(initialized: bool, writeProtected: bool, shuttingDown: bool, enableWriteProtection: bool)

  function Booted(enableWriteProtection: bool): Mem {
    Mem(false, false, false, enableWriteProtection)
  }

  datatype UidRead = UidRead(success: bool, uid: string, errorCode: ErrorCode)

  datatype SnRead = SnRead(success: bool, sn: string)

  /** Everything one call gets from outside: clocks, providers, and how each store access goes. */
  datatype Env = Env(
    storeOpens: bool,
    protectionLoads: bool,
    authorizeLoads: bool,
    existingLoads: bool,
    readLoads: bool,
    firstSave: F.SaveFault,
    secondSave: F.SaveFault,
    protectionSave: F.SaveFault,
    uid: UidRead,
    sn: SnRead,
    now: int,
    rewriteNow: int)

  /** No save reports success over bytes other than its own. */
  predicate HonestEnv(e: Env) {
    !e.firstSave.Garbled? && !e.secondSave.Garbled? && !e.protectionSave.Garbled?
  }

  datatype Operation =
    | Initialize
    | WriteVin(vin: string)
    | AuthorizeRewrite(vin: string)
    | WriteVehicleConfig(data: seq<uint8>)
    | WriteProductionInfo(info: ProductionInfo)
    | ReadVin
    | ReadBinding
    | GetProvisionState
    | IsInitialized

  datatype Call = Call(op: Operation, env: Env)

  datatype Result =
    | Code(code: ErrorCode)
    | VinIs(vin: string)
    | BindingIs(binding: VehicleBinding)
    | StateIs(state: uint8)
    | InitializedIs(initialized: bool)

  datatype Outcome = Outcome(result: Result, mem: Mem, disk: Disk)

  /** No binding is left half-way, and no answer shows one that is. */
  predicate Settled(d: Disk) {
    d.binding.Some? ==> d.binding.value.state != VIN_WRITTEN
  }

  predicate SettledResult(r: Result) {
    && (r.StateIs? ==> r.state != VIN_WRITTEN)
    && (r.BindingIs? ==> r.binding.state != VIN_WRITTEN)
  }

  // ----- The store as the service sees it -----

  function TextOf(content: Content): Option<Text> {
    if content.Envelope? then Some(content.text) else None
  }

  function BindingIn(text: Option<Text>): Option<VehicleBinding> {
    if text.Some? then DeserializeBinding(text.value) else None
  }

  function ConfigIn(text: Option<Text>): Option<VehicleConfig> {
    if text.Some? then DeserializeConfig(text.value) else None
  }

  function ProductionIn(text: Option<Text>): Option<ProductionInfo> {
    if text.Some? then DeserializeProductionInfo(text.value) else None
  }

  predicate ProtectionIn(text: Option<Text>) {
    text == Some(Plain("1"))
  }

  function Loaded<T>(slot: Option<T>, loads: bool): Option<T> {
    if loads then slot else None
  }

  function SaveBinding(d: Disk, b: VehicleBinding, fault: F.SaveFault): Disk {
    match fault
    case Sound => d.(binding := Some(StoredBinding(b)))
    case Garbled(content) => d.(binding := BindingIn(TextOf(content)))
    case _ => d
  }

  function SaveConfig(d: Disk, c: VehicleConfig, fault: F.SaveFault): Disk {
    match fault
    case Sound => d.(config := Some(StoredConfig(c)))
    case Garbled(content) => d.(config := ConfigIn(TextOf(content)))
    case _ => d
  }

  function SaveProduction(d: Disk, p: ProductionInfo, fault: F.SaveFault): Disk {
    match fault
    case Sound => d.(production := Some(StoredProductionInfo(p)))
    case Garbled(content) => d.(production := ProductionIn(TextOf(content)))
    case _ => d
  }

  function SaveProtection(d: Disk, locked: bool, fault: F.SaveFault): Disk {
    match fault
    case Sound => d.(protection := locked)
    case Garbled(content) => d.(protection := ProtectionIn(TextOf(content)))
    case _ => d
  }

  /** The error code of a guarded write of ProtectedStorageImpl. */
  function WriteCode(writeProtected: bool, fault: F.SaveFault): ErrorCode {
    if writeProtected then SecurityAccessNotGranted
    else if F.Reports(fault) then Success else StorageError
  }

  // ----- The calls, run whole -----

  function ConstructBinding(vin: string, uid: string, existing: Option<VehicleBinding>, e: Env): VehicleBinding {
    var built := EMPTY_BINDING.(vin := vin, ecuUid := uid, state := VIN_WRITTEN, boundAt := e.now);
    if existing.Some? && existing.value.vin == vin
    then built.(rewriteCount := (existing.value.rewriteCount + 1) % 0x1_0000_0000, lastRewriteAt := e.rewriteNow)
    else built
  }

  /** establish_binding: the binding is saved as VIN_WRITTEN and saved again as BOUND. */
  function EstablishBinding(m: Mem, d: Disk, vin: string, uid: string, e: Env): (ErrorCode, Disk) {
    var b := ConstructBinding(vin, uid, Loaded(d.binding, e.existingLoads), e);
    if WriteCode(m.writeProtected, e.firstSave) != Success then
      (VinWriteFailed, d)
    else
      var d1 := SaveBinding(d, b, e.firstSave);
      if WriteCode(m.writeProtected, e.secondSave) != Success then
        (VinWriteFailed, d1)
      else
        (Success, SaveBinding(d1, b.(state := BOUND), e.secondSave))
  }

  function VerifyWrite(d: Disk, vin: string, e: Env): ErrorCode {
    var b := Loaded(d.binding, e.readLoads);
    if b.Some? && b.value.vin == vin then Success else ReadbackVerificationFailed
  }

  function Protect(m: Mem, d: Disk, e: Env): Outcome {
    var d' := SaveProtection(d, true, e.protectionSave);
    if F.Reports(e.protectionSave) then Outcome(Code(Success), m.(writeProtected := true), d')
    else Outcome(Code(StorageError), m, d')
  }

  /** execute_vin_binding_flow. */
  function BindingFlow(m: Mem, d: Disk, vin: string, e: Env): Outcome {
    if !e.uid.success then
      Outcome(Code(e.uid.errorCode), m, d)
    else
      var (established, d') := EstablishBinding(m, d, vin, e.uid.uid, e);
      if established != Success then Outcome(Code(established), m, d')
      else if VerifyWrite(d', vin, e) != Success then Outcome(Code(VerifyWrite(d', vin, e)), m, d')
      else if m.enableWriteProtection then Protect(m, d', e)
      else Outcome(Code(Success), m, d')
  }

  predicate Accepting(m: Mem) {
    m.initialized && !m.shuttingDown
  }

  function RunInitialize(m: Mem, d: Disk, e: Env): Outcome {
    if m.initialized then Outcome(Code(Success), m, d)
    else if !e.storeOpens then Outcome(Code(StorageError), m.(writeProtected := false), d)
    else Outcome(Code(Success), m.(initialized := true, writeProtected := e.protectionLoads && d.protection), d)
  }

  function RunWriteVin(m: Mem, d: Disk, vin: string, e: Env): Outcome {
    if !Accepting(m) then Outcome(Code(InvalidState), m, d)
    else if !Vin.Valid(vin) then Outcome(Code(InvalidVinFormat), m, d)
    else BindingFlow(m, d, vin, e)
  }

  function RunAuthorizeRewrite(m: Mem, d: Disk, vin: string, e: Env): Outcome {
    if !Accepting(m) then Outcome(Code(InvalidState), m, d)
    else if !Vin.Valid(vin) then Outcome(Code(InvalidVinFormat), m, d)
    else
      var current := Loaded(d.binding, e.authorizeLoads);
      if current.Some? && current.value.locked && current.value.vin != vin
      then Outcome(Code(VinConflictUnauthorized), m, d)
      else BindingFlow(m, d, vin, e)
  }

  function RunWriteVehicleConfig(m: Mem, d: Disk, data: seq<uint8>, e: Env): Outcome {
    if !Accepting(m) then Outcome(Code(InvalidState), m, d)
    else if m.writeProtected then Outcome(Code(SecurityAccessNotGranted), m, d)
    else
      var config := VehicleConfig(data, e.now, false);
      if WriteCode(m.writeProtected, e.firstSave) != Success then Outcome(Code(ConfigWriteFailed), m, d)
      else
        var d1 := SaveConfig(d, config, e.firstSave);
        var stored := Loaded(d1.config, e.readLoads);
        if stored.None? then Outcome(Code(ConfigWriteFailed), m, d1)
        else if stored.value.variantCoding != data then Outcome(Code(ReadbackVerificationFailed), m, d1)
        else Outcome(Code(Success), m, SaveConfig(d1, config.(verified := true), e.secondSave))
  }

  predicate SameTexts(a: ProductionInfo, b: ProductionInfo) {
    a.productionDate == b.productionDate && a.batchNum == b.batchNum && a.stationId == b.stationId
  }

  function RunWriteProductionInfo(m: Mem, d: Disk, info: ProductionInfo, e: Env): Outcome {
    if !Accepting(m) then Outcome(Code(InvalidState), m, d)
    else if m.writeProtected then Outcome(Code(SecurityAccessNotGranted), m, d)
    else
      var newInfo := info.(writtenAt := e.now);
      if WriteCode(m.writeProtected, e.firstSave) != Success then Outcome(Code(ProductionInfoWriteFailed), m, d)
      else
        var d1 := SaveProduction(d, newInfo, e.firstSave);
        var stored := Loaded(d1.production, e.readLoads);
        if stored.None? then Outcome(Code(ProductionInfoWriteFailed), m, d1)
        else if !SameTexts(stored.value, newInfo) then Outcome(Code(ReadbackVerificationFailed), m, d1)
        else Outcome(Code(Success), m, d1)
  }

  /** The sn of the answer comes from the store or else from the SN provider, never from the ECU UID. */
  function CompleteSn(b: VehicleBinding, sn: SnRead): VehicleBinding {
    if b.sn == "" && sn.success then b.(sn := sn.sn) else b
  }

  function ReadAnswer(op: Operation, binding: Option<VehicleBinding>, e: Env): Result {
    match op
    case ReadVin => VinIs(if binding.Some? then binding.value.vin else "")
    case ReadBinding => BindingIs(if binding.Some? then CompleteSn(binding.value, e.sn) else EMPTY_BINDING)
    case _ => StateIs(if binding.Some? then binding.value.state else NONE)
  }

  function RunRead(op: Operation, m: Mem, d: Disk, e: Env): Outcome {
    if !m.initialized then Outcome(ReadAnswer(op, None, e), m, d)
    else Outcome(ReadAnswer(op, Loaded(d.binding, e.readLoads), e), m, d)
  }

  function Whole(c: Call, m: Mem, d: Disk): Outcome {
    match c.op
    case Initialize => RunInitialize(m, d, c.env)
    case WriteVin(vin) => RunWriteVin(m, d, vin, c.env)
    case AuthorizeRewrite(vin) => RunAuthorizeRewrite(m, d, vin, c.env)
    case WriteVehicleConfig(data) => RunWriteVehicleConfig(m, d, data, c.env)
    case WriteProductionInfo(info) => RunWriteProductionInfo(m, d, info, c.env)
    case IsInitialized => Outcome(InitializedIs(m.initialized), m, d)
    case _ => RunRead(c.op, m, d, c.env)
  }

  // ----- The calls, cut into micro-steps -----

  /** Where the call that holds the mutex stands; each stage names the access it is about to make. */
  datatype Stage =
    | Idle
    | Entry
    | OpenStore
    | LoadProtection
    | LoadForAuthorization(vin: string)
    | ReadUid(vin: string)
    | LoadExisting(vin: string, uid: string)
    | FirstSave(binding: VehicleBinding)
    | SecondSave(binding: VehicleBinding)
    | Readback(vin: string)
    | ProtectionSave
    | SetFlag
    | ConfigSave(config: VehicleConfig)
    | ConfigReadback(config: VehicleConfig)
    | VerifiedSave(config: VehicleConfig)
    | ProductionSave(info: ProductionInfo)
    | ProductionReadback(info: ProductionInfo)
    | LoadForReader
    | Done(result: Result)

  datatype Frame = Frame(stage: Stage, mem: Mem, disk: Disk)

  function Fail(f: Frame, code: ErrorCode): Frame {
    f.(stage := Done(Code(code)))
  }

  function EnterCall(c: Call, f: Frame): Frame {
    match c.op
    case Initialize => if f.mem.initialized then Fail(f, Success) else f.(stage := OpenStore)
    case WriteVin(vin) =>
      if !Accepting(f.mem) then Fail(f, InvalidState)
      else if !Vin.Valid(vin) then Fail(f, InvalidVinFormat)
      else f.(stage := ReadUid(vin))
    case AuthorizeRewrite(vin) =>
      if !Accepting(f.mem) then Fail(f, InvalidState)
      else if !Vin.Valid(vin) then Fail(f, InvalidVinFormat)
      else f.(stage := LoadForAuthorization(vin))
    case WriteVehicleConfig(data) =>
      if !Accepting(f.mem) then Fail(f, InvalidState)
      else if f.mem.writeProtected then Fail(f, SecurityAccessNotGranted)
      else f.(stage := ConfigSave(VehicleConfig(data, c.env.now, false)))
    case WriteProductionInfo(info) =>
      if !Accepting(f.mem) then Fail(f, InvalidState)
      else if f.mem.writeProtected then Fail(f, SecurityAccessNotGranted)
      else f.(stage := ProductionSave(info.(writtenAt := c.env.now)))
    case IsInitialized => f.(stage := Done(InitializedIs(f.mem.initialized)))
    case _ =>
      if !f.mem.initialized then f.(stage := Done(ReadAnswer(c.op, None, c.env)))
      else f.(stage := LoadForReader)
  }

  function BindingStep(c: Call, f: Frame): Frame {
    var e := c.env;
    match f.stage
    case LoadForAuthorization(vin) =>
      var current := Loaded(f.disk.binding, e.authorizeLoads);
      if current.Some? && current.value.locked && current.value.vin != vin
      then Fail(f, VinConflictUnauthorized)
      else f.(stage := ReadUid(vin))
    case ReadUid(vin) =>
      if !e.uid.success then Fail(f, e.uid.errorCode) else f.(stage := LoadExisting(vin, e.uid.uid))
    case LoadExisting(vin, uid) =>
      f.(stage := FirstSave(ConstructBinding(vin, uid, Loaded(f.disk.binding, e.existingLoads), e)))
    case FirstSave(b) =>
      if WriteCode(f.mem.writeProtected, e.firstSave) != Success then Fail(f, VinWriteFailed)
      else f.(stage := SecondSave(b), disk := SaveBinding(f.disk, b, e.firstSave))
    case SecondSave(b) =>
      if WriteCode(f.mem.writeProtected, e.secondSave) != Success then Fail(f, VinWriteFailed)
      else f.(stage := Readback(b.vin), disk := SaveBinding(f.disk, b.(state := BOUND), e.secondSave))
    case Readback(vin) =>
      if VerifyWrite(f.disk, vin, e) != Success then Fail(f, ReadbackVerificationFailed)
      else if f.mem.enableWriteProtection then f.(stage := ProtectionSave)
      else Fail(f, Success)
    case ProtectionSave =>
      var f' := f.(disk := SaveProtection(f.disk, true, e.protectionSave));
      if F.Reports(e.protectionSave) then f'.(stage := SetFlag) else Fail(f', StorageError)
    case SetFlag => Frame(Done(Code(Success)), f.mem.(writeProtected := true), f.disk)
    case _ => f
  }

  function RecordStep(c: Call, f: Frame): Frame {
    var e := c.env;
    match f.stage
    case ConfigSave(config) =>
      if WriteCode(f.mem.writeProtected, e.firstSave) != Success then Fail(f, ConfigWriteFailed)
      else f.(stage := ConfigReadback(config), disk := SaveConfig(f.disk, config, e.firstSave))
    case ConfigReadback(config) =>
      var stored := Loaded(f.disk.config, e.readLoads);
      if stored.None? then Fail(f, ConfigWriteFailed)
      else if stored.value.variantCoding != config.variantCoding then Fail(f, ReadbackVerificationFailed)
      else f.(stage := VerifiedSave(config.(verified := true)))
    case VerifiedSave(config) =>
      // The outcome of this last write is not looked at.
      if f.mem.writeProtected then Fail(f, Success)
      else Fail(f.(disk := SaveConfig(f.disk, config, e.secondSave)), Success)
    case ProductionSave(info) =>
      if WriteCode(f.mem.writeProtected, e.firstSave) != Success then Fail(f, ProductionInfoWriteFailed)
      else f.(stage := ProductionReadback(info), disk := SaveProduction(f.disk, info, e.firstSave))
    case ProductionReadback(info) =>
      var stored := Loaded(f.disk.production, e.readLoads);
      if stored.None? then Fail(f, ProductionInfoWriteFailed)
      else if !SameTexts(stored.value, info) then Fail(f, ReadbackVerificationFailed)
      else Fail(f, Success)
    case _ => f
  }

  /** Micro-steps of initialize, and the single access of a reader. */
  function OtherStep(c: Call, f: Frame): Frame {
    match f.stage
    case OpenStore =>
      var f' := f.(mem := f.mem.(writeProtected := false));
      if c.env.storeOpens then f'.(stage := LoadProtection) else Fail(f', StorageError)
    case LoadProtection =>
      Frame(Done(Code(Success)),
            f.mem.(initialized := true, writeProtected := c.env.protectionLoads && f.disk.protection), f.disk)
    case LoadForReader =>
      f.(stage := Done(ReadAnswer(c.op, Loaded(f.disk.binding, c.env.readLoads), c.env)))
    case _ => f
  }

  predicate RecordStage(stage: Stage) {
    stage.ConfigSave? || stage.ConfigReadback? || stage.VerifiedSave? ||
    stage.ProductionSave? || stage.ProductionReadback?
  }

  predicate OtherStage(stage: Stage) {
    Resting(stage) || stage.OpenStore? || stage.LoadProtection? || stage.LoadForReader?
  }

  /** One micro-step of the call c; it touches the disk at most once. */
  function Micro(c: Call, f: Frame): Frame {
    if f.stage.Entry? then EnterCall(c, f)
    else if OtherStage(f.stage) then OtherStep(c, f)
    else if RecordStage(f.stage) then RecordStep(c, f)
    else BindingStep(c, f)
  }

  predicate Resting(stage: Stage) {
    stage.Idle? || stage.Done?
  }

  function Rank(stage: Stage): nat {
    match stage
    case Idle => 0
    case Done(_) => 0
    case Entry => 10
    case OpenStore => 2
    case LoadProtection => 1
    case LoadForAuthorization(_) => 9
    case ReadUid(_) => 8
    case LoadExisting(_, _) => 7
    case FirstSave(_) => 6
    case SecondSave(_) => 5
    case Readback(_) => 4
    case ProtectionSave => 3
    case SetFlag => 2
    case ConfigSave(_) => 3
    case ConfigReadback(_) => 2
    case VerifiedSave(_) => 1
    case ProductionSave(_) => 2
    case ProductionReadback(_) => 1
    case LoadForReader => 1
  }

  /** The micro-steps of a call, run to their end without interruption. */
  function Finish(c: Call, f: Frame): Frame
    decreases Rank(f.stage)
  {
    if Resting(f.stage) then f
    else
      MicroMakesProgress(c, f);
      Finish(c, Micro(c, f))
  }

  lemma MicroMakesProgress(c: Call, f: Frame)
    requires !Resting(f.stage)
    ensures Rank(Micro(c, f).stage) < Rank(f.stage)
    ensures !Micro(c, f).stage.Idle?
  {
  }

  function AsFrame(o: Outcome): Frame {
    Frame(Done(o.result), o.mem, o.disk)
  }

  // ----- The two agree -----

  lemma FinishFromReadback(c: Call, m: Mem, d: Disk, vin: string)
    ensures Finish(c, Frame(Readback(vin), m, d)) == AsFrame(
              if VerifyWrite(d, vin, c.env) != Success then Outcome(Code(ReadbackVerificationFailed), m, d)
              else if m.enableWriteProtection then Protect(m, d, c.env)
              else Outcome(Code(Success), m, d))
  {
    var f := Frame(Readback(vin), m, d);
    assert Finish(c, f) == Finish(c, Micro(c, f));
    var f1 := Micro(c, f);
    if f1.stage.ProtectionSave? {
      assert Finish(c, f1) == Finish(c, Micro(c, f1));
      var f2 := Micro(c, f1);
      if f2.stage.SetFlag? {
        assert Finish(c, f2) == Finish(c, Micro(c, f2));
      }
    }
  }

  lemma FinishFromReadUid(c: Call, m: Mem, d: Disk, vin: string)
    ensures Finish(c, Frame(ReadUid(vin), m, d)) == AsFrame(BindingFlow(m, d, vin, c.env))
  {
    var f := Frame(ReadUid(vin), m, d);
    assert Finish(c, f) == Finish(c, Micro(c, f));
    if c.env.uid.success {
      var f1 := Micro(c, f);
      assert Finish(c, f1) == Finish(c, Micro(c, f1));
      var f2 := Micro(c, f1);
      assert Finish(c, f2) == Finish(c, Micro(c, f2));
      var f3 := Micro(c, f2);
      if f3.stage.SecondSave? {
        assert Finish(c, f3) == Finish(c, Micro(c, f3));
        var f4 := Micro(c, f3);
        if f4.stage.Readback? {
          FinishFromReadback(c, f4.mem, f4.disk, vin);
        }
      }
    }
  }

  lemma FinishFromConfigSave(c: Call, m: Mem, d: Disk, data: seq<uint8>)
    requires Accepting(m) && !m.writeProtected
    ensures Finish(c, Frame(ConfigSave(VehicleConfig(data, c.env.now, false)), m, d)) ==
            AsFrame(RunWriteVehicleConfig(m, d, data, c.env))
  {
    var f := Frame(ConfigSave(VehicleConfig(data, c.env.now, false)), m, d);
    assert Finish(c, f) == Finish(c, Micro(c, f));
    var f1 := Micro(c, f);
    if f1.stage.ConfigReadback? {
      assert Finish(c, f1) == Finish(c, Micro(c, f1));
      var f2 := Micro(c, f1);
      if f2.stage.VerifiedSave? {
        assert Finish(c, f2) == Finish(c, Micro(c, f2));
      }
    }
  }

  lemma FinishFromProductionSave(c: Call, m: Mem, d: Disk, info: ProductionInfo)
    requires Accepting(m) && !m.writeProtected
    ensures Finish(c, Frame(ProductionSave(info.(writtenAt := c.env.now)), m, d)) ==
            AsFrame(RunWriteProductionInfo(m, d, info, c.env))
  {
    var f := Frame(ProductionSave(info.(writtenAt := c.env.now)), m, d);
    assert Finish(c, f) == Finish(c, Micro(c, f));
    var f1 := Micro(c, f);
    if f1.stage.ProductionReadback? {
      assert Finish(c, f1) == Finish(c, Micro(c, f1));
    }
  }

  lemma FinishFromOpenStore(c: Call, m: Mem, d: Disk)
    requires !m.initialized
    ensures Finish(c, Frame(OpenStore, m, d)) == AsFrame(RunInitialize(m, d, c.env))
  {
    var f := Frame(OpenStore, m, d);
    assert Finish(c, f) == Finish(c, Micro(c, f));
    var f1 := Micro(c, f);
    if f1.stage.LoadProtection? {
      assert Finish(c, f1) == Finish(c, Micro(c, f1));
    }
  }

  lemma FinishFromReader(c: Call, m: Mem, d: Disk)
    requires m.initialized
    ensures Finish(c, Frame(LoadForReader, m, d)) == AsFrame(RunRead(c.op, m, d, c.env))
  {
    var f := Frame(LoadForReader, m, d);
    assert Finish(c, f) == Finish(c, Micro(c, f));
  }

  /** Uninterrupted, the micro-steps of every call do exactly what the call does as a whole. */
  lemma MicroStepsRunTheCall(c: Call, m: Mem, d: Disk)
    ensures Finish(c, Frame(Entry, m, d)) == AsFrame(Whole(c, m, d))
  {
    var f := Frame(Entry, m, d);
    assert Finish(c, f) == Finish(c, Micro(c, f));
    var f1 := Micro(c, f);
    match f1.stage
    case ReadUid(vin) => FinishFromReadUid(c, m, d, vin);
    case LoadForAuthorization(vin) =>
      assert Finish(c, f1) == Finish(c, Micro(c, f1));
      FinishFromReadUid(c, m, d, vin);
    case ConfigSave(config) => FinishFromConfigSave(c, m, d, config.variantCoding);
    case ProductionSave(_) => FinishFromProductionSave(c, m, d, c.op.info);
    case OpenStore => FinishFromOpenStore(c, m, d);
    case LoadForReader => FinishFromReader(c, m, d);
    case _ =>
  }
}
