/**
 * The ECU UID and the TBOX serial number never stand in for each other: what each of them can influence,
 * stated over pairs of runs (src/prov_service.cpp:135-176, 402-543).
 */
module Isolation {
  import opened Types
  import opened Provisioning
  import opened Concurrency
  import C = Codec
  import F = FileStore

  // ----- Blanking one of the two identifiers -----

  function BlankUid(b: VehicleBinding): VehicleBinding {
    b.(ecuUid := "")
  }

  function BlankUidIn(b: Option<VehicleBinding>): Option<VehicleBinding> {
    if b.Some? then Some(BlankUid(b.value)) else None
  }

  function BlankSn(b: VehicleBinding): VehicleBinding {
    b.(sn := "")
  }

  datatype Secret = Uid | Sn

  /** A result with everything that depends on the secret blanked. */
  function BlankResult(s: Secret, r: Result): Result {
    match r
    case BindingIs(b) => BindingIs(if s.Uid? then BlankUid(b) else BlankSn(b))
    case _ => r
  }

  function BlankStage(s: Secret, stage: Stage): Stage {
    match stage
    case Done(r) => Done(BlankResult(s, r))
    case LoadExisting(vin, uid) => if s.Uid? then LoadExisting(vin, "") else stage
    case FirstSave(b) => if s.Uid? then FirstSave(BlankUid(b)) else stage
    case SecondSave(b) => if s.Uid? then SecondSave(BlankUid(b)) else stage
    case _ => stage
  }

  // ----- One micro-step -----

  predicate AlikeCalls(s: Secret, c1: Call, c2: Call) {
    && c1.op == c2.op
    && c2.env == (match s
                  case Uid => c1.env.(uid := c1.env.uid.(uid := c2.env.uid.uid))
                  case Sn => c1.env.(sn := c2.env.sn))
  }

  predicate AlikeDisks(s: Secret, d1: Disk, d2: Disk) {
    && d1.config == d2.config && d1.production == d2.production && d1.protection == d2.protection
    && (if s.Uid? then BlankUidIn(d1.binding) == BlankUidIn(d2.binding) else d1.binding == d2.binding)
  }

  predicate AlikeFrames(s: Secret, f1: Frame, f2: Frame) {
    BlankStage(s, f1.stage) == BlankStage(s, f2.stage) && f1.mem == f2.mem && AlikeDisks(s, f1.disk, f2.disk)
  }

  lemma SavingBlanksAlike(d1: Disk, d2: Disk, b1: VehicleBinding, b2: VehicleBinding, fault: F.SaveFault)
    requires AlikeDisks(Uid, d1, d2) && BlankUid(b1) == BlankUid(b2)
    ensures AlikeDisks(Uid, SaveBinding(d1, b1, fault), SaveBinding(d2, b2, fault))
  {
    assert BlankUid(C.StoredBinding(b1)) == C.StoredBinding(BlankUid(b1));
    assert BlankUid(C.StoredBinding(b2)) == C.StoredBinding(BlankUid(b2));
  }

  lemma UidSaveAlike(c1: Call, f1: Frame, c2: Call, f2: Frame)
    requires AlikeCalls(Uid, c1, c2) && AlikeFrames(Uid, f1, f2) && (f1.stage.FirstSave? || f1.stage.SecondSave?)
    ensures AlikeFrames(Uid, BindingStep(c1, f1), BindingStep(c2, f2))
  {
    var b1, b2 := f1.stage.binding, f2.stage.binding;
    if f1.stage.FirstSave? {
      SavingBlanksAlike(f1.disk, f2.disk, b1, b2, c1.env.firstSave);
    } else {
      SavingBlanksAlike(f1.disk, f2.disk, b1.(state := BOUND), b2.(state := BOUND), c1.env.secondSave);
    }
  }

  predicate AboutToAnswer(stage: Stage) {
    stage.Readback? || stage.ProtectionSave? || stage.SetFlag?
  }

  lemma UidVerifyAlike(d1: Disk, d2: Disk, vin: string, e1: Env, e2: Env)
    requires AlikeDisks(Uid, d1, d2) && e1.readLoads == e2.readLoads
    ensures VerifyWrite(d1, vin, e1) == VerifyWrite(d2, vin, e2)
  {
  }

  lemma UidProtectAlike(c1: Call, f1: Frame, c2: Call, f2: Frame)
    requires AlikeCalls(Uid, c1, c2) && AlikeFrames(Uid, f1, f2) && f1.stage.ProtectionSave?
    ensures AlikeFrames(Uid, BindingStep(c1, f1), BindingStep(c2, f2))
  {
  }

  lemma UidLateStepAlike(c1: Call, f1: Frame, c2: Call, f2: Frame)
    requires AlikeCalls(Uid, c1, c2) && AlikeFrames(Uid, f1, f2) && AboutToAnswer(f1.stage)
    ensures AlikeFrames(Uid, BindingStep(c1, f1), BindingStep(c2, f2))
  {
    if f1.stage.Readback? {
      UidVerifyAlike(f1.disk, f2.disk, f1.stage.vin, c1.env, c2.env);
    } else if f1.stage.ProtectionSave? {
      UidProtectAlike(c1, f1, c2, f2);
    }
  }

  lemma UidBindingStepAlike(c1: Call, f1: Frame, c2: Call, f2: Frame)
    requires AlikeCalls(Uid, c1, c2) && AlikeFrames(Uid, f1, f2)
    ensures AlikeFrames(Uid, BindingStep(c1, f1), BindingStep(c2, f2))
  {
    if f1.stage.FirstSave? || f1.stage.SecondSave? {
      UidSaveAlike(c1, f1, c2, f2);
    } else if AboutToAnswer(f1.stage) {
      UidLateStepAlike(c1, f1, c2, f2);
    }
  }

  lemma UidConfigStepAlike(c1: Call, f1: Frame, c2: Call, f2: Frame)
    requires AlikeCalls(Uid, c1, c2) && AlikeFrames(Uid, f1, f2)
    requires f1.stage.ConfigSave? || f1.stage.ConfigReadback? || f1.stage.VerifiedSave?
    ensures AlikeFrames(Uid, RecordStep(c1, f1), RecordStep(c2, f2))
  {
  }

  lemma UidRecordStepAlike(c1: Call, f1: Frame, c2: Call, f2: Frame)
    requires AlikeCalls(Uid, c1, c2) && AlikeFrames(Uid, f1, f2)
    ensures AlikeFrames(Uid, RecordStep(c1, f1), RecordStep(c2, f2))
  {
    if f1.stage.ConfigSave? || f1.stage.ConfigReadback? || f1.stage.VerifiedSave? {
      UidConfigStepAlike(c1, f1, c2, f2);
    }
  }

  lemma UidEntryAlike(c1: Call, f1: Frame, c2: Call, f2: Frame)
    requires AlikeCalls(Uid, c1, c2) && AlikeFrames(Uid, f1, f2)
    ensures AlikeFrames(Uid, EnterCall(c1, f1), EnterCall(c2, f2))
  {
  }

  lemma SnEntryAlike(c1: Call, f1: Frame, c2: Call, f2: Frame)
    requires AlikeCalls(Sn, c1, c2) && AlikeFrames(Sn, f1, f2)
    ensures AlikeFrames(Sn, EnterCall(c1, f1), EnterCall(c2, f2))
  {
  }

  function Answer(c: Call, d: Disk): Result {
    ReadAnswer(c.op, Loaded(d.binding, c.env.readLoads), c.env)
  }

  lemma UidAnswerAlike(c1: Call, d1: Disk, c2: Call, d2: Disk)
    requires AlikeCalls(Uid, c1, c2) && AlikeDisks(Uid, d1, d2)
    ensures BlankResult(Uid, Answer(c1, d1)) == BlankResult(Uid, Answer(c2, d2))
  {
  }

  lemma SnAnswerAlike(c1: Call, d1: Disk, c2: Call, d2: Disk)
    requires AlikeCalls(Sn, c1, c2) && AlikeDisks(Sn, d1, d2)
    ensures BlankResult(Sn, Answer(c1, d1)) == BlankResult(Sn, Answer(c2, d2))
  {
  }

  lemma UidOtherStepAlike(c1: Call, f1: Frame, c2: Call, f2: Frame)
    requires AlikeCalls(Uid, c1, c2) && AlikeFrames(Uid, f1, f2) && OtherStage(f1.stage)
    ensures AlikeFrames(Uid, OtherStep(c1, f1), OtherStep(c2, f2))
  {
    UidAnswerAlike(c1, f1.disk, c2, f2.disk);
  }

  lemma SnOtherStepAlike(c1: Call, f1: Frame, c2: Call, f2: Frame)
    requires AlikeCalls(Sn, c1, c2) && AlikeFrames(Sn, f1, f2) && OtherStage(f1.stage)
    ensures AlikeFrames(Sn, OtherStep(c1, f1), OtherStep(c2, f2))
  {
    SnAnswerAlike(c1, f1.disk, c2, f2.disk);
  }

  lemma SameKindOfStage(s: Secret, stage1: Stage, stage2: Stage)
    requires BlankStage(s, stage1) == BlankStage(s, stage2)
    ensures stage1.Entry? == stage2.Entry?
    ensures OtherStage(stage1) == OtherStage(stage2)
    ensures RecordStage(stage1) == RecordStage(stage2)
    ensures stage1.Done? == stage2.Done?
    ensures Resting(stage1) == Resting(stage2)
    ensures stage1.Done? ==> BlankResult(s, stage1.result) == BlankResult(s, stage2.result)
  {
  }

  lemma UidMicroAlike(c1: Call, f1: Frame, c2: Call, f2: Frame)
    requires AlikeCalls(Uid, c1, c2) && AlikeFrames(Uid, f1, f2)
    ensures AlikeFrames(Uid, Micro(c1, f1), Micro(c2, f2))
  {
    SameKindOfStage(Uid, f1.stage, f2.stage);
    if f1.stage.Entry? {
      UidEntryAlike(c1, f1, c2, f2);
    } else if OtherStage(f1.stage) {
      UidOtherStepAlike(c1, f1, c2, f2);
    } else if RecordStage(f1.stage) {
      UidRecordStepAlike(c1, f1, c2, f2);
    } else {
      UidBindingStepAlike(c1, f1, c2, f2);
    }
  }

  lemma SnBindingStepAlike(c1: Call, f1: Frame, c2: Call, f2: Frame)
    requires AlikeCalls(Sn, c1, c2) && AlikeFrames(Sn, f1, f2) && !OtherStage(f1.stage)
    ensures AlikeFrames(Sn, BindingStep(c1, f1), BindingStep(c2, f2))
  {
  }

  lemma SnRecordStepAlike(c1: Call, f1: Frame, c2: Call, f2: Frame)
    requires AlikeCalls(Sn, c1, c2) && AlikeFrames(Sn, f1, f2) && !OtherStage(f1.stage)
    ensures AlikeFrames(Sn, RecordStep(c1, f1), RecordStep(c2, f2))
  {
  }

  lemma SnMicroAlike(c1: Call, f1: Frame, c2: Call, f2: Frame)
    requires AlikeCalls(Sn, c1, c2) && AlikeFrames(Sn, f1, f2)
    ensures AlikeFrames(Sn, Micro(c1, f1), Micro(c2, f2))
  {
    SameKindOfStage(Sn, f1.stage, f2.stage);
    if f1.stage.Entry? {
      SnEntryAlike(c1, f1, c2, f2);
    } else if OtherStage(f1.stage) {
      SnOtherStepAlike(c1, f1, c2, f2);
    } else if RecordStage(f1.stage) {
      SnRecordStepAlike(c1, f1, c2, f2);
    } else {
      SnBindingStepAlike(c1, f1, c2, f2);
    }
  }

  // ----- Threads -----

  predicate AlikeThreads(s: Secret, t1: Thread, t2: Thread) {
    match (t1, t2)
    case (Waiting(c1), Waiting(c2)) => AlikeCalls(s, c1, c2)
    case (Inside(c1, s1), Inside(c2, s2)) => AlikeCalls(s, c1, c2) && BlankStage(s, s1) == BlankStage(s, s2)
    case (Returned(c1, r1), Returned(c2, r2)) => AlikeCalls(s, c1, c2) && BlankResult(s, r1) == BlankResult(s, r2)
    case _ => false
  }

  predicate AlikeReturns(s: Secret, r1: Return, r2: Return) {
    r1.tid == r2.tid && AlikeCalls(s, r1.call, r2.call) && BlankResult(s, r1.result) == BlankResult(s, r2.result)
  }

  ghost predicate AlikeThreadMaps(s: Secret, threads1: map<Tid, Thread>, threads2: map<Tid, Thread>) {
    && threads1.Keys == threads2.Keys
    && forall t :: t in threads1 ==> AlikeThreads(s, threads1[t], threads2[t])
  }

  ghost predicate AlikeHistories(s: Secret, returned1: seq<Return>, returned2: seq<Return>) {
    && |returned1| == |returned2|
    && forall i :: 0 <= i < |returned1| ==> AlikeReturns(s, returned1[i], returned2[i])
  }

  /** Two processes that differ at most in the secret: same disk, same fields, same results but for it. */
  ghost predicate Alike(s: Secret, w1: World, w2: World) {
    && w1.mem == w2.mem
    && AlikeDisks(s, w1.disk, w2.disk)
    && w1.lock == w2.lock
    && AlikeThreadMaps(s, w1.threads, w2.threads)
    && AlikeHistories(s, w1.returned, w2.returned)
  }

  lemma PutAlike(s: Secret, threads1: map<Tid, Thread>, threads2: map<Tid, Thread>, t: Tid, new1: Thread, new2: Thread)
    requires AlikeThreadMaps(s, threads1, threads2) && AlikeThreads(s, new1, new2)
    ensures AlikeThreadMaps(s, threads1[t := new1], threads2[t := new2])
  {
  }

  lemma AppendAlike(s: Secret, returned1: seq<Return>, returned2: seq<Return>, new1: Return, new2: Return)
    requires AlikeHistories(s, returned1, returned2) && AlikeReturns(s, new1, new2)
    ensures AlikeHistories(s, returned1 + [new1], returned2 + [new2])
  {
  }

  predicate AlikeEvents(s: Secret, e1: Event, e2: Event) {
    match (e1, e2)
    case (Invoke(t1, c1), Invoke(t2, c2)) => t1 == t2 && AlikeCalls(s, c1, c2)
    case _ => e1 == e2
  }

  ghost predicate AlikeRuns(s: Secret, events1: seq<Event>, events2: seq<Event>) {
    && |events1| == |events2|
    && forall i :: 0 <= i < |events1| ==> AlikeEvents(s, events1[i], events2[i])
  }

  lemma MovedAlike(s: Secret, w1: World, w2: World, t: Tid, c1: Call, next1: Frame, c2: Call, next2: Frame,
                   order1: seq<Item>, order2: seq<Item>)
    requires Alike(s, w1, w2) && AlikeCalls(s, c1, c2) && AlikeFrames(s, next1, next2)
    ensures Alike(s, Moved(w1, t, c1, next1).(order := order1), Moved(w2, t, c2, next2).(order := order2))
  {
    PutAlike(s, w1.threads, w2.threads, t, Inside(c1, next1.stage), Inside(c2, next2.stage));
  }

  lemma MicroAlike(s: Secret, c1: Call, f1: Frame, c2: Call, f2: Frame)
    requires AlikeCalls(s, c1, c2) && AlikeFrames(s, f1, f2)
    ensures AlikeFrames(s, Micro(c1, f1), Micro(c2, f2))
  {
    if s.Uid? {
      UidMicroAlike(c1, f1, c2, f2);
    } else {
      SnMicroAlike(c1, f1, c2, f2);
    }
  }

  lemma AdvanceAlike(s: Secret, w1: World, w2: World, t: Tid)
    requires Alike(s, w1, w2) && CanAdvance(w1, t) && CanAdvance(w2, t)
    ensures Alike(s, AdvanceThread(w1, t), AdvanceThread(w2, t))
  {
    assert AlikeThreads(s, w1.threads[t], w2.threads[t]);
    var Inside(c1, s1) := w1.threads[t];
    var Inside(c2, s2) := w2.threads[t];
    var f1, f2 := Frame(s1, w1.mem, w1.disk), Frame(s2, w2.mem, w2.disk);
    MicroAlike(s, c1, f1, c2, f2);
    MovedAlike(s, w1, w2, t, c1, Micro(c1, f1), c2, Micro(c2, f2),
               AdvanceThread(w1, t).order, AdvanceThread(w2, t).order);
  }

  lemma InvokeAlike(s: Secret, w1: World, w2: World, t: Tid, c1: Call, c2: Call)
    requires Alike(s, w1, w2) && AlikeCalls(s, c1, c2)
    ensures Alike(s, w1.(threads := w1.threads[t := Waiting(c1)]), w2.(threads := w2.threads[t := Waiting(c2)]))
  {
    PutAlike(s, w1.threads, w2.threads, t, Waiting(c1), Waiting(c2));
  }

  lemma TakeLockAlike(s: Secret, w1: World, w2: World, t: Tid)
    requires Alike(s, w1, w2) && CanAcquire(w1, t) && CanAcquire(w2, t)
    ensures Alike(s, TakeLock(w1, t), TakeLock(w2, t))
  {
    var th1, th2 := w1.threads[t], w2.threads[t];
    assert AlikeThreads(s, th1, th2);
    PutAlike(s, w1.threads, w2.threads, t, Inside(th1.call, Entry), Inside(th2.call, Entry));
  }

  lemma DropLockAlike(s: Secret, w1: World, w2: World, t: Tid)
    requires Alike(s, w1, w2) && CanRelease(w1, t) && CanRelease(w2, t)
    ensures Alike(s, DropLock(w1, t), DropLock(w2, t))
  {
    var th1, th2 := w1.threads[t], w2.threads[t];
    assert AlikeThreads(s, th1, th2);
    SameKindOfStage(s, th1.stage, th2.stage);
    var r1, r2 := th1.stage.result, th2.stage.result;
    PutAlike(s, w1.threads, w2.threads, t, Returned(th1.call, r1), Returned(th2.call, r2));
    AppendAlike(s, w1.returned, w2.returned, Return(t, th1.call, r1), Return(t, th2.call, r2));
  }

  lemma SameEnabled(s: Secret, w1: World, w2: World, t: Tid)
    requires Alike(s, w1, w2)
    ensures CanAcquire(w1, t) == CanAcquire(w2, t)
    ensures CanAdvance(w1, t) == CanAdvance(w2, t)
    ensures CanRelease(w1, t) == CanRelease(w2, t)
    ensures t in w1.threads ==> w1.threads[t].Returned? == w2.threads[t].Returned?
  {
    if t in w1.threads {
      assert AlikeThreads(s, w1.threads[t], w2.threads[t]);
      if w1.threads[t].Inside? {
        SameKindOfStage(s, w1.threads[t].stage, w2.threads[t].stage);
      }
    }
  }

  lemma StepAlike(s: Secret, w1: World, w2: World, e1: Event, e2: Event)
    requires Alike(s, w1, w2) && AlikeEvents(s, e1, e2)
    ensures Alike(s, Step(w1, e1), Step(w2, e2))
  {
    match e1
    case Invoke(t, c1) =>
      SameEnabled(s, w1, w2, t);
      InvokeAlike(s, w1, w2, t, c1, e2.call);
    case Acquire(t) =>
      SameEnabled(s, w1, w2, t);
      if CanAcquire(w1, t) {
        TakeLockAlike(s, w1, w2, t);
      }
    case Release(t) =>
      SameEnabled(s, w1, w2, t);
      if CanRelease(w1, t) {
        DropLockAlike(s, w1, w2, t);
      }
    case Advance(t) =>
      SameEnabled(s, w1, w2, t);
      if CanAdvance(w1, t) {
        AdvanceAlike(s, w1, w2, t);
      }
    case BeginShutdown =>
    case Crash(_) =>
  }

  lemma {:induction false} RunAlike(s: Secret, w1: World, w2: World, events1: seq<Event>, events2: seq<Event>)
    requires Alike(s, w1, w2) && AlikeRuns(s, events1, events2)
    ensures Alike(s, Run(w1, events1), Run(w2, events2))
    decreases events1
  {
    if events1 != [] {
      assert AlikeEvents(s, events1[0], events2[0]);
      StepAlike(s, w1, w2, events1[0], events2[0]);
      RunAlike(s, Step(w1, events1[0]), Step(w2, events2[0]), events1[1..], events2[1..]);
    }
  }

  /**
   * Two runs with the same calls, faults, crashes and interleaving but different UIDs agree on every field of
   * the store except the stored ecu_uid and on every result except the ecu_uid of a binding; in particular on
   * every sn.
   */
  lemma UidReachesOnlyTheUidField(m: Mem, d: Disk, events1: seq<Event>, events2: seq<Event>)
    requires AlikeRuns(Uid, events1, events2)
    ensures var w1, w2 := Run(Boot(m, d), events1), Run(Boot(m, d), events2);
            && Alike(Uid, w1, w2)
            && w1.disk.(binding := None) == w2.disk.(binding := None)
            && (w1.disk.binding.Some? <==> w2.disk.binding.Some?)
            && (w1.disk.binding.Some? ==>
                  w1.disk.binding.value.(ecuUid := w2.disk.binding.value.ecuUid) == w2.disk.binding.value)
  {
    RunAlike(Uid, Boot(m, d), Boot(m, d), events1, events2);
  }

  /** Different serial numbers never reach the store, and change nothing in a result but a binding's sn. */
  lemma SnNeverReachesTheStore(m: Mem, d: Disk, events1: seq<Event>, events2: seq<Event>)
    requires AlikeRuns(Sn, events1, events2)
    ensures var w1, w2 := Run(Boot(m, d), events1), Run(Boot(m, d), events2);
            && Alike(Sn, w1, w2)
            && w1.disk == w2.disk && w1.mem == w2.mem
  {
    RunAlike(Sn, Boot(m, d), Boot(m, d), events1, events2);
  }
}
