/**
 * Any number of client threads calling one ProvService: the mutex each call takes (src/prov_service.cpp:75-191),
 * the shutdown flag that is written without it, and crashes that end the process with all its threads.
 */
module Concurrency {
  import opened Types
  import opened Provisioning
  import CS = CrashSafety
  import Vin

  type Tid = nat

  datatype Thread =
    | Waiting(call: Call)
    | Inside(call: Call, stage: Stage)
    | Returned(call: Call, result: Result)

  datatype Return = Return(tid: Tid, call: Call, result: Result)

  /** A serial history: whole calls, and the shutdown flag being raised between them. */
  datatype Item = Ran(tid: Tid, call: Call) | RaisedShutdown

  /**
   * The process: shared fields, disk, mutex and threads. The rest is a record since the last boot: the state
   * then, the order in which the mutex was taken, the serial order, and what has been returned.
   */
  datatype World = World(
    mem: Mem,
    disk: Disk,
    lock: Option<Tid>,
    threads: map<Tid, Thread>,
    boot: (Mem, Disk),
    acquired: seq<(Tid, Call)>,
    order: seq<Item>,
    returned: seq<Return>)

  datatype Event =
    | Invoke(tid: Tid, call: Call)
    | Acquire(tid: Tid)
    | Advance(tid: Tid)
    | Release(tid: Tid)
    | BeginShutdown
    | Crash(enableWriteProtection: bool)

  function Boot(m: Mem, d: Disk): World {
    World(m, d, None, map[], (m, d), [], [], [])
  }

  predicate CanAcquire(w: World, t: Tid) {
    t in w.threads && w.threads[t].Waiting? && w.lock.None?
  }

  predicate CanAdvance(w: World, t: Tid) {
    t in w.threads && w.threads[t].Inside? && !Resting(w.threads[t].stage)
  }

  predicate CanRelease(w: World, t: Tid) {
    t in w.threads && w.threads[t].Inside? && w.threads[t].stage.Done?
  }

  /** Thread t, inside the call, has made the step to the frame next. */
  function Moved(w: World, t: Tid, call: Call, next: Frame): World {
    w.(threads := w.threads[t := Inside(call, next.stage)], mem := next.mem, disk := next.disk)
  }

  function AdvanceThread(w: World, t: Tid): World
    requires CanAdvance(w, t)
  {
    var Inside(call, stage) := w.threads[t];
    Moved(w, t, call, Micro(call, Frame(stage, w.mem, w.disk))).(
      order := if stage.Entry? then w.order + [Ran(t, call)] else w.order)
  }

  function TakeLock(w: World, t: Tid): World
    requires CanAcquire(w, t)
  {
    var call := w.threads[t].call;
    w.(lock := Some(t), threads := w.threads[t := Inside(call, Entry)], acquired := w.acquired + [(t, call)])
  }

  function DropLock(w: World, t: Tid): World
    requires CanRelease(w, t)
  {
    var Inside(call, stage) := w.threads[t];
    w.(lock := None,
       threads := w.threads[t := Returned(call, stage.result)],
       returned := w.returned + [Return(t, call, stage.result)])
  }

  function Step(w: World, e: Event): World {
    match e
    case Invoke(t, call) =>
      if t !in w.threads || w.threads[t].Returned? then w.(threads := w.threads[t := Waiting(call)]) else w
    case Acquire(t) => if CanAcquire(w, t) then TakeLock(w, t) else w
    case Advance(t) => if CanAdvance(w, t) then AdvanceThread(w, t) else w
    case Release(t) => if CanRelease(w, t) then DropLock(w, t) else w
    case BeginShutdown => w.(mem := CS.SetShuttingDown(w.mem), order := w.order + [RaisedShutdown])
    case Crash(enable) => Boot(Booted(enable), w.disk)
  }

  function Run(w: World, events: seq<Event>): World
    decreases events
  {
    if events == [] then w else Run(Step(w, events[0]), events[1..])
  }

  ghost predicate InvokedSatisfy(events: seq<Event>, p: Call -> bool) {
    forall i :: 0 <= i < |events| && events[i].Invoke? ==> p(events[i].call)
  }

  // ----- The mutex -----

  ghost predicate MutualExclusion(w: World) {
    && (forall t :: t in w.threads && w.threads[t].Inside? ==> w.lock == Some(t))
    && (w.lock.Some? ==>
          w.lock.value in w.threads && w.threads[w.lock.value].Inside? && !w.threads[w.lock.value].stage.Idle?)
  }

  lemma MutualExclusionStep(w: World, e: Event)
    requires MutualExclusion(w)
    ensures MutualExclusion(Step(w, e))
  {
    if e.Advance? && CanAdvance(w, e.tid) {
      MicroMakesProgress(w.threads[e.tid].call, Frame(w.threads[e.tid].stage, w.mem, w.disk));
    }
  }

  /** However the threads interleave, at most one is between taking and releasing the mutex. */
  lemma {:induction false} MutualExclusionRun(w: World, events: seq<Event>)
    requires MutualExclusion(w)
    ensures MutualExclusion(Run(w, events))
    decreases events
  {
    if events != [] {
      MutualExclusionStep(w, events[0]);
      MutualExclusionRun(Step(w, events[0]), events[1..]);
    }
  }

  /** What the holder of the mutex, if any, sees. */
  ghost function Focus(w: World): Frame
    requires MutualExclusion(w)
  {
    Frame(if w.lock.Some? then w.threads[w.lock.value].stage else Idle, w.mem, w.disk)
  }

  // ----- Serializability -----

  datatype Serial = Serial(mem: Mem, disk: Disk, results: seq<Return>)

  function SerialStep(s: Serial, item: Item): Serial {
    match item
    case Ran(t, call) =>
      var o := Whole(call, s.mem, s.disk);
      Serial(o.mem, o.disk, s.results + [Return(t, call, o.result)])
    case RaisedShutdown => s.(mem := CS.SetShuttingDown(s.mem))
  }

  function SerialRun(boot: (Mem, Disk), order: seq<Item>): Serial {
    if order == [] then Serial(boot.0, boot.1, [])
    else SerialStep(SerialRun(boot, order[..|order| - 1]), order[|order| - 1])
  }

  function Calls(order: seq<Item>): seq<(Tid, Call)> {
    if order == [] then []
    else
      var front := Calls(order[..|order| - 1]);
      match order[|order| - 1]
      case Ran(t, call) => front + [(t, call)]
      case RaisedShutdown => front
  }

  lemma SerialRunGrows(boot: (Mem, Disk), order: seq<Item>, item: Item)
    ensures SerialRun(boot, order + [item]) == SerialStep(SerialRun(boot, order), item)
    ensures Calls(order + [item]) == Calls(order) + (if item.Ran? then [(item.tid, item.call)] else [])
  {
    assert (order + [item])[..|order|] == order;
  }

  /** Where the process stands relative to running the calls of its serial order whole, one after the other. */
  ghost predicate Tracks(w: World) {
    && MutualExclusion(w)
    && var s := SerialRun(w.boot, w.order);
       if w.lock.None? then
         s == Serial(w.mem, w.disk, w.returned) && Calls(w.order) == w.acquired
       else
         var Inside(call, stage) := w.threads[w.lock.value];
         if stage.Entry? then
           s == Serial(w.mem, w.disk, w.returned) && w.acquired == Calls(w.order) + [(w.lock.value, call)]
         else
           var f := Finish(call, Frame(stage, w.mem, w.disk));
           && f.stage.Done?
           && s == Serial(f.mem, f.disk, w.returned + [Return(w.lock.value, call, f.stage.result)])
           && Calls(w.order) == w.acquired
  }

  lemma {:induction false} FinishIsDone(c: Call, f: Frame)
    requires !f.stage.Idle?
    ensures Finish(c, f).stage.Done?
    decreases Rank(f.stage)
  {
    if !Resting(f.stage) {
      MicroMakesProgress(c, f);
      FinishIsDone(c, Micro(c, f));
    }
  }

  function Raise(f: Frame): Frame {
    f.(mem := CS.SetShuttingDown(f.mem))
  }

  lemma SaveIgnoresShutdown(c: Call, f: Frame)
    requires f.stage.FirstSave? || f.stage.SecondSave? || f.stage.ProtectionSave?
    ensures BindingStep(c, Raise(f)) == Raise(BindingStep(c, f))
  {
  }

  lemma BindingStepIgnoresShutdown(c: Call, f: Frame)
    ensures BindingStep(c, Raise(f)) == Raise(BindingStep(c, f))
    ensures !f.stage.Entry? ==> !BindingStep(c, f).stage.Entry?
  {
    if f.stage.FirstSave? || f.stage.SecondSave? || f.stage.ProtectionSave? {
      SaveIgnoresShutdown(c, f);
    }
  }

  lemma RecordStepIgnoresShutdown(c: Call, f: Frame)
    ensures RecordStep(c, Raise(f)) == Raise(RecordStep(c, f))
    ensures !f.stage.Entry? ==> !RecordStep(c, f).stage.Entry?
  {
  }

  lemma MicroIgnoresShutdown(c: Call, f: Frame)
    requires !f.stage.Entry?
    ensures Micro(c, Raise(f)) == Raise(Micro(c, f))
    ensures !Micro(c, f).stage.Entry?
  {
    BindingStepIgnoresShutdown(c, f);
    RecordStepIgnoresShutdown(c, f);
  }

  /** Past its check, a call ends the same whether or not the shutdown flag is raised under way. */
  lemma {:induction false} FinishIgnoresShutdown(c: Call, f: Frame)
    requires !f.stage.Entry?
    ensures Finish(c, Raise(f)) == Raise(Finish(c, f))
    decreases Rank(f.stage)
  {
    if !Resting(f.stage) {
      MicroMakesProgress(c, f);
      MicroIgnoresShutdown(c, f);
      FinishIgnoresShutdown(c, Micro(c, f));
    }
  }

  lemma TracksAdvance(w: World, t: Tid)
    requires Tracks(w) && CanAdvance(w, t)
    ensures Tracks(AdvanceThread(w, t))
  {
    var Inside(call, stage) := w.threads[t];
    var f := Frame(stage, w.mem, w.disk);
    MutualExclusionStep(w, Advance(t));
    assert Finish(call, f) == Finish(call, Micro(call, f)) by { MicroMakesProgress(call, f); }
    assert !Micro(call, f).stage.Entry? by {
      if stage.Entry? {
        MicroMakesProgress(call, f);
      } else {
        MicroIgnoresShutdown(call, f);
      }
    }
    if stage.Entry? {
      SerialRunGrows(w.boot, w.order, Ran(t, call));
      MicroStepsRunTheCall(call, w.mem, w.disk);
    }
  }

  lemma TracksShutdown(w: World)
    requires Tracks(w)
    ensures Tracks(Step(w, BeginShutdown))
  {
    SerialRunGrows(w.boot, w.order, RaisedShutdown);
    if w.lock.Some? {
      var Inside(call, stage) := w.threads[w.lock.value];
      if !stage.Entry? {
        FinishIgnoresShutdown(call, Frame(stage, w.mem, w.disk));
      }
    }
  }

  lemma TracksStep(w: World, e: Event)
    requires Tracks(w)
    ensures Tracks(Step(w, e))
  {
    MutualExclusionStep(w, e);
    match e
    case Advance(t) => if CanAdvance(w, t) { TracksAdvance(w, t); }
    case BeginShutdown => TracksShutdown(w);
    case _ =>
  }

  lemma {:induction false} TracksRun(w: World, events: seq<Event>)
    requires Tracks(w)
    ensures Tracks(Run(w, events))
    decreases events
  {
    if events != [] {
      TracksStep(w, events[0]);
      TracksRun(Step(w, events[0]), events[1..]);
    }
  }

  /**
   * Serializability: whenever nobody holds the mutex, the fields, the disk and every returned result are those
   * of running the calls whole in the order in which they took the mutex, the shutdown flag raised between
   * two of them; at any time the results returned so far are the first of that serial run.
   */
  lemma Serializability(m: Mem, d: Disk, events: seq<Event>)
    ensures var w := Run(Boot(m, d), events);
            var s := SerialRun(w.boot, w.order);
            && (w.lock.None? ==> s == Serial(w.mem, w.disk, w.returned) && Calls(w.order) == w.acquired)
            && w.returned <= s.results
            && Calls(w.order) <= w.acquired
  {
    TracksRun(Boot(m, d), events);
  }

  // ----- Calls that come from somewhere -----

  ghost predicate CallsIn(w: World, p: Call -> bool) {
    && (forall t :: t in w.threads ==> p(w.threads[t].call))
    && (forall i :: 0 <= i < |w.order| && w.order[i].Ran? ==> p(w.order[i].call))
  }

  lemma CallsInStep(w: World, e: Event, p: Call -> bool)
    requires CallsIn(w, p) && (e.Invoke? ==> p(e.call))
    ensures CallsIn(Step(w, e), p)
  {
  }

  lemma {:induction false} CallsInRun(w: World, events: seq<Event>, p: Call -> bool)
    requires CallsIn(w, p) && InvokedSatisfy(events, p)
    ensures CallsIn(Run(w, events), p)
    decreases events
  {
    if events != [] {
      CallsInStep(w, events[0], p);
      CallsInRun(Step(w, events[0]), events[1..], p);
    }
  }

  // ----- No torn reads -----

  predicate HonestRecords(c: Call) {
    CS.HonestRecords(c)
  }

  /** The call gets as far as having its first-stage save of the binding reported stored. */
  predicate SavesBinding(c: Call, m: Mem, d: Disk) {
    && (c.op.WriteVin? || c.op.AuthorizeRewrite?)
    && Accepting(m) && Vin.Valid(c.op.vin)
    && !(c.op.AuthorizeRewrite? && Conflicts(d, c))
    && c.env.uid.success
    && WriteCode(m.writeProtected, c.env.firstSave) == Success
  }

  predicate Conflicts(d: Disk, c: Call)
    requires c.op.AuthorizeRewrite?
  {
    var current := Loaded(d.binding, c.env.authorizeLoads);
    current.Some? && current.value.locked && current.value.vin != c.op.vin
  }

  /** The binding is the one the call c writes, marked BOUND exactly if its second save went through. */
  predicate WrittenBy(c: Call, d: Disk) {
    && (c.op.WriteVin? || c.op.AuthorizeRewrite?)
    && d.binding.Some?
    && d.binding.value.vin == c.op.vin
    && d.binding.value.ecuUid == c.env.uid.uid
    && d.binding.value.state == (if c.env.secondSave.Sound? then BOUND else VIN_WRITTEN)
  }

  lemma FlowWrites(m: Mem, d: Disk, vin: string, e: Env)
    requires !e.firstSave.Garbled? && !e.secondSave.Garbled? && e.uid.success
    ensures var d' := BindingFlow(m, d, vin, e).disk;
            if WriteCode(m.writeProtected, e.firstSave) == Success then
              && d'.binding.Some? && d'.binding.value.vin == vin && d'.binding.value.ecuUid == e.uid.uid
              && d'.binding.value.state == (if e.secondSave.Sound? then BOUND else VIN_WRITTEN)
            else d'.binding == d.binding
  {
  }

  lemma WholeCallWrites(c: Call, m: Mem, d: Disk)
    requires HonestRecords(c)
    ensures var d' := Whole(c, m, d).disk;
            if SavesBinding(c, m, d) then WrittenBy(c, d') else d'.binding == d.binding
  {
    if (c.op.WriteVin? || c.op.AuthorizeRewrite?) && c.env.uid.success {
      FlowWrites(m, d, c.op.vin, c.env);
    }
  }

  /** The position in a serial history of the last call that saved the binding. */
  function LastWriter(boot: (Mem, Disk), order: seq<Item>): Option<nat> {
    if order == [] then None
    else
      var front, last := order[..|order| - 1], order[|order| - 1];
      var s := SerialRun(boot, front);
      if last.Ran? && SavesBinding(last.call, s.mem, s.disk) then Some(|order| - 1) else LastWriter(boot, front)
  }

  ghost predicate HonestOrder(order: seq<Item>) {
    forall i :: 0 <= i < |order| && order[i].Ran? ==> HonestRecords(order[i].call)
  }

  /** After a serial history the binding is that of its last writer, or the one from the boot. */
  lemma {:induction false} BindingIsOfLastWriter(boot: (Mem, Disk), order: seq<Item>)
    requires HonestOrder(order)
    ensures match LastWriter(boot, order)
            case None => SerialRun(boot, order).disk.binding == boot.1.binding
            case Some(j) => j < |order| && order[j].Ran? && WrittenBy(order[j].call, SerialRun(boot, order).disk)
  {
    if order != [] {
      var front, last := order[..|order| - 1], order[|order| - 1];
      BindingIsOfLastWriter(boot, front);
      var s := SerialRun(boot, front);
      if last.Ran? {
        WholeCallWrites(last.call, s.mem, s.disk);
      }
    }
  }

  /** The answer r shows the half-written binding on d. */
  predicate ShowsHalf(d: Disk, r: Result) {
    && !Settled(d)
    && (r.BindingIs? ==> r.binding.vin == d.binding.value.vin && r.binding.ecuUid == d.binding.value.ecuUid)
  }

  lemma UnsettledAnswers(c: Call, m: Mem, d: Disk)
    requires !SettledResult(Whole(c, m, d).result)
    ensures ShowsHalf(d, Whole(c, m, d).result)
  {
  }

  /** The i-th result of a serial history belongs to the call at position p, run on what comes before it. */
  ghost predicate ResultOf(boot: (Mem, Disk), order: seq<Item>, i: nat, p: nat) {
    && p < |order| && order[p].Ran? && i < |SerialRun(boot, order).results|
    && var s, r := SerialRun(boot, order[..p]), SerialRun(boot, order).results[i];
       && |s.results| == i
       && r == Return(order[p].tid, order[p].call, Whole(order[p].call, s.mem, s.disk).result)
  }

  lemma {:induction false} ResultHasPosition(boot: (Mem, Disk), order: seq<Item>, i: nat) returns (p: nat)
    requires i < |SerialRun(boot, order).results|
    ensures ResultOf(boot, order, i, p)
  {
    var front := order[..|order| - 1];
    if i < |SerialRun(boot, front).results| {
      p := ResultHasPosition(boot, front, i);
      assert front[..p] == order[..p];
    } else {
      p := |order| - 1;
    }
  }

  /**
   * The answer of the call at position p shows a half-written binding, and whose: what was there at boot, or that of
   * the last call before p that saved one, whose second save did not go through.
   */
  predicate ShowsUnfinished(w: World, p: nat, r: Result)
    requires p <= |w.order|
  {
    match LastWriter(w.boot, w.order[..p])
    case None => !Settled(w.boot.1)
    case Some(j) =>
      && j < p && w.order[j].Ran?
      && (w.order[j].call.op.WriteVin? || w.order[j].call.op.AuthorizeRewrite?)
      && !w.order[j].call.env.secondSave.Sound?
      && (r.BindingIs? ==>
            r.binding.vin == w.order[j].call.op.vin && r.binding.ecuUid == w.order[j].call.env.uid.uid)
  }

  /** The i-th result is that of a reader at some position of the serial order, and shows whose binding it read. */
  ghost predicate Explained(w: World, i: nat)
    requires i < |w.returned|
  {
    exists p ::
      && 0 <= p < |w.order|
      && w.order[p] == Ran(w.returned[i].tid, w.returned[i].call)
      && |SerialRun(w.boot, w.order[..p]).results| == i
      && ShowsUnfinished(w, p, w.returned[i].result)
  }

  lemma HalfIsLastWriters(w: World, p: nat, r: Result)
    requires p < |w.order| && HonestOrder(w.order) && ShowsHalf(SerialRun(w.boot, w.order[..p]).disk, r)
    ensures ShowsUnfinished(w, p, r)
  {
    BindingIsOfLastWriter(w.boot, w.order[..p]);
  }

  lemma UnsettledAt(boot: (Mem, Disk), order: seq<Item>, i: nat, p: nat)
    requires ResultOf(boot, order, i, p) && !SettledResult(SerialRun(boot, order).results[i].result)
    ensures ShowsHalf(SerialRun(boot, order[..p]).disk, SerialRun(boot, order).results[i].result)
  {
    var s := SerialRun(boot, order[..p]);
    UnsettledAnswers(order[p].call, s.mem, s.disk);
  }

  lemma UnsettledResultExplained(w: World, i: nat)
    requires i < |w.returned| && w.returned <= SerialRun(w.boot, w.order).results
    requires !SettledResult(w.returned[i].result) && HonestOrder(w.order)
    ensures Explained(w, i)
  {
    assert w.returned[i] == SerialRun(w.boot, w.order).results[i];
    var p := ResultHasPosition(w.boot, w.order, i);
    UnsettledAt(w.boot, w.order, i, p);
    HalfIsLastWriters(w, p, w.returned[i].result);
  }

  /**
   * No reader sees the intermediate VIN_WRITTEN of a call that goes on to complete. In every run with honest
   * binding saves, other writes failing or not and crashes anywhere: an answer VIN_WRITTEN shows the last binding
   * saved before the reader in the serial order, and its writer's second save failed; or else nothing was saved
   * before it since the last boot, which found the disk half-written.
   */
  lemma NoTornReads(m: Mem, d: Disk, events: seq<Event>)
    requires InvokedSatisfy(events, HonestRecords)
    ensures var w := Run(Boot(m, d), events);
            forall i :: 0 <= i < |w.returned| && !SettledResult(w.returned[i].result) ==> Explained(w, i)
  {
    var w := Run(Boot(m, d), events);
    CallsInRun(Boot(m, d), events, HonestRecords);
    Serializability(m, d, events);
    forall i | 0 <= i < |w.returned| && !SettledResult(w.returned[i].result)
      ensures Explained(w, i)
    {
      UnsettledResultExplained(w, i);
    }
  }
}
