/**
 * The safety of the store under any number of threads: every interleaving is, for whoever holds the mutex, a run
 * of the crash-prone core, so what holds of the core's runs holds of the process. And what shutdown stops.
 */
module ThreadedSafety {
  import opened Types
  import opened Provisioning
  import opened Concurrency
  import CS = CrashSafety
  import F = FileStore

  // ----- Projection onto the core -----

  function Project(w: World, e: Event): CS.Event {
    match e
    case Invoke(_, _) => CS.Skip
    case Acquire(t) => if CanAcquire(w, t) then CS.Enter(w.threads[t].call) else CS.Skip
    case Advance(t) => if CanAdvance(w, t) then CS.Advance else CS.Skip
    case Release(t) => if CanRelease(w, t) then CS.Leave else CS.Skip
    case BeginShutdown => CS.Shutdown
    case Crash(enable) => CS.Crash(enable)
  }

  function ProjectRun(w: World, events: seq<Event>): seq<CS.Event>
    decreases events
  {
    if events == [] then [] else [Project(w, events[0])] + ProjectRun(Step(w, events[0]), events[1..])
  }

  ghost predicate Matches(w: World, k: CS.Core) {
    && MutualExclusion(w)
    && k.frame == Focus(w)
    && (w.lock.Some? ==> k.call == w.threads[w.lock.value].call)
  }

  lemma StepProjects(w: World, k: CS.Core, e: Event)
    requires Matches(w, k)
    ensures Matches(Step(w, e), CS.Step(k, Project(w, e)))
  {
    MutualExclusionStep(w, e);
  }

  /** Every run of the threaded process is a run of the core. */
  lemma {:induction false} RunProjects(w: World, k: CS.Core, events: seq<Event>, p: Call -> bool)
    requires Matches(w, k) && CallsIn(w, p) && InvokedSatisfy(events, p)
    ensures Matches(Run(w, events), CS.Run(k, ProjectRun(w, events)))
    ensures CS.CallsSatisfy(ProjectRun(w, events), p)
    ensures CallsIn(Run(w, events), p)
    decreases events
  {
    if events != [] {
      StepProjects(w, k, events[0]);
      CallsInStep(w, events[0], p);
      RunProjects(Step(w, events[0]), CS.Step(k, Project(w, events[0])), events[1..], p);
      var rest := ProjectRun(Step(w, events[0]), events[1..]);
      assert ProjectRun(w, events)[1..] == rest;
      assert Project(w, events[0]).Enter? ==> p(Project(w, events[0]).call);
      forall i | 0 <= i < |ProjectRun(w, events)| && ProjectRun(w, events)[i].Enter?
        ensures p(ProjectRun(w, events)[i].call)
      {
        if i > 0 {
          assert ProjectRun(w, events)[i] == rest[i - 1];
        }
      }
    }
  }

  // The core's view of a process nobody has called yet.
  function CoreAt(enable: bool, d: Disk): CS.Core {
    var nobody := Call(IsInitialized, Env(false, false, false, false, false, F.Sound, F.Sound, F.Sound,
                                          UidRead(false, "", Success), SnRead(false, ""), 0, 0));
    CS.Core(nobody, Frame(Idle, Booted(enable), d), CS.NO_RECORD)
  }

  lemma BootMatches(enable: bool, d: Disk)
    ensures Matches(Boot(Booted(enable), d), CoreAt(enable, d))
    ensures CS.JustBooted(CoreAt(enable, d))
    ensures d == EMPTY_DISK ==> CS.FreshDevice(CoreAt(enable, d))
  {
  }

  /** The core behind a threaded run. */
  function CoreOf(enable: bool, d: Disk, events: seq<Event>): CS.Core {
    CS.Run(CoreAt(enable, d), ProjectRun(Boot(Booted(enable), d), events))
  }

  lemma CoreOfMatches(enable: bool, d: Disk, events: seq<Event>, p: Call -> bool)
    requires InvokedSatisfy(events, p)
    ensures Matches(Run(Boot(Booted(enable), d), events), CoreOf(enable, d, events))
    ensures CS.CallsSatisfy(ProjectRun(Boot(Booted(enable), d), events), p)
  {
    BootMatches(enable, d);
    RunProjects(Boot(Booted(enable), d), CoreAt(enable, d), events, p);
  }

  // ----- Progress -----

  /** The events by which the holder of the mutex, left alone, leaves. */
  ghost function OwnSteps(w: World, t: Tid): seq<Event>
    requires MutualExclusion(w) && w.lock == Some(t)
    decreases Rank(w.threads[t].stage)
  {
    if !CanAdvance(w, t) then [Release(t)]
    else
      MutualExclusionStep(w, Advance(t));
      MicroMakesProgress(w.threads[t].call, Focus(w));
      [Advance(t)] + OwnSteps(Step(w, Advance(t)), t)
  }

  /** The mutex is never stuck: from every state its holder leaves within eleven steps of its own. */
  lemma {:induction false} HolderLeaves(w: World, t: Tid)
    requires MutualExclusion(w) && w.lock == Some(t)
    ensures |OwnSteps(w, t)| <= Rank(w.threads[t].stage) + 1 <= 11
    ensures var w' := Run(w, OwnSteps(w, t));
            var last := Finish(w.threads[t].call, Focus(w));
            && w'.lock.None? && w'.disk == last.disk && w'.mem == last.mem
            && last.stage.Done?
            && w'.returned == w.returned + [Return(t, w.threads[t].call, last.stage.result)]
    decreases Rank(w.threads[t].stage)
  {
    if CanAdvance(w, t) {
      var w1 := Step(w, Advance(t));
      MutualExclusionStep(w, Advance(t));
      MicroMakesProgress(w.threads[t].call, Focus(w));
      HolderLeaves(w1, t);
      assert OwnSteps(w, t)[1..] == OwnSteps(w1, t);
    }
  }

  /** The mutex is free, and so is thread t. */
  ghost predicate Free(w: World, t: Tid) {
    MutualExclusion(w) && w.lock.None? && (t in w.threads ==> w.threads[t].Returned?)
  }

  /** A free thread makes a call and nothing comes in between. */
  ghost function Serving(w: World, t: Tid, call: Call): seq<Event>
    requires Free(w, t)
  {
    var inside := Step(Step(w, Invoke(t, call)), Acquire(t));
    MutualExclusionStep(w, Invoke(t, call));
    MutualExclusionStep(Step(w, Invoke(t, call)), Acquire(t));
    [Invoke(t, call), Acquire(t)] + OwnSteps(inside, t)
  }

  /** A call made when the mutex is free gets it, and returns what the whole call gives. */
  lemma CallIsServed(w: World, t: Tid, call: Call)
    requires Free(w, t)
    ensures var w' := Run(w, Serving(w, t, call));
            var o := Whole(call, w.mem, w.disk);
            && Free(w', t) && w'.mem == o.mem && w'.disk == o.disk
            && w'.returned == w.returned + [Return(t, call, o.result)]
  {
    var invoked := Step(w, Invoke(t, call));
    var inside := Step(invoked, Acquire(t));
    MutualExclusionStep(w, Invoke(t, call));
    MutualExclusionStep(invoked, Acquire(t));
    assert Serving(w, t, call)[1..] == [Acquire(t)] + OwnSteps(inside, t);
    assert ([Acquire(t)] + OwnSteps(inside, t))[1..] == OwnSteps(inside, t);
    HolderLeaves(inside, t);
    MicroStepsRunTheCall(call, w.mem, w.disk);
    MutualExclusionRun(w, Serving(w, t, call));
    ThreadHasReturned(inside, t);
  }

  lemma {:induction false} ThreadHasReturned(w: World, t: Tid)
    requires MutualExclusion(w) && w.lock == Some(t)
    ensures var w' := Run(w, OwnSteps(w, t)); t in w'.threads && w'.threads[t].Returned?
    decreases Rank(w.threads[t].stage)
  {
    if CanAdvance(w, t) {
      MutualExclusionStep(w, Advance(t));
      MicroMakesProgress(w.threads[t].call, Focus(w));
      ThreadHasReturned(Step(w, Advance(t)), t);
      assert OwnSteps(w, t)[1..] == OwnSteps(Step(w, Advance(t)), t);
    }
  }

  /** The process after a free thread has made a call that nothing disturbs. */
  ghost function Served(w: World, t: Tid, call: Call): (w': World)
    requires Free(w, t)
    ensures var o := Whole(call, w.mem, w.disk);
            && Free(w', t) && w'.mem == o.mem && w'.disk == o.disk
            && w'.returned == w.returned + [Return(t, call, o.result)]
  {
    CallIsServed(w, t, call);
    Run(w, Serving(w, t, call))
  }

  // ----- Freeze -----

  /**
   * With any threads, any interleaving, any save behaviour, crashes anywhere and restarts with any
   * configuration: once "protection" is "1" on disk, the disk never changes again.
   */
  lemma ThreadsNeverUnfreeze(enable: bool, d: Disk, before: seq<Event>, after: seq<Event>)
    requires InvokedSatisfy(before, CS.ProtectionLoads) && InvokedSatisfy(after, CS.ProtectionLoads)
    requires Run(Boot(Booted(enable), d), before).disk.protection
    ensures var w := Run(Boot(Booted(enable), d), before);
            Run(w, after).disk == w.disk
  {
    var w0, k0 := Boot(Booted(enable), d), CoreAt(enable, d);
    BootMatches(enable, d);
    RunProjects(w0, k0, before, CS.ProtectionLoads);
    var w, k := Run(w0, before), CoreOf(enable, d, before);
    CS.GuardedRun(k0, ProjectRun(w0, before));
    RunProjects(w, k, after, CS.ProtectionLoads);
    CS.GuardedRun(k, ProjectRun(w, after));
  }

  /** From an empty store, threads and crashes included: locked means bound, and the flag says what is on disk. */
  lemma ThreadsKeepTheDiskSound(enable: bool, events: seq<Event>)
    requires InvokedSatisfy(events, CS.Honest)
    ensures var w := Run(Boot(Booted(enable), EMPTY_DISK), events);
            && (w.disk.protection ==> w.disk.binding.Some? && w.disk.binding.value.state == BOUND)
            && (w.lock.None? && w.mem.initialized ==> w.mem.writeProtected == w.disk.protection)
  {
    CoreOfMatches(enable, EMPTY_DISK, events, CS.Honest);
    CS.SoundRun(CoreAt(enable, EMPTY_DISK), ProjectRun(Boot(Booted(enable), EMPTY_DISK), events));
  }

  /**
   * From an empty store every stored binding has the shape write_vin gives it, and a UID that the provider gave the
   * holder of the mutex when asked, whether or not initialize can read the protection key.
   */
  lemma ThreadsKeepBindingsProvisioned(enable: bool, events: seq<Event>)
    requires InvokedSatisfy(events, CS.HonestRecords)
    ensures var w := Run(Boot(Booted(enable), EMPTY_DISK), events);
            var k := CoreOf(enable, EMPTY_DISK, events);
            && Matches(w, k)
            && (w.disk.binding.Some? ==> CS.Provisioned(k.record.uids, w.disk.binding.value))
  {
    CoreOfMatches(enable, EMPTY_DISK, events, CS.HonestRecords);
    CS.StoredBindingsAreProvisioned(
      CoreAt(enable, EMPTY_DISK), ProjectRun(Boot(Booted(enable), EMPTY_DISK), events));
  }

  /**
   * The rewrite counter counts, and a verified configuration was read back by the call that wrote it, however many
   * threads write: the history is the one the mutex holders' saves leave, in the order they happened.
   */
  lemma ThreadsKeepHistory(enable: bool, events: seq<Event>)
    requires InvokedSatisfy(events, CS.FaithfulBindings)
    ensures var w := Run(Boot(Booted(enable), EMPTY_DISK), events);
            var k := CoreOf(enable, EMPTY_DISK, events);
            && Matches(w, k)
            && CS.CounterOnDisk(k.record.firstSaves, w.disk)
            && (w.disk.config.Some? && w.disk.config.value.verified ==>
                  (k.record.configBy, w.disk.config.value.variantCoding) in k.record.readBack)
  {
    var k0, projected := CoreAt(enable, EMPTY_DISK), ProjectRun(Boot(Booted(enable), EMPTY_DISK), events);
    CoreOfMatches(enable, EMPTY_DISK, events, CS.FaithfulBindings);
    CS.RewriteCounterIsHistory(k0, projected);
    CS.VerifiedMeansReadBack(k0, projected);
  }

  /**
   * Across crashes too: a thread that answers VIN_WRITTEN has read the binding of a call which, in no continuation of
   * the run, is ever marked BOUND.
   */
  lemma ThreadsReadNoCompletingWrite(enable: bool, d: Disk, before: seq<Event>, t: Tid, after: seq<Event>)
    requires InvokedSatisfy(before, CS.HonestRecords)
    requires var w := Run(Boot(Booted(enable), d), before);
             t in w.threads && w.threads[t].Inside? && w.threads[t].stage.LoadForReader?
    ensures var reading := CoreOf(enable, d, before);
            var w := Step(Run(Boot(Booted(enable), d), before), Advance(t));
            var k := CS.Run(CS.Step(reading, CS.Advance), ProjectRun(w, after));
            && Matches(Run(w, after), k)
            && t in w.threads && w.threads[t].Inside? && w.threads[t].stage.Done?
            && (!SettledResult(w.threads[t].stage.result) ==> reading.record.bindingBy !in k.record.bound)
  {
    var w0, reading := Run(Boot(Booted(enable), d), before), CoreOf(enable, d, before);
    var w := Step(w0, Advance(t));
    BootMatches(enable, d);
    CoreOfMatches(enable, d, before, CS.HonestRecords);
    StepProjects(w0, reading, Advance(t));
    CS.ReadersSeeNoCompletingWrite(
      CoreAt(enable, d), ProjectRun(Boot(Booted(enable), d), before), ProjectRun(w, after));
    RunProjects(w, CS.Step(reading, CS.Advance), after, _ => true);
  }

  // ----- Quiesce -----

  predicate IsWrite(op: Operation) {
    op.WriteVin? || op.AuthorizeRewrite? || op.WriteVehicleConfig? || op.WriteProductionInfo?
  }

  /** A call that is inside and may still change the disk. */
  predicate MayWrite(stage: Stage) {
    CS.Underway(stage) && !stage.LoadForReader?
  }

  ghost predicate Quiet(w: World) {
    && MutualExclusion(w)
    && w.mem.shuttingDown
    && !MayWrite(Focus(w).stage)
    && (w.lock.Some? && IsWrite(w.threads[w.lock.value].call.op) ==>
          Focus(w).stage == Entry || Focus(w).stage == Done(Code(InvalidState)))
  }

  predicate Refused(r: Return) {
    IsWrite(r.call.op) ==> r.result == Code(InvalidState)
  }

  lemma QuietMicro(c: Call, f: Frame)
    requires f.mem.shuttingDown && !MayWrite(f.stage)
    requires IsWrite(c.op) ==> f.stage == Entry || f.stage == Done(Code(InvalidState))
    ensures var f' := Micro(c, f);
            && f'.disk == f.disk && f'.mem.shuttingDown && !MayWrite(f'.stage)
            && (IsWrite(c.op) ==> f'.stage == Done(Code(InvalidState)))
  {
  }

  lemma QuietStep(w: World, e: Event)
    requires Quiet(w) && !e.Crash?
    ensures var w' := Step(w, e);
            && Quiet(w') && w'.disk == w.disk
            && (w'.returned == w.returned ||
                exists r :: w'.returned == w.returned + [r] && Refused(r))
  {
    MutualExclusionStep(w, e);
    if e.Advance? && CanAdvance(w, e.tid) {
      QuietMicro(w.threads[e.tid].call, Focus(w));
    }
    if e.Release? && CanRelease(w, e.tid) {
      var r := Return(e.tid, w.threads[e.tid].call, w.threads[e.tid].stage.result);
      assert Step(w, e).returned == w.returned + [r] && Refused(r);
    }
  }

  /** Once quiet, nothing reaches the disk and every write call is refused with INVALID_STATE. */
  lemma {:induction false} QuietForever(w: World, events: seq<Event>)
    requires Quiet(w) && forall i :: 0 <= i < |events| ==> !events[i].Crash?
    ensures var w' := Run(w, events);
            && Quiet(w') && w'.disk == w.disk
            && w.returned <= w'.returned
            && forall i :: |w.returned| <= i < |w'.returned| ==> Refused(w'.returned[i])
    decreases events
  {
    if events != [] {
      assert !events[0].Crash?;
      var w1 := Step(w, events[0]);
      QuietStep(w, events[0]);
      QuietForever(w1, events[1..]);
      var w' := Run(w, events);
      forall i | |w.returned| <= i < |w'.returned|
        ensures Refused(w'.returned[i])
      {
        if i < |w1.returned| {
          assert w'.returned[i] == w1.returned[i];
        }
      }
    }
  }

  /** Raising the flag while nobody has passed its check is quiet at once. */
  lemma ShutdownQuietsAnIdleService(w: World, events: seq<Event>)
    requires MutualExclusion(w) && (w.lock.None? || Focus(w).stage.Entry?)
    requires forall i :: 0 <= i < |events| ==> !events[i].Crash?
    ensures Run(Step(w, BeginShutdown), events).disk == w.disk
  {
    MutualExclusionStep(w, BeginShutdown);
    QuietForever(Step(w, BeginShutdown), events);
  }

  /** The call of thread t, which was inside in w, is still inside in w'. */
  ghost predicate StillInside(w: World, w': World, t: Tid, call: Call, last: Frame) {
    && MutualExclusion(w')
    && w'.lock == Some(t)
    && w'.threads[t].call == call
    && w'.returned == w.returned
    && w'.mem.shuttingDown
    && !Focus(w').stage.Entry?
    && Finish(call, Focus(w')) == last
  }

  ghost predicate RefusedFrom(returned: seq<Return>, start: nat) {
    forall i :: start <= i < |returned| ==> Refused(returned[i])
  }

  /** That call has returned with the outcome last; every write that returned after it was refused. */
  ghost predicate HasLeft(w: World, w': World, t: Tid, call: Call, last: Frame) {
    && Quiet(w')
    && last.stage.Done?
    && w'.disk == last.disk
    && w.returned + [Return(t, call, last.stage.result)] <= w'.returned
    && RefusedFrom(w'.returned, |w.returned| + 1)
  }

  lemma ShutdownStaysRaised(c: Call, f: Frame)
    requires f.mem.shuttingDown
    ensures Micro(c, f).mem.shuttingDown
  {
  }

  lemma InsideStep(w0: World, w: World, t: Tid, call: Call, last: Frame, e: Event)
    requires StillInside(w0, w, t, call, last) && !e.Crash?
    ensures StillInside(w0, Step(w, e), t, call, last) || HasLeft(w0, Step(w, e), t, call, last)
  {
    MutualExclusionStep(w, e);
    var f := Focus(w);
    if e.Advance? && CanAdvance(w, e.tid) {
      assert e.tid == t;
      MicroMakesProgress(call, f);
      MicroIgnoresShutdown(call, f);
      ShutdownStaysRaised(call, f);
      assert Finish(call, f) == Finish(call, Micro(call, f));
    }
  }

  lemma {:induction false} InsideRun(w0: World, w: World, t: Tid, call: Call, last: Frame, events: seq<Event>)
    requires StillInside(w0, w, t, call, last) || HasLeft(w0, w, t, call, last)
    requires forall i :: 0 <= i < |events| ==> !events[i].Crash?
    ensures StillInside(w0, Run(w, events), t, call, last) || HasLeft(w0, Run(w, events), t, call, last)
    decreases events
  {
    if events != [] {
      assert !events[0].Crash?;
      if HasLeft(w0, w, t, call, last) {
        QuietStep(w, events[0]);
      } else {
        InsideStep(w0, w, t, call, last, events[0]);
      }
      InsideRun(w0, Step(w, events[0]), t, call, last, events[1..]);
    }
  }

  /**
   * Quiesce: once the flag is raised, only the call that already holds the mutex and has passed its check can
   * still change the disk. While it is inside it is on its way to what it would have done undisturbed; once it has
   * left it has returned just that, the disk is what it made of it and stays so, and every write call that returns
   * after it is refused.
   */
  lemma QuiesceBound(w: World, t: Tid, events: seq<Event>)
    requires MutualExclusion(w) && w.lock == Some(t) && !Focus(w).stage.Entry?
    requires forall i :: 0 <= i < |events| ==> !events[i].Crash?
    ensures var call := w.threads[t].call;
            var undisturbed := Finish(call, Focus(w));
            var w' := Run(Step(w, BeginShutdown), events);
            || (&& MutualExclusion(w') && w'.lock == Some(t) && w'.threads[t].call == call
                && w'.returned == w.returned
                && Finish(call, Focus(w')) == Raise(undisturbed))
            || (&& Quiet(w') && w'.disk == undisturbed.disk
                && undisturbed.stage.Done?
                && w.returned + [Return(t, call, undisturbed.stage.result)] <= w'.returned
                && forall i :: |w.returned| < i < |w'.returned| ==> Refused(w'.returned[i]))
  {
    var call := w.threads[t].call;
    var w1 := Step(w, BeginShutdown);
    MutualExclusionStep(w, BeginShutdown);
    FinishIgnoresShutdown(call, Focus(w));
    assert Focus(w1) == Raise(Focus(w));
    InsideRun(w, w1, t, call, Raise(Finish(call, Focus(w))), events);
  }
}
