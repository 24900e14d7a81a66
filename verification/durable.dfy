/**
 * The threads of the service on its files: the saves of a call go through a temporary file operation by operation
 * (src/framework_store.cpp:102-131), and other threads, shutdown or the end of the process may come between any two.
 * To the records each such run is a run in which every save is one step; so the results about threads and crashes
 * hold at every file operation.
 */
module Durable {
  import opened Types
  import opened Provisioning
  import C = Codec
  import CS = CrashSafety
  import F = FileStore
  import P = Protected
  import T = Concurrency
  import TS = ThreadedSafety
  import Vin

  /** What follows ".tmp." in the name of a temporary file. */
  type Digits = s: string | |s| == F.TEMP_DIGITS && forall i :: 0 <= i < |s| ==> F.IsHexDigit(s[i])
    witness "00000000"

  /** The process, whose own disk component is not looked at, and the files with the save under way. */
  datatype Deep = Deep(process: T.World, machine: F.Machine)

  /** A step of some thread; the digits name a temporary file when the step begins a save. */
  datatype Event = Event(step: T.Event, digits: Digits)

  /** The process over the records its files stand for. */
  function View(servicePath: string, s: Deep): T.World {
    s.process.(disk := P.DiskIn(servicePath, s.machine.files))
  }

  // ----- Saves -----

  datatype Job = Job(key: string, text: C.Text, fault: F.SaveFault)

  function GuardedJob(m: Mem, key: string, text: C.Text, fault: F.SaveFault): Option<Job> {
    if m.writeProtected then None else Some(Job(key, text, fault))
  }

  /** The save a call in this stage makes, if any. */
  function Saving(c: Call, stage: Stage, m: Mem): Option<Job> {
    match stage
    case FirstSave(b) => GuardedJob(m, P.BINDING_KEY, C.SerializeBinding(b), c.env.firstSave)
    case SecondSave(b) => GuardedJob(m, P.BINDING_KEY, C.SerializeBinding(b.(state := BOUND)), c.env.secondSave)
    case ProtectionSave => Some(Job(P.PROTECTION_KEY, P.ProtectionText(true), c.env.protectionSave))
    case ConfigSave(config) => GuardedJob(m, P.CONFIG_KEY, C.SerializeConfig(config), c.env.firstSave)
    case VerifiedSave(config) => GuardedJob(m, P.CONFIG_KEY, C.SerializeConfig(config), c.env.secondSave)
    case ProductionSave(info) => GuardedJob(m, P.PRODUCTION_KEY, C.SerializeProductionInfo(info), c.env.firstSave)
    case _ => None
  }

  function TempPath(servicePath: string, key: string, digits: Digits): string {
    F.KeyPath(servicePath, key) + ".tmp." + digits
  }

  /** The next file operation of a save. */
  function Operate(servicePath: string, job: Job, pending: Option<F.Pending>, digits: Digits): F.FileEvent {
    if pending.None? then F.BeginSave(job.key, job.text, TempPath(servicePath, job.key, digits))
    else match pending.value.phase
      case Named => F.OpenTemp(!job.fault.OpenFails?)
      case Opened => F.WriteTemp(F.Arriving(C.Envelope(job.text), job.fault))
      case Written => F.RenameTemp(!job.fault.RenameFails?)
  }

  function Operated(servicePath: string, m: F.Machine, job: Job, digits: Digits): F.Machine {
    F.Step(servicePath, m, Operate(servicePath, job, m.pending, digits))
  }

  /** The save that thread t makes in the stage it is in. */
  function SavingThread(w: T.World, t: T.Tid): Option<Job>
    requires T.CanAdvance(w, t)
  {
    Saving(w.threads[t].call, w.threads[t].stage, w.mem)
  }

  /** One file operation if the stage is saving, and the thread goes on when the save is over; else one access. */
  function Advanced(servicePath: string, s: Deep, e: Event): Deep
    requires e.step.Advance? && T.CanAdvance(s.process, e.step.tid)
  {
    var next := T.Step(View(servicePath, s), e.step);
    match SavingThread(s.process, e.step.tid)
    case None => Deep(next, s.machine)
    case Some(job) =>
      var machine := Operated(servicePath, s.machine, job, e.digits);
      Deep(if machine.pending.Some? then s.process else next, machine)
  }

  function Step(servicePath: string, s: Deep, e: Event): Deep {
    if e.step.Advance? && T.CanAdvance(s.process, e.step.tid) then Advanced(servicePath, s, e)
    else Deep(T.Step(View(servicePath, s), e.step),
              if e.step.Crash? then F.Step(servicePath, s.machine, F.Crash) else s.machine)
  }

  function Run(servicePath: string, s: Deep, events: seq<Event>): Deep
    decreases events
  {
    if events == [] then s else Run(servicePath, Step(servicePath, s, events[0]), events[1..])
  }

  function Start(servicePath: string, enable: bool, files: F.Files): Deep {
    Deep(T.Boot(Booted(enable), P.DiskIn(servicePath, files)), F.Machine(files, None))
  }

  ghost predicate InvokedSatisfy(events: seq<Event>, p: Call -> bool) {
    forall i :: 0 <= i < |events| && events[i].step.Invoke? ==> p(events[i].step.call)
  }

  // ----- File operations refine the steps of threads -----

  /** A file operation that does not end its save is no step at all. */
  predicate Silent(servicePath: string, s: Deep, e: Event) {
    e.step.Advance? && T.CanAdvance(s.process, e.step.tid) && Advanced(servicePath, s, e).machine.pending.Some?
  }

  function Project(servicePath: string, s: Deep, events: seq<Event>): seq<T.Event>
    decreases events
  {
    if events == [] then []
    else
      (if Silent(servicePath, s, events[0]) then [] else [events[0].step]) +
      Project(servicePath, Step(servicePath, s, events[0]), events[1..])
  }

  /** A save under way is this one, and its temporary file holds what has been written so far. */
  predicate Fits(servicePath: string, m: F.Machine, job: Job) {
    m.pending.Some? ==>
      var p := m.pending.value;
      && p.key == job.key && p.text == job.text
      && F.IsTempPath(F.KeyPath(servicePath, p.key), p.temp)
      && (p.phase != F.Named ==> !job.fault.OpenFails?)
      && (p.phase == F.Written ==>
            p.temp in m.files && m.files[p.temp] == F.Arriving(C.Envelope(job.text), job.fault))
  }

  /** A save under way is the one the mutex holder makes in the stage it is in. */
  ghost predicate Ready(servicePath: string, s: Deep) {
    && T.MutualExclusion(s.process)
    && (s.machine.pending.Some? ==>
          && s.process.lock.Some?
          && T.CanAdvance(s.process, s.process.lock.value)
          && match SavingThread(s.process, s.process.lock.value)
             case None => false
             case Some(job) => Fits(servicePath, s.machine, job))
  }

  lemma TempPathIsProper(servicePath: string, key: string, digits: Digits)
    ensures F.IsTempPath(F.KeyPath(servicePath, key), TempPath(servicePath, key, digits))
  {
    var stem := F.KeyPath(servicePath, key) + ".tmp.";
    var temp := TempPath(servicePath, key, digits);
    assert temp[..|stem|] == stem;
    assert forall i :: |stem| <= i < |temp| ==> temp[i] == digits[i - |stem|];
  }

  /** Until the save is over no key reads differently. */
  lemma OperationKeepsRecords(servicePath: string, m: F.Machine, job: Job, digits: Digits)
    requires Fits(servicePath, m, job) && Operated(servicePath, m, job, digits).pending.Some?
    ensures var m' := Operated(servicePath, m, job, digits);
            Fits(servicePath, m', job) && P.DiskIn(servicePath, m'.files) == P.DiskIn(servicePath, m.files)
  {
    TempPathIsProper(servicePath, job.key, digits);
    if m.pending.Some? {
      var p := m.pending.value;
      F.OtherFilesKeepKeys(servicePath, m.files, Operated(servicePath, m, job, digits).files, p.temp,
                           F.KeyPath(servicePath, p.key));
    }
  }

  /** The operation that ends a save does to the keys what the whole save does. */
  lemma LastOperationSaves(servicePath: string, m: F.Machine, job: Job, digits: Digits)
    requires Fits(servicePath, m, job) && Operated(servicePath, m, job, digits).pending.None?
    ensures P.OneKeySaved(servicePath, m.files, Operated(servicePath, m, job, digits).files,
                          job.key, job.text, job.fault)
  {
    var p := m.pending.value;
    var files' := Operated(servicePath, m, job, digits).files;
    forall other
      ensures F.Load(servicePath, files', other) ==
              if other == job.key then F.LoadedAfter(F.Load(servicePath, m.files, job.key), job.text, job.fault)
              else F.Load(servicePath, m.files, other)
    {
      F.KeyPathInjective(servicePath, job.key, other);
      F.TempPathIsNoKeyPath(servicePath, F.KeyPath(servicePath, job.key), p.temp, other);
    }
  }

  lemma BindingStepStores(
    servicePath: string, c: Call, stage: Stage, m: Mem, files: F.Files, files': F.Files, job: Job)
    requires Saving(c, stage, m) == Some(job) && (stage.FirstSave? || stage.SecondSave?)
    requires P.OneKeySaved(servicePath, files, files', job.key, job.text, job.fault)
    ensures Micro(c, Frame(stage, m, P.DiskIn(servicePath, files))).disk == P.DiskIn(servicePath, files')
  {
    var b := if stage.FirstSave? then stage.binding else stage.binding.(state := BOUND);
    P.BindingSaved(servicePath, files, files', b, job.fault);
  }

  lemma ProtectionStepStores(
    servicePath: string, c: Call, stage: Stage, m: Mem, files: F.Files, files': F.Files, job: Job)
    requires Saving(c, stage, m) == Some(job) && stage.ProtectionSave?
    requires P.OneKeySaved(servicePath, files, files', job.key, job.text, job.fault)
    ensures Micro(c, Frame(stage, m, P.DiskIn(servicePath, files))).disk == P.DiskIn(servicePath, files')
  {
    P.ProtectionSaved(servicePath, files, files', true, job.fault);
  }

  lemma RecordStepStores(
    servicePath: string, c: Call, stage: Stage, m: Mem, files: F.Files, files': F.Files, job: Job)
    requires Saving(c, stage, m) == Some(job) && RecordStage(stage)
    requires P.OneKeySaved(servicePath, files, files', job.key, job.text, job.fault)
    ensures Micro(c, Frame(stage, m, P.DiskIn(servicePath, files))).disk == P.DiskIn(servicePath, files')
  {
    match stage
    case ConfigSave(config) => P.ConfigSaved(servicePath, files, files', config, job.fault);
    case VerifiedSave(config) => P.ConfigSaved(servicePath, files, files', config, job.fault);
    case ProductionSave(info) => P.ProductionSaved(servicePath, files, files', info, job.fault);
  }

  lemma SaveStepStores(servicePath: string, c: Call, stage: Stage, m: Mem, files: F.Files, files': F.Files, job: Job)
    requires Saving(c, stage, m) == Some(job)
    requires P.OneKeySaved(servicePath, files, files', job.key, job.text, job.fault)
    ensures Micro(c, Frame(stage, m, P.DiskIn(servicePath, files))).disk == P.DiskIn(servicePath, files')
  {
    if stage.ProtectionSave? {
      ProtectionStepStores(servicePath, c, stage, m, files, files', job);
    } else if RecordStage(stage) {
      RecordStepStores(servicePath, c, stage, m, files, files', job);
    } else {
      BindingStepStores(servicePath, c, stage, m, files, files', job);
    }
  }

  lemma OnlySavesTouchTheDisk(c: Call, f: Frame)
    requires Saving(c, f.stage, f.mem).None?
    ensures Micro(c, f).disk == f.disk
  {
  }

  lemma AdvanceRefines(servicePath: string, s: Deep, e: Event)
    requires Ready(servicePath, s) && e.step.Advance? && T.CanAdvance(s.process, e.step.tid)
    ensures var s' := Advanced(servicePath, s, e);
            && Ready(servicePath, s')
            && View(servicePath, s') ==
               if s'.machine.pending.Some? then View(servicePath, s) else T.Step(View(servicePath, s), e.step)
  {
    var w, t := View(servicePath, s), e.step.tid;
    var call, stage := w.threads[t].call, w.threads[t].stage;
    T.MutualExclusionStep(w, e.step);
    match SavingThread(s.process, t)
    case None => OnlySavesTouchTheDisk(call, Frame(stage, w.mem, w.disk));
    case Some(job) =>
      var machine := Operated(servicePath, s.machine, job, e.digits);
      if machine.pending.Some? {
        OperationKeepsRecords(servicePath, s.machine, job, e.digits);
      } else {
        LastOperationSaves(servicePath, s.machine, job, e.digits);
        SaveStepStores(servicePath, call, stage, w.mem, s.machine.files, machine.files, job);
      }
  }

  predicate Elsewhere(w: T.World, e: T.Event) {
    !(e.Advance? && T.CanAdvance(w, e.tid))
  }

  lemma OtherStepsKeepTheHolder(w: T.World, e: T.Event)
    requires T.MutualExclusion(w) && Elsewhere(w, e) && !e.Crash?
    requires w.lock.Some? && T.CanAdvance(w, w.lock.value)
    ensures var w' := T.Step(w, e);
            && w'.lock == w.lock && w.lock.value in w'.threads
            && w'.threads[w.lock.value] == w.threads[w.lock.value]
            && w'.mem.writeProtected == w.mem.writeProtected
  {
  }

  lemma OtherStepsKeepTheDisk(w: T.World, e: T.Event)
    requires Elsewhere(w, e)
    ensures T.Step(w, e).disk == w.disk
  {
  }

  lemma OtherStepRefines(servicePath: string, s: Deep, e: Event)
    requires Ready(servicePath, s) && Elsewhere(s.process, e.step)
    ensures Ready(servicePath, Step(servicePath, s, e))
    ensures View(servicePath, Step(servicePath, s, e)) == T.Step(View(servicePath, s), e.step)
  {
    T.MutualExclusionStep(View(servicePath, s), e.step);
    OtherStepsKeepTheDisk(View(servicePath, s), e.step);
    if s.machine.pending.Some? && !e.step.Crash? {
      OtherStepsKeepTheHolder(View(servicePath, s), e.step);
    }
  }

  lemma StepRefines(servicePath: string, s: Deep, e: Event)
    requires Ready(servicePath, s)
    ensures var s' := Step(servicePath, s, e);
            && Ready(servicePath, s')
            && View(servicePath, s') ==
               if Silent(servicePath, s, e) then View(servicePath, s) else T.Step(View(servicePath, s), e.step)
  {
    if e.step.Advance? && T.CanAdvance(s.process, e.step.tid) {
      AdvanceRefines(servicePath, s, e);
    } else {
      OtherStepRefines(servicePath, s, e);
    }
  }

  /**
   * Every run over the files, whatever comes between any two file operations, is to the records a run of the same
   * threads and calls in which every save is one step.
   */
  lemma {:induction false} FilesRefineThreads(servicePath: string, s: Deep, events: seq<Event>)
    requires Ready(servicePath, s)
    ensures Ready(servicePath, Run(servicePath, s, events))
    ensures View(servicePath, Run(servicePath, s, events)) ==
            T.Run(View(servicePath, s), Project(servicePath, s, events))
    decreases events
  {
    if events != [] {
      var s1 := Step(servicePath, s, events[0]);
      StepRefines(servicePath, s, events[0]);
      FilesRefineThreads(servicePath, s1, events[1..]);
      var rest := Project(servicePath, s1, events[1..]);
      if Silent(servicePath, s, events[0]) {
        assert Project(servicePath, s, events) == rest;
      } else {
        assert Project(servicePath, s, events)[1..] == rest;
      }
    }
  }

  lemma {:induction false} ProjectKeepsCalls(servicePath: string, s: Deep, events: seq<Event>, p: Call -> bool)
    requires InvokedSatisfy(events, p)
    ensures T.InvokedSatisfy(Project(servicePath, s, events), p)
    decreases events
  {
    if events != [] {
      ProjectKeepsCalls(servicePath, Step(servicePath, s, events[0]), events[1..], p);
    }
  }

  // ----- What holds at every file operation -----

  /** Once the file protection.json holds "1", no file operation of any later run changes what any record reads. */
  lemma FilesNeverUnfreeze(servicePath: string, enable: bool, files: F.Files, before: seq<Event>, after: seq<Event>)
    requires InvokedSatisfy(before, CS.ProtectionLoads) && InvokedSatisfy(after, CS.ProtectionLoads)
    requires var locked := Run(servicePath, Start(servicePath, enable, files), before).machine.files;
             P.TextAt(locked, servicePath + "/protection.json") == Some(C.Plain("1"))
    ensures var locked := Run(servicePath, Start(servicePath, enable, files), before);
            P.DiskIn(servicePath, Run(servicePath, locked, after).machine.files) ==
            P.DiskIn(servicePath, locked.machine.files)
  {
    var s := Start(servicePath, enable, files);
    var locked := Run(servicePath, s, before);
    P.RecordsByFile(servicePath, locked.machine.files);
    FilesRefineThreads(servicePath, s, before);
    FilesRefineThreads(servicePath, locked, after);
    ProjectKeepsCalls(servicePath, s, before, CS.ProtectionLoads);
    ProjectKeepsCalls(servicePath, locked, after, CS.ProtectionLoads);
    TS.ThreadsNeverUnfreeze(enable, P.DiskIn(servicePath, files), Project(servicePath, s, before),
                            Project(servicePath, locked, after));
  }

  /** From an empty directory, at every file operation: "1" in protection.json means a bound and valid binding. */
  lemma LockedFilesAreBound(servicePath: string, enable: bool, events: seq<Event>)
    requires InvokedSatisfy(events, CS.Honest)
    ensures var files := Run(servicePath, Start(servicePath, enable, map[]), events).machine.files;
            var d := P.DiskIn(servicePath, files);
            P.TextAt(files, servicePath + "/protection.json") == Some(C.Plain("1")) ==>
              d.binding.Some? && d.binding.value.state == BOUND && Vin.Valid(d.binding.value.vin)
  {
    var s := Start(servicePath, enable, map[]);
    P.RecordsByFile(servicePath, Run(servicePath, s, events).machine.files);
    FilesRefineThreads(servicePath, s, events);
    ProjectKeepsCalls(servicePath, s, events, CS.Honest);
    TS.ThreadsKeepTheDiskSound(enable, Project(servicePath, s, events));
    TS.ThreadsKeepBindingsProvisioned(enable, Project(servicePath, s, events));
  }

  /** Whenever nobody holds the mutex, the files read as whole calls run one after the other would leave them. */
  lemma FilesAreSerial(servicePath: string, enable: bool, files: F.Files, events: seq<Event>)
    ensures var s := Run(servicePath, Start(servicePath, enable, files), events);
            s.process.lock.None? ==>
              && T.SerialRun(s.process.boot, s.process.order) ==
                 T.Serial(s.process.mem, P.DiskIn(servicePath, s.machine.files), s.process.returned)
              && T.Calls(s.process.order) == s.process.acquired
  {
    var s := Start(servicePath, enable, files);
    FilesRefineThreads(servicePath, s, events);
    T.Serializability(Booted(enable), P.DiskIn(servicePath, files), Project(servicePath, s, events));
  }

  // ----- Progress -----

  function OperationsLeft(pending: Option<F.Pending>): nat {
    match pending
    case None => 4
    case Some(p) => if p.phase == F.Named then 3 else if p.phase == F.Opened then 2 else 1
  }

  function Remaining(s: Deep, t: T.Tid): nat
    requires t in s.process.threads && s.process.threads[t].Inside?
  {
    4 * Rank(s.process.threads[t].stage) + OperationsLeft(s.machine.pending)
  }

  lemma AdvanceMakesProgress(servicePath: string, s: Deep, e: Event)
    requires Ready(servicePath, s) && e.step.Advance? && T.CanAdvance(s.process, e.step.tid)
    ensures var s', t := Step(servicePath, s, e), e.step.tid;
            && t in s'.process.threads && s'.process.threads[t].Inside?
            && s'.process.lock == s.process.lock
            && Remaining(s', t) < Remaining(s, t)
  {
    var th := s.process.threads[e.step.tid];
    MicroMakesProgress(th.call, Frame(th.stage, s.process.mem, View(servicePath, s).disk));
  }

  /** The steps by which the holder of the mutex, left alone, leaves, file operation by file operation. */
  ghost function OwnOperations(servicePath: string, s: Deep, t: T.Tid, digits: Digits): seq<Event>
    requires Ready(servicePath, s) && s.process.lock == Some(t)
    decreases Remaining(s, t)
  {
    if !T.CanAdvance(s.process, t) then [Event(T.Release(t), digits)]
    else
      var e := Event(T.Advance(t), digits);
      StepRefines(servicePath, s, e);
      AdvanceMakesProgress(servicePath, s, e);
      [e] + OwnOperations(servicePath, Step(servicePath, s, e), t, digits)
  }

  lemma {:induction false} OwnOperationsAreFew(servicePath: string, s: Deep, t: T.Tid, digits: Digits)
    requires Ready(servicePath, s) && s.process.lock == Some(t)
    ensures |OwnOperations(servicePath, s, t, digits)| <= Remaining(s, t) + 1 <= 45
    decreases Remaining(s, t)
  {
    if T.CanAdvance(s.process, t) {
      var e := Event(T.Advance(t), digits);
      StepRefines(servicePath, s, e);
      AdvanceMakesProgress(servicePath, s, e);
      OwnOperationsAreFew(servicePath, Step(servicePath, s, e), t, digits);
    }
  }

  lemma ProjectStep(servicePath: string, s: Deep, e: Event, rest: seq<Event>)
    ensures Project(servicePath, s, [e] + rest) ==
            (if Silent(servicePath, s, e) then [] else [e.step]) + Project(servicePath, Step(servicePath, s, e), rest)
  {
    assert ([e] + rest)[1..] == rest;
  }

  lemma {:induction false} OwnOperationsProject(servicePath: string, s: Deep, t: T.Tid, digits: Digits)
    requires Ready(servicePath, s) && s.process.lock == Some(t)
    ensures Project(servicePath, s, OwnOperations(servicePath, s, t, digits)) == TS.OwnSteps(View(servicePath, s), t)
    decreases Remaining(s, t)
  {
    if T.CanAdvance(s.process, t) {
      var e := Event(T.Advance(t), digits);
      var s1 := Step(servicePath, s, e);
      StepRefines(servicePath, s, e);
      AdvanceMakesProgress(servicePath, s, e);
      ProjectStep(servicePath, s, e, OwnOperations(servicePath, s1, t, digits));
      OwnOperationsProject(servicePath, s1, t, digits);
    } else {
      ProjectStep(servicePath, s, Event(T.Release(t), digits), []);
    }
  }

  /**
   * However far its save has got, the holder leaves within forty-five file operations and steps of its own, with the
   * outcome of its call on the records the files stand for.
   */
  lemma HolderLeavesItsFiles(servicePath: string, s: Deep, t: T.Tid, digits: Digits)
    requires Ready(servicePath, s) && s.process.lock == Some(t)
    ensures |OwnOperations(servicePath, s, t, digits)| <= Remaining(s, t) + 1 <= 45
    ensures Project(servicePath, s, OwnOperations(servicePath, s, t, digits)) == TS.OwnSteps(View(servicePath, s), t)
    ensures var s' := Run(servicePath, s, OwnOperations(servicePath, s, t, digits));
            var call := s.process.threads[t].call;
            var last := Finish(call, T.Focus(View(servicePath, s)));
            && s'.process.lock.None? && s'.machine.pending.None? && last.stage.Done?
            && s'.process.mem == last.mem && P.DiskIn(servicePath, s'.machine.files) == last.disk
            && s'.process.returned == s.process.returned + [T.Return(t, call, last.stage.result)]
  {
    var own := OwnOperations(servicePath, s, t, digits);
    OwnOperationsAreFew(servicePath, s, t, digits);
    OwnOperationsProject(servicePath, s, t, digits);
    FilesRefineThreads(servicePath, s, own);
    TS.HolderLeaves(View(servicePath, s), t);
  }
}
