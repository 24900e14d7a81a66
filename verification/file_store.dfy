/**
 * The key-value store on files (src/framework_store.cpp, include/framework_store.h): every save writes a
 * temporary file and renames it. Paths are names; directories and permissions are the environment's.
 */
module FileStore {
  import opened Types
  import opened Codec

  type Files = map<string, Content>

  const TEMP_DIGITS := 8

  /** How one atomic_write goes: as it should, failing early or late, or writing other bytes unnoticed. */
  datatype SaveFault = Sound | OpenFails | RenameFails | Garbled(content: Content)

  function KeyPath(servicePath: string, key: string): string {
    servicePath + "/" + key + ".json"
  }

  predicate IsHexDigit(c: char) {
    '0' <= c <= '9' || 'a' <= c <= 'f'
  }

  function HexDigit(digit: int): (c: char)
    requires 0 <= digit < 16
    ensures IsHexDigit(c)
  {
    if digit < 10 then '0' + digit as char else 'a' + (digit - 10) as char
  }

  predicate IsTempPath(path: string, temp: string) {
    var stem := path + ".tmp.";
    && |temp| == |stem| + TEMP_DIGITS
    && temp[..|stem|] == stem
    && forall i :: |stem| <= i < |temp| ==> IsHexDigit(temp[i])
  }

  /** Store::load: the value of a key whose file exists, parses and holds a string. */
  function Load(servicePath: string, files: Files, key: string): Option<Text> {
    var path := KeyPath(servicePath, key);
    if path in files && files[path].Envelope? then Some(files[path].text) else None
  }

  lemma KeyPathInjective(servicePath: string, key: string, other: string)
    ensures KeyPath(servicePath, key) == KeyPath(servicePath, other) <==> key == other
  {
    if KeyPath(servicePath, key) == KeyPath(servicePath, other) {
      var start := |servicePath| + 1;
      assert key == KeyPath(servicePath, key)[start..start + |key|];
      assert other == KeyPath(servicePath, other)[start..start + |other|];
    }
  }

  /** A temporary path ends in a hexadecimal digit and a key path in "n": they never meet. */
  lemma TempPathIsNoKeyPath(servicePath: string, path: string, temp: string, key: string)
    requires IsTempPath(path, temp)
    ensures temp != KeyPath(servicePath, key)
  {
    var keyPath := KeyPath(servicePath, key);
    assert keyPath[|keyPath| - 1] == 'n';
    assert IsHexDigit(temp[|temp| - 1]);
  }

  // ----- Micro-steps, with a crash possible between any two -----

  datatype Phase = Named | Opened | Written

  datatype Pending = Pending(key: string, text: Text, temp: string, phase: Phase)

  datatype Machine = Machine(files: Files, pending: Option<Pending>)

  datatype FileEvent =
    | BeginSave(key: string, text: Text, temp: string)
    | OpenTemp(succeeds: bool)
    | WriteTemp(arrives: Content)
    | RenameTemp(succeeds: bool)
    | Remove(key: string, succeeds: bool)
    | Crash

  function Step(servicePath: string, m: Machine, e: FileEvent): Machine {
    match e
    case BeginSave(key, text, temp) =>
      if m.pending.None? then m.(pending := Some(Pending(key, text, temp, Named))) else m
    case OpenTemp(succeeds) =>
      if m.pending.Some? && m.pending.value.phase == Named then
        var p := m.pending.value;
        if succeeds then Machine(m.files[p.temp := Unreadable], Some(p.(phase := Opened)))
        else m.(pending := None)
      else m
    case WriteTemp(arrives) =>
      if m.pending.Some? && m.pending.value.phase == Opened then
        var p := m.pending.value;
        Machine(m.files[p.temp := arrives], Some(p.(phase := Written)))
      else m
    case RenameTemp(succeeds) =>
      if m.pending.Some? && m.pending.value.phase == Written && m.pending.value.temp in m.files then
        var p := m.pending.value;
        if succeeds then Machine(Renamed(m.files, p.temp, KeyPath(servicePath, p.key)), None)
        else m.(pending := None)
      else m
    case Remove(key, succeeds) =>
      if m.pending.None? && succeeds then m.(files := m.files - {KeyPath(servicePath, key)}) else m
    case Crash => m.(pending := None)
  }

  function Renamed(files: Files, from: string, to: string): Files
    requires from in files
  {
    files[to := files[from]] - {from}
  }

  function Run(servicePath: string, m: Machine, events: seq<FileEvent>): Machine
    decreases events
  {
    if events == [] then m else Run(servicePath, Step(servicePath, m, events[0]), events[1..])
  }

  // ----- The atomic map it stands for -----

  datatype Effect = Put(key: string, text: Text) | Drop(key: string) | Nothing

  function Apply(a: map<string, Text>, effect: Effect): map<string, Text> {
    match effect
    case Put(key, text) => a[key := text]
    case Drop(key) => a - {key}
    case Nothing => a
  }

  /** A save takes effect at its rename, a removal when it succeeds; nothing else has an effect. */
  function EffectOf(m: Machine, e: FileEvent): Effect {
    match e
    case RenameTemp(true) =>
      if m.pending.Some? && m.pending.value.phase == Written
      then Put(m.pending.value.key, m.pending.value.text) else Nothing
    case Remove(key, true) => if m.pending.None? then Drop(key) else Nothing
    case _ => Nothing
  }

  function ApplyRun(servicePath: string, m: Machine, a: map<string, Text>, events: seq<FileEvent>)
    : map<string, Text>
    decreases events
  {
    if events == [] then a
    else ApplyRun(servicePath, Step(servicePath, m, events[0]), Apply(a, EffectOf(m, events[0])), events[1..])
  }

  function Get(a: map<string, Text>, key: string): Option<Text> {
    if key in a then Some(a[key]) else None
  }

  ghost predicate Refines(servicePath: string, files: Files, a: map<string, Text>) {
    forall key :: Load(servicePath, files, key) == Get(a, key)
  }

  predicate TempFileReady(servicePath: string, m: Machine) {
    m.pending.Some? ==>
      var p := m.pending.value;
      && IsTempPath(KeyPath(servicePath, p.key), p.temp)
      && (p.phase == Written ==> p.temp in m.files && m.files[p.temp] == Envelope(p.text))
  }

  /** The unchecked stream write is taken to be complete; temporary names are the ones atomic_write builds. */
  predicate Complete(servicePath: string, m: Machine, e: FileEvent) {
    && (e.BeginSave? ==> IsTempPath(KeyPath(servicePath, e.key), e.temp))
    && (e.WriteTemp? && m.pending.Some? ==> e.arrives == Envelope(m.pending.value.text))
  }

  predicate CompleteRun(servicePath: string, m: Machine, events: seq<FileEvent>)
    decreases events
  {
    events == [] ||
    (Complete(servicePath, m, events[0]) && CompleteRun(servicePath, Step(servicePath, m, events[0]), events[1..]))
  }

  lemma OtherFilesKeepKeys(servicePath: string, files: Files, files': Files, temp: string, path: string)
    requires IsTempPath(path, temp)
    requires forall p :: p != temp ==> (p in files <==> p in files') && (p in files ==> files[p] == files'[p])
    ensures forall key :: Load(servicePath, files', key) == Load(servicePath, files, key)
  {
    forall key
      ensures Load(servicePath, files', key) == Load(servicePath, files, key)
    {
      TempPathIsNoKeyPath(servicePath, path, temp, key);
    }
  }

  lemma StepRefines(servicePath: string, m: Machine, a: map<string, Text>, e: FileEvent)
    requires TempFileReady(servicePath, m) && Complete(servicePath, m, e)
    requires Refines(servicePath, m.files, a)
    ensures TempFileReady(servicePath, Step(servicePath, m, e))
    ensures Refines(servicePath, Step(servicePath, m, e).files, Apply(a, EffectOf(m, e)))
  {
    var m' := Step(servicePath, m, e);
    var a' := Apply(a, EffectOf(m, e));
    if m.pending.Some? && m'.files != m.files {
      var p := m.pending.value;
      var path := KeyPath(servicePath, p.key);
      if !e.RenameTemp? {
        OtherFilesKeepKeys(servicePath, m.files, m'.files, p.temp, path);
      }
    }
    forall key
      ensures Load(servicePath, m'.files, key) == Get(a', key)
    {
      assert Load(servicePath, m.files, key) == Get(a, key);
      if m.pending.Some? {
        KeyPathInjective(servicePath, key, m.pending.value.key);
        TempPathIsNoKeyPath(servicePath, KeyPath(servicePath, m.pending.value.key), m.pending.value.temp, key);
      } else if e.Remove? {
        KeyPathInjective(servicePath, key, e.key);
      }
    }
  }

  /**
   * The file layer is an atomic map: along every sequence of saves and removals, cut by crashes and
   * failures at any micro-step, every key reads what the effects so far gave it.
   */
  lemma {:induction false} FilesRefineAtomicMap(
    servicePath: string, m: Machine, a: map<string, Text>, events: seq<FileEvent>)
    requires TempFileReady(servicePath, m) && CompleteRun(servicePath, m, events)
    requires Refines(servicePath, m.files, a)
    ensures Refines(servicePath, Run(servicePath, m, events).files, ApplyRun(servicePath, m, a, events))
    decreases events
  {
    if events != [] {
      StepRefines(servicePath, m, a, events[0]);
      FilesRefineAtomicMap(servicePath, Step(servicePath, m, events[0]),
                           Apply(a, EffectOf(m, events[0])), events[1..]);
    }
  }

  predicate NoNewOperation(events: seq<FileEvent>) {
    forall i :: 0 <= i < |events| ==> !events[i].BeginSave? && !events[i].Remove?
  }

  /**
   * Wherever a save is cut short, its key reads as the whole old or the whole new value, and every other
   * key is untouched.
   */
  lemma {:induction false} InterruptedSave(
    servicePath: string, m: Machine, events: seq<FileEvent>, saved: string, value: Text)
    requires TempFileReady(servicePath, m) && CompleteRun(servicePath, m, events) && NoNewOperation(events)
    requires m.pending.Some? ==> m.pending.value.key == saved && m.pending.value.text == value
    ensures var files := Run(servicePath, m, events).files;
            && (Load(servicePath, files, saved) == Load(servicePath, m.files, saved) ||
                Load(servicePath, files, saved) == Some(value))
            && forall key :: key != saved ==> Load(servicePath, files, key) == Load(servicePath, m.files, key)
    decreases events
  {
    if events != [] {
      var m1 := Step(servicePath, m, events[0]);
      KeysAfterStep(servicePath, m, events[0], saved, value);
      assert events[0] in events;
      InterruptedSave(servicePath, m1, events[1..], saved, value);
    }
  }

  lemma KeysAfterStep(servicePath: string, m: Machine, e: FileEvent, saved: string, value: Text)
    requires TempFileReady(servicePath, m) && Complete(servicePath, m, e) && !e.BeginSave? && !e.Remove?
    requires m.pending.Some? ==> m.pending.value.key == saved && m.pending.value.text == value
    ensures var m1 := Step(servicePath, m, e);
            && TempFileReady(servicePath, m1)
            && (m1.pending.Some? ==> m1.pending.value.key == saved && m1.pending.value.text == value)
            && (Load(servicePath, m1.files, saved) == Load(servicePath, m.files, saved) ||
                Load(servicePath, m1.files, saved) == Some(value))
            && forall key :: key != saved ==> Load(servicePath, m1.files, key) == Load(servicePath, m.files, key)
  {
    var m1 := Step(servicePath, m, e);
    forall key
      ensures Load(servicePath, m1.files, key) == Load(servicePath, m.files, key) ||
              (key == saved && Load(servicePath, m1.files, key) == Some(value))
    {
      if m.pending.Some? {
        KeyPathInjective(servicePath, key, saved);
        TempPathIsNoKeyPath(servicePath, KeyPath(servicePath, saved), m.pending.value.temp, key);
      }
    }
  }

  // ----- atomic_write run to its end -----

  predicate Reports(fault: SaveFault) {
    fault.Sound? || fault.Garbled?
  }

  function Arriving(content: Content, fault: SaveFault): Content {
    if fault.Garbled? then fault.content else content
  }

  function AfterWrite(files: Files, path: string, temp: string, content: Content, fault: SaveFault): Files {
    if fault.OpenFails? then files
    else
      var withTemp := files[temp := Arriving(content, fault)];
      if fault.RenameFails? then withTemp else Renamed(withTemp, temp, path)
  }

  function SaveEvents(key: string, text: Text, temp: string, fault: SaveFault): seq<FileEvent> {
    [BeginSave(key, text, temp), OpenTemp(!fault.OpenFails?),
     WriteTemp(Arriving(Envelope(text), fault)), RenameTemp(!fault.RenameFails?)]
  }

  /** The whole call is its four micro-steps one after the other. */
  lemma SaveIsItsMicroSteps(servicePath: string, files: Files, key: string, text: Text, temp: string, fault: SaveFault)
    ensures Run(servicePath, Machine(files, None), SaveEvents(key, text, temp, fault)) ==
            Machine(AfterWrite(files, KeyPath(servicePath, key), temp, Envelope(text), fault), None)
  {
    var events := SaveEvents(key, text, temp, fault);
    var m1 := Step(servicePath, Machine(files, None), events[0]);
    var m2 := Step(servicePath, m1, events[1]);
    var m3 := Step(servicePath, m2, events[2]);
    var m4 := Step(servicePath, m3, events[3]);
    RunFour(servicePath, Machine(files, None), events);
    if !fault.OpenFails? {
      assert m3.files == files[temp := Arriving(Envelope(text), fault)];
    }
  }

  lemma RunFour(servicePath: string, m: Machine, events: seq<FileEvent>)
    requires |events| == 4
    ensures Run(servicePath, m, events) ==
            Step(servicePath, Step(servicePath, Step(servicePath,
                 Step(servicePath, m, events[0]), events[1]), events[2]), events[3])
  {
    assert events[1..][1..] == events[2..];
    assert events[2..][1..] == events[3..];
    assert events[3..][1..] == [];
    var m1 := Step(servicePath, m, events[0]);
    var m2 := Step(servicePath, m1, events[1]);
    assert Run(servicePath, m1, events[1..]) == Run(servicePath, m2, events[2..]);
    assert Run(servicePath, m2, events[2..]) == Run(servicePath, Step(servicePath, m2, events[2]), events[3..]);
  }

  /** What a reader of any key finds after a save. */
  function LoadedAfter(before: Option<Text>, text: Text, fault: SaveFault): Option<Text> {
    match fault
    case Sound => Some(text)
    case OpenFails => before
    case RenameFails => before
    case Garbled(content) => if content.Envelope? then Some(content.text) else None
  }

  lemma KeysAfterWrite(
    servicePath: string, files: Files, key: string, temp: string, text: Text, fault: SaveFault, other: string)
    requires IsTempPath(KeyPath(servicePath, key), temp)
    ensures var files' := AfterWrite(files, KeyPath(servicePath, key), temp, Envelope(text), fault);
            Load(servicePath, files', other) ==
            if other == key then LoadedAfter(Load(servicePath, files, key), text, fault)
            else Load(servicePath, files, other)
  {
    KeyPathInjective(servicePath, key, other);
    TempPathIsNoKeyPath(servicePath, KeyPath(servicePath, key), temp, other);
  }

  /**
   * A save that reports success leaves its value on disk exactly when the bytes that reached the
   * temporary file, whose stream state is never checked, are the intended ones.
   */
  lemma ReportedSaveIsStoredIffBytesArrive(
    servicePath: string, files: Files, key: string, temp: string, text: Text, fault: SaveFault)
    requires IsTempPath(KeyPath(servicePath, key), temp) && Reports(fault)
    ensures var files' := AfterWrite(files, KeyPath(servicePath, key), temp, Envelope(text), fault);
            Load(servicePath, files', key) == Some(text) <==> Arriving(Envelope(text), fault) == Envelope(text)
  {
    KeysAfterWrite(servicePath, files, key, temp, text, fault, key);
  }

  class Store {
    const servicePath: string
    var files: Files

    constructor (serviceName: string, rootPath: string)
      ensures servicePath == rootPath + "/" + serviceName && files == map[]
    {
      servicePath := rootPath + "/" + serviceName;
      files := map[];
    }

    method AtomicWrite(path: string, content: Content, fault: SaveFault) returns (ok: bool, ghost temp: string)
      modifies this
      ensures IsTempPath(path, temp)
      ensures |temp| == |path| + 13 && temp[..|path| + 5] == path + ".tmp."
      ensures ok == Reports(fault)
      ensures files == AfterWrite(old(files), path, temp, content, fault)
      ensures ok ==> files == old(files)[path := Arriving(content, fault)] - {temp}
      ensures fault.OpenFails? ==> files == old(files)
      ensures fault.RenameFails? ==> files == old(files)[temp := content]
    {
      var name := path + ".tmp.";
      for i := 0 to TEMP_DIGITS
        invariant |name| == |path| + 5 + i && name[..|path| + 5] == path + ".tmp."
        invariant forall k :: |path| + 5 <= k < |name| ==> IsHexDigit(name[k])
        invariant files == old(files)
      {
        var digit :| 0 <= digit < 16;
        name := name + [HexDigit(digit)];
      }
      temp := name;
      if fault.OpenFails? {
        return false, temp;
      }
      files := files[name := Unreadable];
      files := files[name := Arriving(content, fault)];
      if fault.RenameFails? {
        return false, temp;
      }
      files := files[path := files[name]] - {name};
      return true, temp;
    }

    /** Store::save<string>. */
    method Save(key: string, text: Text, fault: SaveFault) returns (ok: bool)
      modifies this
      ensures ok == Reports(fault)
      ensures forall other :: Load(servicePath, files, other) ==
                if other == key then LoadedAfter(Load(servicePath, old(files), key), text, fault)
                else Load(servicePath, old(files), other)
    {
      ghost var temp;
      ok, temp := AtomicWrite(KeyPath(servicePath, key), Envelope(text), fault);
      forall other
        ensures Load(servicePath, files, other) ==
                if other == key then LoadedAfter(Load(servicePath, old(files), key), text, fault)
                else Load(servicePath, old(files), other)
      {
        KeysAfterWrite(servicePath, old(files), key, temp, text, fault, other);
      }
    }

    /** Store::load<string>; an existing file that cannot be opened or read gives nothing. */
    method Fetch(key: string, readable: bool) returns (text: Option<Text>)
      ensures text == if readable then Load(servicePath, files, key) else None
    {
      var path := KeyPath(servicePath, key);
      if path !in files {
        return None;
      }
      if !readable {
        return None;
      }
      match files[path]
      case Envelope(value) => return Some(value);
      case Unreadable => return None;
    }

    method Exists(key: string) returns (present: bool)
      ensures Load(servicePath, files, key).Some? ==> present
      ensures present <==> KeyPath(servicePath, key) in files
    {
      return KeyPath(servicePath, key) in files;
    }

    method Remove(key: string, removable: bool) returns (ok: bool)
      modifies this
      ensures forall other :: Load(servicePath, files, other) ==
                if other == key && removable then None else Load(servicePath, old(files), other)
      ensures ok <==> removable && KeyPath(servicePath, key) in old(files)
    {
      var path := KeyPath(servicePath, key);
      ok := removable && path in files;
      if ok {
        files := files - {path};
      }
      forall other
        ensures Load(servicePath, files, other) ==
                if other == key && removable then None else Load(servicePath, old(files), other)
      {
        KeyPathInjective(servicePath, key, other);
      }
    }
  }
}
