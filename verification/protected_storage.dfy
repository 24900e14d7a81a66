/** ProtectedStorageImpl (src/protected_storage.cpp): guarded records over the file store. */
module Protected {
  import opened Types
  import opened Provisioning
  import C = Codec
  import F = FileStore

  const BINDING_KEY := "binding"
  const CONFIG_KEY := "config"
  const PRODUCTION_KEY := "production_info"
  const PROTECTION_KEY := "protection"

  lemma KeysDiffer()
    ensures BINDING_KEY != CONFIG_KEY && BINDING_KEY != PRODUCTION_KEY && BINDING_KEY != PROTECTION_KEY
    ensures CONFIG_KEY != PRODUCTION_KEY && CONFIG_KEY != PROTECTION_KEY && PRODUCTION_KEY != PROTECTION_KEY
  {
    assert |BINDING_KEY| == 7 && |CONFIG_KEY| == 6 && |PRODUCTION_KEY| == 15 && |PROTECTION_KEY| == 10;
  }

  /** The four records that a set of files stands for. */
  function DiskIn(servicePath: string, files: F.Files): Disk {
    Disk(BindingIn(F.Load(servicePath, files, BINDING_KEY)),
         ConfigIn(F.Load(servicePath, files, CONFIG_KEY)),
         ProductionIn(F.Load(servicePath, files, PRODUCTION_KEY)),
         ProtectionIn(F.Load(servicePath, files, PROTECTION_KEY)))
  }

  function ProtectionText(locked: bool): C.Text {
    C.Plain(if locked then "1" else "0")
  }

  function TextAt(files: F.Files, path: string): Option<C.Text> {
    if path in files && files[path].Envelope? then Some(files[path].text) else None
  }

  /** Where the records are, file by file, and the one text that stands for a locked device. */
  lemma RecordsByFile(servicePath: string, files: F.Files)
    ensures var d := DiskIn(servicePath, files);
            && d.binding == BindingIn(TextAt(files, servicePath + "/binding.json"))
            && d.config == ConfigIn(TextAt(files, servicePath + "/config.json"))
            && d.production == ProductionIn(TextAt(files, servicePath + "/production_info.json"))
            && (d.protection <==> TextAt(files, servicePath + "/protection.json") == Some(C.Plain("1")))
  {
    FileOfKey(servicePath, BINDING_KEY, "/binding.json");
    FileOfKey(servicePath, CONFIG_KEY, "/config.json");
    FileOfKey(servicePath, PRODUCTION_KEY, "/production_info.json");
    FileOfKey(servicePath, PROTECTION_KEY, "/protection.json");
  }

  lemma FileOfKey(servicePath: string, key: string, file: string)
    requires file == "/" + key + ".json"
    ensures F.KeyPath(servicePath, key) == servicePath + file
  {
  }

  /** What Store::save promises about the keys. */
  ghost predicate OneKeySaved(
    servicePath: string, files: F.Files, files': F.Files, key: string, text: C.Text, fault: F.SaveFault)
  {
    forall other :: F.Load(servicePath, files', other) ==
      if other == key then F.LoadedAfter(F.Load(servicePath, files, key), text, fault)
      else F.Load(servicePath, files, other)
  }

  lemma BindingSaved(servicePath: string, files: F.Files, files': F.Files, b: VehicleBinding, fault: F.SaveFault)
    requires OneKeySaved(servicePath, files, files', BINDING_KEY, C.SerializeBinding(b), fault)
    ensures DiskIn(servicePath, files') == SaveBinding(DiskIn(servicePath, files), b, fault)
  {
    KeysDiffer();
    C.BindingRoundTrip(b);
  }

  lemma ConfigSaved(servicePath: string, files: F.Files, files': F.Files, c: VehicleConfig, fault: F.SaveFault)
    requires OneKeySaved(servicePath, files, files', CONFIG_KEY, C.SerializeConfig(c), fault)
    ensures DiskIn(servicePath, files') == SaveConfig(DiskIn(servicePath, files), c, fault)
  {
    KeysDiffer();
    C.ConfigRoundTrip(c);
  }

  lemma ProductionSaved(servicePath: string, files: F.Files, files': F.Files, p: ProductionInfo, fault: F.SaveFault)
    requires OneKeySaved(servicePath, files, files', PRODUCTION_KEY, C.SerializeProductionInfo(p), fault)
    ensures DiskIn(servicePath, files') == SaveProduction(DiskIn(servicePath, files), p, fault)
  {
    KeysDiffer();
    C.ProductionInfoRoundTrip(p);
  }

  lemma ProtectionSaved(servicePath: string, files: F.Files, files': F.Files, locked: bool, fault: F.SaveFault)
    requires OneKeySaved(servicePath, files, files', PROTECTION_KEY, ProtectionText(locked), fault)
    ensures DiskIn(servicePath, files') == SaveProtection(DiskIn(servicePath, files), locked, fault)
  {
    KeysDiffer();
  }

  // ----- The flag under direct use of the storage -----

  /** The flag twice: the member, and the text under "protection". */
  datatype Flags = Flags(inMemory: bool, onDisk: Option<C.Text>)

  datatype StorageCall =
    | Reinitialize(storeOpens: bool, protectionLoads: bool)
    | NewStorage
    | SetProtection(locked: bool, saved: bool)
    | Clear(removed: bool)
    | AnyRecordWrite

  function FlagsAfter(s: Flags, call: StorageCall): Flags {
    match call
    case Reinitialize(opens, loads) =>
      if opens && loads && s.onDisk.Some? then s.(inMemory := ProtectionIn(s.onDisk)) else s
    case NewStorage => s.(inMemory := false)
    case SetProtection(locked, saved) => if saved then Flags(locked, Some(ProtectionText(locked))) else s
    case Clear(removed) => Flags(false, if removed then None else s.onDisk)
    case AnyRecordWrite => s
  }

  function FlagsAfterAll(s: Flags, calls: seq<StorageCall>): Flags {
    if calls == [] then s else FlagsAfter(FlagsAfterAll(s, calls[..|calls| - 1]), calls[|calls| - 1])
  }

  /** Locked in memory means locked on disk after every sequence of storage calls, failing removals included. */
  lemma {:induction false} LockedInMemoryIsOnDisk(s: Flags, calls: seq<StorageCall>)
    requires s.inMemory ==> s.onDisk == Some(C.Plain("1"))
    ensures FlagsAfterAll(s, calls).inMemory ==> FlagsAfterAll(s, calls).onDisk == Some(C.Plain("1"))
  {
    if calls != [] {
      LockedInMemoryIsOnDisk(s, calls[..|calls| - 1]);
    }
  }

  /** clear_all unlocks memory always, but the disk only if its last removal works or there was nothing to unlock. */
  lemma ClearAgreesIffRemoved(s: Flags, removed: bool)
    ensures FlagsAfter(s, Clear(removed)).inMemory == ProtectionIn(FlagsAfter(s, Clear(removed)).onDisk) <==>
            removed || !ProtectionIn(s.onDisk)
  {
  }

  class ProtectedStorage {
    const store: F.Store
    var writeProtected: bool

    constructor (store: F.Store)
      ensures this.store == store && !writeProtected
    {
      this.store := store;
      writeProtected := false;
    }

    ghost function Records(): Disk
      reads store
    {
      DiskIn(store.servicePath, store.files)
    }

    ghost function BothFlags(): Flags
      reads this, store
    {
      Flags(writeProtected, F.Load(store.servicePath, store.files, PROTECTION_KEY))
    }

    /** A readable "protection" key decides the flag; an unreadable or missing one leaves it alone. */
    method Initialize(storeOpens: bool, protectionLoads: bool) returns (code: ErrorCode)
      modifies this
      ensures code == if storeOpens then Success else StorageError
      ensures writeProtected ==
              if storeOpens && protectionLoads && F.Load(store.servicePath, store.files, PROTECTION_KEY).Some?
              then Records().protection else old(writeProtected)
      ensures storeOpens && protectionLoads && F.Load(store.servicePath, store.files, "protection").Some? ==>
                (writeProtected <==> F.Load(store.servicePath, store.files, "protection") == Some(C.Plain("1")))
      ensures BothFlags() == FlagsAfter(old(BothFlags()), Reinitialize(storeOpens, protectionLoads))
    {
      if !storeOpens {
        return StorageError;
      }
      var data := store.Fetch(PROTECTION_KEY, protectionLoads);
      if data.Some? {
        writeProtected := data.value == C.Plain("1");
      }
      return Success;
    }

    method ReadVehicleBinding(loads: bool) returns (binding: Option<VehicleBinding>)
      ensures binding == Loaded(Records().binding, loads)
    {
      var data := store.Fetch(BINDING_KEY, loads);
      if data.None? {
        return None;
      }
      return C.DeserializeBinding(data.value);
    }

    method WriteVehicleBinding(b: VehicleBinding, fault: F.SaveFault) returns (code: ErrorCode)
      modifies store
      ensures code == WriteCode(writeProtected, fault)
      ensures code == SecurityAccessNotGranted <==> writeProtected
      ensures !writeProtected && fault.Sound? ==>
                code == Success && F.Load(store.servicePath, store.files, "binding") == Some(C.SerializeBinding(b))
      ensures !writeProtected && (fault.OpenFails? || fault.RenameFails?) ==> code == StorageError
      ensures Records() == if writeProtected then old(Records()) else SaveBinding(old(Records()), b, fault)
      ensures BothFlags() == FlagsAfter(old(BothFlags()), AnyRecordWrite)
    {
      KeysDiffer();
      if writeProtected {
        return SecurityAccessNotGranted;
      }
      var ok := store.Save(BINDING_KEY, C.SerializeBinding(b), fault);
      BindingSaved(store.servicePath, old(store.files), store.files, b, fault);
      return if ok then Success else StorageError;
    }

    method ReadVehicleConfig(loads: bool) returns (config: Option<VehicleConfig>)
      ensures config == Loaded(Records().config, loads)
    {
      var data := store.Fetch(CONFIG_KEY, loads);
      if data.None? {
        return None;
      }
      return C.DeserializeConfig(data.value);
    }

    method WriteVehicleConfig(c: VehicleConfig, fault: F.SaveFault) returns (code: ErrorCode)
      modifies store
      ensures code == WriteCode(writeProtected, fault)
      ensures code == SecurityAccessNotGranted <==> writeProtected
      ensures !writeProtected && fault.Sound? ==>
                code == Success && F.Load(store.servicePath, store.files, "config") == Some(C.SerializeConfig(c))
      ensures !writeProtected && (fault.OpenFails? || fault.RenameFails?) ==> code == StorageError
      ensures Records() == if writeProtected then old(Records()) else SaveConfig(old(Records()), c, fault)
      ensures BothFlags() == FlagsAfter(old(BothFlags()), AnyRecordWrite)
    {
      KeysDiffer();
      if writeProtected {
        return SecurityAccessNotGranted;
      }
      var ok := store.Save(CONFIG_KEY, C.SerializeConfig(c), fault);
      ConfigSaved(store.servicePath, old(store.files), store.files, c, fault);
      return if ok then Success else StorageError;
    }

    method ReadProductionInfo(loads: bool) returns (info: Option<ProductionInfo>)
      ensures info == Loaded(Records().production, loads)
    {
      var data := store.Fetch(PRODUCTION_KEY, loads);
      if data.None? {
        return None;
      }
      return C.DeserializeProductionInfo(data.value);
    }

    method WriteProductionInfo(p: ProductionInfo, fault: F.SaveFault) returns (code: ErrorCode)
      modifies store
      ensures code == WriteCode(writeProtected, fault)
      ensures code == SecurityAccessNotGranted <==> writeProtected
      ensures !writeProtected && fault.Sound? ==>
                && code == Success
                && F.Load(store.servicePath, store.files, "production_info") == Some(C.SerializeProductionInfo(p))
      ensures !writeProtected && (fault.OpenFails? || fault.RenameFails?) ==> code == StorageError
      ensures Records() == if writeProtected then old(Records()) else SaveProduction(old(Records()), p, fault)
      ensures BothFlags() == FlagsAfter(old(BothFlags()), AnyRecordWrite)
    {
      KeysDiffer();
      if writeProtected {
        return SecurityAccessNotGranted;
      }
      var ok := store.Save(PRODUCTION_KEY, C.SerializeProductionInfo(p), fault);
      ProductionSaved(store.servicePath, old(store.files), store.files, p, fault);
      return if ok then Success else StorageError;
    }

    /** The flag in memory follows the one on disk only when the save reports success. */
    method SetWriteProtection(locked: bool, fault: F.SaveFault) returns (code: ErrorCode)
      modifies this, store
      ensures code == if F.Reports(fault) then Success else StorageError
      ensures writeProtected == if F.Reports(fault) then locked else old(writeProtected)
      ensures Records() == SaveProtection(old(Records()), locked, fault)
      ensures fault.Sound? ==> F.Load(store.servicePath, store.files, "protection") ==
                               Some(if locked then C.Plain("1") else C.Plain("0"))
      ensures !fault.Garbled? ==> BothFlags() == FlagsAfter(old(BothFlags()), SetProtection(locked, fault.Sound?))
    {
      var data := ProtectionText(locked);
      var ok := store.Save(PROTECTION_KEY, data, fault);
      ProtectionSaved(store.servicePath, old(store.files), store.files, locked, fault);
      if !ok {
        return StorageError;
      }
      writeProtected := locked;
      return Success;
    }

    /** Removals may fail one by one; none of them is looked at. */
    method ClearAll(removes: (bool, bool, bool, bool)) returns (code: ErrorCode)
      modifies this, store
      ensures code == Success && !writeProtected
      ensures Records() == Disk(if removes.0 then None else old(Records()).binding,
                                if removes.1 then None else old(Records()).config,
                                if removes.2 then None else old(Records()).production,
                                !removes.3 && old(Records()).protection)
      ensures BothFlags() == FlagsAfter(old(BothFlags()), Clear(removes.3))
    {
      KeysDiffer();
      var ok := store.Remove(BINDING_KEY, removes.0);
      ok := store.Remove(CONFIG_KEY, removes.1);
      ok := store.Remove(PRODUCTION_KEY, removes.2);
      ok := store.Remove(PROTECTION_KEY, removes.3);
      writeProtected := false;
      return Success;
    }
  }
}
