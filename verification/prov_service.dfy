/**
 * ProvService (src/prov_service.cpp) as the class it is, each call proved to do to its fields and to the files
 * of its store what the call does as a whole in Provisioning. One caller is inside at a time; threads are the
 * business of Concurrency.
 */
module Service {
  import opened Types
  import opened Provisioning
  import F = FileStore
  import P = Protected
  import Vin

  class ProvService {
    const store: F.Store
    const enableWriteProtection: bool
    var initialized: bool
    var shuttingDown: bool
    var storage: P.ProtectedStorage?

    constructor (store: F.Store, enableWriteProtection: bool)
      ensures this.store == store && Valid()
      ensures Fields() == Booted(enableWriteProtection)
    {
      this.store := store;
      this.enableWriteProtection := enableWriteProtection;
      initialized := false;
      shuttingDown := false;
      storage := null;
    }

    ghost predicate Valid()
      reads this
    {
      (initialized ==> storage != null) && (storage != null ==> storage.store == store)
    }

    ghost function Fields(): Mem
      reads this, storage
    {
      Mem(initialized, storage != null && storage.writeProtected, shuttingDown, enableWriteProtection)
    }

    ghost function Records(): Disk
      reads store
    {
      P.DiskIn(store.servicePath, store.files)
    }

    /** A fresh ProtectedStorage per attempt: its flag starts out clear. */
    method Initialize(e: Env) returns (code: ErrorCode)
      requires Valid()
      modifies this
      ensures Valid() && (storage == old(storage) || fresh(storage))
      ensures Outcome(Code(code), Fields(), Records()) == RunInitialize(old(Fields()), old(Records()), e)
    {
      if initialized {
        return Success;
      }
      code := InitializeStorage(e);
      if code != Success {
        return code;
      }
      initialized := true;
      return Success;
    }

    method InitializeStorage(e: Env) returns (code: ErrorCode)
      requires Valid() && !initialized
      modifies this`storage
      ensures storage != null && fresh(storage) && Valid()
      ensures code == if e.storeOpens then Success else StorageError
      ensures storage.writeProtected == (e.storeOpens && e.protectionLoads && Records().protection)
    {
      var built := new P.ProtectedStorage(store);
      storage := built;
      code := built.Initialize(e.storeOpens, e.protectionLoads);
    }

    method BeginShutdown()
      requires Valid()
      modifies this`shuttingDown
      ensures Valid() && Fields() == old(Fields()).(shuttingDown := true)
    {
      shuttingDown := true;
    }

    method WriteVin(vin: string, e: Env) returns (code: ErrorCode)
      requires Valid()
      modifies storage, store
      ensures Valid()
      ensures Outcome(Code(code), Fields(), Records()) == RunWriteVin(old(Fields()), old(Records()), vin, e)
    {
      if !initialized {
        return InvalidState;
      }
      if shuttingDown {
        return InvalidState;
      }
      var valid := Vin.Validate(vin);
      if !valid {
        return InvalidVinFormat;
      }
      code := ExecuteVinBindingFlow(vin, e);
    }

    method AuthorizeRewrite(vin: string, e: Env) returns (code: ErrorCode)
      requires Valid()
      modifies storage, store
      ensures Valid()
      ensures Outcome(Code(code), Fields(), Records()) == RunAuthorizeRewrite(old(Fields()), old(Records()), vin, e)
    {
      if !initialized {
        return InvalidState;
      }
      if shuttingDown {
        return InvalidState;
      }
      var valid := Vin.Validate(vin);
      if !valid {
        return InvalidVinFormat;
      }
      var binding := storage.ReadVehicleBinding(e.authorizeLoads);
      if binding.Some? && binding.value.locked {
        if vin != binding.value.vin {
          return VinConflictUnauthorized;
        }
      }
      code := ExecuteVinBindingFlow(vin, e);
    }

    method ExecuteVinBindingFlow(vin: string, e: Env) returns (code: ErrorCode)
      requires Valid() && initialized
      modifies storage, store
      ensures Valid()
      ensures Outcome(Code(code), Fields(), Records()) == BindingFlow(old(Fields()), old(Records()), vin, e)
    {
      if !e.uid.success {
        return e.uid.errorCode;
      }
      code := EstablishBinding(vin, e.uid.uid, e);
      if code != Success {
        return code;
      }
      code := VerifyWrite(vin, e);
      if code != Success {
        return code;
      }
      if enableWriteProtection {
        code := storage.SetWriteProtection(true, e.protectionSave);
        if code != Success {
          return code;
        }
      }
      return Success;
    }

    /** The record of establish_binding, field by field. */
    static method BuildBinding(vin: string, ecuUid: string, existing: Option<VehicleBinding>, e: Env)
      returns (binding: VehicleBinding)
      ensures binding == ConstructBinding(vin, ecuUid, existing, e)
    {
      binding := EMPTY_BINDING;
      binding := binding.(vin := vin);
      binding := binding.(ecuUid := ecuUid);
      binding := binding.(state := VIN_WRITTEN);
      binding := binding.(locked := false);
      binding := binding.(boundAt := e.now);
      binding := binding.(retryCount := 0);
      binding := binding.(rewriteCount := 0);
      if existing.Some? && existing.value.vin == vin {
        binding := binding.(rewriteCount := (existing.value.rewriteCount + 1) % 0x1_0000_0000);
        binding := binding.(lastRewriteAt := e.rewriteNow);
      }
    }

    method EstablishBinding(vin: string, ecuUid: string, e: Env) returns (code: ErrorCode)
      requires Valid() && initialized
      modifies store
      ensures (code, Records()) == Provisioning.EstablishBinding(old(Fields()), old(Records()), vin, ecuUid, e)
      ensures Fields() == old(Fields())
    {
      var existing := storage.ReadVehicleBinding(e.existingLoads);
      var binding := BuildBinding(vin, ecuUid, existing, e);
      var result := storage.WriteVehicleBinding(binding, e.firstSave);
      if result != Success {
        return VinWriteFailed;
      }
      binding := binding.(state := BOUND);
      result := storage.WriteVehicleBinding(binding, e.secondSave);
      if result != Success {
        return VinWriteFailed;
      }
      return Success;
    }

    method VerifyWrite(expectedVin: string, e: Env) returns (code: ErrorCode)
      requires Valid() && initialized
      ensures code == Provisioning.VerifyWrite(Records(), expectedVin, e)
    {
      var binding := storage.ReadVehicleBinding(e.readLoads);
      if binding.None? {
        return ReadbackVerificationFailed;
      }
      if binding.value.vin != expectedVin {
        return ReadbackVerificationFailed;
      }
      return Success;
    }

    method WriteVehicleConfig(data: seq<uint8>, e: Env) returns (code: ErrorCode)
      requires Valid()
      modifies store
      ensures Outcome(Code(code), Fields(), Records()) == RunWriteVehicleConfig(old(Fields()), old(Records()), data, e)
    {
      if !initialized {
        return InvalidState;
      }
      if shuttingDown {
        return InvalidState;
      }
      if storage.writeProtected {
        return SecurityAccessNotGranted;
      }
      var config := VehicleConfig(data, e.now, false);
      var result := storage.WriteVehicleConfig(config, e.firstSave);
      if result != Success {
        return ConfigWriteFailed;
      }
      var stored := storage.ReadVehicleConfig(e.readLoads);
      if stored.None? {
        return ConfigWriteFailed;
      }
      if stored.value.variantCoding != data {
        return ReadbackVerificationFailed;
      }
      config := config.(verified := true);
      result := storage.WriteVehicleConfig(config, e.secondSave);
      return Success;
    }

    method WriteProductionInfo(info: ProductionInfo, e: Env) returns (code: ErrorCode)
      requires Valid()
      modifies store
      ensures Outcome(Code(code), Fields(), Records()) == RunWriteProductionInfo(old(Fields()), old(Records()), info, e)
    {
      if !initialized {
        return InvalidState;
      }
      if shuttingDown {
        return InvalidState;
      }
      if storage.writeProtected {
        return SecurityAccessNotGranted;
      }
      var newInfo := info.(writtenAt := e.now);
      var result := storage.WriteProductionInfo(newInfo, e.firstSave);
      if result != Success {
        return ProductionInfoWriteFailed;
      }
      var stored := storage.ReadProductionInfo(e.readLoads);
      if stored.None? {
        return ProductionInfoWriteFailed;
      }
      if stored.value.productionDate != newInfo.productionDate ||
         stored.value.batchNum != newInfo.batchNum ||
         stored.value.stationId != newInfo.stationId {
        return ReadbackVerificationFailed;
      }
      return Success;
    }

    method ReadVin(e: Env) returns (vin: string)
      requires Valid()
      ensures Outcome(VinIs(vin), Fields(), Records()) == RunRead(Operation.ReadVin, Fields(), Records(), e)
    {
      if !initialized {
        return "";
      }
      var binding := storage.ReadVehicleBinding(e.readLoads);
      if binding.Some? {
        return binding.value.vin;
      }
      return "";
    }

    method ReadBinding(e: Env) returns (binding: VehicleBinding)
      requires Valid()
      ensures Outcome(BindingIs(binding), Fields(), Records()) ==
              RunRead(Operation.ReadBinding, Fields(), Records(), e)
    {
      binding := EMPTY_BINDING;
      if !initialized {
        return binding;
      }
      var stored := storage.ReadVehicleBinding(e.readLoads);
      if stored.Some? {
        binding := stored.value;
      }
      if stored.Some? && binding.sn == "" {
        if e.sn.success {
          binding := binding.(sn := e.sn.sn);
        }
      }
    }

    method IsInitialized() returns (ready: bool)
      ensures ready == Fields().initialized
    {
      return initialized;
    }

    method GetProvisionState(e: Env) returns (state: uint8)
      requires Valid()
      ensures Outcome(StateIs(state), Fields(), Records()) ==
              RunRead(Operation.GetProvisionState, Fields(), Records(), e)
    {
      if !initialized {
        return NONE;
      }
      var binding := storage.ReadVehicleBinding(e.readLoads);
      if binding.Some? {
        return binding.value.state;
      }
      return NONE;
    }
  }
}
