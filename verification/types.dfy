/** The records, states and error codes of the provisioning service (include/tbox/prov). */
module Types {
  datatype Option<+T> = None | Some(value: T) {
    predicate IsFailure() {
      None?
    }

    function PropagateFailure<U>(): Option<U>
      requires None?
    {
      None
    }

    function Extract(): T
      requires Some?
    {
      value
    }
  }

  type uint8 = n: int | 0 <= n < 0x100
  type uint32 = n: int | 0 <= n < 0x1_0000_0000

  datatype ErrorCode =
    | Success
    | SecurityAccessNotGranted
    | InvalidVinFormat
    | VinWriteFailed
    | ReadbackVerificationFailed
    | VinConflictUnauthorized
    | ConfigWriteFailed
    | ProductionInfoWriteFailed
    | SeUidReadFailed
    | SeMissingConfigNotFound
    | SeMissingProductionFailClosed
    | InternalError
    | StorageError
    | EcuUidReadError
    | InvalidState
    | SnUnavailable

  // ProvisionState is an enumeration over uint8_t: four values are named, all 256 can be stored.
  const NONE: uint8 := 0
  const VIN_WRITTEN: uint8 := 1
  const BOUND: uint8 := 2
  const FAILED: uint8 := 3

  // Time points are clock ticks (nanoseconds) since the epoch.
  const TICKS_PER_SECOND := 1_000_000_000

  datatype VehicleBinding = VehicleBinding(
    vin: string,
    ecuUid: string,
    sn: string,
    state: uint8,
    locked: bool,
    boundAt: int,
    lastError: string,
    retryCount: uint32,
    rewriteCount: uint32,
    lastRewriteAt: int)

  const EMPTY_BINDING := VehicleBinding("", "", "", NONE, false, 0, "", 0, 0, 0)

  datatype VehicleConfig = VehicleConfig(variantCoding: seq<uint8>, writtenAt: int, verified: bool)

  datatype ProductionInfo = ProductionInfo(
    productionDate: string, batchNum: string, stationId: string, writtenAt: int)
}
