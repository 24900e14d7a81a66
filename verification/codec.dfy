/**
 * The record serializers of src/protected_storage.cpp, on JSON values. Printing a value and parsing it
 * back is the JSON library's business and is taken to be exact.
 */
module Codec {
  import opened Types

  datatype Json =
    | Bool(truth: bool)
    | Number(number: int)
    | String(chars: string)
    | Array(items: seq<Json>)
    | Object(fields: map<string, Json>)

  /** The text handed to Store::save: plain characters, or a printed JSON value. */
  datatype Text = Plain(chars: string) | Printed(json: Json)

  /** A store file: the typed envelope of Store::save, or bytes that do not parse as a string envelope. */
  datatype Content = Envelope(text: Text) | Unreadable

  // ----- Conversions of the JSON library -----

  function AsString(fields: map<string, Json>, key: string): Option<string> {
    if key in fields && fields[key].String? then Some(fields[key].chars) else None
  }

  function AsBool(fields: map<string, Json>, key: string): Option<bool> {
    if key in fields && fields[key].Bool? then Some(fields[key].truth) else None
  }

  function AsInt(fields: map<string, Json>, key: string): Option<int> {
    if key in fields && fields[key].Number? then Some(fields[key].number) else None
  }

  // Narrower integers wrap.
  function AsUint8(fields: map<string, Json>, key: string): Option<uint8> {
    var n :- AsInt(fields, key);
    Some(n % 0x100)
  }

  function AsUint32(fields: map<string, Json>, key: string): Option<uint32> {
    var n :- AsInt(fields, key);
    Some(n % 0x1_0000_0000)
  }

  function AsStringOr(fields: map<string, Json>, key: string, default: string): Option<string> {
    if key in fields then AsString(fields, key) else Some(default)
  }

  function Bytes(items: seq<Json>): Option<seq<uint8>> {
    if items == [] then Some([])
    else if !items[|items| - 1].Number? then None
    else
      var front :- Bytes(items[..|items| - 1]);
      Some(front + [items[|items| - 1].number % 0x100])
  }

  function BytesToJson(bytes: seq<uint8>): seq<Json> {
    if bytes == [] then [] else BytesToJson(bytes[..|bytes| - 1]) + [Number(bytes[|bytes| - 1])]
  }

  function AsBytes(fields: map<string, Json>, key: string): Option<seq<uint8>> {
    if key in fields && fields[key].Array? then Bytes(fields[key].items) else None
  }

  // ----- Time: system_clock::to_time_t keeps whole seconds, towards zero -----

  function ToTimeT(ticks: int): int {
    if ticks >= 0 then ticks / TICKS_PER_SECOND else -(-ticks / TICKS_PER_SECOND)
  }

  function FromTimeT(seconds: int): int {
    seconds * TICKS_PER_SECOND
  }

  function WholeSeconds(ticks: int): int {
    FromTimeT(ToTimeT(ticks))
  }

  /** Seconds in the file, nanoseconds in memory: what is lost is less than a second, towards the epoch. */
  lemma SecondsTruncate(ticks: int)
    ensures WholeSeconds(ticks) == ToTimeT(ticks) * 1_000_000_000
    ensures ticks >= 0 ==> WholeSeconds(ticks) <= ticks < WholeSeconds(ticks) + 1_000_000_000
    ensures ticks <= 0 ==> WholeSeconds(ticks) - 1_000_000_000 < ticks <= WholeSeconds(ticks)
  {
  }

  lemma WholeSecondsIdempotent(ticks: int)
    ensures WholeSeconds(WholeSeconds(ticks)) == WholeSeconds(ticks)
  {
  }

  // ----- Bindings -----

  function BindingFields(b: VehicleBinding): map<string, Json> {
    map["vin" := String(b.vin),
        "ecu_uid" := String(b.ecuUid),
        "sn" := String(b.sn),
        "state" := Number(b.state),
        "locked" := Bool(b.locked),
        "bound_at" := Number(ToTimeT(b.boundAt)),
        "last_error" := String(b.lastError),
        "retry_count" := Number(b.retryCount),
        "rewrite_count" := Number(b.rewriteCount),
        "last_rewrite_at" := Number(ToTimeT(b.lastRewriteAt))]
  }

  function SerializeBinding(b: VehicleBinding): Text {
    Printed(Object(BindingFields(b)))
  }

  function DeserializeBinding(text: Text): Option<VehicleBinding> {
    if text.Printed? && text.json.Object? then BindingFromFields(text.json.fields) else None
  }

  function BindingFromFields(j: map<string, Json>): Option<VehicleBinding> {
    var vin :- AsString(j, "vin");
    var ecuUid :- AsString(j, "ecu_uid");
    // Old snapshots have no "sn"; it stays empty and is never taken from the ECU UID.
    var sn :- AsStringOr(j, "sn", "");
    var state :- AsUint8(j, "state");
    var locked :- AsBool(j, "locked");
    var boundAt :- AsInt(j, "bound_at");
    var lastError :- AsString(j, "last_error");
    var retryCount :- AsUint32(j, "retry_count");
    var rewriteCount :- AsUint32(j, "rewrite_count");
    var lastRewriteAt :- AsInt(j, "last_rewrite_at");
    Some(VehicleBinding(vin, ecuUid, sn, state, locked, FromTimeT(boundAt), lastError,
                        retryCount, rewriteCount, FromTimeT(lastRewriteAt)))
  }

  /** What a binding becomes on its way through the store. */
  function StoredBinding(b: VehicleBinding): VehicleBinding {
    b.(boundAt := WholeSeconds(b.boundAt), lastRewriteAt := WholeSeconds(b.lastRewriteAt))
  }

  lemma BindingDecodes(b: VehicleBinding)
    ensures BindingFromFields(BindingFields(b)) == Some(StoredBinding(b))
  {
  }

  lemma StoredBindingIdempotent(b: VehicleBinding)
    ensures StoredBinding(StoredBinding(b)) == StoredBinding(b)
    ensures StoredBinding(b).(boundAt := b.boundAt, lastRewriteAt := b.lastRewriteAt) == b
  {
  }

  /** Decoding undoes encoding up to whole seconds; a second round trip is exact. */
  lemma BindingRoundTrip(b: VehicleBinding)
    ensures DeserializeBinding(SerializeBinding(b)) == Some(StoredBinding(b))
    ensures StoredBinding(b).boundAt == WholeSeconds(b.boundAt)
    ensures StoredBinding(b).lastRewriteAt == WholeSeconds(b.lastRewriteAt)
    ensures DeserializeBinding(SerializeBinding(StoredBinding(b))) == Some(StoredBinding(b))
    ensures StoredBinding(b).(boundAt := b.boundAt, lastRewriteAt := b.lastRewriteAt) == b
  {
    BindingDecodes(b);
    BindingDecodes(StoredBinding(b));
    StoredBindingIdempotent(b);
  }

  /** The document a binding is stored as; the named states are the numbers of the interface. */
  lemma BindingDocument(b: VehicleBinding)
    ensures SerializeBinding(b) == Printed(Object(
              map["vin" := String(b.vin), "ecu_uid" := String(b.ecuUid), "sn" := String(b.sn),
                  "state" := Number(b.state), "locked" := Bool(b.locked),
                  "bound_at" := Number(ToTimeT(b.boundAt)), "last_error" := String(b.lastError),
                  "retry_count" := Number(b.retryCount), "rewrite_count" := Number(b.rewriteCount),
                  "last_rewrite_at" := Number(ToTimeT(b.lastRewriteAt))]))
    ensures [NONE, VIN_WRITTEN, BOUND, FAILED] == [0, 1, 2, 3]
  {
  }

  predicate HasString(j: map<string, Json>, key: string) {
    key in j && j[key].String?
  }

  predicate HasNumber(j: map<string, Json>, key: string) {
    key in j && j[key].Number?
  }

  predicate HasBool(j: map<string, Json>, key: string) {
    key in j && j[key].Bool?
  }

  /**
   * A document is a binding exactly if every field is there with its type, but for an absent "sn"; and then it is
   * these fields, numbers too large for theirs taken modulo its width.
   */
  lemma BindingReadableIff(j: map<string, Json>)
    ensures DeserializeBinding(Printed(Object(j))).Some? <==>
            && HasString(j, "vin") && HasString(j, "ecu_uid") && ("sn" in j ==> HasString(j, "sn"))
            && HasNumber(j, "state") && HasBool(j, "locked") && HasNumber(j, "bound_at")
            && HasString(j, "last_error") && HasNumber(j, "retry_count")
            && HasNumber(j, "rewrite_count") && HasNumber(j, "last_rewrite_at")
    ensures var r := DeserializeBinding(Printed(Object(j)));
            r.None? || r.value ==
              VehicleBinding(j["vin"].chars, j["ecu_uid"].chars, if "sn" in j then j["sn"].chars else "",
                             j["state"].number % 256, j["locked"].truth, j["bound_at"].number * 1_000_000_000,
                             j["last_error"].chars, j["retry_count"].number % 4_294_967_296,
                             j["rewrite_count"].number % 4_294_967_296, j["last_rewrite_at"].number * 1_000_000_000)
  {
  }

  /** A snapshot written before "sn" existed decodes to the same record with an empty sn. */
  lemma OldSnapshotHasEmptySn(b: VehicleBinding)
    ensures BindingFromFields(BindingFields(b) - {"sn"}) == Some(StoredBinding(b).(sn := ""))
  {
  }

  /** Two bindings are stored alike only if they agree on everything but fractions of a second. */
  lemma BindingEncodingInjective(a: VehicleBinding, b: VehicleBinding)
    ensures SerializeBinding(a) == SerializeBinding(b) <==> StoredBinding(a) == StoredBinding(b)
  {
    BindingRoundTrip(a);
    BindingRoundTrip(b);
    if StoredBinding(a) == StoredBinding(b) {
      assert ToTimeT(a.boundAt) == ToTimeT(b.boundAt);
    }
  }

  // ----- Vehicle configurations -----

  function SerializeConfig(c: VehicleConfig): Text {
    Printed(Object(map["variant_coding" := Array(BytesToJson(c.variantCoding)),
                       "written_at" := Number(ToTimeT(c.writtenAt)),
                       "verified" := Bool(c.verified)]))
  }

  function DeserializeConfig(text: Text): Option<VehicleConfig> {
    if text.Printed? && text.json.Object? then
      var j := text.json.fields;
      var variantCoding :- AsBytes(j, "variant_coding");
      var writtenAt :- AsInt(j, "written_at");
      var verified :- AsBool(j, "verified");
      Some(VehicleConfig(variantCoding, FromTimeT(writtenAt), verified))
    else
      None
  }

  function StoredConfig(c: VehicleConfig): VehicleConfig {
    c.(writtenAt := WholeSeconds(c.writtenAt))
  }

  lemma {:induction false} BytesRoundTrip(bytes: seq<uint8>)
    ensures Bytes(BytesToJson(bytes)) == Some(bytes)
  {
    if bytes != [] {
      var front := bytes[..|bytes| - 1];
      BytesRoundTrip(front);
      assert BytesToJson(bytes)[..|BytesToJson(bytes)| - 1] == BytesToJson(front);
      assert bytes == front + [bytes[|bytes| - 1]];
    }
  }

  lemma ConfigRoundTrip(c: VehicleConfig)
    ensures DeserializeConfig(SerializeConfig(c)) == Some(StoredConfig(c))
    ensures DeserializeConfig(SerializeConfig(StoredConfig(c))) == Some(StoredConfig(c))
    ensures StoredConfig(c).(writtenAt := c.writtenAt) == c
    ensures StoredConfig(c).writtenAt == WholeSeconds(c.writtenAt)
  {
    BytesRoundTrip(c.variantCoding);
    WholeSecondsIdempotent(c.writtenAt);
  }

  predicate HasBytes(j: map<string, Json>, key: string) {
    key in j && j[key].Array? && forall i :: 0 <= i < |j[key].items| ==> j[key].items[i].Number?
  }

  lemma {:induction false} BytesReadableIff(items: seq<Json>)
    ensures Bytes(items).Some? <==> forall i :: 0 <= i < |items| ==> items[i].Number?
    ensures Bytes(items).Some? ==> |Bytes(items).value| == |items|
    ensures Bytes(items).Some? ==>
              forall i :: 0 <= i < |items| ==> items[i].Number? && Bytes(items).value[i] == items[i].number % 256
  {
    if items != [] {
      var front := items[..|items| - 1];
      BytesReadableIff(front);
      assert forall i :: 0 <= i < |front| ==> front[i] == items[i];
    }
  }

  /** A document is a configuration exactly if it has bytes, a time and the mark; numbers become bytes modulo 256. */
  lemma ConfigReadableIff(j: map<string, Json>)
    ensures DeserializeConfig(Printed(Object(j))).Some? <==>
            HasBytes(j, "variant_coding") && HasNumber(j, "written_at") && HasBool(j, "verified")
    ensures var r := DeserializeConfig(Printed(Object(j)));
            r.Some? ==>
              && |r.value.variantCoding| == |j["variant_coding"].items|
              && r.value.writtenAt == j["written_at"].number * 1_000_000_000
              && r.value.verified == j["verified"].truth
              && forall i :: 0 <= i < |r.value.variantCoding| ==>
                   && j["variant_coding"].items[i].Number?
                   && r.value.variantCoding[i] == j["variant_coding"].items[i].number % 256
  {
    if HasBytes(j, "variant_coding") || AsBytes(j, "variant_coding").Some? {
      BytesReadableIff(j["variant_coding"].items);
    }
  }

  /** The documents of the other two records. */
  lemma ConfigDocument(c: VehicleConfig)
    ensures SerializeConfig(c) == Printed(Object(
              map["variant_coding" := Array(BytesToJson(c.variantCoding)),
                  "written_at" := Number(ToTimeT(c.writtenAt)), "verified" := Bool(c.verified)]))
    ensures |BytesToJson(c.variantCoding)| == |c.variantCoding|
    ensures forall i :: 0 <= i < |c.variantCoding| ==> BytesToJson(c.variantCoding)[i] == Number(c.variantCoding[i])
  {
    BytesInOrder(c.variantCoding);
  }

  lemma {:induction false} BytesInOrder(bytes: seq<uint8>)
    ensures |BytesToJson(bytes)| == |bytes|
    ensures forall i :: 0 <= i < |bytes| ==> BytesToJson(bytes)[i] == Number(bytes[i])
  {
    if bytes != [] {
      BytesInOrder(bytes[..|bytes| - 1]);
    }
  }

  // ----- Production information -----

  function SerializeProductionInfo(p: ProductionInfo): Text {
    Printed(Object(map["production_date" := String(p.productionDate),
                       "batch_num" := String(p.batchNum),
                       "station_id" := String(p.stationId),
                       "written_at" := Number(ToTimeT(p.writtenAt))]))
  }

  function DeserializeProductionInfo(text: Text): Option<ProductionInfo> {
    if text.Printed? && text.json.Object? then
      var j := text.json.fields;
      var productionDate :- AsString(j, "production_date");
      var batchNum :- AsString(j, "batch_num");
      var stationId :- AsString(j, "station_id");
      var writtenAt :- AsInt(j, "written_at");
      Some(ProductionInfo(productionDate, batchNum, stationId, FromTimeT(writtenAt)))
    else
      None
  }

  function StoredProductionInfo(p: ProductionInfo): ProductionInfo {
    p.(writtenAt := WholeSeconds(p.writtenAt))
  }

  lemma ProductionInfoRoundTrip(p: ProductionInfo)
    ensures DeserializeProductionInfo(SerializeProductionInfo(p)) == Some(StoredProductionInfo(p))
    ensures DeserializeProductionInfo(SerializeProductionInfo(StoredProductionInfo(p))) ==
            Some(StoredProductionInfo(p))
    ensures StoredProductionInfo(p).(writtenAt := p.writtenAt) == p
    ensures StoredProductionInfo(p).writtenAt == WholeSeconds(p.writtenAt)
  {
    WholeSecondsIdempotent(p.writtenAt);
  }

  lemma ProductionDocument(p: ProductionInfo)
    ensures SerializeProductionInfo(p) == Printed(Object(
              map["production_date" := String(p.productionDate), "batch_num" := String(p.batchNum),
                  "station_id" := String(p.stationId), "written_at" := Number(ToTimeT(p.writtenAt))]))
  {
  }

  lemma ProductionReadableIff(j: map<string, Json>)
    ensures DeserializeProductionInfo(Printed(Object(j))).Some? <==>
            && HasString(j, "production_date") && HasString(j, "batch_num") && HasString(j, "station_id")
            && HasNumber(j, "written_at")
    ensures var r := DeserializeProductionInfo(Printed(Object(j)));
            r.None? || r.value ==
              ProductionInfo(j["production_date"].chars, j["batch_num"].chars, j["station_id"].chars,
                             j["written_at"].number * 1_000_000_000)
  {
  }
}
