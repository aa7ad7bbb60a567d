/** The payload structs of bluez_types.h and types.dart, and their field tuples. */
module Types {
  import opened ByteStrings
  import opened Schema

  type Path = Bytes
  type U16 = n: int | 0 <= n < 0x1_0000
  type I16 = n: int | -0x8000 <= n < 0x8000
  type U32 = n: int | 0 <= n < 0x1_0000_0000

  datatype ManufacturerData = ManufacturerData(companyId: U16, data: Bytes)

  datatype AdapterProps = AdapterProps(
    objectPath: Path, changedMask: U32, address: Bytes, name: Bytes, alias: Bytes,
    powered: bool, discoverable: bool, pairable: bool, discovering: bool,
    discoverableTimeout: U32, uuids: seq<Bytes>)

  datatype DeviceProps = DeviceProps(
    objectPath: Path, changedMask: U32, adapterPath: Path, address: Bytes, addressType: Bytes,
    name: Bytes, alias: Bytes, rssi: I16, txPower: I16, appearance: U16, deviceClass: U32,
    paired: bool, trusted: bool, blocked: bool, connected: bool, servicesResolved: bool, legacyPairing: bool,
    uuids: seq<Bytes>, manufacturerData: seq<ManufacturerData>, serviceData: map<Bytes, Bytes>)

  datatype CharProps = CharProps(
    objectPath: Path, servicePath: Path, uuid: Bytes, value: Bytes,
    notifying: bool, writeAcquired: bool, notifyAcquired: bool, handle: U16, mtu: U16, flags: seq<Bytes>)

  datatype ServiceProps = ServiceProps(objectPath: Path, devicePath: Path, uuid: Bytes, primary: bool, handle: U16)

  datatype DescProps = DescProps(objectPath: Path, charPath: Path, uuid: Bytes, value: Bytes, handle: U16)

  datatype ValueResult = ValueResult(objectPath: Path, value: Bytes)

  datatype ErrorReply = ErrorReply(objectPath: Path, name: Bytes, message: Bytes)

  // ── Field tuples ─────────────────────────────────────────────────────────

  const MANUFACTURER: Kind := KStruct([KUInt(2), KBlob])

  function AdapterFields(): seq<Kind> {
    [KBlob, KUInt(4), KBlob, KBlob, KBlob, KBool, KBool, KBool, KBool, KUInt(4), KVector(KBlob)]
  }

  const ADAPTER: Kind := KStruct(AdapterFields())

  lemma AdapterFieldKinds()
    ensures
      var fs := AdapterFields();
      && |fs| == 11 && fs[0] == KBlob && fs[1] == KUInt(4) && fs[2] == KBlob && fs[3] == KBlob && fs[4] == KBlob
      && fs[5] == KBool && fs[6] == KBool && fs[7] == KBool && fs[8] == KBool && fs[9] == KUInt(4)
      && fs[10] == KVector(KBlob)
  {
  }

  function DeviceIdentityFields(): seq<Kind> {
    [KBlob, KUInt(4), KBlob, KBlob, KBlob, KBlob, KBlob, KInt16, KInt16, KUInt(2), KUInt(4)]
  }

  function DeviceStateFields(): seq<Kind> {
    [KBool, KBool, KBool, KBool, KBool, KBool, KVector(KBlob), KVector(MANUFACTURER), KMap]
  }

  function DeviceFields(): seq<Kind> {
    DeviceIdentityFields() + DeviceStateFields()
  }

  const DEVICE: Kind := KStruct(DeviceFields())

  lemma DeviceFieldKinds()
    ensures
      var fs := DeviceFields();
      && |fs| == 20 && fs[0] == KBlob && fs[1] == KUInt(4) && fs[2] == KBlob && fs[3] == KBlob && fs[4] == KBlob
      && fs[5] == KBlob && fs[6] == KBlob && fs[7] == KInt16 && fs[8] == KInt16 && fs[9] == KUInt(2)
      && fs[10] == KUInt(4) && fs[11] == KBool && fs[12] == KBool && fs[13] == KBool && fs[14] == KBool
      && fs[15] == KBool && fs[16] == KBool && fs[17] == KVector(KBlob) && fs[18] == KVector(MANUFACTURER)
      && fs[19] == KMap
  {
  }

  function CharFields(): seq<Kind> {
    [KBlob, KBlob, KBlob, KBlob, KBool, KBool, KBool, KUInt(2), KUInt(2), KVector(KBlob)]
  }

  const CHARACTERISTIC: Kind := KStruct(CharFields())

  lemma CharFieldKinds()
    ensures
      var fs := CharFields();
      && |fs| == 10 && fs[0] == KBlob && fs[1] == KBlob && fs[2] == KBlob && fs[3] == KBlob && fs[4] == KBool
      && fs[5] == KBool && fs[6] == KBool && fs[7] == KUInt(2) && fs[8] == KUInt(2) && fs[9] == KVector(KBlob)
  {
  }

  const SERVICE: Kind := KStruct([KBlob, KBlob, KBlob, KBool, KUInt(2)])

  const DESCRIPTOR: Kind := KStruct([KBlob, KBlob, KBlob, KBlob, KUInt(2)])

  const VALUE_RESULT: Kind := KStruct([KBlob, KBlob])

  const ERROR: Kind := KStruct([KBlob, KBlob, KBlob])

  // ── Structs as values ────────────────────────────────────────────────────

  function StringValues(ss: seq<Bytes>): Value {
    VSeq(seq(|ss|, i requires 0 <= i < |ss| => VBlob(ss[i])))
  }

  function ManufacturerValue(m: ManufacturerData): Value {
    VSeq([VInt(m.companyId), VBlob(m.data)])
  }

  function ManufacturerValues(ms: seq<ManufacturerData>): Value {
    VSeq(seq(|ms|, i requires 0 <= i < |ms| => ManufacturerValue(ms[i])))
  }

  function AdapterValue(p: AdapterProps): Value {
    VSeq([VBlob(p.objectPath), VInt(p.changedMask), VBlob(p.address), VBlob(p.name), VBlob(p.alias),
          VBool(p.powered), VBool(p.discoverable), VBool(p.pairable), VBool(p.discovering),
          VInt(p.discoverableTimeout), StringValues(p.uuids)])
  }

  function DeviceIdentityValues(p: DeviceProps): seq<Value> {
    [VBlob(p.objectPath), VInt(p.changedMask), VBlob(p.adapterPath), VBlob(p.address), VBlob(p.addressType),
     VBlob(p.name), VBlob(p.alias), VInt(p.rssi), VInt(p.txPower), VInt(p.appearance), VInt(p.deviceClass)]
  }

  function DeviceStateValues(p: DeviceProps): seq<Value> {
    [VBool(p.paired), VBool(p.trusted), VBool(p.blocked), VBool(p.connected), VBool(p.servicesResolved),
     VBool(p.legacyPairing), StringValues(p.uuids), ManufacturerValues(p.manufacturerData), VMap(p.serviceData)]
  }

  function DeviceValue(p: DeviceProps): Value {
    VSeq(DeviceIdentityValues(p) + DeviceStateValues(p))
  }

  function CharValue(p: CharProps): Value {
    VSeq([VBlob(p.objectPath), VBlob(p.servicePath), VBlob(p.uuid), VBlob(p.value),
          VBool(p.notifying), VBool(p.writeAcquired), VBool(p.notifyAcquired),
          VInt(p.handle), VInt(p.mtu), StringValues(p.flags)])
  }

  function ServiceValue(p: ServiceProps): Value {
    VSeq([VBlob(p.objectPath), VBlob(p.devicePath), VBlob(p.uuid), VBool(p.primary), VInt(p.handle)])
  }

  function DescValue(p: DescProps): Value {
    VSeq([VBlob(p.objectPath), VBlob(p.charPath), VBlob(p.uuid), VBlob(p.value), VInt(p.handle)])
  }

  function ValueResultValue(p: ValueResult): Value {
    VSeq([VBlob(p.objectPath), VBlob(p.value)])
  }

  function ErrorValue(p: ErrorReply): Value {
    VSeq([VBlob(p.objectPath), VBlob(p.name), VBlob(p.message)])
  }

  // ── Values as structs ────────────────────────────────────────────────────

  function Field(v: Value, i: nat): Value {
    if v.VSeq? && i < |v.vs| then v.vs[i] else VBool(false)
  }

  function BlobAt(v: Value, i: nat): Bytes {
    if Field(v, i).VBlob? then Field(v, i).bytes else []
  }

  function BoolAt(v: Value, i: nat): bool {
    Field(v, i).VBool? && Field(v, i).b
  }

  function IntAt(v: Value, i: nat, low: int, high: int): (n: int)
    requires low <= 0 < high
    ensures low <= n < high
  {
    if Field(v, i).VInt? && low <= Field(v, i).n < high then Field(v, i).n else 0
  }

  function U16At(v: Value, i: nat): U16 {
    IntAt(v, i, 0, 0x1_0000)
  }

  function I16At(v: Value, i: nat): I16 {
    IntAt(v, i, -0x8000, 0x8000)
  }

  function U32At(v: Value, i: nat): U32 {
    IntAt(v, i, 0, TWO_32)
  }

  function Elements(v: Value, i: nat): seq<Value> {
    if Field(v, i).VSeq? then Field(v, i).vs else []
  }

  function StringsAt(v: Value, i: nat): seq<Bytes> {
    var vs := Elements(v, i);
    seq(|vs|, j requires 0 <= j < |vs| => if vs[j].VBlob? then vs[j].bytes else [])
  }

  function ManufacturerAt(v: Value, i: nat): seq<ManufacturerData> {
    var vs := Elements(v, i);
    seq(|vs|, j requires 0 <= j < |vs| => ManufacturerData(U16At(vs[j], 0), BlobAt(vs[j], 1)))
  }

  function MapAt(v: Value, i: nat): map<Bytes, Bytes> {
    if Field(v, i).VMap? then Field(v, i).m else map[]
  }

  function AdapterOf(v: Value): AdapterProps {
    AdapterProps(BlobAt(v, 0), U32At(v, 1), BlobAt(v, 2), BlobAt(v, 3), BlobAt(v, 4),
                 BoolAt(v, 5), BoolAt(v, 6), BoolAt(v, 7), BoolAt(v, 8), U32At(v, 9), StringsAt(v, 10))
  }

  function DeviceOf(v: Value): DeviceProps {
    DeviceProps(BlobAt(v, 0), U32At(v, 1), BlobAt(v, 2), BlobAt(v, 3), BlobAt(v, 4), BlobAt(v, 5), BlobAt(v, 6),
                I16At(v, 7), I16At(v, 8), U16At(v, 9), U32At(v, 10),
                BoolAt(v, 11), BoolAt(v, 12), BoolAt(v, 13), BoolAt(v, 14), BoolAt(v, 15), BoolAt(v, 16),
                StringsAt(v, 17), ManufacturerAt(v, 18), MapAt(v, 19))
  }

  function CharOf(v: Value): CharProps {
    CharProps(BlobAt(v, 0), BlobAt(v, 1), BlobAt(v, 2), BlobAt(v, 3), BoolAt(v, 4), BoolAt(v, 5), BoolAt(v, 6),
              U16At(v, 7), U16At(v, 8), StringsAt(v, 9))
  }

  function ServiceOf(v: Value): ServiceProps {
    ServiceProps(BlobAt(v, 0), BlobAt(v, 1), BlobAt(v, 2), BoolAt(v, 3), U16At(v, 4))
  }

  function DescOf(v: Value): DescProps {
    DescProps(BlobAt(v, 0), BlobAt(v, 1), BlobAt(v, 2), BlobAt(v, 3), U16At(v, 4))
  }

  function ValueResultOf(v: Value): ValueResult {
    ValueResult(BlobAt(v, 0), BlobAt(v, 1))
  }

  function ErrorOf(v: Value): ErrorReply {
    ErrorReply(BlobAt(v, 0), BlobAt(v, 1), BlobAt(v, 2))
  }

  lemma StringsRoundTrip(v: Value, i: nat, ss: seq<Bytes>)
    requires Field(v, i) == StringValues(ss)
    ensures StringsAt(v, i) == ss
  {
  }

  lemma ManufacturerRoundTrip(v: Value, i: nat, ms: seq<ManufacturerData>)
    requires Field(v, i) == ManufacturerValues(ms)
    ensures ManufacturerAt(v, i) == ms
  {
    forall j | 0 <= j < |ms|
      ensures ManufacturerAt(v, i)[j] == ms[j]
    {
      assert Elements(v, i)[j] == ManufacturerValue(ms[j]);
    }
  }

  /** The first five values are p's identity fields. */
  predicate AdapterIdentity(vs: seq<Value>, p: AdapterProps) {
    && |vs| == 11 && vs[0] == VBlob(p.objectPath) && vs[1] == VInt(p.changedMask) && vs[2] == VBlob(p.address)
    && vs[3] == VBlob(p.name) && vs[4] == VBlob(p.alias)
  }

  /** The last six values are p's state fields. */
  predicate AdapterState(vs: seq<Value>, p: AdapterProps) {
    && |vs| == 11 && vs[5] == VBool(p.powered) && vs[6] == VBool(p.discoverable) && vs[7] == VBool(p.pairable)
    && vs[8] == VBool(p.discovering) && vs[9] == VInt(p.discoverableTimeout) && vs[10] == StringValues(p.uuids)
  }

  lemma AdapterOfFields(vs: seq<Value>, p: AdapterProps)
    requires AdapterIdentity(vs, p) && AdapterState(vs, p)
    ensures AdapterOf(VSeq(vs)) == p
  {
    StringsRoundTrip(VSeq(vs), 10, p.uuids);
  }

  /** The first seven values are p's mask and string fields. */
  predicate DeviceNames(vs: seq<Value>, p: DeviceProps) {
    && |vs| == 20 && vs[0] == VBlob(p.objectPath) && vs[1] == VInt(p.changedMask) && vs[2] == VBlob(p.adapterPath)
    && vs[3] == VBlob(p.address) && vs[4] == VBlob(p.addressType) && vs[5] == VBlob(p.name) && vs[6] == VBlob(p.alias)
  }

  /** The first eleven values are p's identity fields. */
  predicate DeviceIdentity(vs: seq<Value>, p: DeviceProps) {
    && DeviceNames(vs, p)
    && vs[7] == VInt(p.rssi) && vs[8] == VInt(p.txPower) && vs[9] == VInt(p.appearance) && vs[10] == VInt(p.deviceClass)
  }

  /** The six values from the eleventh on are p's flags. */
  predicate DeviceFlags(vs: seq<Value>, p: DeviceProps) {
    && |vs| == 20 && vs[11] == VBool(p.paired) && vs[12] == VBool(p.trusted) && vs[13] == VBool(p.blocked)
    && vs[14] == VBool(p.connected) && vs[15] == VBool(p.servicesResolved) && vs[16] == VBool(p.legacyPairing)
  }

  /** The last nine values are p's state fields. */
  predicate DeviceState(vs: seq<Value>, p: DeviceProps) {
    && DeviceFlags(vs, p)
    && vs[17] == StringValues(p.uuids) && vs[18] == ManufacturerValues(p.manufacturerData) && vs[19] == VMap(p.serviceData)
  }

  lemma DeviceOfFields(vs: seq<Value>, p: DeviceProps)
    requires DeviceIdentity(vs, p) && DeviceState(vs, p)
    ensures DeviceOf(VSeq(vs)) == p
  {
    hide StringValues, ManufacturerValues, StringsAt, ManufacturerAt, Elements;
    StringsRoundTrip(VSeq(vs), 17, p.uuids);
    ManufacturerRoundTrip(VSeq(vs), 18, p.manufacturerData);
  }

  /** The first four values are p's byte strings. */
  predicate CharNames(vs: seq<Value>, p: CharProps) {
    && |vs| == 10 && vs[0] == VBlob(p.objectPath) && vs[1] == VBlob(p.servicePath) && vs[2] == VBlob(p.uuid)
    && vs[3] == VBlob(p.value)
  }

  /** The last six values are p's state fields. */
  predicate CharState(vs: seq<Value>, p: CharProps) {
    && |vs| == 10 && vs[4] == VBool(p.notifying) && vs[5] == VBool(p.writeAcquired) && vs[6] == VBool(p.notifyAcquired)
    && vs[7] == VInt(p.handle) && vs[8] == VInt(p.mtu) && vs[9] == StringValues(p.flags)
  }

  lemma CharOfFields(vs: seq<Value>, p: CharProps)
    requires CharNames(vs, p) && CharState(vs, p)
    ensures CharOf(VSeq(vs)) == p
  {
    StringsRoundTrip(VSeq(vs), 9, p.flags);
  }

  lemma ServiceOfFields(vs: seq<Value>, p: ServiceProps)
    requires |vs| == 5 && vs[0] == VBlob(p.objectPath) && vs[1] == VBlob(p.devicePath) && vs[2] == VBlob(p.uuid)
    requires vs[3] == VBool(p.primary) && vs[4] == VInt(p.handle)
    ensures ServiceOf(VSeq(vs)) == p
  {
  }

  lemma DescOfFields(vs: seq<Value>, p: DescProps)
    requires |vs| == 5 && vs[0] == VBlob(p.objectPath) && vs[1] == VBlob(p.charPath) && vs[2] == VBlob(p.uuid)
    requires vs[3] == VBlob(p.value) && vs[4] == VInt(p.handle)
    ensures DescOf(VSeq(vs)) == p
  {
  }

  lemma ValueResultOfFields(vs: seq<Value>, p: ValueResult)
    requires |vs| == 2 && vs[0] == VBlob(p.objectPath) && vs[1] == VBlob(p.value)
    ensures ValueResultOf(VSeq(vs)) == p
  {
  }

  lemma ErrorOfFields(vs: seq<Value>, p: ErrorReply)
    requires |vs| == 3 && vs[0] == VBlob(p.objectPath) && vs[1] == VBlob(p.name) && vs[2] == VBlob(p.message)
    ensures ErrorOf(VSeq(vs)) == p
  {
  }

  lemma AdapterOfValue(p: AdapterProps)
    ensures AdapterOf(AdapterValue(p)) == p
  {
    AdapterOfFields(AdapterValue(p).vs, p);
  }

  lemma DeviceValueParts(p: DeviceProps)
    ensures DeviceValue(p) == VSeq(DeviceValue(p).vs)
    ensures DeviceIdentity(DeviceValue(p).vs, p)
    ensures DeviceState(DeviceValue(p).vs, p)
  {
    hide StringValues, ManufacturerValues;
  }

  lemma DeviceOfValue(p: DeviceProps)
    ensures DeviceOf(DeviceValue(p)) == p
  {
    hide *;
    DeviceValueParts(p);
    DeviceOfFields(DeviceValue(p).vs, p);
  }

  lemma CharOfValue(p: CharProps)
    ensures CharOf(CharValue(p)) == p
  {
    CharOfFields(CharValue(p).vs, p);
  }

  lemma ServiceOfValue(p: ServiceProps)
    ensures ServiceOf(ServiceValue(p)) == p
  {
    ServiceOfFields(ServiceValue(p).vs, p);
  }

  lemma DescOfValue(p: DescProps)
    ensures DescOf(DescValue(p)) == p
  {
    DescOfFields(DescValue(p).vs, p);
  }

  lemma ValueResultOfValue(p: ValueResult)
    ensures ValueResultOf(ValueResultValue(p)) == p
  {
    ValueResultOfFields(ValueResultValue(p).vs, p);
  }

  lemma ErrorOfValue(p: ErrorReply)
    ensures ErrorOf(ErrorValue(p)) == p
  {
    ErrorOfFields(ErrorValue(p).vs, p);
  }

  // ── Typing and lengths ───────────────────────────────────────────────────

  lemma {:induction false} KindsPointwise(fs: seq<Kind>, vs: seq<Value>)
    requires |fs| == |vs| && forall i :: 0 <= i < |fs| ==> HasKind(fs[i], vs[i])
    ensures HaveKinds(fs, vs)
  {
    hide HasKind;
    if fs == [] {
    } else {
      assert HasKind(fs[0], vs[0]);
      forall i | 0 <= i < |fs[1..]| ensures HasKind(fs[1..][i], vs[1..][i]) {
        assert HasKind(fs[i + 1], vs[i + 1]);
      }
      KindsPointwise(fs[1..], vs[1..]);
    }
  }

  lemma {:induction false} FitsPointwise(fs: seq<Kind>, vs: seq<Value>)
    requires HaveKinds(fs, vs)
    requires forall i :: 0 <= i < |fs| ==> HasKind(fs[i], vs[i]) && Fits(fs[i], vs[i])
    ensures AllFit(fs, vs)
  {
    hide HasKind, Fits;
    if fs == [] {
    } else {
      assert Fits(fs[0], vs[0]);
      forall i | 0 <= i < |fs[1..]| ensures HasKind(fs[1..][i], vs[1..][i]) && Fits(fs[1..][i], vs[1..][i]) {
        assert Fits(fs[i + 1], vs[i + 1]);
      }
      FitsPointwise(fs[1..], vs[1..]);
    }
  }

  lemma StringValuesHaveKind(ss: seq<Bytes>)
    ensures HasKind(KVector(KBlob), StringValues(ss))
  {
    KindsPointwise(Repeat(KBlob, |ss|), StringValues(ss).vs);
  }

  lemma ManufacturerHasKind(m: ManufacturerData)
    ensures HasKind(MANUFACTURER, ManufacturerValue(m))
  {
    KindsPointwise([KUInt(2), KBlob], ManufacturerValue(m).vs);
  }

  lemma ManufacturersHaveKind(ms: seq<ManufacturerData>)
    ensures HasKind(KVector(MANUFACTURER), ManufacturerValues(ms))
  {
    forall i | 0 <= i < |ms| ensures HasKind(MANUFACTURER, ManufacturerValue(ms[i])) {
      ManufacturerHasKind(ms[i]);
    }
    KindsPointwise(Repeat(MANUFACTURER, |ms|), ManufacturerValues(ms).vs);
  }

  lemma AdapterHasKind(p: AdapterProps)
    ensures HasKind(ADAPTER, AdapterValue(p))
  {
    StringValuesHaveKind(p.uuids);
    KindsPointwise(ADAPTER.fields, AdapterValue(p).vs);
  }

  lemma DeviceFieldHasKind(p: DeviceProps, i: nat)
    requires i < 20
    ensures HasKind(DEVICE.fields[i], DeviceValue(p).vs[i])
  {
    hide StringValues, ManufacturerValues, HaveKinds, Repeat, DeviceFields;
    DeviceFieldKinds();
    if i == 17 {
      StringValuesHaveKind(p.uuids);
    } else if i == 18 {
      ManufacturersHaveKind(p.manufacturerData);
    }
  }

  lemma DeviceHasKind(p: DeviceProps)
    ensures HasKind(DEVICE, DeviceValue(p))
  {
    forall i | 0 <= i < 20 ensures HasKind(DEVICE.fields[i], DeviceValue(p).vs[i]) {
      DeviceFieldHasKind(p, i);
    }
    KindsPointwise(DEVICE.fields, DeviceValue(p).vs);
  }

  lemma CharHasKind(p: CharProps)
    ensures HasKind(CHARACTERISTIC, CharValue(p))
  {
    StringValuesHaveKind(p.flags);
    KindsPointwise(CHARACTERISTIC.fields, CharValue(p).vs);
  }

  lemma ServiceHasKind(p: ServiceProps)
    ensures HasKind(SERVICE, ServiceValue(p))
  {
    KindsPointwise(SERVICE.fields, ServiceValue(p).vs);
  }

  lemma DescHasKind(p: DescProps)
    ensures HasKind(DESCRIPTOR, DescValue(p))
  {
    KindsPointwise(DESCRIPTOR.fields, DescValue(p).vs);
  }

  lemma ValueResultHasKind(p: ValueResult)
    ensures HasKind(VALUE_RESULT, ValueResultValue(p))
  {
    KindsPointwise(VALUE_RESULT.fields, ValueResultValue(p).vs);
  }

  lemma ErrorHasKind(p: ErrorReply)
    ensures HasKind(ERROR, ErrorValue(p))
  {
    KindsPointwise(ERROR.fields, ErrorValue(p).vs);
  }
}
