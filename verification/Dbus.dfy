/** D-Bus property maps, and what the native side reads out of them. */
module Dbus {
  import opened ByteStrings
  import opened Schema
  import opened Types
  import opened Masks

  /** An sdbus::Variant; the two dictionary forms list their entries in std::map order. */
  datatype Variant =
    | BoolVariant(b: bool)
    | I16Variant(i16: I16)
    | U16Variant(u16: U16)
    | U32Variant(u32: U32)
    | StringVariant(s: Bytes)
    | PathVariant(path: Path)
    | StringsVariant(ss: seq<Bytes>)
    | BytesVariant(bytes: Bytes)
    | DictQV(qv: seq<(U16, Variant)>)
    | DictSV(sv: seq<(Bytes, Variant)>)
    | OtherVariant

  type PropertiesMap = map<string, Variant>

  /** The interface names the handlers compare with, and all others. */
  datatype InterfaceName =
    | Adapter1
    | Device1
    | GattService1
    | GattCharacteristic1
    | GattDescriptor1
    | OtherInterface(name: string)

  // ── get_prop: a missing or ill-typed property reads as its default ───────

  function GetBool(props: PropertiesMap, key: string): bool {
    key in props && props[key].BoolVariant? && props[key].b
  }

  function GetI16(props: PropertiesMap, key: string): I16 {
    if key in props && props[key].I16Variant? then props[key].i16 else 0
  }

  function GetU16(props: PropertiesMap, key: string): U16 {
    if key in props && props[key].U16Variant? then props[key].u16 else 0
  }

  function GetU32(props: PropertiesMap, key: string): U32 {
    if key in props && props[key].U32Variant? then props[key].u32 else 0
  }

  function GetString(props: PropertiesMap, key: string): Bytes {
    if key in props && props[key].StringVariant? then props[key].s else []
  }

  function GetPath(props: PropertiesMap, key: string): Path {
    if key in props && props[key].PathVariant? then props[key].path else []
  }

  function GetStrings(props: PropertiesMap, key: string): seq<Bytes> {
    if key in props && props[key].StringsVariant? then props[key].ss else []
  }

  function GetBytes(props: PropertiesMap, key: string): Bytes {
    if key in props && props[key].BytesVariant? then props[key].bytes else []
  }

  /** Entries up to the first whose value is no byte array; the exception it raises is swallowed. */
  function LeadingManufacturer(qv: seq<(U16, Variant)>): seq<ManufacturerData> {
    if qv == [] || !qv[0].1.BytesVariant? then []
    else [ManufacturerData(qv[0].0, qv[0].1.bytes)] + LeadingManufacturer(qv[1..])
  }

  function LeadingServiceData(sv: seq<(Bytes, Variant)>): Entries {
    if sv == [] || !sv[0].1.BytesVariant? then []
    else [(sv[0].0, sv[0].1.bytes)] + LeadingServiceData(sv[1..])
  }

  /** The entries are those before the first ill-typed one, or all, in order. */
  predicate IsLeadingQV(qv: seq<(U16, Variant)>, data: seq<ManufacturerData>) {
    && |data| <= |qv|
    && (forall i :: 0 <= i < |data| ==> qv[i] == (data[i].companyId, BytesVariant(data[i].data)))
    && (|data| < |qv| ==> !qv[|data|].1.BytesVariant?)
  }

  /** The map of the n entries before the first ill-typed one, or of all; the last of a repeated key stays. */
  predicate IsLeadingSV(sv: seq<(Bytes, Variant)>, data: map<Bytes, Bytes>, n: nat) {
    && n <= |sv| && (forall i :: 0 <= i < n ==> sv[i].1.BytesVariant?) && (n < |sv| ==> !sv[n].1.BytesVariant?)
    && (forall key :: key in data ==> exists i :: 0 <= i < n && sv[i] == (key, BytesVariant(data[key])))
    && (forall i :: 0 <= i < n && (forall j :: i < j < n ==> sv[j].0 != sv[i].0) ==>
          sv[i].0 in data && sv[i].1 == BytesVariant(data[sv[i].0]))
  }

  ghost predicate IsManufacturerData(props: PropertiesMap, data: seq<ManufacturerData>) {
    if "ManufacturerData" in props && props["ManufacturerData"].DictQV?
    then IsLeadingQV(props["ManufacturerData"].qv, data) else data == []
  }

  ghost predicate IsServiceData(props: PropertiesMap, data: map<Bytes, Bytes>) {
    if "ServiceData" in props && props["ServiceData"].DictSV?
    then exists n: nat :: IsLeadingSV(props["ServiceData"].sv, data, n) else data == map[]
  }

  lemma {:induction false} LeadingManufacturerAt(qv: seq<(U16, Variant)>)
    ensures IsLeadingQV(qv, LeadingManufacturer(qv))
  {
    if qv != [] && qv[0].1.BytesVariant? {
      LeadingManufacturerAt(qv[1..]);
      var rest := LeadingManufacturer(qv[1..]);
      assert forall i :: 0 < i <= |rest| ==> qv[i] == qv[1..][i - 1];
    }
  }

  lemma {:induction false} LeadingServiceDataAt(sv: seq<(Bytes, Variant)>)
    ensures
      var es := LeadingServiceData(sv);
      && |es| <= |sv| && (forall i :: 0 <= i < |es| ==> sv[i] == (es[i].0, BytesVariant(es[i].1)))
      && (|es| < |sv| ==> !sv[|es|].1.BytesVariant?)
  {
    if sv != [] && sv[0].1.BytesVariant? {
      LeadingServiceDataAt(sv[1..]);
      var rest := LeadingServiceData(sv[1..]);
      assert forall i :: 0 < i <= |rest| ==> sv[i] == sv[1..][i - 1];
    }
  }

  lemma ServiceDataOf(sv: seq<(Bytes, Variant)>)
    ensures IsLeadingSV(sv, MapOf(LeadingServiceData(sv)), |LeadingServiceData(sv)|)
  {
    var es := LeadingServiceData(sv);
    LeadingServiceDataAt(sv);
    forall key | key in MapOf(es)
      ensures exists i :: 0 <= i < |es| && sv[i] == (key, BytesVariant(MapOf(es)[key]))
    {
      var i := MapOfHolds(es, key);
      assert sv[i] == (key, BytesVariant(MapOf(es)[key]));
    }
    forall i | 0 <= i < |es| && (forall j :: i < j < |es| ==> sv[j].0 != sv[i].0)
      ensures sv[i].0 in MapOf(es) && sv[i].1 == BytesVariant(MapOf(es)[sv[i].0])
    {
      LastOfKeyStays(es, i);
    }
  }

  lemma GetManufacturerIs(props: PropertiesMap)
    ensures IsManufacturerData(props, GetManufacturer(props, "ManufacturerData"))
  {
    if "ManufacturerData" in props && props["ManufacturerData"].DictQV? {
      LeadingManufacturerAt(props["ManufacturerData"].qv);
    }
  }

  lemma GetServiceDataIs(props: PropertiesMap)
    ensures IsServiceData(props, GetServiceData(props, "ServiceData"))
  {
    if "ServiceData" in props && props["ServiceData"].DictSV? {
      ServiceDataOf(props["ServiceData"].sv);
    }
  }

  method ExtractManufacturerData(props: PropertiesMap) returns (data: seq<ManufacturerData>)
    ensures data == GetManufacturer(props, "ManufacturerData")
    ensures IsManufacturerData(props, data)
  {
    hide IsManufacturerData;
    GetManufacturerIs(props);
    data := [];
    if "ManufacturerData" in props && props["ManufacturerData"].DictQV? {
      var qv, i := props["ManufacturerData"].qv, 0;
      assert qv[0..] == qv;
      while i < |qv| && qv[i].1.BytesVariant?
        invariant 0 <= i <= |qv|
        invariant LeadingManufacturer(qv) == data + LeadingManufacturer(qv[i..])
      {
        assert qv[i..][0] == qv[i] && qv[i..][1..] == qv[i + 1..];
        data := data + [ManufacturerData(qv[i].0, qv[i].1.bytes)];
        i := i + 1;
      }
      assert LeadingManufacturer(qv[i..]) == [];
    }
  }

  method ExtractServiceData(props: PropertiesMap) returns (data: map<Bytes, Bytes>)
    ensures data == GetServiceData(props, "ServiceData")
    ensures IsServiceData(props, data)
  {
    hide IsServiceData, MapOf, LeadingServiceData;
    GetServiceDataIs(props);
    NoEntries();
    data := map[];
    if "ServiceData" in props && props["ServiceData"].DictSV? {
      var sv, i := props["ServiceData"].sv, 0;
      ghost var es: Entries := [];
      assert sv[0..] == sv;
      LeadingFrom(sv, 0);
      while i < |sv| && sv[i].1.BytesVariant?
        invariant 0 <= i <= |sv| && data == MapOf(es)
        invariant LeadingServiceData(sv) == es + LeadingServiceData(sv[i..])
      {
        LeadingFrom(sv, i);
        data := data[sv[i].0 := sv[i].1.bytes];
        MapOfAppend(es, sv[i].0, sv[i].1.bytes);
        es := es + [(sv[i].0, sv[i].1.bytes)];
        i := i + 1;
      }
      LeadingFrom(sv, i);
      assert es + [] == es;
    }
  }

  lemma NoEntries()
    ensures MapOf([]) == map[]
  {
  }

  lemma LeadingFrom(sv: seq<(Bytes, Variant)>, i: nat)
    requires i <= |sv|
    ensures LeadingServiceData(sv[i..])
         == if i < |sv| && sv[i].1.BytesVariant? then [(sv[i].0, sv[i].1.bytes)] + LeadingServiceData(sv[i + 1..]) else []
  {
    if i < |sv| {
      assert sv[i..][0] == sv[i] && sv[i..][1..] == sv[i + 1..];
    }
  }

  function GetManufacturer(props: PropertiesMap, key: string): seq<ManufacturerData> {
    if key in props && props[key].DictQV? then LeadingManufacturer(props[key].qv) else []
  }

  function GetServiceData(props: PropertiesMap, key: string): map<Bytes, Bytes> {
    if key in props && props[key].DictSV? then MapOf(LeadingServiceData(props[key].sv)) else map[]
  }

  // ── extract_*: full snapshots ────────────────────────────────────────────

  function ExtractAdapter(path: Path, props: PropertiesMap): AdapterProps {
    AdapterProps(path, ALL_BITS, GetString(props, "Address"), GetString(props, "Name"), GetString(props, "Alias"),
                 GetBool(props, "Powered"), GetBool(props, "Discoverable"), GetBool(props, "Pairable"),
                 GetBool(props, "Discovering"), GetU32(props, "DiscoverableTimeout"), GetStrings(props, "UUIDs"))
  }

  function ExtractDevice(path: Path, props: PropertiesMap): DeviceProps {
    DeviceProps(path, ALL_BITS, GetPath(props, "Adapter"), GetString(props, "Address"), GetString(props, "AddressType"),
                GetString(props, "Name"), GetString(props, "Alias"), GetI16(props, "RSSI"), GetI16(props, "TxPower"),
                GetU16(props, "Appearance"), GetU32(props, "Class"), GetBool(props, "Paired"), GetBool(props, "Trusted"),
                GetBool(props, "Blocked"), GetBool(props, "Connected"), GetBool(props, "ServicesResolved"),
                GetBool(props, "LegacyPairing"), GetStrings(props, "UUIDs"),
                GetManufacturer(props, "ManufacturerData"), GetServiceData(props, "ServiceData"))
  }

  function ExtractService(path: Path, props: PropertiesMap): ServiceProps {
    ServiceProps(path, GetPath(props, "Device"), GetString(props, "UUID"), GetBool(props, "Primary"), GetU16(props, "Handle"))
  }

  function ExtractChar(path: Path, props: PropertiesMap): CharProps {
    CharProps(path, GetPath(props, "Service"), GetString(props, "UUID"), GetBytes(props, "Value"),
              GetBool(props, "Notifying"), GetBool(props, "WriteAcquired"), GetBool(props, "NotifyAcquired"),
              GetU16(props, "Handle"), GetU16(props, "MTU"), GetStrings(props, "Flags"))
  }

  function ExtractDesc(path: Path, props: PropertiesMap): DescProps {
    DescProps(path, GetPath(props, "Characteristic"), GetString(props, "UUID"), GetBytes(props, "Value"),
              GetU16(props, "Handle"))
  }

  // ── PropertiesChanged ────────────────────────────────────────────────────

  function DeviceKey(f: DeviceField): string {
    match f
    case Connected => "Connected"
    case RSSI => "RSSI"
    case Paired => "Paired"
    case ServicesResolved => "ServicesResolved"
    case Name => "Name"
    case Trusted => "Trusted"
    case Blocked => "Blocked"
    case Alias => "Alias"
  }

  function AdapterKey(f: AdapterField): string {
    match f
    case Powered => "Powered"
    case Discovering => "Discovering"
    case Discoverable => "Discoverable"
    case Pairable => "Pairable"
    case AdapterAlias => "Alias"
  }

  predicate IsBool(changed: PropertiesMap, key: string) {
    key in changed ==> changed[key].BoolVariant?
  }

  predicate IsI16(changed: PropertiesMap, key: string) {
    key in changed ==> changed[key].I16Variant?
  }

  predicate IsString(changed: PropertiesMap, key: string) {
    key in changed ==> changed[key].StringVariant?
  }

  /** Every tracked property present can be read with its type; otherwise get<T> throws. */
  predicate DeviceChangeReadable(changed: PropertiesMap) {
    && IsBool(changed, "Connected") && IsBool(changed, "Paired") && IsBool(changed, "Trusted")
    && IsBool(changed, "Blocked") && IsBool(changed, "ServicesResolved")
    && IsString(changed, "Name") && IsString(changed, "Alias")
    && IsI16(changed, "RSSI")
  }

  predicate AdapterChangeReadable(changed: PropertiesMap) {
    && IsBool(changed, "Powered") && IsBool(changed, "Discovering") && IsBool(changed, "Discoverable")
    && IsBool(changed, "Pairable") && IsString(changed, "Alias")
  }

  datatype Option<+T> = None | Some(value: T)

  const BLANK_DEVICE: DeviceProps := DeviceProps(
    [], 0, [], [], [], [], [], 0, 0, 0, 0, false, false, false, false, false, false, [], [], map[])

  const BLANK_ADAPTER: AdapterProps := AdapterProps([], 0, [], [], [], false, false, false, false, 0, [])

  const BLANK_CHAR: CharProps := CharProps([], [], [], [], false, false, false, 0, 0, [])

  const BLANK_SERVICE: ServiceProps := ServiceProps([], [], [], false, 0)

  /** p is the partial struct posted for a PropertiesChanged map: its mask names exactly the
      tracked keys present, those fields carry the new values, all others their defaults. */
  ghost predicate IsDeviceUpdate(p: DeviceProps, path: Path, changed: PropertiesMap) {
    && (forall f: DeviceField :: Bit(p.changedMask, NativeDeviceBit(f)) <==> DeviceKey(f) in changed)
    && DeviceUntracked(p) == BLANK_DEVICE.(objectPath := path)
    && p.connected == GetBool(changed, "Connected") && p.rssi == GetI16(changed, "RSSI")
    && p.paired == GetBool(changed, "Paired") && p.servicesResolved == GetBool(changed, "ServicesResolved")
    && p.name == GetString(changed, "Name") && p.trusted == GetBool(changed, "Trusted")
    && p.blocked == GetBool(changed, "Blocked") && p.alias == GetString(changed, "Alias")
  }

  ghost predicate IsAdapterUpdate(p: AdapterProps, path: Path, changed: PropertiesMap) {
    && (forall f: AdapterField :: Bit(p.changedMask, NativeAdapterBit(f)) <==> AdapterKey(f) in changed)
    && AdapterUntracked(p) == BLANK_ADAPTER.(objectPath := path)
    && p.powered == GetBool(changed, "Powered") && p.discovering == GetBool(changed, "Discovering")
    && p.discoverable == GetBool(changed, "Discoverable") && p.pairable == GetBool(changed, "Pairable")
    && p.alias == GetString(changed, "Alias")
  }

  function DeviceMask(changed: PropertiesMap): U32 {
    DeviceMaskOf("Connected" in changed, "RSSI" in changed, "Paired" in changed, "Trusted" in changed,
                 "Blocked" in changed, "ServicesResolved" in changed, "Name" in changed, "Alias" in changed)
  }

  function DeviceMaskOf(connected: bool, rssi: bool, paired: bool, trusted: bool,
                        blocked: bool, resolved: bool, name: bool, alias: bool): U32
  {
    var m := SetBitIf(0, connected, NativeDeviceBit(Connected));
    var m := SetBitIf(m, rssi, NativeDeviceBit(RSSI));
    var m := SetBitIf(m, paired, NativeDeviceBit(Paired));
    var m := SetBitIf(m, trusted, NativeDeviceBit(Trusted));
    var m := SetBitIf(m, blocked, NativeDeviceBit(Blocked));
    var m := SetBitIf(m, resolved, NativeDeviceBit(ServicesResolved));
    var m := SetBitIf(m, name, NativeDeviceBit(Name));
    SetBitIf(m, alias, NativeDeviceBit(Alias))
  }

  function AdapterMask(changed: PropertiesMap): U32 {
    var m := SetBitIf(0, "Powered" in changed, NativeAdapterBit(Powered));
    var m := SetBitIf(m, "Discovering" in changed, NativeAdapterBit(Discovering));
    var m := SetBitIf(m, "Discoverable" in changed, NativeAdapterBit(Discoverable));
    var m := SetBitIf(m, "Pairable" in changed, NativeAdapterBit(Pairable));
    SetBitIf(m, "Alias" in changed, NativeAdapterBit(AdapterAlias))
  }

  function DeviceUpdate(path: Path, changed: PropertiesMap): DeviceProps {
    BLANK_DEVICE.(
      objectPath := path, changedMask := DeviceMask(changed),
      connected := GetBool(changed, "Connected"), rssi := GetI16(changed, "RSSI"),
      paired := GetBool(changed, "Paired"), trusted := GetBool(changed, "Trusted"),
      blocked := GetBool(changed, "Blocked"), servicesResolved := GetBool(changed, "ServicesResolved"),
      name := GetString(changed, "Name"), alias := GetString(changed, "Alias"))
  }

  function AdapterUpdate(path: Path, changed: PropertiesMap): AdapterProps {
    BLANK_ADAPTER.(
      objectPath := path, changedMask := AdapterMask(changed),
      powered := GetBool(changed, "Powered"), discovering := GetBool(changed, "Discovering"),
      discoverable := GetBool(changed, "Discoverable"), pairable := GetBool(changed, "Pairable"),
      alias := GetString(changed, "Alias"))
  }

  lemma DeviceMaskBits(connected: bool, rssi: bool, paired: bool, trusted: bool,
                       blocked: bool, resolved: bool, name: bool, alias: bool, j: nat)
    ensures Bit(DeviceMaskOf(connected, rssi, paired, trusted, blocked, resolved, name, alias), j)
       <==> ((connected && j == 0) || (rssi && j == 1) || (paired && j == 2) || (resolved && j == 3)
             || (name && j == 4) || (trusted && j == 5) || (blocked && j == 6) || (alias && j == 7))
  {
    hide Bit, SetBitIf;
    var m1 := SetBitIf(0, connected, 0);
    var m2 := SetBitIf(m1, rssi, 1);
    var m3 := SetBitIf(m2, paired, 2);
    var m4 := SetBitIf(m3, trusted, 5);
    var m5 := SetBitIf(m4, blocked, 6);
    var m6 := SetBitIf(m5, resolved, 3);
    var m7 := SetBitIf(m6, name, 4);
    NoBitsSet(j);
    BitsAfterSetIf(0, connected, 0, j);
    BitsAfterSetIf(m1, rssi, 1, j);
    BitsAfterSetIf(m2, paired, 2, j);
    BitsAfterSetIf(m3, trusted, 5, j);
    BitsAfterSetIf(m4, blocked, 6, j);
    BitsAfterSetIf(m5, resolved, 3, j);
    BitsAfterSetIf(m6, name, 4, j);
    BitsAfterSetIf(m7, alias, 7, j);
  }

  lemma DeviceMaskNamesKeys(changed: PropertiesMap, f: DeviceField)
    ensures Bit(DeviceMask(changed), NativeDeviceBit(f)) <==> DeviceKey(f) in changed
  {
    hide DeviceMaskOf, Bit;
    DeviceMaskBits("Connected" in changed, "RSSI" in changed, "Paired" in changed, "Trusted" in changed,
                   "Blocked" in changed, "ServicesResolved" in changed, "Name" in changed, "Alias" in changed,
                   NativeDeviceBit(f));
  }

  lemma AdapterMaskNamesKeys(changed: PropertiesMap, f: AdapterField)
    ensures Bit(AdapterMask(changed), NativeAdapterBit(f)) <==> AdapterKey(f) in changed
  {
    var j := NativeAdapterBit(f);
    var m0 := SetBitIf(0, "Powered" in changed, 0);
    var m1 := SetBitIf(m0, "Discovering" in changed, 1);
    var m2 := SetBitIf(m1, "Discoverable" in changed, 2);
    var m3 := SetBitIf(m2, "Pairable" in changed, 3);
    hide Bit, SetBitIf;
    NoBitsSet(j);
    BitsAfterSetIf(0, "Powered" in changed, 0, j);
    BitsAfterSetIf(m0, "Discovering" in changed, 1, j);
    BitsAfterSetIf(m1, "Discoverable" in changed, 2, j);
    BitsAfterSetIf(m2, "Pairable" in changed, 3, j);
    BitsAfterSetIf(m3, "Alias" in changed, 4, j);
  }

  lemma {:induction false} DeviceUpdateIsPartial(path: Path, changed: PropertiesMap)
    ensures IsDeviceUpdate(DeviceUpdate(path, changed), path, changed)
  {
    forall f: DeviceField
      ensures Bit(DeviceMask(changed), NativeDeviceBit(f)) <==> DeviceKey(f) in changed
    {
      DeviceMaskNamesKeys(changed, f);
    }
  }

  lemma {:induction false} AdapterUpdateIsPartial(path: Path, changed: PropertiesMap)
    ensures IsAdapterUpdate(AdapterUpdate(path, changed), path, changed)
  {
    forall f: AdapterField
      ensures Bit(AdapterMask(changed), NativeAdapterBit(f)) <==> AdapterKey(f) in changed
    {
      AdapterMaskNamesKeys(changed, f);
    }
  }
}
