/** Lengths. The D-Bus Specification, section "Message Protocol", limits a message to 2^27
    bytes, so every string and array a handler is called with is shorter than 2^32. */
module Sizes {
  import opened ByteStrings
  import opened Schema
  import opened WireTheorems
  import opened Types
  import opened Dbus
  import opened Frames
  import opened ObjectManagers

  predicate Short<T>(s: seq<T>) {
    |s| < TWO_32
  }

  predicate AllShort(ss: seq<Bytes>) {
    Short(ss) && forall i :: 0 <= i < |ss| ==> Short(ss[i])
  }

  predicate VariantSized(v: Variant) {
    match v
    case StringVariant(s) => Short(s)
    case PathVariant(p) => Short(p)
    case StringsVariant(ss) => AllShort(ss)
    case BytesVariant(b) => Short(b)
    case DictQV(qv) => Short(qv) && forall i :: 0 <= i < |qv| ==> qv[i].1.BytesVariant? ==> Short(qv[i].1.bytes)
    case DictSV(sv) => Short(sv) && forall i :: 0 <= i < |sv| ==> Short(sv[i].0) && (sv[i].1.BytesVariant? ==> Short(sv[i].1.bytes))
    case _ => true
  }

  predicate PropsSized(props: PropertiesMap) {
    forall k :: k in props ==> VariantSized(props[k])
  }

  predicate CallSized(c: Call) {
    Short(c.path)
    && match c
       case Added(_, ifaces) => forall i :: 0 <= i < |ifaces| ==> PropsSized(ifaces[i].1)
       case Changed(_, _, changed) => PropsSized(changed)
       case _ => true
  }

  lemma StringsFit(ss: seq<Bytes>)
    requires AllShort(ss)
    ensures HasKind(KVector(KBlob), StringValues(ss)) && Fits(KVector(KBlob), StringValues(ss))
  {
    StringValuesHaveKind(ss);
    FitsPointwise(Repeat(KBlob, |ss|), StringValues(ss).vs);
  }

  predicate ManufacturerSized(ms: seq<ManufacturerData>) {
    Short(ms) && forall i :: 0 <= i < |ms| ==> Short(ms[i].data)
  }

  lemma ManufacturersFit(ms: seq<ManufacturerData>)
    requires ManufacturerSized(ms)
    ensures HasKind(KVector(MANUFACTURER), ManufacturerValues(ms)) && Fits(KVector(MANUFACTURER), ManufacturerValues(ms))
  {
    forall i | 0 <= i < |ms|
      ensures HasKind(MANUFACTURER, ManufacturerValue(ms[i])) && Fits(MANUFACTURER, ManufacturerValue(ms[i]))
    {
      ManufacturerHasKind(ms[i]);
      FitsPointwise([KUInt(2), KBlob], ManufacturerValue(ms[i]).vs);
    }
    ManufacturersHaveKind(ms);
    FitsPointwise(Repeat(MANUFACTURER, |ms|), ManufacturerValues(ms).vs);
  }

  predicate MapSized(m: map<Bytes, Bytes>) {
    |m| < TWO_32 && forall k :: k in m ==> Short(k) && Short(m[k])
  }

  predicate AdapterSized(p: AdapterProps) {
    Short(p.objectPath) && Short(p.address) && Short(p.name) && Short(p.alias) && AllShort(p.uuids)
  }

  predicate DeviceSized(p: DeviceProps) {
    && Short(p.objectPath) && Short(p.adapterPath) && Short(p.address) && Short(p.addressType)
    && Short(p.name) && Short(p.alias) && AllShort(p.uuids)
    && ManufacturerSized(p.manufacturerData) && MapSized(p.serviceData)
  }

  predicate CharSized(p: CharProps) {
    Short(p.objectPath) && Short(p.servicePath) && Short(p.uuid) && Short(p.value) && AllShort(p.flags)
  }

  predicate ServiceSized(p: ServiceProps) {
    Short(p.objectPath) && Short(p.devicePath) && Short(p.uuid)
  }

  predicate DescSized(p: DescProps) {
    Short(p.objectPath) && Short(p.charPath) && Short(p.uuid) && Short(p.value)
  }

  predicate FrameSized(f: Frame) {
    match f
    case SentinelFrame => true
    case AdapterFrame(p) => AdapterSized(p)
    case DeviceUpdateFrame(p) => DeviceSized(p)
    case CharValueFrame(p) => CharSized(p)
    case DeviceAddedFrame(p) => DeviceSized(p)
    case DeviceRemovedFrame(p) => DeviceSized(p)
    case ServiceAddedFrame(p) => ServiceSized(p)
    case CharAddedFrame(p) => CharSized(p)
    case DescAddedFrame(p) => DescSized(p)
    case ObjectRemovedFrame(p) => ServiceSized(p)
  }

  lemma AdapterFits(p: AdapterProps)
    requires AdapterSized(p)
    ensures HasKind(ADAPTER, AdapterValue(p)) && Fits(ADAPTER, AdapterValue(p))
  {
    hide StringValues, AllShort, HaveKinds, Repeat, AllFit;
    AdapterHasKind(p);
    StringsFit(p.uuids);
    AdapterFieldKinds();
    KindsPointwise(ADAPTER.fields, AdapterValue(p).vs);
    FitsPointwise(ADAPTER.fields, AdapterValue(p).vs);
  }

  lemma DeviceIdentityFits(p: DeviceProps, i: nat)
    requires DeviceSized(p) && i < 11
    ensures HasKind(DEVICE.fields[i], DeviceValue(p).vs[i]) && Fits(DEVICE.fields[i], DeviceValue(p).vs[i])
  {
    hide StringValues, ManufacturerValues, AllShort, ManufacturerSized, MapSized, HaveKinds, Repeat, AllFit, DeviceFields,
      DeviceStateValues;
    DeviceFieldKinds();
    DeviceFieldHasKind(p, i);
  }

  lemma DeviceStateFits(p: DeviceProps, i: nat)
    requires DeviceSized(p) && 11 <= i < 20
    ensures HasKind(DEVICE.fields[i], DeviceValue(p).vs[i]) && Fits(DEVICE.fields[i], DeviceValue(p).vs[i])
  {
    hide StringValues, ManufacturerValues, AllShort, ManufacturerSized, HaveKinds, Repeat, AllFit, DeviceFields;
    DeviceFieldKinds();
    DeviceFieldHasKind(p, i);
    if i == 17 {
      StringsFit(p.uuids);
    } else if i == 18 {
      ManufacturersFit(p.manufacturerData);
    }
  }

  lemma DeviceFits(p: DeviceProps)
    requires DeviceSized(p)
    ensures HasKind(DEVICE, DeviceValue(p)) && Fits(DEVICE, DeviceValue(p))
  {
    hide DeviceSized;
    forall i | 0 <= i < 20
      ensures HasKind(DEVICE.fields[i], DeviceValue(p).vs[i]) && Fits(DEVICE.fields[i], DeviceValue(p).vs[i])
    {
      if i < 11 {
        DeviceIdentityFits(p, i);
      } else {
        DeviceStateFits(p, i);
      }
    }
    DeviceHasKind(p);
    FitsPointwise(DEVICE.fields, DeviceValue(p).vs);
  }

  lemma CharFits(p: CharProps)
    requires CharSized(p)
    ensures HasKind(CHARACTERISTIC, CharValue(p)) && Fits(CHARACTERISTIC, CharValue(p))
  {
    hide StringValues, AllShort, HaveKinds, Repeat, AllFit;
    CharHasKind(p);
    StringsFit(p.flags);
    CharFieldKinds();
    FitsPointwise(CHARACTERISTIC.fields, CharValue(p).vs);
  }

  lemma ServiceFits(p: ServiceProps)
    requires ServiceSized(p)
    ensures HasKind(SERVICE, ServiceValue(p)) && Fits(SERVICE, ServiceValue(p))
  {
    ServiceHasKind(p);
    FitsPointwise(SERVICE.fields, ServiceValue(p).vs);
  }

  lemma DescFits(p: DescProps)
    requires DescSized(p)
    ensures HasKind(DESCRIPTOR, DescValue(p)) && Fits(DESCRIPTOR, DescValue(p))
  {
    DescHasKind(p);
    FitsPointwise(DESCRIPTOR.fields, DescValue(p).vs);
  }

  lemma SizedFrameFits(f: Frame)
    requires FrameSized(f)
    ensures FrameFits(f)
  {
    hide AdapterSized, DeviceSized, CharSized, ServiceSized, DescSized;
    match f
    case SentinelFrame =>
    case AdapterFrame(p) => AdapterFits(p);
    case DeviceUpdateFrame(p) => DeviceFits(p);
    case CharValueFrame(p) => CharFits(p);
    case DeviceAddedFrame(p) => DeviceFits(p);
    case DeviceRemovedFrame(p) => DeviceFits(p);
    case ServiceAddedFrame(p) => ServiceFits(p);
    case CharAddedFrame(p) => CharFits(p);
    case DescAddedFrame(p) => DescFits(p);
    case ObjectRemovedFrame(p) => ServiceFits(p);
  }

  // ── Frames of a sized call ───────────────────────────────────────────────

  lemma {:induction false} LeadingManufacturerSized(qv: seq<(U16, Variant)>)
    requires forall i :: 0 <= i < |qv| ==> qv[i].1.BytesVariant? ==> Short(qv[i].1.bytes)
    ensures |LeadingManufacturer(qv)| <= |qv|
    ensures forall i :: 0 <= i < |LeadingManufacturer(qv)| ==> Short(LeadingManufacturer(qv)[i].data)
  {
    if qv != [] && qv[0].1.BytesVariant? {
      LeadingManufacturerSized(qv[1..]);
    }
  }

  lemma {:induction false} LeadingServiceDataSized(sv: seq<(Bytes, Variant)>)
    requires forall i :: 0 <= i < |sv| ==> Short(sv[i].0) && (sv[i].1.BytesVariant? ==> Short(sv[i].1.bytes))
    ensures |LeadingServiceData(sv)| <= |sv| && EntriesFit(LeadingServiceData(sv))
  {
    if sv != [] && sv[0].1.BytesVariant? {
      LeadingServiceDataSized(sv[1..]);
    }
  }

  lemma ExtractedDataSized(props: PropertiesMap, key: string)
    requires PropsSized(props)
    ensures ManufacturerSized(GetManufacturer(props, key)) && MapSized(GetServiceData(props, key))
  {
    if key in props && props[key].DictQV? {
      LeadingManufacturerSized(props[key].qv);
    }
    if key in props && props[key].DictSV? {
      LeadingServiceDataSized(props[key].sv);
      MapOfFits(LeadingServiceData(props[key].sv));
    }
  }

  lemma GettersSized(props: PropertiesMap, key: string)
    requires PropsSized(props)
    ensures Short(GetString(props, key)) && Short(GetPath(props, key)) && Short(GetBytes(props, key))
    ensures AllShort(GetStrings(props, key))
  {
  }

  predicate AllSized(fs: seq<Frame>) {
    forall i :: 0 <= i < |fs| ==> FrameSized(fs[i])
  }

  lemma ExtractAdapterSized(path: Path, props: PropertiesMap)
    requires Short(path) && PropsSized(props)
    ensures AdapterSized(ExtractAdapter(path, props))
  {
    hide GetString, GetStrings, PropsSized, AllShort;
    GettersSized(props, "Address");
    GettersSized(props, "Name");
    GettersSized(props, "Alias");
    GettersSized(props, "UUIDs");
  }

  lemma ExtractDeviceSized(path: Path, props: PropertiesMap)
    requires Short(path) && PropsSized(props)
    ensures DeviceSized(ExtractDevice(path, props))
  {
    hide GetString, GetStrings, GetPath, GetManufacturer, GetServiceData, PropsSized, AllShort, ManufacturerSized, MapSized;
    GettersSized(props, "Adapter");
    GettersSized(props, "Address");
    GettersSized(props, "AddressType");
    GettersSized(props, "Name");
    GettersSized(props, "Alias");
    GettersSized(props, "UUIDs");
    ExtractedDataSized(props, "ManufacturerData");
    ExtractedDataSized(props, "ServiceData");
  }

  lemma ExtractGattSized(path: Path, props: PropertiesMap)
    requires Short(path) && PropsSized(props)
    ensures ServiceSized(ExtractService(path, props))
    ensures CharSized(ExtractChar(path, props))
    ensures DescSized(ExtractDesc(path, props))
  {
    hide GetString, GetStrings, GetPath, GetBytes, PropsSized, AllShort;
    GettersSized(props, "Device");
    GettersSized(props, "Service");
    GettersSized(props, "Characteristic");
    GettersSized(props, "UUID");
    GettersSized(props, "Value");
    GettersSized(props, "Flags");
  }

  lemma {:induction false} AddedSized(t: Tables, path: Path, ifaces: Interfaces)
    requires Short(path) && forall i :: 0 <= i < |ifaces| ==> PropsSized(ifaces[i].1)
    ensures AllSized(InterfacesAdded(t, path, ifaces).frames)
    decreases |ifaces|
  {
    hide ExtractAdapter, ExtractDevice, ExtractService, ExtractChar, ExtractDesc, PropsSized;
    if ifaces == [] {
    } else {
      var props := ifaces[0].1;
      ExtractAdapterSized(path, props);
      ExtractDeviceSized(path, props);
      ExtractGattSized(path, props);
      AddedSized(InterfaceAdded(t, path, ifaces[0].0, props).tables, path, ifaces[1..]);
    }
  }

  lemma BlanksSized(path: Path)
    requires Short(path)
    ensures DeviceSized(BLANK_DEVICE.(objectPath := path)) && ServiceSized(BLANK_SERVICE.(objectPath := path))
  {
  }

  lemma {:induction false} RemovedSized(t: Tables, path: Path, names: seq<InterfaceName>)
    requires Short(path)
    ensures AllSized(InterfacesRemoved(t, path, names).frames)
    decreases |names|
  {
    hide DeviceSized, ServiceSized;
    if names == [] {
    } else {
      BlanksSized(path);
      RemovedSized(InterfaceRemoved(t, path, names[0]).tables, path, names[1..]);
    }
  }

  lemma ChangeSized(t: Tables, path: Path, iface: InterfaceName, changed: PropertiesMap)
    requires Short(path) && PropsSized(changed)
    ensures AllSized(ChangeFrames(t, path, iface, changed))
  {
    hide GetString, AdapterMask, DeviceMask, PropsSized;
    GettersSized(changed, "Name");
    GettersSized(changed, "Alias");
    GettersSized(changed, "Value");
  }

  /** Every frame a sized call posts fits its length prefixes. */
  lemma {:induction false} CallFramesFit(t: Tables, c: Call)
    requires CallSized(c)
    ensures forall i :: 0 <= i < |Handle(t, c).frames| ==> FrameFits(Handle(t, c).frames[i])
  {
    hide InterfacesAdded, InterfacesRemoved, ChangeFrames, FrameSized, FrameFits;
    match c {
      case Added(path, ifaces) => AddedSized(t, path, ifaces);
      case Removed(path, names) => RemovedSized(t, path, names);
      case Changed(path, iface, changed) => ChangeSized(t, path, iface, changed);
      case _ =>
    }
    var fs := Handle(t, c).frames;
    forall i | 0 <= i < |fs| ensures FrameFits(fs[i]) {
      SizedFrameFits(fs[i]);
    }
  }
}
