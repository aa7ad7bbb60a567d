/** object_manager.cpp: signal handlers, subscription tables and posted frames. */
module ObjectManagers {
  import opened ByteStrings
  import opened Wire
  import opened Types
  import opened Masks
  import opened Dbus
  import opened Frames
  import Glaze

  // ── The handlers as functions ────────────────────────────────────────────

  /** The keys of adapter_proxies_, device_proxies_ and notify_proxies_. */
  datatype Tables = Tables(adapters: set<Path>, devices: set<Path>, notify: set<Path>)

  const NO_TABLES: Tables := Tables({}, {}, {})

  /** What a handler leaves behind: the tables, and the frames it posted. */
  datatype Handled = Handled(tables: Tables, frames: seq<Frame>) {
    function Then(next: Handled): Handled {
      Handled(next.tables, frames + next.frames)
    }
  }

  /** An object's interfaces in the order the handler's loop visits them. */
  type Interfaces = seq<(InterfaceName, PropertiesMap)>

  function InterfaceAdded(t: Tables, path: Path, iface: InterfaceName, props: PropertiesMap): Handled {
    if iface == Adapter1 then
      Handled(t.(adapters := t.adapters + {path}), [AdapterFrame(ExtractAdapter(path, props))])
    else if iface == Device1 then
      Handled(t.(devices := t.devices + {path}), [DeviceAddedFrame(ExtractDevice(path, props))])
    else if iface == GattService1 then Handled(t, [ServiceAddedFrame(ExtractService(path, props))])
    else if iface == GattCharacteristic1 then Handled(t, [CharAddedFrame(ExtractChar(path, props))])
    else if iface == GattDescriptor1 then Handled(t, [DescAddedFrame(ExtractDesc(path, props))])
    else Handled(t, [])
  }

  function InterfacesAdded(t: Tables, path: Path, ifaces: Interfaces): Handled
    decreases |ifaces|
  {
    if ifaces == [] then Handled(t, [])
    else
      var first := InterfaceAdded(t, path, ifaces[0].0, ifaces[0].1);
      first.Then(InterfacesAdded(first.tables, path, ifaces[1..]))
  }

  function InterfaceRemoved(t: Tables, path: Path, iface: InterfaceName): Handled {
    if iface == Device1 then
      Handled(t.(devices := t.devices - {path}), [DeviceRemovedFrame(BLANK_DEVICE.(objectPath := path))])
    else if iface == Adapter1 then Handled(t.(adapters := t.adapters - {path}), [])
    else if iface == GattCharacteristic1 then Handled(t.(notify := t.notify - {path}), [])
    else if iface == GattService1 || iface == GattDescriptor1 then
      Handled(t, [ObjectRemovedFrame(BLANK_SERVICE.(objectPath := path))])
    else Handled(t, [])
  }

  function InterfacesRemoved(t: Tables, path: Path, ifaces: seq<InterfaceName>): Handled
    decreases |ifaces|
  {
    if ifaces == [] then Handled(t, [])
    else
      var first := InterfaceRemoved(t, path, ifaces[0]);
      first.Then(InterfacesRemoved(first.tables, path, ifaces[1..]))
  }

  /** What a characteristic's callback posts for a change of its own interface. */
  function ValueFrame(path: Path, changed: PropertiesMap): seq<Frame> {
    if "Value" in changed && changed["Value"].BytesVariant?
    then [CharValueFrame(BLANK_CHAR.(objectPath := path, value := changed["Value"].bytes))] else []
  }

  /** The frames of the PropertiesChanged callbacks subscribed for the path; each acts on its
      own interface, and posts nothing when a variant it reads has the wrong type. */
  function ChangeFrames(t: Tables, path: Path, iface: InterfaceName, changed: PropertiesMap): seq<Frame> {
    if iface == Adapter1 then
      if path in t.adapters && AdapterChangeReadable(changed) then [AdapterFrame(AdapterUpdate(path, changed))] else []
    else if iface == Device1 then
      if path in t.devices && DeviceChangeReadable(changed) then [DeviceUpdateFrame(DeviceUpdate(path, changed))] else []
    else if iface == GattCharacteristic1 then
      if path in t.notify then ValueFrame(path, changed) else []
    else []
  }

  /** One entry into the ObjectManager, from the event loop or from a GATT call. */
  datatype Call =
    | Added(path: Path, ifaces: Interfaces)
    | Removed(path: Path, names: seq<InterfaceName>)
    | Changed(path: Path, iface: InterfaceName, changed: PropertiesMap)
    | SubscribeNotify(path: Path)
    | UnsubscribeNotify(path: Path)

  function Handle(t: Tables, c: Call): Handled {
    match c
    case Added(path, ifaces) => InterfacesAdded(t, path, ifaces)
    case Removed(path, names) => InterfacesRemoved(t, path, names)
    case Changed(path, iface, changed) => Handled(t, ChangeFrames(t, path, iface, changed))
    case SubscribeNotify(path) => Handled(t.(notify := t.notify + {path}), [])
    case UnsubscribeNotify(path) => Handled(t.(notify := t.notify - {path}), [])
  }

  /** GetManagedObjects: the objects in std::map order of their paths. */
  type Objects = seq<(Path, Interfaces)>

  function SnapshotOf(t: Tables, objects: Objects): Handled
    decreases |objects|
  {
    if objects == [] then Handled(t, [])
    else
      var first := InterfacesAdded(t, objects[0].0, objects[0].1);
      first.Then(SnapshotOf(first.tables, objects[1..]))
  }

  // ── The class ────────────────────────────────────────────────────────────

  class ObjectManager {
    var adapterProxies: set<Path>
    var deviceProxies: set<Path>
    var notifyProxies: set<Path>
    /** The messages posted to the events port so far. */
    var posted: seq<Bytes>

    ghost function State(): Tables
      reads this
    {
      Tables(adapterProxies, deviceProxies, notifyProxies)
    }

    constructor ()
      ensures State() == NO_TABLES && posted == []
    {
      adapterProxies, deviceProxies, notifyProxies, posted := {}, {}, {}, [];
    }

    /** Runs of handler code extend the stream by exactly the frames of h. */
    twostate predicate Did(h: Handled)
      reads this
    {
      State() == h.tables && posted == old(posted) + AllFrameBytes(h.frames)
    }

    method PostGlaze(f: Frame)
      modifies this`posted
      ensures posted == old(posted) + [FrameBytes(f)]
    {
      PayloadHasKind(f);
      var payload := new Glaze.Buffer();
      payload.EncodeField(PayloadKind(f), Payload(f));
      var encoded := Encode(PayloadKind(f), Payload(f));
      assert [] + encoded == encoded;
      posted := posted + [[Discriminator(f)] + payload.data];
    }

    method SubscribeAdapterProps(path: Path)
      modifies this`adapterProxies
      ensures adapterProxies == old(adapterProxies) + {path}
    {
      if path in adapterProxies {
        return;
      }
      adapterProxies := adapterProxies + {path};
    }

    method SubscribeDeviceProps(path: Path)
      modifies this`deviceProxies
      ensures deviceProxies == old(deviceProxies) + {path}
    {
      if path in deviceProxies {
        return;
      }
      deviceProxies := deviceProxies + {path};
    }

    method SubscribeCharNotify(path: Path)
      modifies this
      ensures Did(Handle(old(State()), SubscribeNotify(path)))
    {
      assert posted + AllFrameBytes([]) == posted;
      if path in notifyProxies {
        assert notifyProxies + {path} == notifyProxies;
        return;
      }
      notifyProxies := notifyProxies + {path};
    }

    method UnsubscribeCharNotify(path: Path)
      modifies this
      ensures Did(Handle(old(State()), UnsubscribeNotify(path)))
    {
      assert posted + AllFrameBytes([]) == posted;
      notifyProxies := notifyProxies - {path};
    }

    method OnInterfaceAdded(path: Path, iface: InterfaceName, props: PropertiesMap)
      modifies this
      ensures Did(InterfaceAdded(old(State()), path, iface, props))
    {
      hide FrameBytes, ExtractAdapter, ExtractService, ExtractChar, ExtractDesc, GetManufacturer, GetServiceData;
      ghost var frames := InterfaceAdded(State(), path, iface, props).frames;
      assert posted + AllFrameBytes([]) == posted;
      if iface == Adapter1 {
        var adapter := ExtractAdapter(path, props);
        PostGlaze(AdapterFrame(adapter));
        SubscribeAdapterProps(path);
      } else if iface == Device1 {
        var manufacturerData := ExtractManufacturerData(props);
        var serviceData := ExtractServiceData(props);
        var device := ExtractDevice(path, props).(manufacturerData := manufacturerData, serviceData := serviceData);
        PostGlaze(DeviceAddedFrame(device));
        SubscribeDeviceProps(path);
      } else if iface == GattService1 {
        PostGlaze(ServiceAddedFrame(ExtractService(path, props)));
      } else if iface == GattCharacteristic1 {
        PostGlaze(CharAddedFrame(ExtractChar(path, props)));
      } else if iface == GattDescriptor1 {
        PostGlaze(DescAddedFrame(ExtractDesc(path, props)));
      }
      assert |frames| == 1 ==> AllFrameBytes(frames) == [FrameBytes(frames[0])];
    }

    method OnInterfacesAdded(path: Path, ifaces: Interfaces)
      modifies this
      ensures Did(InterfacesAdded(old(State()), path, ifaces))
    {
      hide InterfaceAdded, InterfacesAdded, AllFrameBytes, Handled.Then;
      NothingPosted();
      AddedStart(State(), path, ifaces);
      ghost var done: seq<Frame> := [];
      var i := 0;
      while i < |ifaces|
        invariant 0 <= i <= |ifaces|
        invariant posted == old(posted) + AllFrameBytes(done)
        invariant InterfacesAdded(old(State()), path, ifaces)
               == Handled(State(), done).Then(InterfacesAdded(State(), path, ifaces[i..]))
      {
        AddedStep(State(), done, path, ifaces, i);
        ghost var h := InterfaceAdded(State(), path, ifaces[i].0, ifaces[i].1);
        OnInterfaceAdded(path, ifaces[i].0, ifaces[i].1);
        PostedSoFar(old(posted), done, h.frames);
        done := done + h.frames;
        i := i + 1;
      }
    }

    method OnInterfacesRemoved(path: Path, names: seq<InterfaceName>)
      modifies this
      ensures Did(Handle(old(State()), Removed(path, names)))
    {
      hide InterfaceRemoved, InterfacesRemoved, AllFrameBytes, Handled.Then;
      NothingPosted();
      RemovedStart(State(), path, names);
      ghost var done: seq<Frame> := [];
      var i := 0;
      while i < |names|
        invariant 0 <= i <= |names|
        invariant posted == old(posted) + AllFrameBytes(done)
        invariant InterfacesRemoved(old(State()), path, names)
               == Handled(State(), done).Then(InterfacesRemoved(State(), path, names[i..]))
      {
        RemovedStep(State(), done, path, names, i);
        ghost var h := InterfaceRemoved(State(), path, names[i]);
        OnInterfaceRemoved(path, names[i]);
        PostedSoFar(old(posted), done, h.frames);
        done := done + h.frames;
        i := i + 1;
      }
    }

    method OnInterfaceRemoved(path: Path, iface: InterfaceName)
      modifies this
      ensures Did(InterfaceRemoved(old(State()), path, iface))
    {
      ghost var frames := InterfaceRemoved(State(), path, iface).frames;
      assert posted + AllFrameBytes([]) == posted;
      if iface == Device1 {
        PostGlaze(DeviceRemovedFrame(BLANK_DEVICE.(objectPath := path)));
        deviceProxies := deviceProxies - {path};
      } else if iface == Adapter1 {
        adapterProxies := adapterProxies - {path};
      } else if iface == GattCharacteristic1 {
        notifyProxies := notifyProxies - {path};
      } else if iface == GattService1 || iface == GattDescriptor1 {
        PostGlaze(ObjectRemovedFrame(BLANK_SERVICE.(objectPath := path)));
      }
      assert |frames| == 1 ==> AllFrameBytes(frames) == [FrameBytes(frames[0])];
    }

    /** The callbacks a PropertiesChanged signal for the path reaches. */
    method OnPropertiesChanged(path: Path, iface: InterfaceName, changed: PropertiesMap)
      modifies this
      ensures Did(Handle(old(State()), Changed(path, iface, changed)))
    {
      hide FrameBytes, DeviceUpdate, AdapterUpdate, IsDeviceUpdate, IsAdapterUpdate,
        DeviceChangeReadable, AdapterChangeReadable;
      ghost var frames := ChangeFrames(State(), path, iface, changed);
      assert posted + AllFrameBytes([]) == posted;
      if path in adapterProxies && iface == Adapter1 {
        var update := BuildAdapterUpdate(path, changed);
        if update.Some? {
          PostGlaze(AdapterFrame(update.value));
        }
      }
      if path in deviceProxies && iface == Device1 {
        var update := BuildDeviceUpdate(path, changed);
        if update.Some? {
          PostGlaze(DeviceUpdateFrame(update.value));
        }
      }
      if path in notifyProxies && iface == GattCharacteristic1 && "Value" in changed {
        if changed["Value"].BytesVariant? {
          PostGlaze(CharValueFrame(BLANK_CHAR.(objectPath := path, value := changed["Value"].bytes)));
        }
      }
      assert |frames| == 1 ==> AllFrameBytes(frames) == [FrameBytes(frames[0])];
    }

    method GetManagedObjects(objects: Objects)
      modifies this
      ensures Did(SnapshotOf(old(State()), objects))
    {
      hide InterfacesAdded, SnapshotOf, AllFrameBytes, Handled.Then;
      NothingPosted();
      SnapshotStart(State(), objects);
      ghost var done: seq<Frame> := [];
      var i := 0;
      while i < |objects|
        invariant 0 <= i <= |objects|
        invariant posted == old(posted) + AllFrameBytes(done)
        invariant SnapshotOf(old(State()), objects) == Handled(State(), done).Then(SnapshotOf(State(), objects[i..]))
      {
        SnapshotStep(State(), done, objects, i);
        ghost var h := InterfacesAdded(State(), objects[i].0, objects[i].1);
        OnInterfacesAdded(objects[i].0, objects[i].1);
        PostedSoFar(old(posted), done, h.frames);
        done := done + h.frames;
        i := i + 1;
      }
    }
  }

  lemma NothingPosted()
    ensures AllFrameBytes([]) == []
  {
  }

  lemma PostedSoFar(before: seq<Bytes>, done: seq<Frame>, now: seq<Frame>)
    ensures before + AllFrameBytes(done) + AllFrameBytes(now) == before + AllFrameBytes(done + now)
  {
  }

  lemma AddedStart(t: Tables, path: Path, ifaces: Interfaces)
    ensures InterfacesAdded(t, path, ifaces) == Handled(t, []).Then(InterfacesAdded(t, path, ifaces[0..]))
    ensures forall done: seq<Frame>, t': Tables ::
              Handled(t', done).Then(InterfacesAdded(t', path, ifaces[|ifaces|..])) == Handled(t', done)
  {
    assert ifaces[0..] == ifaces;
    var h := InterfacesAdded(t, path, ifaces);
    assert [] + h.frames == h.frames;
    forall done: seq<Frame>, t': Tables
      ensures Handled(t', done).Then(InterfacesAdded(t', path, ifaces[|ifaces|..])) == Handled(t', done)
    {
      assert done + [] == done;
    }
  }

  lemma AddedStep(t: Tables, done: seq<Frame>, path: Path, ifaces: Interfaces, i: nat)
    requires i < |ifaces|
    ensures
      var h := InterfaceAdded(t, path, ifaces[i].0, ifaces[i].1);
      Handled(t, done).Then(InterfacesAdded(t, path, ifaces[i..]))
      == Handled(h.tables, done + h.frames).Then(InterfacesAdded(h.tables, path, ifaces[i + 1..]))
  {
    assert ifaces[i..][0] == ifaces[i] && ifaces[i..][1..] == ifaces[i + 1..];
    var h := InterfaceAdded(t, path, ifaces[i].0, ifaces[i].1);
    var rest := InterfacesAdded(h.tables, path, ifaces[i + 1..]).frames;
    assert done + (h.frames + rest) == (done + h.frames) + rest;
  }

  lemma RemovedStart(t: Tables, path: Path, names: seq<InterfaceName>)
    ensures InterfacesRemoved(t, path, names) == Handled(t, []).Then(InterfacesRemoved(t, path, names[0..]))
    ensures forall done: seq<Frame>, t': Tables ::
              Handled(t', done).Then(InterfacesRemoved(t', path, names[|names|..])) == Handled(t', done)
  {
    assert names[0..] == names;
    var h := InterfacesRemoved(t, path, names);
    assert [] + h.frames == h.frames;
    forall done: seq<Frame>, t': Tables
      ensures Handled(t', done).Then(InterfacesRemoved(t', path, names[|names|..])) == Handled(t', done)
    {
      assert done + [] == done;
    }
  }

  lemma RemovedStep(t: Tables, done: seq<Frame>, path: Path, names: seq<InterfaceName>, i: nat)
    requires i < |names|
    ensures
      var h := InterfaceRemoved(t, path, names[i]);
      Handled(t, done).Then(InterfacesRemoved(t, path, names[i..]))
      == Handled(h.tables, done + h.frames).Then(InterfacesRemoved(h.tables, path, names[i + 1..]))
  {
    assert names[i..][0] == names[i] && names[i..][1..] == names[i + 1..];
    var h := InterfaceRemoved(t, path, names[i]);
    var rest := InterfacesRemoved(h.tables, path, names[i + 1..]).frames;
    assert done + (h.frames + rest) == (done + h.frames) + rest;
  }

  lemma SnapshotStart(t: Tables, objects: Objects)
    ensures SnapshotOf(t, objects) == Handled(t, []).Then(SnapshotOf(t, objects[0..]))
    ensures forall done: seq<Frame>, t': Tables ::
              Handled(t', done).Then(SnapshotOf(t', objects[|objects|..])) == Handled(t', done)
  {
    assert objects[0..] == objects;
    var h := SnapshotOf(t, objects);
    assert [] + h.frames == h.frames;
    forall done: seq<Frame>, t': Tables
      ensures Handled(t', done).Then(SnapshotOf(t', objects[|objects|..])) == Handled(t', done)
    {
      assert done + [] == done;
    }
  }

  lemma SnapshotStep(t: Tables, done: seq<Frame>, objects: Objects, i: nat)
    requires i < |objects|
    ensures
      var h := InterfacesAdded(t, objects[i].0, objects[i].1);
      Handled(t, done).Then(SnapshotOf(t, objects[i..]))
      == Handled(h.tables, done + h.frames).Then(SnapshotOf(h.tables, objects[i + 1..]))
  {
    assert objects[i..][0] == objects[i] && objects[i..][1..] == objects[i + 1..];
    var h := InterfacesAdded(t, objects[i].0, objects[i].1);
    var rest := SnapshotOf(h.tables, objects[i + 1..]).frames;
    assert done + (h.frames + rest) == (done + h.frames) + rest;
  }

  // ── Mask builders ────────────────────────────────────────────────────────

  /** One property of a change map: its value, and the mask with its bit; not ok where reading it throws. */
  method TakeBool(changed: PropertiesMap, key: string, i: nat, mask: U32) returns (ok: bool, v: bool, m: U32)
    requires i < 32
    ensures ok <==> IsBool(changed, key)
    ensures ok ==> v == GetBool(changed, key) && m == SetBitIf(mask, key in changed, i)
  {
    if key !in changed {
      return true, false, mask;
    }
    if !changed[key].BoolVariant? {
      return false, false, mask;
    }
    return true, changed[key].b, SetBitIf(mask, true, i);
  }

  method TakeI16(changed: PropertiesMap, key: string, i: nat, mask: U32) returns (ok: bool, v: I16, m: U32)
    requires i < 32
    ensures ok <==> IsI16(changed, key)
    ensures ok ==> v == GetI16(changed, key) && m == SetBitIf(mask, key in changed, i)
  {
    if key !in changed {
      return true, 0, mask;
    }
    if !changed[key].I16Variant? {
      return false, 0, mask;
    }
    return true, changed[key].i16, SetBitIf(mask, true, i);
  }

  method TakeString(changed: PropertiesMap, key: string, i: nat, mask: U32) returns (ok: bool, v: Bytes, m: U32)
    requires i < 32
    ensures ok <==> IsString(changed, key)
    ensures ok ==> v == GetString(changed, key) && m == SetBitIf(mask, key in changed, i)
  {
    if key !in changed {
      return true, [], mask;
    }
    if !changed[key].StringVariant? {
      return false, [], mask;
    }
    return true, changed[key].s, SetBitIf(mask, true, i);
  }

  /** The device callback's partial struct; None where reading a variant throws. The mask
      names exactly the tracked keys present. */
  method BuildDeviceUpdate(path: Path, changed: PropertiesMap) returns (r: Option<DeviceProps>)
    ensures r.Some? <==> DeviceChangeReadable(changed)
    ensures r.Some? ==> IsDeviceUpdate(r.value, path, changed) && r.value == DeviceUpdate(path, changed)
  {
    hide SetBitIf, Bit, IsDeviceUpdate, IsBool, IsI16, IsString, GetBool, GetI16, GetString;
    var ok0, connected, m0 := TakeBool(changed, "Connected", NativeDeviceBit(Connected), 0);
    if !ok0 { return None; }
    var ok1, rssi, m1 := TakeI16(changed, "RSSI", NativeDeviceBit(RSSI), m0);
    if !ok1 { return None; }
    var ok2, paired, m2 := TakeBool(changed, "Paired", NativeDeviceBit(Paired), m1);
    if !ok2 { return None; }
    var ok3, trusted, m3 := TakeBool(changed, "Trusted", NativeDeviceBit(Trusted), m2);
    if !ok3 { return None; }
    var ok4, blocked, m4 := TakeBool(changed, "Blocked", NativeDeviceBit(Blocked), m3);
    if !ok4 { return None; }
    var ok5, servicesResolved, m5 := TakeBool(changed, "ServicesResolved", NativeDeviceBit(ServicesResolved), m4);
    if !ok5 { return None; }
    var ok6, name, m6 := TakeString(changed, "Name", NativeDeviceBit(Name), m5);
    if !ok6 { return None; }
    var ok7, alias, m7 := TakeString(changed, "Alias", NativeDeviceBit(Alias), m6);
    if !ok7 { return None; }
    DeviceUpdateIsPartial(path, changed);
    return Some(BLANK_DEVICE.(objectPath := path, changedMask := m7,
      connected := connected, rssi := rssi, paired := paired, trusted := trusted, blocked := blocked,
      servicesResolved := servicesResolved, name := name, alias := alias));
  }

  /** The adapter callback's partial struct. */
  method BuildAdapterUpdate(path: Path, changed: PropertiesMap) returns (r: Option<AdapterProps>)
    ensures r.Some? <==> AdapterChangeReadable(changed)
    ensures r.Some? ==> IsAdapterUpdate(r.value, path, changed) && r.value == AdapterUpdate(path, changed)
  {
    hide SetBitIf, Bit, IsAdapterUpdate, IsBool, IsI16, IsString, GetBool, GetI16, GetString;
    var ok0, powered, m0 := TakeBool(changed, "Powered", NativeAdapterBit(Powered), 0);
    if !ok0 { return None; }
    var ok1, discovering, m1 := TakeBool(changed, "Discovering", NativeAdapterBit(Discovering), m0);
    if !ok1 { return None; }
    var ok2, discoverable, m2 := TakeBool(changed, "Discoverable", NativeAdapterBit(Discoverable), m1);
    if !ok2 { return None; }
    var ok3, pairable, m3 := TakeBool(changed, "Pairable", NativeAdapterBit(Pairable), m2);
    if !ok3 { return None; }
    var ok4, alias, m4 := TakeString(changed, "Alias", NativeAdapterBit(AdapterAlias), m3);
    if !ok4 { return None; }
    AdapterUpdateIsPartial(path, changed);
    return Some(BLANK_ADAPTER.(objectPath := path, changedMask := m4,
      powered := powered, discovering := discovering, discoverable := discoverable, pairable := pairable, alias := alias));
  }
}
