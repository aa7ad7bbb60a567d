/** bluez_client.dart: the caches and the routing of messages, as objects. */
module Clients {
  import opened ByteStrings
  import opened Types
  import opened Masks
  import opened Wire
  import opened Codec
  import opened Paths
  import opened Frames
  import opened ClientModel
  import opened Devices
  import GattTree

  class BlueZAdapter {
    var props: AdapterProps

    constructor (props: AdapterProps)
      ensures this.props == props
    {
      this.props := props;
    }

    method UpdateProps(partial: AdapterProps)
      modifies this
      ensures props == MergeAdapter(old(props), partial)
    {
      hide Bit;
      var mask := partial.changedMask;
      props := AdapterProps(
        props.objectPath, mask, props.address, props.name,
        if Bit(mask, DART_ADAPTER_ALIAS_BIT) then partial.alias else props.alias,
        if Bit(mask, DART_POWERED_BIT) then partial.powered else props.powered,
        if Bit(mask, DART_DISCOVERABLE_BIT) then partial.discoverable else props.discoverable,
        if Bit(mask, DART_PAIRABLE_BIT) then partial.pairable else props.pairable,
        if Bit(mask, DART_DISCOVERING_BIT) then partial.discovering else props.discovering,
        props.discoverableTimeout, props.uuids);
    }
  }

  // ── The caches ───────────────────────────────────────────────────────────

  /** Distinct adapter objects with the given properties. */
  ghost predicate AdaptersShown(objects: map<Path, BlueZAdapter>, vs: map<Path, AdapterProps>)
    reads objects.Values
  {
    && objects.Keys == vs.Keys && (forall a :: a in objects ==> objects[a].props == vs[a])
    && (forall a, b :: a in objects && b in objects && a != b ==> objects[a] != objects[b])
  }

  /** Device objects with the given views, each owning its part of repr alone. */
  ghost predicate DevicesShown(ds: map<Path, BlueZDevice>, vs: map<Path, DeviceView>, repr: set<object>)
    reads ds.Values, repr
  {
    && ds.Keys == vs.Keys && ds.Values <= repr
    && (forall d :: d in ds ==> ds[d].Repr <= repr && ds[d].Valid() && ds[d].view == vs[d])
    && (forall d, e :: d in ds && e in ds && d != e ==> ds[d].Repr !! ds[e].Repr)
  }

  /** All devices but the one at path as they were, and that one grown by new objects. */
  lemma Refold(ds: map<Path, BlueZDevice>, vs: map<Path, DeviceView>, repr: set<object>, path: Path)
    requires ds.Keys == vs.Keys && path in ds && ds.Values <= repr && ds[path].Valid()
    requires forall d :: d in ds && d != path ==>
               ds[d].Repr <= repr && ds[d].Valid() && ds[d].view == vs[d] && ds[d].Repr !! ds[path].Repr
    requires forall d, e :: d in ds && e in ds && d != e && d != path && e != path ==> ds[d].Repr !! ds[e].Repr
    ensures DevicesShown(ds, vs[path := ds[path].view], repr + ds[path].Repr)
  {
    hide BlueZDevice.Valid;
  }

  method UpdateIn(ds: map<Path, BlueZDevice>, p: DeviceProps, ghost vs: map<Path, DeviceView>, ghost repr: set<object>)
      returns (ghost grown: set<object>)
    requires DevicesShown(ds, vs, repr) && p.objectPath in ds
    modifies repr
    ensures
      var path := p.objectPath;
      path in vs && DevicesShown(ds, vs[path := UpdateDevice(vs[path], p)], grown)
    ensures repr <= grown && fresh(grown - repr)
  {
    hide ServicesShown, CharsShown, DescsShown, DevicePathOf, ClientModel.AddService, AddChar, AddDesc, UpdateDevice;
    var path := p.objectPath;
    ds[path].UpdateProps(p);
    Refold(ds, vs, repr, path);
    grown := repr + ds[path].Repr;
  }

  method AddServiceIn(ds: map<Path, BlueZDevice>, p: ServiceProps, ghost vs: map<Path, DeviceView>, ghost repr: set<object>)
      returns (ghost grown: set<object>)
    requires DevicesShown(ds, vs, repr) && p.devicePath in ds
    modifies repr
    ensures
      var path := p.devicePath;
      path in vs && DevicesShown(ds, vs[path := ClientModel.AddService(vs[path], p)], grown)
    ensures repr <= grown && fresh(grown - repr)
  {
    hide ServicesShown, CharsShown, DescsShown, DevicePathOf, ClientModel.AddService, AddChar, AddDesc, UpdateDevice;
    var path := p.devicePath;
    ds[path].AddService(p);
    Refold(ds, vs, repr, path);
    grown := repr + ds[path].Repr;
  }

  method AddCharIn(ds: map<Path, BlueZDevice>, p: CharProps, ghost vs: map<Path, DeviceView>, ghost repr: set<object>)
      returns (ghost grown: set<object>)
    requires DevicesShown(ds, vs, repr) && DevicePathOf(p.objectPath) in ds
    modifies repr
    ensures
      var path := DevicePathOf(p.objectPath);
      path in vs && DevicesShown(ds, vs[path := AddChar(vs[path], p)], grown)
    ensures repr <= grown && fresh(grown - repr)
  {
    hide ServicesShown, CharsShown, DescsShown, DevicePathOf, ClientModel.AddService, AddChar, AddDesc, UpdateDevice;
    var path := DevicePathOf(p.objectPath);
    ds[path].AddCharacteristic(p);
    Refold(ds, vs, repr, path);
    grown := repr + ds[path].Repr;
  }

  method AddDescIn(ds: map<Path, BlueZDevice>, p: DescProps, ghost vs: map<Path, DeviceView>, ghost repr: set<object>)
      returns (ghost grown: set<object>)
    requires DevicesShown(ds, vs, repr) && DevicePathOf(p.objectPath) in ds
    modifies repr
    ensures
      var path := DevicePathOf(p.objectPath);
      path in vs && DevicesShown(ds, vs[path := AddDesc(vs[path], p)], grown)
    ensures repr <= grown && fresh(grown - repr)
  {
    hide ServicesShown, CharsShown, DescsShown, DevicePathOf, ClientModel.AddService, AddChar, AddDesc, UpdateDevice;
    var path := DevicePathOf(p.objectPath);
    ds[path].AddDescriptor(p);
    Refold(ds, vs, repr, path);
    grown := repr + ds[path].Repr;
  }

  lemma DeviceJoins(ds: map<Path, BlueZDevice>, vs: map<Path, DeviceView>, repr: set<object>, path: Path, d: BlueZDevice)
    requires DevicesShown(ds, vs, repr) && d.Valid() && d.Repr !! repr
    ensures DevicesShown(ds[path := d], vs[path := d.view], repr + d.Repr)
  {
    hide ServicesShown, CharsShown, DescsShown;
  }

  lemma DeviceLeaves(ds: map<Path, BlueZDevice>, vs: map<Path, DeviceView>, repr: set<object>, path: Path)
    requires DevicesShown(ds, vs, repr)
    ensures DevicesShown(ds - {path}, vs - {path}, repr)
  {
    hide BlueZDevice.Valid;
  }

  lemma AdapterJoins(objects: map<Path, BlueZAdapter>, vs: map<Path, AdapterProps>, path: Path, a: BlueZAdapter)
    requires AdaptersShown(objects, vs) && a !in objects.Values
    ensures AdaptersShown(objects[path := a], vs[path := a.props])
  {
    forall b | b in objects ensures objects[b] != a {
      assert objects[b] in objects.Values;
    }
  }

  method UpdateAdapterIn(objects: map<Path, BlueZAdapter>, path: Path, p: AdapterProps, ghost vs: map<Path, AdapterProps>)
    requires AdaptersShown(objects, vs) && path in objects && path in vs
    modifies objects[path]
    ensures AdaptersShown(objects, vs[path := MergeAdapter(vs[path], p)])
  {
    hide MergeAdapter;
    objects[path].UpdateProps(p);
  }

  method PostValueIn(ds: map<Path, BlueZDevice>, path: Path, p: CharProps, ghost vs: map<Path, DeviceView>,
                     ghost repr: set<object>) returns (ghost grown: set<object>)
    requires DevicesShown(ds, vs, repr) && path in ds && path in vs
    requires p.objectPath in ds[path].characteristics && p.objectPath in vs[path].chars
    modifies repr
    ensures DevicesShown(ds, vs[path := PostValue(vs[path], p.objectPath, p.value)], grown)
    ensures repr <= grown && fresh(grown - repr)
  {
    hide ServicesShown, CharsShown, DescsShown, PostValue;
    ds[path].PostValueTo(p.objectPath, p.value);
    Refold(ds, vs, repr, path);
    grown := repr + ds[path].Repr;
  }

  /** _devices.values.expand(...).where(...).firstOrNull, whatever order the devices come in. */
  method FindCharacteristic(ds: map<Path, BlueZDevice>, path: Path, ghost vs: map<Path, DeviceView>,
                            ghost repr: set<object>) returns (found: bool, home: Path)
    requires DevicesShown(ds, vs, repr)
    ensures found ==> home in ds && home in vs && path in ds[home].characteristics && path in vs[home].chars
    ensures !found ==> forall d :: d in vs ==> path !in vs[d].chars
  {
    hide ServicesShown, DescsShown, CharShown;
    var rest := ds.Keys;
    while rest != {}
      invariant rest <= ds.Keys
      invariant forall d :: d in vs && d !in rest ==> path !in vs[d].chars
    {
      home :| home in rest;
      found := HasCharacteristic(ds[home].characteristics, path, ds[home].view.chars, ds[home].born);
      if found {
        return;
      }
      rest := rest - {home};
    }
    return false, [];
  }

  method HasCharacteristic(cs: map<Path, BlueZGattCharacteristic>, path: Path, ghost vs: map<Path, CharView>,
                           ghost born: seq<object>) returns (found: bool)
    requires CharsShown(cs, vs, born)
    ensures found <==> path in cs
    ensures found <==> path in vs
  {
    var rest := cs.Keys;
    while rest != {}
      invariant rest <= cs.Keys && path !in cs.Keys - rest
    {
      var c :| c in rest;
      if cs[c].props.objectPath == path {
        return true;
      }
      rest := rest - {c};
    }
    return false;
  }

  // ── The client ───────────────────────────────────────────────────────────

  class BlueZClient {
    /** _handle is not null. */
    var handle: bool
    /** _initialSnapshotDone is not null. */
    var pending: bool
    /** Its future has completed. */
    var snapshotDone: bool
    var adapters: map<Path, BlueZAdapter>
    var devices: map<Path, BlueZDevice>
    /** Everything the three event streams were given. */
    var adapterChanged: seq<BlueZAdapter>
    var deviceAdded: seq<BlueZDevice>
    var deviceRemoved: seq<BlueZDevice>
    /** The client as a value. */
    ghost var view: ClientView
    /** Every object of every device. */
    ghost var deviceRepr: set<object>

    ghost function Owned(): set<object>
      reads `adapters, `deviceRepr
    {
      {this} + adapters.Values + deviceRepr
    }

    /** Only new objects have been added to what the client owned. */
    twostate predicate Grew(owned: set<object>)
      reads `adapters, `deviceRepr
    {
      fresh(Owned() - owned)
    }

    /** The streams were given the adapter changed, the device object made or the one dropped, and
        nothing else. */
    twostate predicate Told(d: Decoded, threw: bool)
      reads this
    {
      && (if d.Event? && d.frame.AdapterFrame? && !threw then
            var path := d.frame.adapter.objectPath;
            path in adapters && adapterChanged == old(adapterChanged) + [adapters[path]]
          else adapterChanged == old(adapterChanged))
      && (if d.Event? && d.frame.DeviceAddedFrame? && !threw then
            var path := d.frame.device.objectPath;
            path in devices && deviceAdded == old(deviceAdded) + [devices[path]]
          else deviceAdded == old(deviceAdded))
      && (if d.Event? && d.frame.DeviceRemovedFrame? && d.frame.device.objectPath in old(devices) then
            deviceRemoved == old(deviceRemoved) + [old(devices)[d.frame.device.objectPath]]
          else deviceRemoved == old(deviceRemoved))
    }

    /** view is what the fields hold; the client, its adapters and its devices do not share. */
    ghost predicate Valid()
      reads `handle, `pending, `snapshotDone, `adapters, `devices, `view, `deviceRepr, adapters.Values, deviceRepr
    {
      && this !in deviceRepr && adapters.Values !! deviceRepr
      && view.handle == handle && view.pending == pending && view.snapshotDone == snapshotDone
      && adapters.Keys == view.adapters.Keys && devices.Keys == view.devices.Keys && devices.Values <= deviceRepr
      && AdaptersShown(adapters, view.adapters) && DevicesShown(devices, view.devices, deviceRepr)
    }

    constructor (handle: bool)
      ensures Valid() && view == ClientView(handle, true, false, map[], map[]) && fresh(Owned())
      ensures adapterChanged == [] && deviceAdded == [] && deviceRemoved == []
    {
      adapterChanged, deviceAdded, deviceRemoved := [], [], [];
      this.handle, pending, snapshotDone, adapters, devices := handle, true, false, map[], map[];
      view, deviceRepr := ClientView(handle, true, false, map[], map[]), {};
    }

    /** The devices as their methods left them, and what is owned since. */
    ghost method Adopt(ds: map<Path, DeviceView>, grown: set<object>)
      requires this !in grown && adapters.Values !! grown
      requires view.handle == handle && view.pending == pending && view.snapshotDone == snapshotDone
      requires adapters.Keys == view.adapters.Keys && devices.Keys == ds.Keys && devices.Values <= grown
      requires AdaptersShown(adapters, view.adapters) && DevicesShown(devices, ds, grown)
      modifies `view, `deviceRepr
      ensures Valid() && view == old(view).(devices := ds) && deviceRepr == grown
    {
      hide AdaptersShown, DevicesShown;
      view, deviceRepr := view.(devices := ds), grown;
    }

    method OnSentinel()
      requires Valid()
      modifies `pending, `snapshotDone, `view
      ensures Valid() && view == Apply(old(view), SentinelFrame) && Grew(old(Owned()))
      ensures Told(Event(SentinelFrame), false)
    {
      hide AdaptersShown, DevicesShown;
      if pending {
        snapshotDone := true;
      }
      pending := false;
      view := Apply(view, SentinelFrame);
    }

    method OnAdapter(p: AdapterProps) returns (threw: bool)
      requires Valid()
      modifies `adapters, `view, `adapterChanged, adapters.Values
      ensures threw <==> NeedsHandle(old(view), AdapterFrame(p)) && !old(view).handle
      ensures Valid() && view == (if threw then old(view) else Apply(old(view), AdapterFrame(p))) && Grew(old(Owned()))
      ensures Told(Event(AdapterFrame(p)), threw)
    {
      hide Valid, MergeAdapter, Owned;
      ghost var was := view;
      threw := PutIfAbsent(p);
      if threw {
        return;
      }
      MergeInto(p);
      ghost var merged := view.adapters[p.objectPath];
      assert view.adapters == was.adapters[p.objectPath := merged];
    }

    /** adapter.updateProps and _adapterChangedCtrl.add. */
    method MergeInto(p: AdapterProps)
      requires Valid() && p.objectPath in adapters && p.objectPath in view.adapters
      modifies `view, `adapterChanged, adapters.Values
      ensures adapterChanged == old(adapterChanged) + [adapters[p.objectPath]]
      ensures deviceAdded == old(deviceAdded) && deviceRemoved == old(deviceRemoved)
      ensures Valid() && Owned() == old(Owned())
      ensures
        var was := old(view);
        view == was.(adapters := was.adapters[p.objectPath := MergeAdapter(was.adapters[p.objectPath], p)])
    {
      hide AdaptersShown, DevicesShown, MergeAdapter;
      UpdateAdapterIn(adapters, p.objectPath, p, view.adapters);
      adapterChanged := adapterChanged + [adapters[p.objectPath]];
      view := view.(adapters := view.adapters[p.objectPath := MergeAdapter(view.adapters[p.objectPath], p)]);
    }

    /** _adapters.putIfAbsent, which reads _handle only to make a new adapter. */
    method PutIfAbsent(p: AdapterProps) returns (threw: bool)
      requires Valid()
      modifies `adapters, `view
      ensures threw <==> p.objectPath !in old(view).adapters && !old(view).handle
      ensures Valid() && Grew(old(Owned())) && fresh(adapters.Values - old(adapters.Values))
      ensures !threw ==> p.objectPath in adapters && p.objectPath in view.adapters
      ensures view == if p.objectPath in old(view).adapters || threw then old(view)
                      else old(view).(adapters := old(view).adapters[p.objectPath := p])
    {
      hide AdaptersShown, DevicesShown;
      if p.objectPath !in adapters {
        if !handle {
          return true;
        }
        var adapter := new BlueZAdapter(p);
        AdapterJoins(adapters, view.adapters, p.objectPath, adapter);
        adapters := adapters[p.objectPath := adapter];
        view := view.(adapters := view.adapters[p.objectPath := p]);
      }
      return false;
    }

    method OnDeviceUpdate(p: DeviceProps)
      requires Valid()
      modifies `view, `deviceRepr, deviceRepr
      ensures Valid() && view == Apply(old(view), DeviceUpdateFrame(p)) && Grew(old(Owned()))
      ensures Told(Event(DeviceUpdateFrame(p)), false)
    {
      hide AdaptersShown, DevicesShown, UpdateDevice, DevicePathOf;
      if p.objectPath in devices {
        ghost var grown := UpdateIn(devices, p, view.devices, deviceRepr);
        Adopt(view.devices[p.objectPath := UpdateDevice(view.devices[p.objectPath], p)], grown);
      }
    }

    method OnCharValue(p: CharProps)
      requires Valid() && GattTree.WellFiled(view)
      modifies `view, `deviceRepr, deviceRepr
      ensures Valid() && view == Apply(old(view), CharValueFrame(p)) && Grew(old(Owned()))
      ensures Told(Event(CharValueFrame(p)), false)
    {
      hide AdaptersShown, DevicesShown, PostValue, DevicePathOf, GattTree.WellFiled;
      var found, home := FindCharacteristic(devices, p.objectPath, view.devices, deviceRepr);
      if found {
        GattTree.CachedWhereRouted(view, home, p.objectPath);
        PostTo(home, p);
      }
    }

    method PostTo(home: Path, p: CharProps)
      requires Valid() && home in devices && home in view.devices
      requires p.objectPath in devices[home].characteristics && p.objectPath in view.devices[home].chars
      modifies `view, `deviceRepr, deviceRepr
      ensures Valid() && Grew(old(Owned())) && Told(Ignored, false)
      ensures
        var was := old(view);
        view == was.(devices := was.devices[home := PostValue(was.devices[home], p.objectPath, p.value)])
    {
      hide AdaptersShown, DevicesShown, PostValue;
      ghost var grown := PostValueIn(devices, home, p, view.devices, deviceRepr);
      Adopt(view.devices[home := PostValue(view.devices[home], p.objectPath, p.value)], grown);
    }

    method OnDeviceAdded(p: DeviceProps) returns (threw: bool)
      requires Valid()
      modifies `devices, `view, `deviceRepr, `deviceAdded
      ensures threw <==> !old(view).handle
      ensures Valid() && view == (if threw then old(view) else Apply(old(view), DeviceAddedFrame(p))) && Grew(old(Owned()))
      ensures Told(Event(DeviceAddedFrame(p)), threw)
    {
      hide Valid, Owned, BlueZDevice.Valid, NewDevice, DevicePathOf, UpdateDevice, MergeAdapter, PostValue, AddChar, AddDesc;
      HandleShown();
      if !handle {
        return true;
      }
      var device := new BlueZDevice(p);
      Put(p.objectPath, device);
      deviceAdded := deviceAdded + [device];
      return false;
    }

    /** view agrees on the handle, and the client is not part of a device. */
    lemma HandleShown()
      requires Valid()
      ensures view.handle == handle && this !in deviceRepr
    {
    }

    /** _devices[path] = device */
    method Put(path: Path, device: BlueZDevice)
      requires Valid() && device.Valid() && device.Repr == {device} && device !in deviceRepr
      modifies `devices, `view, `deviceRepr
      ensures Valid() && this !in deviceRepr && Owned() == old(Owned()) + {device}
      ensures view == old(view).(devices := old(view).devices[path := device.view]) && devices == old(devices)[path := device]
    {
      hide AdaptersShown, DevicesShown, BlueZDevice.Valid;
      DeviceJoins(devices, view.devices, deviceRepr, path, device);
      devices, deviceRepr := devices[path := device], deviceRepr + {device};
      view := view.(devices := view.devices[path := device.view]);
    }

    method OnDeviceRemoved(p: DeviceProps)
      requires Valid()
      modifies `devices, `view, `deviceRemoved
      ensures Valid() && view == Apply(old(view), DeviceRemovedFrame(p)) && Grew(old(Owned()))
      ensures Told(Event(DeviceRemovedFrame(p)), false)
    {
      hide Valid, Owned, DevicePathOf, UpdateDevice, MergeAdapter, NewDevice, PostValue, AddChar, AddDesc;
      var removed := if p.objectPath in devices then [devices[p.objectPath]] else [];
      Remove(p.objectPath);
      deviceRemoved := deviceRemoved + removed;
    }

    /** _devices.remove */
    method Remove(path: Path)
      requires Valid()
      modifies `devices, `view
      ensures Valid() && this !in deviceRepr && Owned() == old(Owned())
      ensures view == old(view).(devices := old(view).devices - {path}) && devices == old(devices) - {path}
    {
      hide AdaptersShown, DevicesShown;
      DeviceLeaves(devices, view.devices, deviceRepr, path);
      devices, view := devices - {path}, view.(devices := view.devices - {path});
    }

    method OnService(p: ServiceProps)
      requires Valid()
      modifies `view, `deviceRepr, deviceRepr
      ensures Valid() && view == Apply(old(view), ServiceAddedFrame(p)) && Grew(old(Owned()))
      ensures Told(Event(ServiceAddedFrame(p)), false)
    {
      hide AdaptersShown, DevicesShown, ClientModel.AddService, DevicePathOf;
      var path := p.devicePath;
      if path in devices {
        ghost var grown := AddServiceIn(devices, p, view.devices, deviceRepr);
        Adopt(view.devices[path := ClientModel.AddService(view.devices[path], p)], grown);
      }
    }

    method OnChar(p: CharProps)
      requires Valid()
      modifies `view, `deviceRepr, deviceRepr
      ensures Valid() && view == Apply(old(view), CharAddedFrame(p)) && Grew(old(Owned()))
      ensures Told(Event(CharAddedFrame(p)), false)
    {
      hide AdaptersShown, DevicesShown, AddChar, DevicePathOf;
      var path := DevicePathOf(p.objectPath);
      if path in devices {
        ghost var grown := AddCharIn(devices, p, view.devices, deviceRepr);
        Adopt(view.devices[path := AddChar(view.devices[path], p)], grown);
      }
    }

    method OnDesc(p: DescProps)
      requires Valid()
      modifies `view, `deviceRepr, deviceRepr
      ensures Valid() && view == Apply(old(view), DescAddedFrame(p)) && Grew(old(Owned()))
      ensures Told(Event(DescAddedFrame(p)), false)
    {
      hide AdaptersShown, DevicesShown, AddDesc, DevicePathOf;
      var path := DevicePathOf(p.objectPath);
      if path in devices {
        ghost var grown := AddDescIn(devices, p, view.devices, deviceRepr);
        Adopt(view.devices[path := AddDesc(view.devices[path], p)], grown);
      }
    }

    /** One message from the events port; threw when the handler ends with an exception. */
    method OnEvent(msg: Bytes) returns (threw: bool)
      requires Valid() && GattTree.WellFiled(view)
      modifies Owned()
      ensures Valid() && GattTree.WellFiled(view)
      ensures view == OnMessage(old(view), msg) && threw == Throws(old(view), msg)
      ensures Grew(old(Owned())) && Told(Decode(msg), threw)
    {
      hide Valid, Apply, Decode, Read, AdapterOf, DeviceOf, CharOf, ServiceOf, DescOf, GattTree.WellFiled;
      DecodeWithoutPayload(msg);
      if msg == [] {
        return true;
      }
      OnMessageKeepsFiled(view, msg);
      match msg[0] {
        case 0x00 =>
          OnSentinel();
        case 0x01 =>
          var props := AdapterMessage(msg);
          if props.RangeError? {
            return true;
          }
          threw := OnAdapter(props.value);
          return;
        case 0x02 =>
          var props := DeviceMessage(msg);
          if props.RangeError? {
            return true;
          }
          OnDeviceUpdate(props.value);
        case 0x03 =>
          var props := CharMessage(msg);
          if props.RangeError? {
            return true;
          }
          OnCharValue(props.value);
        case 0x04 =>
          var props := DeviceMessage(msg);
          if props.RangeError? {
            return true;
          }
          threw := OnDeviceAdded(props.value);
          return;
        case _ =>
          threw := OnLaterCase(msg);
          return;
      }
      return false;
    }

    /** The cases from 0x05 on, and the discriminators without a case. */
    method OnLaterCase(msg: Bytes) returns (threw: bool)
      requires Valid() && msg != [] && msg[0] > 0x04
      modifies Owned()
      ensures Valid() && view == OnMessage(old(view), msg) && threw == Throws(old(view), msg)
      ensures Grew(old(Owned())) && Told(Decode(msg), threw)
    {
      hide Valid, Apply, Decode, Read, AdapterOf, DeviceOf, CharOf, ServiceOf, DescOf;
      DecodeWithoutPayload(msg);
      match msg[0] {
        case 0x05 =>
          var props := DeviceMessage(msg);
          if props.RangeError? {
            return true;
          }
          OnDeviceRemoved(props.value);
        case 0x06 =>
          var props := ServiceMessage(msg);
          if props.RangeError? {
            return true;
          }
          OnService(props.value);
        case 0x07 =>
          var props := CharMessage(msg);
          if props.RangeError? {
            return true;
          }
          OnChar(props.value);
        case 0x08 =>
          var props := DescMessage(msg);
          if props.RangeError? {
            return true;
          }
          OnDesc(props.value);
        case _ =>
      }
      return false;
    }
  }

  lemma {:induction false} OnMessageKeepsFiled(v: ClientView, msg: Bytes)
    requires GattTree.WellFiled(v)
    ensures GattTree.WellFiled(OnMessage(v, msg))
  {
    hide Apply, Decode, GattTree.WellFiled;
    match Decode(msg)
    case Event(f) => GattTree.StepKeepsFiled(v, f);
    case _ =>
  }

  lemma DecodeWithoutPayload(msg: Bytes)
    ensures msg == [] ==> Decode(msg).Thrown?
    ensures msg != [] && msg[0] == 0x00 ==> Decode(msg) == Event(SentinelFrame)
    ensures msg != [] && msg[0] > 0x08 ==> Decode(msg).Ignored?
  {
  }

  /** GlazeCodec.decode<BlueZAdapterProps>(msg, 1) */
  method AdapterMessage(msg: Bytes) returns (result: Result<AdapterProps>)
    requires msg != []
    ensures match Read(ADAPTER, msg, 1)
            case Overrun => result == RangeError
            case Parsed(v, _) => result == Success(AdapterOf(v))
    ensures msg[0] == 0x01 ==> Decode(msg) == if result.RangeError? then Thrown else Event(AdapterFrame(result.value))
  {
    hide Read, AdapterOf;
    var r := new Reader(msg, 0, |msg|, 1);
    assert msg[0..|msg|] == msg;
    result := DecodeAdapter(r);
  }

  /** GlazeCodec.decode<BlueZDeviceProps>(msg, 1) */
  method DeviceMessage(msg: Bytes) returns (result: Result<DeviceProps>)
    requires msg != []
    ensures match Read(DEVICE, msg, 1)
            case Overrun => result == RangeError
            case Parsed(v, _) => result == Success(DeviceOf(v))
    ensures msg[0] == 0x02 ==> Decode(msg) == if result.RangeError? then Thrown else Event(DeviceUpdateFrame(result.value))
    ensures msg[0] == 0x04 ==> Decode(msg) == if result.RangeError? then Thrown else Event(DeviceAddedFrame(result.value))
    ensures msg[0] == 0x05 ==> Decode(msg) == if result.RangeError? then Thrown else Event(DeviceRemovedFrame(result.value))
  {
    hide Read, DeviceOf;
    var r := new Reader(msg, 0, |msg|, 1);
    assert msg[0..|msg|] == msg;
    result := DecodeDevice(r);
  }

  /** GlazeCodec.decode<BlueZGattCharProps>(msg, 1) */
  method CharMessage(msg: Bytes) returns (result: Result<CharProps>)
    requires msg != []
    ensures match Read(CHARACTERISTIC, msg, 1)
            case Overrun => result == RangeError
            case Parsed(v, _) => result == Success(CharOf(v))
    ensures msg[0] == 0x03 ==> Decode(msg) == if result.RangeError? then Thrown else Event(CharValueFrame(result.value))
    ensures msg[0] == 0x07 ==> Decode(msg) == if result.RangeError? then Thrown else Event(CharAddedFrame(result.value))
  {
    hide Read, CharOf;
    var r := new Reader(msg, 0, |msg|, 1);
    assert msg[0..|msg|] == msg;
    result := DecodeChar(r);
  }

  /** GlazeCodec.decode<BlueZGattServiceProps>(msg, 1) */
  method ServiceMessage(msg: Bytes) returns (result: Result<ServiceProps>)
    requires msg != []
    ensures match Read(SERVICE, msg, 1)
            case Overrun => result == RangeError
            case Parsed(v, _) => result == Success(ServiceOf(v))
    ensures msg[0] == 0x06 ==> Decode(msg) == if result.RangeError? then Thrown else Event(ServiceAddedFrame(result.value))
  {
    hide Read, ServiceOf;
    var r := new Reader(msg, 0, |msg|, 1);
    assert msg[0..|msg|] == msg;
    result := DecodeService(r);
  }

  /** GlazeCodec.decode<BlueZGattDescProps>(msg, 1) */
  method DescMessage(msg: Bytes) returns (result: Result<DescProps>)
    requires msg != []
    ensures match Read(DESCRIPTOR, msg, 1)
            case Overrun => result == RangeError
            case Parsed(v, _) => result == Success(DescOf(v))
    ensures msg[0] == 0x08 ==> Decode(msg) == if result.RangeError? then Thrown else Event(DescAddedFrame(result.value))
  {
    hide Read, DescOf;
    var r := new Reader(msg, 0, |msg|, 1);
    assert msg[0..|msg|] == msg;
    result := DecodeDesc(r);
  }
}
