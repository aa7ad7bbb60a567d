/** The whole pipeline: handler calls on the native side, messages in flight, the Dart caches,
    and the object tree the calls describe when applied directly. */
module Replication {
  import opened ByteStrings
  import opened Types
  import opened Masks
  import opened Dbus
  import opened Paths
  import opened Frames
  import opened ObjectManagers
  import opened ClientModel

  // ── The tree the calls describe ──────────────────────────────────────────

  /** A device as its announcements and changes describe it; changedMask is always 0 here. */
  datatype RefDevice = RefDevice(
    props: DeviceProps, services: map<Path, ServiceProps>, chars: map<Path, CharProps>, descs: map<Path, DescProps>)

  datatype Caches = Caches(adapters: map<Path, AdapterProps>, devices: map<Path, RefDevice>)

  /** present: the adapters BlueZ has not removed. Removed adapters stay in the caches. */
  datatype Tree = Tree(caches: Caches, present: set<Path>)

  const EMPTY_TREE: Tree := Tree(Caches(map[], map[]), {})

  function TreeInterfaceAdded(t: Tree, path: Path, iface: InterfaceName, props: PropertiesMap): Tree {
    var c := t.caches;
    if iface == Adapter1 then
      var was := if path in c.adapters then c.adapters[path] else ExtractAdapter(path, props).(changedMask := 0);
      Tree(c.(adapters := c.adapters[path := was.(
             powered := GetBool(props, "Powered"), discovering := GetBool(props, "Discovering"),
             discoverable := GetBool(props, "Discoverable"), pairable := GetBool(props, "Pairable"),
             alias := GetString(props, "Alias"))]),
           t.present + {path})
    else if iface == Device1 then
      var device := RefDevice(ExtractDevice(path, props).(changedMask := 0), map[], map[], map[]);
      t.(caches := c.(devices := c.devices[path := device]))
    else if iface == GattService1 then
      var p := ExtractService(path, props);
      if p.devicePath !in c.devices then t
      else
        var d := c.devices[p.devicePath];
        t.(caches := c.(devices := c.devices[p.devicePath := d.(services := d.services[path := p])]))
    else if iface == GattCharacteristic1 && DevicePathOf(path) in c.devices then
      var d := c.devices[DevicePathOf(path)];
      t.(caches := c.(devices := c.devices[DevicePathOf(path) := d.(chars := d.chars[path := ExtractChar(path, props)])]))
    else if iface == GattDescriptor1 && DevicePathOf(path) in c.devices then
      var d := c.devices[DevicePathOf(path)];
      t.(caches := c.(devices := c.devices[DevicePathOf(path) := d.(descs := d.descs[path := ExtractDesc(path, props)])]))
    else t
  }

  function TreeInterfaceRemoved(t: Tree, path: Path, iface: InterfaceName): Tree {
    if iface == Device1 then t.(caches := t.caches.(devices := t.caches.devices - {path}))
    else if iface == Adapter1 then t.(present := t.present - {path})
    else t
  }

  /** The properties a change map names take its values; every other property stays. */
  function OverrideDevice(p: DeviceProps, changed: PropertiesMap): DeviceProps {
    p.(connected := if "Connected" in changed then GetBool(changed, "Connected") else p.connected,
       rssi := if "RSSI" in changed then GetI16(changed, "RSSI") else p.rssi,
       paired := if "Paired" in changed then GetBool(changed, "Paired") else p.paired,
       servicesResolved := if "ServicesResolved" in changed then GetBool(changed, "ServicesResolved") else p.servicesResolved,
       name := if "Name" in changed then GetString(changed, "Name") else p.name,
       trusted := if "Trusted" in changed then GetBool(changed, "Trusted") else p.trusted,
       blocked := if "Blocked" in changed then GetBool(changed, "Blocked") else p.blocked,
       alias := if "Alias" in changed then GetString(changed, "Alias") else p.alias)
  }

  function OverrideAdapter(p: AdapterProps, changed: PropertiesMap): AdapterProps {
    p.(powered := if "Powered" in changed then GetBool(changed, "Powered") else p.powered,
       discovering := if "Discovering" in changed then GetBool(changed, "Discovering") else p.discovering,
       discoverable := if "Discoverable" in changed then GetBool(changed, "Discoverable") else p.discoverable,
       pairable := if "Pairable" in changed then GetBool(changed, "Pairable") else p.pairable,
       alias := if "Alias" in changed then GetString(changed, "Alias") else p.alias)
  }

  function TreeChanged(t: Tree, path: Path, iface: InterfaceName, changed: PropertiesMap): Tree {
    var c := t.caches;
    if iface == Adapter1 && path in t.present && path in c.adapters && AdapterChangeReadable(changed) then
      t.(caches := c.(adapters := c.adapters[path := OverrideAdapter(c.adapters[path], changed)]))
    else if iface == Device1 && path in c.devices && DeviceChangeReadable(changed) then
      var d := c.devices[path];
      t.(caches := c.(devices := c.devices[path := d.(props := OverrideDevice(d.props, changed))]))
    else t
  }

  function TreeAdded(t: Tree, path: Path, ifaces: Interfaces): Tree
    decreases |ifaces|
  {
    if ifaces == [] then t else TreeAdded(TreeInterfaceAdded(t, path, ifaces[0].0, ifaces[0].1), path, ifaces[1..])
  }

  function TreeRemoved(t: Tree, path: Path, names: seq<InterfaceName>): Tree
    decreases |names|
  {
    if names == [] then t else TreeRemoved(TreeInterfaceRemoved(t, path, names[0]), path, names[1..])
  }

  function TreeCall(t: Tree, c: Call): Tree {
    match c
    case Added(path, ifaces) => TreeAdded(t, path, ifaces)
    case Removed(path, names) => TreeRemoved(t, path, names)
    case Changed(path, iface, changed) => TreeChanged(t, path, iface, changed)
    case _ => t
  }

  // ── What the caches say ──────────────────────────────────────────────────

  /** The view holds exactly d's objects with d's properties, whatever its mask, ids, links and streams. */
  ghost predicate ShowsDevice(view: DeviceView, d: RefDevice) {
    && d.props == view.props.(changedMask := 0)
    && d.services.Keys == view.services.Keys && (forall s :: s in d.services ==> d.services[s] == view.services[s].props)
    && d.chars.Keys == view.chars.Keys && (forall c :: c in d.chars ==> d.chars[c] == view.chars[c].props)
    && d.descs.Keys == view.descs.Keys && (forall e :: e in d.descs ==> d.descs[e] == view.descs[e].props)
  }

  /** The Dart caches hold exactly c. */
  ghost predicate Shows(v: ClientView, c: Caches) {
    && c.adapters.Keys == v.adapters.Keys
    && (forall a :: a in c.adapters ==> c.adapters[a] == v.adapters[a].(changedMask := 0))
    && c.devices.Keys == v.devices.Keys
    && (forall d :: d in c.devices ==> ShowsDevice(v.devices[d], c.devices[d]))
  }

  lemma ShowsOneDevice(view: DeviceView, d: RefDevice, d': RefDevice)
    requires ShowsDevice(view, d) && ShowsDevice(view, d')
    ensures d == d'
  {
    assert d.services == d'.services && d.chars == d'.chars && d.descs == d'.descs;
  }

  /** The caches show one tree and no other. */
  lemma ShowsOnlyOne(v: ClientView, c: Caches, c': Caches)
    requires Shows(v, c) && Shows(v, c')
    ensures c == c'
  {
    hide ShowsDevice;
    forall d | d in c.devices ensures c.devices[d] == c'.devices[d] {
      ShowsOneDevice(v.devices[d], c.devices[d], c'.devices[d]);
    }
    assert c.adapters == c'.adapters && c.devices == c'.devices;
  }

  function CachesApply(c: Caches, f: Frame): Caches {
    match f
    case AdapterFrame(p) =>
      var was := if p.objectPath in c.adapters then c.adapters[p.objectPath] else p;
      c.(adapters := c.adapters[p.objectPath := MergeAdapter(was, p).(changedMask := 0)])
    case DeviceUpdateFrame(p) =>
      if p.objectPath !in c.devices then c
      else
        var d := c.devices[p.objectPath];
        c.(devices := c.devices[p.objectPath := d.(props := MergeDevice(d.props, p).(changedMask := 0))])
    case DeviceAddedFrame(p) =>
      c.(devices := c.devices[p.objectPath := RefDevice(p.(changedMask := 0), map[], map[], map[])])
    case DeviceRemovedFrame(p) => c.(devices := c.devices - {p.objectPath})
    case ServiceAddedFrame(p) =>
      if p.devicePath !in c.devices then c
      else
        var d := c.devices[p.devicePath];
        c.(devices := c.devices[p.devicePath := d.(services := d.services[p.objectPath := p])])
    case CharAddedFrame(p) =>
      if DevicePathOf(p.objectPath) !in c.devices then c
      else
        var d := c.devices[DevicePathOf(p.objectPath)];
        c.(devices := c.devices[DevicePathOf(p.objectPath) := d.(chars := d.chars[p.objectPath := p])])
    case DescAddedFrame(p) =>
      if DevicePathOf(p.objectPath) !in c.devices then c
      else
        var d := c.devices[DevicePathOf(p.objectPath)];
        c.(devices := c.devices[DevicePathOf(p.objectPath) := d.(descs := d.descs[p.objectPath := p])])
    case _ => c
  }

  lemma ShowsUpdate(view: DeviceView, d: RefDevice, p: DeviceProps)
    requires ShowsDevice(view, d)
    ensures ShowsDevice(UpdateDevice(view, p), d.(props := MergeDevice(d.props, p).(changedMask := 0)))
  {
    hide Bit, ChangedFields;
  }

  lemma ShowsService(view: DeviceView, d: RefDevice, p: ServiceProps)
    requires ShowsDevice(view, d)
    ensures ShowsDevice(AddService(view, p), d.(services := d.services[p.objectPath := p]))
  {
  }

  lemma ShowsChar(view: DeviceView, d: RefDevice, p: CharProps)
    requires ShowsDevice(view, d)
    ensures ShowsDevice(AddChar(view, p), d.(chars := d.chars[p.objectPath := p]))
  {
  }

  lemma ShowsDesc(view: DeviceView, d: RefDevice, p: DescProps)
    requires ShowsDevice(view, d)
    ensures ShowsDevice(AddDesc(view, p), d.(descs := d.descs[p.objectPath := p]))
  {
  }

  lemma ShowsValue(view: DeviceView, d: RefDevice, path: Path, value: Bytes)
    requires path in view.chars && ShowsDevice(view, d)
    ensures ShowsDevice(PostValue(view, path, value), d)
  {
  }

  lemma ShowsNewDevice(p: DeviceProps)
    ensures ShowsDevice(NewDevice(p), RefDevice(p.(changedMask := 0), map[], map[], map[]))
  {
  }

  lemma ShowsAdapter(v: ClientView, c: Caches, p: AdapterProps)
    requires Shows(v, c)
    ensures Shows(Apply(v, AdapterFrame(p)), CachesApply(c, AdapterFrame(p)))
  {
    hide Bit, ShowsDevice;
  }

  /** Applying a frame keeps the caches showing the tree the frame describes. */
  lemma ShowsApply(v: ClientView, c: Caches, f: Frame)
    requires Shows(v, c)
    ensures Shows(Apply(v, f), CachesApply(c, f))
  {
    hide ShowsDevice, MergeAdapter, MergeDevice, UpdateDevice, AddService, AddChar, AddDesc, PostValue, NewDevice,
      DevicePathOf;
    match f
    case DeviceUpdateFrame(p) =>
      if p.objectPath in v.devices {
        ShowsUpdate(v.devices[p.objectPath], c.devices[p.objectPath], p);
      }
    case CharValueFrame(p) =>
      var d := DevicePathOf(p.objectPath);
      if d in v.devices && p.objectPath in v.devices[d].chars {
        ShowsValue(v.devices[d], c.devices[d], p.objectPath, p.value);
      }
    case DeviceAddedFrame(p) =>
      ShowsNewDevice(p);
    case ServiceAddedFrame(p) =>
      if p.devicePath in v.devices {
        ShowsService(v.devices[p.devicePath], c.devices[p.devicePath], p);
      }
    case CharAddedFrame(p) =>
      var d := DevicePathOf(p.objectPath);
      if d in v.devices {
        ShowsChar(v.devices[d], c.devices[d], p);
      }
    case DescAddedFrame(p) =>
      var d := DevicePathOf(p.objectPath);
      if d in v.devices {
        ShowsDesc(v.devices[d], c.devices[d], p);
      }
    case AdapterFrame(p) =>
      ShowsAdapter(v, c, p);
    case DeviceRemovedFrame(_) =>
    case SentinelFrame =>
    case ObjectRemovedFrame(_) =>
  }

  function CachesApplyAll(c: Caches, fs: seq<Frame>): Caches
    decreases |fs|
  {
    if fs == [] then c else CachesApplyAll(CachesApply(c, fs[0]), fs[1..])
  }

  lemma {:induction false} ShowsApplyAll(v: ClientView, c: Caches, fs: seq<Frame>)
    requires Shows(v, c)
    ensures Shows(ApplyAll(v, fs), CachesApplyAll(c, fs))
    decreases |fs|
  {
    hide Apply, CachesApply, Shows;
    if fs == [] {
    } else {
      ShowsApply(v, c, fs[0]);
      ShowsApplyAll(Apply(v, fs[0]), CachesApply(c, fs[0]), fs[1..]);
    }
  }

  lemma {:induction false} CachesApplyAppend(c: Caches, a: seq<Frame>, b: seq<Frame>)
    ensures CachesApplyAll(c, a + b) == CachesApplyAll(CachesApplyAll(c, a), b)
    decreases |a|
  {
    hide CachesApply;
    if a == [] {
      assert a + b == b;
    } else {
      assert (a + b)[1..] == a[1..] + b;
      CachesApplyAppend(CachesApply(c, a[0]), a[1..], b);
    }
  }

  lemma CachesApplyOne(c: Caches, f: Frame)
    ensures CachesApplyAll(c, [f]) == CachesApply(c, f)
  {
    assert [f][1..] == [];
  }

  // ── Frames of a call do what the call describes ──────────────────────────

  /** The subscription tables are the tree's live adapters and devices. */
  ghost predicate Aligned(tables: Tables, t: Tree) {
    && tables.devices == t.caches.devices.Keys
    && tables.adapters == t.present <= t.caches.adapters.Keys
    && (forall a :: a in t.caches.adapters ==> t.caches.adapters[a].changedMask == 0)
    && (forall d :: d in t.caches.devices ==> t.caches.devices[d].props.changedMask == 0)
  }

  lemma OverrideIsMerge(p: DeviceProps, path: Path, changed: PropertiesMap)
    ensures MergeDevice(p, DeviceUpdate(path, changed)).(changedMask := 0) == OverrideDevice(p.(changedMask := 0), changed)
  {
    hide Bit, DeviceMask;
    forall f: DeviceField
      ensures Bit(DeviceMask(changed), NativeDeviceBit(f)) <==> DeviceKey(f) in changed
    {
      DeviceMaskNamesKeys(changed, f);
    }
    assert Bit(DeviceMask(changed), NativeDeviceBit(Connected)) <==> "Connected" in changed;
    assert Bit(DeviceMask(changed), NativeDeviceBit(RSSI)) <==> "RSSI" in changed;
    assert Bit(DeviceMask(changed), NativeDeviceBit(Paired)) <==> "Paired" in changed;
    assert Bit(DeviceMask(changed), NativeDeviceBit(ServicesResolved)) <==> "ServicesResolved" in changed;
    assert Bit(DeviceMask(changed), NativeDeviceBit(Name)) <==> "Name" in changed;
    assert Bit(DeviceMask(changed), NativeDeviceBit(Trusted)) <==> "Trusted" in changed;
    assert Bit(DeviceMask(changed), NativeDeviceBit(Blocked)) <==> "Blocked" in changed;
    assert Bit(DeviceMask(changed), NativeDeviceBit(Alias)) <==> "Alias" in changed;
  }

  lemma OverrideIsMergeAdapter(p: AdapterProps, path: Path, changed: PropertiesMap)
    ensures MergeAdapter(p, AdapterUpdate(path, changed)).(changedMask := 0) == OverrideAdapter(p.(changedMask := 0), changed)
  {
    hide Bit, AdapterMask;
    forall f: AdapterField
      ensures Bit(AdapterMask(changed), NativeAdapterBit(f)) <==> AdapterKey(f) in changed
    {
      AdapterMaskNamesKeys(changed, f);
    }
    assert Bit(AdapterMask(changed), NativeAdapterBit(Powered)) <==> "Powered" in changed;
    assert Bit(AdapterMask(changed), NativeAdapterBit(Discovering)) <==> "Discovering" in changed;
    assert Bit(AdapterMask(changed), NativeAdapterBit(Discoverable)) <==> "Discoverable" in changed;
    assert Bit(AdapterMask(changed), NativeAdapterBit(Pairable)) <==> "Pairable" in changed;
    assert Bit(AdapterMask(changed), NativeAdapterBit(AdapterAlias)) <==> "Alias" in changed;
  }

  lemma FullMaskTakesAll(p: AdapterProps, full: AdapterProps)
    requires full.changedMask == ALL_BITS
    ensures MergeAdapter(p, full).(changedMask := 0)
         == p.(changedMask := 0, alias := full.alias, powered := full.powered, discoverable := full.discoverable,
               pairable := full.pairable, discovering := full.discovering)
  {
    hide Bit;
    AllBitsSet(0);
    AllBitsSet(1);
    AllBitsSet(2);
    AllBitsSet(3);
    AllBitsSet(4);
  }

  lemma InterfaceAddedMatches(tables: Tables, t: Tree, path: Path, iface: InterfaceName, props: PropertiesMap)
    requires Aligned(tables, t)
    ensures
      var h := InterfaceAdded(tables, path, iface, props);
      var t' := TreeInterfaceAdded(t, path, iface, props);
      CachesApplyAll(t.caches, h.frames) == t'.caches && Aligned(h.tables, t')
  {
    hide MergeAdapter, MergeDevice, DevicePathOf, CachesApply, CachesApplyAll, ExtractAdapter, ExtractDevice, Aligned;
    match iface
    case Adapter1 =>
      AdapterAddedMatches(tables, t, path, props);
    case Device1 =>
      DeviceAddedMatches(tables, t, path, props);
    case GattService1 =>
      ServiceAddedMatches(tables, t, path, props);
    case GattCharacteristic1 =>
      CharAddedMatches(tables, t, path, props);
    case GattDescriptor1 =>
      DescAddedMatches(tables, t, path, props);
    case OtherInterface(_) =>
      NothingApplied(t.caches);
  }

  lemma NothingApplied(c: Caches)
    ensures CachesApplyAll(c, []) == c
  {
  }

  lemma ServiceAddedMatches(tables: Tables, t: Tree, path: Path, props: PropertiesMap)
    requires Aligned(tables, t)
    ensures
      var h := InterfaceAdded(tables, path, GattService1, props);
      var t' := TreeInterfaceAdded(t, path, GattService1, props);
      CachesApplyAll(t.caches, h.frames) == t'.caches && Aligned(h.tables, t')
  {
    hide DevicePathOf;
    CachesApplyOne(t.caches, ServiceAddedFrame(ExtractService(path, props)));
  }

  lemma CharAddedMatches(tables: Tables, t: Tree, path: Path, props: PropertiesMap)
    requires Aligned(tables, t)
    ensures
      var h := InterfaceAdded(tables, path, GattCharacteristic1, props);
      var t' := TreeInterfaceAdded(t, path, GattCharacteristic1, props);
      CachesApplyAll(t.caches, h.frames) == t'.caches && Aligned(h.tables, t')
  {
    hide DevicePathOf;
    CachesApplyOne(t.caches, CharAddedFrame(ExtractChar(path, props)));
  }

  lemma DescAddedMatches(tables: Tables, t: Tree, path: Path, props: PropertiesMap)
    requires Aligned(tables, t)
    ensures
      var h := InterfaceAdded(tables, path, GattDescriptor1, props);
      var t' := TreeInterfaceAdded(t, path, GattDescriptor1, props);
      CachesApplyAll(t.caches, h.frames) == t'.caches && Aligned(h.tables, t')
  {
    hide DevicePathOf;
    CachesApplyOne(t.caches, DescAddedFrame(ExtractDesc(path, props)));
  }

  lemma DeviceAddedMatches(tables: Tables, t: Tree, path: Path, props: PropertiesMap)
    requires Aligned(tables, t)
    ensures
      var h := InterfaceAdded(tables, path, Device1, props);
      var t' := TreeInterfaceAdded(t, path, Device1, props);
      CachesApplyAll(t.caches, h.frames) == t'.caches && Aligned(h.tables, t')
  {
    hide DevicePathOf, GetManufacturer, GetServiceData;
    CachesApplyOne(t.caches, DeviceAddedFrame(ExtractDevice(path, props)));
  }

  lemma AdapterAddedMatches(tables: Tables, t: Tree, path: Path, props: PropertiesMap)
    requires Aligned(tables, t)
    ensures
      var h := InterfaceAdded(tables, path, Adapter1, props);
      var t' := TreeInterfaceAdded(t, path, Adapter1, props);
      CachesApplyAll(t.caches, h.frames) == t'.caches && Aligned(h.tables, t')
  {
    hide MergeAdapter, DevicePathOf;
    var p := ExtractAdapter(path, props);
    CachesApplyOne(t.caches, AdapterFrame(p));
    FullMaskTakesAll(if path in t.caches.adapters then t.caches.adapters[path] else p, p);
  }

  lemma {:induction false} AddedMatches(tables: Tables, t: Tree, path: Path, ifaces: Interfaces)
    requires Aligned(tables, t)
    ensures
      var h := InterfacesAdded(tables, path, ifaces);
      var t' := TreeAdded(t, path, ifaces);
      CachesApplyAll(t.caches, h.frames) == t'.caches && Aligned(h.tables, t')
    decreases |ifaces|
  {
    hide InterfaceAdded, TreeInterfaceAdded, CachesApply, Aligned;
    if ifaces == [] {
    } else {
      var first := InterfaceAdded(tables, path, ifaces[0].0, ifaces[0].1);
      var t1 := TreeInterfaceAdded(t, path, ifaces[0].0, ifaces[0].1);
      InterfaceAddedMatches(tables, t, path, ifaces[0].0, ifaces[0].1);
      AddedMatches(first.tables, t1, path, ifaces[1..]);
      CachesApplyAppend(t.caches, first.frames, InterfacesAdded(first.tables, path, ifaces[1..]).frames);
    }
  }

  lemma InterfaceRemovedMatches(tables: Tables, t: Tree, path: Path, iface: InterfaceName)
    requires Aligned(tables, t)
    ensures
      var h := InterfaceRemoved(tables, path, iface);
      var t' := TreeInterfaceRemoved(t, path, iface);
      CachesApplyAll(t.caches, h.frames) == t'.caches && Aligned(h.tables, t')
  {
    hide MergeAdapter, MergeDevice, DevicePathOf;
    var h := InterfaceRemoved(tables, path, iface);
    if h.frames != [] {
      CachesApplyOne(t.caches, h.frames[0]);
    }
  }

  lemma {:induction false} RemovedMatches(tables: Tables, t: Tree, path: Path, names: seq<InterfaceName>)
    requires Aligned(tables, t)
    ensures
      var h := InterfacesRemoved(tables, path, names);
      var t' := TreeRemoved(t, path, names);
      CachesApplyAll(t.caches, h.frames) == t'.caches && Aligned(h.tables, t')
    decreases |names|
  {
    hide InterfaceRemoved, TreeInterfaceRemoved, CachesApply, Aligned;
    if names == [] {
    } else {
      var first := InterfaceRemoved(tables, path, names[0]);
      var t1 := TreeInterfaceRemoved(t, path, names[0]);
      InterfaceRemovedMatches(tables, t, path, names[0]);
      RemovedMatches(first.tables, t1, path, names[1..]);
      CachesApplyAppend(t.caches, first.frames, InterfacesRemoved(first.tables, path, names[1..]).frames);
    }
  }

  lemma ChangedMatches(tables: Tables, t: Tree, path: Path, iface: InterfaceName, changed: PropertiesMap)
    requires Aligned(tables, t)
    ensures
      var fs := ChangeFrames(tables, path, iface, changed);
      var t' := TreeChanged(t, path, iface, changed);
      CachesApplyAll(t.caches, fs) == t'.caches && Aligned(tables, t')
  {
    hide MergeAdapter, MergeDevice, OverrideAdapter, OverrideDevice, DevicePathOf, AdapterMask, DeviceMask,
      AdapterChangeReadable, DeviceChangeReadable;
    var fs := ChangeFrames(tables, path, iface, changed);
    if fs != [] {
      CachesApplyOne(t.caches, fs[0]);
    }
    if iface == Adapter1 && path in t.present {
      OverrideIsMergeAdapter(t.caches.adapters[path], path, changed);
    } else if iface == Device1 && path in t.caches.devices {
      OverrideIsMerge(t.caches.devices[path].props, path, changed);
    }
  }

  /** The frames a call posts take the caches where the call takes the tree. */
  lemma {:induction false} CallMatches(tables: Tables, t: Tree, c: Call)
    requires Aligned(tables, t)
    ensures
      var h := Handle(tables, c);
      var t' := TreeCall(t, c);
      CachesApplyAll(t.caches, h.frames) == t'.caches && Aligned(h.tables, t')
  {
    hide InterfacesAdded, InterfacesRemoved, ChangeFrames, TreeAdded, TreeRemoved, TreeChanged, CachesApply;
    match c
    case Added(path, ifaces) => AddedMatches(tables, t, path, ifaces);
    case Removed(path, names) => RemovedMatches(tables, t, path, names);
    case Changed(path, iface, changed) => ChangedMatches(tables, t, path, iface, changed);
    case SubscribeNotify(_) =>
    case UnsubscribeNotify(_) =>
  }
}
