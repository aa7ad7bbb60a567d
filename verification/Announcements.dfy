/** What an announcement reads out of a property map, key by key on the variants, from the handler to
    the Dart caches. */
module Announcements {
  import opened ByteStrings
  import opened Types
  import opened Masks
  import opened Dbus
  import opened Paths
  import opened Frames
  import opened ObjectManagers
  import opened ClientModel
  import opened Replication
  import opened Sizes
  import opened Runs
  import opened Lifetimes
  import opened Linking
  import opened Snapshot
  import Writes

  // ── Records and property maps ────────────────────────────────────────────

  predicate SameType(v: Variant, w: Variant) {
    match w
    case BoolVariant(_) => v.BoolVariant?
    case I16Variant(_) => v.I16Variant?
    case U16Variant(_) => v.U16Variant?
    case U32Variant(_) => v.U32Variant?
    case StringVariant(_) => v.StringVariant?
    case PathVariant(_) => v.PathVariant?
    case StringsVariant(_) => v.StringsVariant?
    case BytesVariant(_) => v.BytesVariant?
    case _ => false
  }

  /** The value a C++ struct member starts with. */
  predicate IsDefault(v: Variant) {
    v in {BoolVariant(false), I16Variant(0), U16Variant(0), U32Variant(0), StringVariant([]), PathVariant([]),
          StringsVariant([]), BytesVariant([])}
  }

  /** A record member, as a variant of its type, is what the map has under the key when that is of the
      type, and its default otherwise. */
  predicate Reads(props: PropertiesMap, key: string, member: Variant) {
    if key in props && SameType(props[key], member) then member == props[key] else IsDefault(member)
  }

  ghost predicate AdapterReads(p: AdapterProps, path: Path, props: PropertiesMap) {
    && p.objectPath == path && Reads(props, "Address", StringVariant(p.address))
    && Reads(props, "Name", StringVariant(p.name)) && Reads(props, "DiscoverableTimeout", U32Variant(p.discoverableTimeout))
    && Reads(props, "UUIDs", StringsVariant(p.uuids)) && AdapterStateReads(p, props)
  }

  /** The five tracked fields. */
  ghost predicate AdapterStateReads(p: AdapterProps, props: PropertiesMap) {
    && Reads(props, "Powered", BoolVariant(p.powered)) && Reads(props, "Discovering", BoolVariant(p.discovering))
    && Reads(props, "Discoverable", BoolVariant(p.discoverable)) && Reads(props, "Pairable", BoolVariant(p.pairable))
    && Reads(props, "Alias", StringVariant(p.alias))
  }

  ghost predicate DeviceReads(p: DeviceProps, path: Path, props: PropertiesMap) {
    && p.objectPath == path && Reads(props, "Adapter", PathVariant(p.adapterPath))
    && Reads(props, "Address", StringVariant(p.address)) && Reads(props, "AddressType", StringVariant(p.addressType))
    && Reads(props, "TxPower", I16Variant(p.txPower)) && Reads(props, "Appearance", U16Variant(p.appearance))
    && Reads(props, "Class", U32Variant(p.deviceClass)) && Reads(props, "LegacyPairing", BoolVariant(p.legacyPairing))
    && Reads(props, "UUIDs", StringsVariant(p.uuids)) && IsManufacturerData(props, p.manufacturerData)
    && IsServiceData(props, p.serviceData) && DeviceStateReads(p, props)
  }

  /** The eight tracked fields. */
  ghost predicate DeviceStateReads(p: DeviceProps, props: PropertiesMap) {
    && Reads(props, "Connected", BoolVariant(p.connected)) && Reads(props, "RSSI", I16Variant(p.rssi))
    && Reads(props, "Paired", BoolVariant(p.paired)) && Reads(props, "ServicesResolved", BoolVariant(p.servicesResolved))
    && Reads(props, "Name", StringVariant(p.name)) && Reads(props, "Trusted", BoolVariant(p.trusted))
    && Reads(props, "Blocked", BoolVariant(p.blocked)) && Reads(props, "Alias", StringVariant(p.alias))
  }

  ghost predicate ServiceReads(p: ServiceProps, path: Path, props: PropertiesMap) {
    && p.objectPath == path && Reads(props, "Device", PathVariant(p.devicePath))
    && Reads(props, "UUID", StringVariant(p.uuid)) && Reads(props, "Primary", BoolVariant(p.primary))
    && Reads(props, "Handle", U16Variant(p.handle))
  }

  ghost predicate CharReads(p: CharProps, path: Path, props: PropertiesMap) {
    && p.objectPath == path && Reads(props, "Service", PathVariant(p.servicePath))
    && Reads(props, "UUID", StringVariant(p.uuid)) && Reads(props, "Value", BytesVariant(p.value))
    && Reads(props, "Notifying", BoolVariant(p.notifying)) && Reads(props, "WriteAcquired", BoolVariant(p.writeAcquired))
    && Reads(props, "NotifyAcquired", BoolVariant(p.notifyAcquired)) && Reads(props, "Handle", U16Variant(p.handle))
    && Reads(props, "MTU", U16Variant(p.mtu)) && Reads(props, "Flags", StringsVariant(p.flags))
  }

  ghost predicate DescReads(p: DescProps, path: Path, props: PropertiesMap) {
    && p.objectPath == path && Reads(props, "Characteristic", PathVariant(p.charPath))
    && Reads(props, "UUID", StringVariant(p.uuid)) && Reads(props, "Value", BytesVariant(p.value))
    && Reads(props, "Handle", U16Variant(p.handle))
  }

  /** f announces the interface of the object at path with what props has. */
  ghost predicate AnnouncementReads(f: Frame, path: Path, iface: InterfaceName, props: PropertiesMap) {
    match iface
    case Adapter1 => f.AdapterFrame? && f.adapter.changedMask == ALL_BITS && AdapterReads(f.adapter, path, props)
    case Device1 => f.DeviceAddedFrame? && f.device.changedMask == ALL_BITS && DeviceReads(f.device, path, props)
    case GattService1 => f.ServiceAddedFrame? && ServiceReads(f.service, path, props)
    case GattCharacteristic1 => f.CharAddedFrame? && CharReads(f.characteristic, path, props)
    case GattDescriptor1 => f.DescAddedFrame? && DescReads(f.desc, path, props)
    case OtherInterface(_) => false
  }

  // ── The handler ──────────────────────────────────────────────────────────

  lemma GettersRead(props: PropertiesMap, key: string)
    ensures Reads(props, key, BoolVariant(GetBool(props, key))) && Reads(props, key, StringVariant(GetString(props, key)))
    ensures Reads(props, key, PathVariant(GetPath(props, key))) && Reads(props, key, BytesVariant(GetBytes(props, key)))
    ensures Reads(props, key, StringsVariant(GetStrings(props, key)))
    ensures Reads(props, key, I16Variant(GetI16(props, key))) && Reads(props, key, U16Variant(GetU16(props, key)))
    ensures Reads(props, key, U32Variant(GetU32(props, key)))
  {
  }

  lemma AdapterExtracted(path: Path, props: PropertiesMap)
    ensures AdapterReads(ExtractAdapter(path, props), path, props)
  {
    hide Reads, GetBool, GetString, GetStrings, GetU32;
    GettersRead(props, "Address");
    GettersRead(props, "Name");
    GettersRead(props, "Alias");
    GettersRead(props, "Powered");
    GettersRead(props, "Discoverable");
    GettersRead(props, "Pairable");
    GettersRead(props, "Discovering");
    GettersRead(props, "DiscoverableTimeout");
    GettersRead(props, "UUIDs");
  }

  lemma DeviceStateExtracted(path: Path, props: PropertiesMap)
    ensures DeviceStateReads(ExtractDevice(path, props), props)
  {
    hide Reads, GetBool, GetString, GetStrings, GetU32, GetU16, GetI16, GetPath, GetManufacturer, GetServiceData;
    GettersRead(props, "Connected");
    GettersRead(props, "RSSI");
    GettersRead(props, "Paired");
    GettersRead(props, "ServicesResolved");
    GettersRead(props, "Name");
    GettersRead(props, "Trusted");
    GettersRead(props, "Blocked");
    GettersRead(props, "Alias");
  }

  lemma DeviceExtracted(path: Path, props: PropertiesMap)
    ensures DeviceReads(ExtractDevice(path, props), path, props)
  {
    hide Reads, DeviceStateReads, IsManufacturerData, IsServiceData, GetBool, GetString, GetStrings, GetU32, GetU16, GetI16,
      GetPath, GetManufacturer, GetServiceData;
    DeviceStateExtracted(path, props);
    GettersRead(props, "Adapter");
    GettersRead(props, "Address");
    GettersRead(props, "AddressType");
    GettersRead(props, "TxPower");
    GettersRead(props, "Appearance");
    GettersRead(props, "Class");
    GettersRead(props, "LegacyPairing");
    GettersRead(props, "UUIDs");
    GetManufacturerIs(props);
    GetServiceDataIs(props);
  }

  lemma ServiceExtracted(path: Path, props: PropertiesMap)
    ensures ServiceReads(ExtractService(path, props), path, props)
  {
  }

  lemma CharExtracted(path: Path, props: PropertiesMap)
    ensures CharReads(ExtractChar(path, props), path, props)
  {
    hide Reads, GetBool, GetString, GetStrings, GetBytes, GetU16, GetPath;
    GettersRead(props, "Service");
    GettersRead(props, "UUID");
    GettersRead(props, "Value");
    GettersRead(props, "Notifying");
    GettersRead(props, "WriteAcquired");
    GettersRead(props, "NotifyAcquired");
    GettersRead(props, "Handle");
    GettersRead(props, "MTU");
    GettersRead(props, "Flags");
  }

  lemma DescExtracted(path: Path, props: PropertiesMap)
    ensures DescReads(ExtractDesc(path, props), path, props)
  {
  }

  /** One known interface posts one frame, which carries every property of its right type and a default
      for each other member; an unknown one posts none. */
  lemma InterfaceAddedReads(t: Tables, path: Path, iface: InterfaceName, props: PropertiesMap)
    ensures
      var fs := InterfaceAdded(t, path, iface, props).frames;
      if iface.OtherInterface? then fs == [] else |fs| == 1 && AnnouncementReads(fs[0], path, iface, props)
  {
    hide AdapterReads, DeviceReads, ServiceReads, CharReads, DescReads, GetManufacturer, GetServiceData;
    AdapterExtracted(path, props);
    DeviceExtracted(path, props);
    ServiceExtracted(path, props);
    CharExtracted(path, props);
    DescExtracted(path, props);
  }

  // ── Every run ────────────────────────────────────────────────────────────

  predicate IsAnnouncement(f: Frame) {
    f.DeviceAddedFrame? || f.ServiceAddedFrame? || f.CharAddedFrame? || f.DescAddedFrame?
  }

  /** Some call announced the interface of the object at path with these properties. */
  ghost predicate Announced(actions: seq<Action>, path: Path, iface: InterfaceName, props: PropertiesMap) {
    exists a :: a in actions && a.Do? && a.call.Added? && a.call.path == path && (iface, props) in a.call.ifaces
  }

  ghost predicate Explained(f: Frame, actions: seq<Action>) {
    exists path, iface, props :: Announced(actions, path, iface, props) && AnnouncementReads(f, path, iface, props)
  }

  ghost predicate AllExplained(fs: seq<Frame>, actions: seq<Action>) {
    forall i :: 0 <= i < |fs| && IsAnnouncement(fs[i]) ==> Explained(fs[i], actions)
  }

  lemma {:induction false} AddedExplained(t: Tables, path: Path, ifaces: Interfaces, actions: seq<Action>)
    requires forall i :: 0 <= i < |ifaces| ==> Announced(actions, path, ifaces[i].0, ifaces[i].1)
    ensures AllExplained(InterfacesAdded(t, path, ifaces).frames, actions)
    decreases |ifaces|
  {
    hide InterfaceAdded, Announced, AnnouncementReads;
    if ifaces == [] {
    } else {
      var iface, props := ifaces[0].0, ifaces[0].1;
      assert Announced(actions, path, iface, props);
      InterfaceAddedReads(t, path, iface, props);
      AddedExplained(InterfaceAdded(t, path, iface, props).tables, path, ifaces[1..], actions);
    }
  }

  lemma {:induction false} RemovedAnnouncesNothing(t: Tables, path: Path, names: seq<InterfaceName>)
    ensures forall i :: 0 <= i < |InterfacesRemoved(t, path, names).frames| ==>
              !IsAnnouncement(InterfacesRemoved(t, path, names).frames[i])
    decreases |names|
  {
    if names == [] {
    } else {
      RemovedAnnouncesNothing(InterfaceRemoved(t, path, names[0]).tables, path, names[1..]);
    }
  }

  lemma CallExplained(t: Tables, c: Call, actions: seq<Action>)
    requires Do(c) in actions
    ensures AllExplained(Handle(t, c).frames, actions)
  {
    hide InterfacesAdded, InterfacesRemoved, AnnouncementReads, Explained;
    match c
    case Added(path, ifaces) =>
      forall i | 0 <= i < |ifaces| ensures Announced(actions, path, ifaces[i].0, ifaces[i].1) {
        assert (ifaces[i].0, ifaces[i].1) == ifaces[i];
      }
      AddedExplained(t, path, ifaces, actions);
    case Removed(path, names) => RemovedAnnouncesNothing(t, path, names);
    case _ =>
  }

  lemma ExplainedLater(fs: seq<Frame>, actions: seq<Action>, a: Action)
    requires AllExplained(fs, actions)
    ensures AllExplained(fs, actions + [a])
  {
    hide AnnouncementReads;
    forall i | 0 <= i < |fs| && IsAnnouncement(fs[i]) ensures Explained(fs[i], actions + [a]) {
      var path, iface, props :| Announced(actions, path, iface, props) && AnnouncementReads(fs[i], path, iface, props);
      assert Announced(actions + [a], path, iface, props);
    }
  }

  lemma StepPosts(s: System, a: Action)
    ensures Step(s, a).posted
         == s.posted + (match a case Do(c) => Handle(s.tables, c).frames case PostSentinel => [SentinelFrame] case Deliver => [])
  {
    hide Handle, AllFrameBytes, TreeCall, OnMessage;
    assert s.posted + [] == s.posted;
  }

  /** In every run each announcement posted carries what some call's property map has. */
  lemma {:induction false} EveryAnnouncementReads(actions: seq<Action>)
    ensures AllExplained(Run(START, actions).posted, actions)
    decreases |actions|
  {
    hide Step, Explained, Handle;
    if actions == [] {
    } else {
      var front, last := actions[..|actions| - 1], actions[|actions| - 1];
      assert actions == front + [last];
      EveryAnnouncementReads(front);
      RunAppendOne(START, front, last);
      var s := Run(START, front);
      StepPosts(s, last);
      ExplainedLater(s.posted, front, last);
      if last.Do? {
        CallExplained(s.tables, last.call, actions);
      }
    }
  }

  function InterfaceOf(kind: GattKind): InterfaceName {
    match kind
    case ServiceObject => GattService1
    case CharObject => GattCharacteristic1
    case DescObject => GattDescriptor1
  }

  /** The cached record has what props has. */
  ghost predicate RecordReads(v: ClientView, kind: GattKind, d: Path, p: Path, props: PropertiesMap)
    requires Lifetimes.Caches(v, kind, d, p)
  {
    match kind
    case ServiceObject => ServiceReads(v.devices[d].services[p].props, p, props)
    case CharObject => CharReads(v.devices[d].chars[p].props, p, props)
    case DescObject => DescReads(v.devices[d].descs[p].props, p, props)
  }

  /** In every reachable state each cached service, characteristic and descriptor has what the property
      map of some call announcing it had. */
  lemma {:induction false} CachedObjectReads(actions: seq<Action>, kind: GattKind, d: Path, p: Path)
    requires ActionsSized(actions) && Lifetimes.Caches(Run(START, actions).client, kind, d, p)
    ensures exists props :: Announced(actions, p, InterfaceOf(kind), props)
                         && RecordReads(Run(START, actions).client, kind, d, p, props)
  {
    hide Step, Announced, ServiceReads, CharReads, DescReads, AdapterReads, DeviceReads, Latest;
    var s := Run(START, actions);
    CachedInEveryRun(actions, kind, d, p);
    EveryAnnouncementReads(actions);
    var fs := s.posted[..s.delivered];
    var i: nat :| Latest(fs, i, kind, d, p);
    LatestIsIndex(fs, i, kind, d, p);
    assert CachesRecord(s.client, kind, d, p, fs[i]);
    RecordOfAnnouncement(s.client, kind, d, p, s.posted[i], actions);
  }

  lemma RecordOfAnnouncement(v: ClientView, kind: GattKind, d: Path, p: Path, f: Frame, actions: seq<Action>)
    requires CachesRecord(v, kind, d, p, f) && (IsAnnouncement(f) ==> Explained(f, actions))
    ensures exists props :: Announced(actions, p, InterfaceOf(kind), props) && RecordReads(v, kind, d, p, props)
  {
    hide Announced;
    var path, iface, props :| Announced(actions, path, iface, props) && AnnouncementReads(f, path, iface, props);
    assert path == p && iface == InterfaceOf(kind);
    assert RecordReads(v, kind, d, p, props);
  }

  // ── The cached adapter and device ────────────────────────────────────────

  lemma {:induction false} TreeAddedSplit(t: Tree, path: Path, ifaces: Interfaces, k: nat)
    requires k <= |ifaces|
    ensures TreeAdded(t, path, ifaces) == TreeAdded(TreeAdded(t, path, ifaces[..k]), path, ifaces[k..])
    decreases k
  {
    hide TreeInterfaceAdded;
    if k == 0 {
      assert ifaces[0..] == ifaces;
    } else {
      assert ifaces[1..][..k - 1] == ifaces[..k][1..] && ifaces[1..][k - 1..] == ifaces[k..];
      TreeAddedSplit(TreeInterfaceAdded(t, path, ifaces[0].0, ifaces[0].1), path, ifaces[1..], k - 1);
    }
  }

  predicate OnlyAt(ifaces: Interfaces, k: nat, iface: InterfaceName) {
    && k < |ifaces| && ifaces[k].0 == iface
    && forall j :: 0 <= j < |ifaces| && j != k ==> ifaces[j].0 != iface
  }

  lemma {:induction false} OthersLeaveAdapters(t: Tree, path: Path, ifaces: Interfaces)
    requires forall j :: 0 <= j < |ifaces| ==> ifaces[j].0 != Adapter1
    ensures TreeAdded(t, path, ifaces).caches.adapters == t.caches.adapters
    decreases |ifaces|
  {
    hide DevicePathOf, ExtractDevice, ExtractService, ExtractChar, ExtractDesc;
    if ifaces == [] {
    } else {
      OthersLeaveAdapters(TreeInterfaceAdded(t, path, ifaces[0].0, ifaces[0].1), path, ifaces[1..]);
    }
  }

  lemma TreeHasDevice(t: Tree, path: Path, ifaces: Interfaces, k: nat)
    requires OnlyAt(ifaces, k, Device1)
    ensures
      var t' := TreeAdded(t, path, ifaces);
      && path in t'.caches.devices
      && t'.caches.devices[path].props == ExtractDevice(path, ifaces[k].1).(changedMask := 0)
  {
    hide ExtractDevice, DevicePathOf, TreeAdded;
    var before := TreeAdded(t, path, ifaces[..k]);
    TreeAddedSplit(t, path, ifaces, k);
    assert ifaces[k..][0] == ifaces[k] && ifaces[k..][1..] == ifaces[k + 1..];
    OneAdded(before, path, ifaces[k..]);
    Writes.AddedLeavesDevice(TreeInterfaceAdded(before, path, Device1, ifaces[k].1), path, ifaces[k + 1..], path);
  }

  lemma OneAdded(t: Tree, path: Path, ifaces: Interfaces)
    requires ifaces != []
    ensures TreeAdded(t, path, ifaces) == TreeAdded(TreeInterfaceAdded(t, path, ifaces[0].0, ifaces[0].1), path, ifaces[1..])
  {
    hide TreeInterfaceAdded;
  }

  lemma TreeHasAdapter(t: Tree, path: Path, ifaces: Interfaces, k: nat)
    requires OnlyAt(ifaces, k, Adapter1)
    ensures
      var t' := TreeAdded(t, path, ifaces);
      && path in t'.caches.adapters
      && t'.caches.adapters[path]
         == TreeInterfaceAdded(t, path, Adapter1, ifaces[k].1).caches.adapters[path]
  {
    hide ExtractAdapter, DevicePathOf, TreeAdded;
    var before := TreeAdded(t, path, ifaces[..k]);
    OthersLeaveAdapters(t, path, ifaces[..k]);
    TreeAddedSplit(t, path, ifaces, k);
    assert ifaces[k..][0] == ifaces[k] && ifaces[k..][1..] == ifaces[k + 1..];
    OneAdded(before, path, ifaces[k..]);
    OthersLeaveAdapters(TreeInterfaceAdded(before, path, Adapter1, ifaces[k].1), path, ifaces[k + 1..]);
  }

  lemma MaskIsNotRead(p: DeviceProps, q: DeviceProps, path: Path, props: PropertiesMap)
    requires p.(changedMask := 0) == q.(changedMask := 0) && DeviceReads(p, path, props)
    ensures DeviceReads(q, path, props)
  {
    hide Reads, IsManufacturerData, IsServiceData;
  }

  /** Once a device's announcement and what was queued before it is applied, the cached device has what
      the property map has. */
  lemma {:induction false} AnnouncedDeviceIsCached(s: System, path: Path, ifaces: Interfaces, k: nat)
    requires Consistent(s) && CallSized(Added(path, ifaces)) && OnlyAt(ifaces, k, Device1)
    ensures
      var s' := Step(s, Do(Added(path, ifaces)));
      var after := DeliverAll(s'.client, s'.queue);
      && Consistent(s') && path in s'.tree.caches.devices
      && path in after.devices && DeviceReads(after.devices[path].props, path, ifaces[k].1)
  {
    hide ExtractDevice, DevicePathOf, TreeAdded, OnMessage, DeviceReads, IsFrame, CallSized, Handle, AllFrameBytes, Aligned;
    var a := Do(Added(path, ifaces));
    StepKeepsConsistent(s, a);
    TreeHasDevice(s.tree, path, ifaces, k);
    DeviceExtracted(path, ifaces[k].1);
    var s' := Step(s, a);
    var after := DeliverAll(s'.client, s'.queue);
    assert ShowsDevice(after.devices[path], s'.tree.caches.devices[path]);
    MaskIsNotRead(ExtractDevice(path, ifaces[k].1), after.devices[path].props, path, ifaces[k].1);
  }

  /** From its announcement on, for any run that does not announce or remove it: each tracked field of the
      cached device is its last readable change, else what was announced, and every other field is what
      was announced. */
  lemma {:induction false} DeviceSinceAnnounced(s: System, path: Path, ifaces: Interfaces, k: nat, actions: seq<Action>)
    requires Consistent(s) && CallSized(Added(path, ifaces)) && OnlyAt(ifaces, k, Device1)
    requires ActionsSized(actions) && Writes.AllLeave(actions, path, Device1)
    ensures
      var end := Run(Step(s, Do(Added(path, ifaces))), actions);
      var after := DeliverAll(end.client, end.queue);
      var maps := Writes.ChangesOf(actions, path, Device1);
      && path in after.devices
      && exists p :: DeviceReads(p, path, ifaces[k].1) && Writes.Written(p, after.devices[path].props, maps)
  {
    hide Step, Run, Shows, Aligned, IsFrame, DeviceReads, CallSized, DeviceGet, DeviceUntracked, Writes.LastWrite,
      Writes.ChangesOf, Writes.Leaves;
    AnnouncedDeviceIsCached(s, path, ifaces, k);
    var s' := Step(s, Do(Added(path, ifaces)));
    Writes.LastWriterWins(s', actions, path);
    var p := DeliverAll(s'.client, s'.queue).devices[path].props;
    assert DeviceReads(p, path, ifaces[k].1);
  }

  lemma AdapterOverrides(was: AdapterProps, path: Path, props: PropertiesMap, q: AdapterProps)
    requires q.(changedMask := 0) == was.(
               changedMask := 0, powered := GetBool(props, "Powered"), discovering := GetBool(props, "Discovering"),
               discoverable := GetBool(props, "Discoverable"), pairable := GetBool(props, "Pairable"),
               alias := GetString(props, "Alias"))
    ensures AdapterStateReads(q, props) && AdapterUntracked(q) == AdapterUntracked(was)
    ensures was.(changedMask := 0) == ExtractAdapter(path, props).(changedMask := 0) ==> AdapterReads(q, path, props)
  {
    hide Reads, GetBool, GetString, GetStrings, GetU32;
    GettersRead(props, "Powered");
    GettersRead(props, "Discovering");
    GettersRead(props, "Discoverable");
    GettersRead(props, "Pairable");
    GettersRead(props, "Alias");
    AdapterExtracted(path, props);
  }

  /** An adapter's announcement sets the tracked fields of a cached adapter and keeps the rest, and
      makes one that is not cached with every property of the map. */
  lemma {:induction false} AnnouncedAdapterIsCached(s: System, path: Path, ifaces: Interfaces, k: nat)
    requires Consistent(s) && CallSized(Added(path, ifaces)) && OnlyAt(ifaces, k, Adapter1)
    ensures
      var s' := Step(s, Do(Added(path, ifaces)));
      var before, after := DeliverAll(s.client, s.queue), DeliverAll(s'.client, s'.queue);
      && path in after.adapters && AdapterStateReads(after.adapters[path], ifaces[k].1)
      && if path in before.adapters then AdapterUntracked(after.adapters[path]) == AdapterUntracked(before.adapters[path])
         else AdapterReads(after.adapters[path], path, ifaces[k].1)
  {
    hide ExtractAdapter, DevicePathOf, TreeAdded, OnMessage, AdapterReads, AdapterStateReads, IsFrame, CallSized, Handle,
      AllFrameBytes, ShowsDevice, GetBool, GetString;
    var a := Do(Added(path, ifaces));
    StepKeepsConsistent(s, a);
    TreeHasAdapter(s.tree, path, ifaces, k);
    var s' := Step(s, a);
    var before, after := DeliverAll(s.client, s.queue), DeliverAll(s'.client, s'.queue);
    var was := if path in before.adapters then before.adapters[path] else ExtractAdapter(path, ifaces[k].1);
    AdapterOverrides(was, path, ifaces[k].1, after.adapters[path]);
  }

  /** Announcing a readable map and overriding a record with it agree on every tracked key present. */
  lemma AnnouncingIsOverriding(t: Tables, path: Path, props: PropertiesMap, p: DeviceProps, f: DeviceField)
    requires DeviceChangeReadable(props) && DeviceKey(f) in props
    ensures
      var fs := InterfaceAdded(t, path, Device1, props).frames;
      && |fs| == 1 && fs[0].DeviceAddedFrame?
      && DeviceGet(fs[0].device, f) == DeviceGet(OverrideDevice(p, props), f) == Writes.ValueOf(props[DeviceKey(f)])
  {
    hide GetManufacturer, GetServiceData;
  }

  // ── Readable changes ─────────────────────────────────────────────────────

  /** get<T> of the tracked field's type does not throw. */
  predicate TypedAs(f: DeviceField, v: Variant) {
    match f
    case RSSI => v.I16Variant?
    case Name => v.StringVariant?
    case Alias => v.StringVariant?
    case _ => v.BoolVariant?
  }

  predicate AdapterTypedAs(f: AdapterField, v: Variant) {
    match f
    case AdapterAlias => v.StringVariant?
    case _ => v.BoolVariant?
  }

  /** A change map is readable exactly when each tracked property in it has its field's type. */
  lemma ReadableIff(changed: PropertiesMap)
    ensures DeviceChangeReadable(changed) <==> forall f :: DeviceKey(f) in changed ==> TypedAs(f, changed[DeviceKey(f)])
    ensures AdapterChangeReadable(changed)
       <==> forall f :: AdapterKey(f) in changed ==> AdapterTypedAs(f, changed[AdapterKey(f)])
  {
    if forall f :: DeviceKey(f) in changed ==> TypedAs(f, changed[DeviceKey(f)]) {
      assert DeviceKey(Connected) == "Connected" && DeviceKey(RSSI) == "RSSI" && DeviceKey(Paired) == "Paired";
      assert DeviceKey(ServicesResolved) == "ServicesResolved" && DeviceKey(Name) == "Name" && DeviceKey(Trusted) == "Trusted";
      assert DeviceKey(Blocked) == "Blocked" && DeviceKey(Alias) == "Alias";
    }
    if forall f :: AdapterKey(f) in changed ==> AdapterTypedAs(f, changed[AdapterKey(f)]) {
      assert AdapterKey(Powered) == "Powered" && AdapterKey(Discovering) == "Discovering";
      assert AdapterKey(Discoverable) == "Discoverable" && AdapterKey(Pairable) == "Pairable";
      assert AdapterKey(AdapterAlias) == "Alias";
    }
  }

  /** A change posts one frame for its path when the path is subscribed and the map readable, and none
      otherwise: 0x02 for a device, 0x01 for an adapter. */
  lemma ChangePostsIff(t: Tables, path: Path, changed: PropertiesMap)
    ensures
      var fs := Handle(t, Changed(path, Device1, changed)).frames;
      if path in t.devices && forall f :: DeviceKey(f) in changed ==> TypedAs(f, changed[DeviceKey(f)])
      then |fs| == 1 && fs[0].DeviceUpdateFrame? && fs[0].device.objectPath == path && DeviceStateReads(fs[0].device, changed)
      else fs == []
    ensures
      var fs := Handle(t, Changed(path, Adapter1, changed)).frames;
      if path in t.adapters && forall f :: AdapterKey(f) in changed ==> AdapterTypedAs(f, changed[AdapterKey(f)])
      then |fs| == 1 && fs[0].AdapterFrame? && fs[0].adapter.objectPath == path && AdapterStateReads(fs[0].adapter, changed)
      else fs == []
  {
    hide DeviceChangeReadable, AdapterChangeReadable, DeviceMask, AdapterMask, TypedAs, AdapterTypedAs, DeviceKey, AdapterKey,
      DeviceStateReads, AdapterStateReads;
    ReadableIff(changed);
    UpdatesRead(path, changed);
  }

  lemma UpdatesRead(path: Path, changed: PropertiesMap)
    ensures DeviceStateReads(DeviceUpdate(path, changed), changed) && AdapterStateReads(AdapterUpdate(path, changed), changed)
  {
    hide Reads, GetBool, GetString, GetI16, DeviceMask, AdapterMask;
    GettersRead(changed, "Connected");
    GettersRead(changed, "RSSI");
    GettersRead(changed, "Paired");
    GettersRead(changed, "ServicesResolved");
    GettersRead(changed, "Name");
    GettersRead(changed, "Trusted");
    GettersRead(changed, "Blocked");
    GettersRead(changed, "Alias");
    GettersRead(changed, "Powered");
    GettersRead(changed, "Discovering");
    GettersRead(changed, "Discoverable");
    GettersRead(changed, "Pairable");
  }

  // ── The snapshot ─────────────────────────────────────────────────────────

  /** The object is cached with what its facet's map has. */
  ghost predicate FacetCached(v: ClientView, x: Facet) {
    match x.name
    case Adapter1 => x.path in v.adapters && AdapterReads(v.adapters[x.path], x.path, x.props)
    case Device1 => x.path in v.devices && DeviceReads(v.devices[x.path].props, x.path, x.props)
    case GattService1 => exists d :: Lifetimes.Caches(v, ServiceObject, d, x.path) && RecordReads(v, ServiceObject, d, x.path, x.props)
    case GattCharacteristic1 =>
      var d := DevicePathOf(x.path);
      Lifetimes.Caches(v, CharObject, d, x.path) && RecordReads(v, CharObject, d, x.path, x.props)
    case GattDescriptor1 =>
      var d := DevicePathOf(x.path);
      Lifetimes.Caches(v, DescObject, d, x.path) && RecordReads(v, DescObject, d, x.path, x.props)
    case OtherInterface(_) => true
  }

  lemma HeldIsRead(v: ClientView, x: Facet)
    requires InCache(v, x)
    ensures FacetCached(v, x)
  {
    hide AdapterReads, DeviceReads, ServiceReads, CharReads, DescReads, DevicePathOf, GetManufacturer, GetServiceData,
      GetBool, GetString, GetStrings, GetBytes, GetU16, GetU32, GetI16, GetPath;
    match x.name
    case Adapter1 => AdapterExtracted(x.path, x.props);
    case Device1 => DeviceExtracted(x.path, x.props);
    case GattService1 =>
      ServiceExtracted(x.path, x.props);
      var d := ExtractService(x.path, x.props).devicePath;
      assert Lifetimes.Caches(v, ServiceObject, d, x.path) && RecordReads(v, ServiceObject, d, x.path, x.props);
    case GattCharacteristic1 => CharExtracted(x.path, x.props);
    case GattDescriptor1 => DescExtracted(x.path, x.props);
    case OtherInterface(_) =>
  }

  /** After the snapshot of a BlueZ tree every object is cached with what its property map has. */
  lemma {:induction false} SnapshotReads(t: Tables, v: ClientView, objects: Objects)
    requires Empty(v) && IsSortedMap(objects) && IsBlueZTree(objects)
    ensures forall x :: x in Facets(objects) ==> FacetCached(ApplyAll(v, SnapshotOf(t, objects).frames), x)
  {
    hide IsSortedMap, IsBlueZTree, InCache, FacetCached, ApplyAll, SnapshotOf, Facets;
    SnapshotIsComplete(t, v, objects);
    var after := ApplyAll(v, SnapshotOf(t, objects).frames);
    forall x | x in Facets(objects) ensures FacetCached(after, x) {
      HeldIsRead(after, x);
    }
  }
}
