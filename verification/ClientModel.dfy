/** bluez_client.dart and the objects it caches, as values and functions. Every GATT object
    carries an id, unique within its device and growing with creation, that stands for its
    identity. */
module ClientModel {
  import opened ByteStrings
  import opened Types
  import opened Masks
  import opened Paths
  import opened Frames

  datatype DescView = DescView(id: nat, props: DescProps)

  /** descs lists the ids of the descriptor objects added to this characteristic; emitted is
      everything its value stream was given. */
  datatype CharView = CharView(id: nat, props: CharProps, descs: map<Path, nat>, emitted: seq<Bytes>)

  datatype ServiceView = ServiceView(id: nat, props: ServiceProps, chars: map<Path, nat>)

  /** events is everything the propertiesChanged stream was given; clock is the next id. */
  datatype DeviceView = DeviceView(
    props: DeviceProps, services: map<Path, ServiceView>, chars: map<Path, CharView>, descs: map<Path, DescView>,
    events: seq<seq<DeviceField>>, clock: nat)

  /** pending: _initialSnapshotDone is not null; snapshotDone: its future has completed. */
  datatype ClientView = ClientView(
    handle: bool, pending: bool, snapshotDone: bool,
    adapters: map<Path, AdapterProps>, devices: map<Path, DeviceView>)

  function NewDevice(props: DeviceProps): DeviceView {
    DeviceView(props, map[], map[], map[], [], 0)
  }

  // ── Masked merges ────────────────────────────────────────────────────────

  /** updateProps of bluez_device.dart. */
  function MergeDevice(cached: DeviceProps, partial: DeviceProps): DeviceProps {
    var mask := partial.changedMask;
    cached.(
      changedMask := mask,
      connected := if Bit(mask, DART_CONNECTED_BIT) then partial.connected else cached.connected,
      rssi := if Bit(mask, DART_RSSI_BIT) then partial.rssi else cached.rssi,
      paired := if Bit(mask, DART_PAIRED_BIT) then partial.paired else cached.paired,
      servicesResolved := if Bit(mask, DART_SERVICES_RESOLVED_BIT) then partial.servicesResolved else cached.servicesResolved,
      name := if Bit(mask, DART_NAME_BIT) then partial.name else cached.name,
      trusted := if Bit(mask, DART_TRUSTED_BIT) then partial.trusted else cached.trusted,
      blocked := if Bit(mask, DART_BLOCKED_BIT) then partial.blocked else cached.blocked,
      alias := if Bit(mask, DART_ALIAS_BIT) then partial.alias else cached.alias)
  }

  /** updateProps of bluez_adapter.dart. */
  function MergeAdapter(cached: AdapterProps, partial: AdapterProps): AdapterProps {
    var mask := partial.changedMask;
    cached.(
      changedMask := mask,
      alias := if Bit(mask, DART_ADAPTER_ALIAS_BIT) then partial.alias else cached.alias,
      powered := if Bit(mask, DART_POWERED_BIT) then partial.powered else cached.powered,
      discoverable := if Bit(mask, DART_DISCOVERABLE_BIT) then partial.discoverable else cached.discoverable,
      pairable := if Bit(mask, DART_PAIRABLE_BIT) then partial.pairable else cached.pairable,
      discovering := if Bit(mask, DART_DISCOVERING_BIT) then partial.discovering else cached.discovering)
  }

  /** A merge takes exactly the fields whose native bit is set, and leaves every untracked field. */
  lemma MergeDeviceTakesMasked(cached: DeviceProps, partial: DeviceProps)
    ensures forall f: DeviceField :: DeviceGet(MergeDevice(cached, partial), f)
                                     == DeviceGet(if Bit(partial.changedMask, NativeDeviceBit(f)) then partial else cached, f)
    ensures DeviceUntracked(MergeDevice(cached, partial)) == DeviceUntracked(cached)
    ensures MergeDevice(cached, partial).changedMask == partial.changedMask
  {
    hide Bit;
  }

  lemma MergeAdapterTakesMasked(cached: AdapterProps, partial: AdapterProps)
    ensures forall f: AdapterField :: AdapterGet(MergeAdapter(cached, partial), f)
                                      == AdapterGet(if Bit(partial.changedMask, NativeAdapterBit(f)) then partial else cached, f)
    ensures AdapterUntracked(MergeAdapter(cached, partial)) == AdapterUntracked(cached)
    ensures MergeAdapter(cached, partial).changedMask == partial.changedMask
  {
    hide Bit;
  }

  /** The names updateProps reports, in its order. */
  function ChangedFields(was: DeviceProps, now: DeviceProps): seq<DeviceField> {
    ChangedEarly(was, now) + ChangedLate(was, now)
  }

  function Named(differs: bool, f: DeviceField): seq<DeviceField> {
    if differs then [f] else []
  }

  function ChangedEarly(was: DeviceProps, now: DeviceProps): seq<DeviceField> {
    Named(now.connected != was.connected, Connected) + Named(now.rssi != was.rssi, RSSI)
    + Named(now.paired != was.paired, Paired) + Named(now.servicesResolved != was.servicesResolved, ServicesResolved)
  }

  function ChangedLate(was: DeviceProps, now: DeviceProps): seq<DeviceField> {
    Named(now.name != was.name, Name) + Named(now.trusted != was.trusted, Trusted)
    + Named(now.blocked != was.blocked, Blocked) + Named(now.alias != was.alias, Alias)
  }

  lemma EarlyFields(was: DeviceProps, now: DeviceProps, f: DeviceField)
    ensures f in ChangedEarly(was, now)
       <==> (f in {Connected, RSSI, Paired, ServicesResolved} && DeviceGet(was, f) != DeviceGet(now, f))
  {
  }

  lemma LateFields(was: DeviceProps, now: DeviceProps, f: DeviceField)
    ensures f in ChangedLate(was, now)
       <==> (f in {Name, Trusted, Blocked, Alias} && DeviceGet(was, f) != DeviceGet(now, f))
  {
  }

  /** The reported names are exactly the tracked fields that changed. */
  lemma ChangedFieldsAreTheDifference(was: DeviceProps, now: DeviceProps, f: DeviceField)
    ensures f in ChangedFields(was, now) <==> DeviceGet(was, f) != DeviceGet(now, f)
  {
    hide ChangedEarly, ChangedLate, DeviceGet;
    EarlyFields(was, now, f);
    LateFields(was, now, f);
  }

  function UpdateDevice(d: DeviceView, partial: DeviceProps): DeviceView {
    var now := MergeDevice(d.props, partial);
    var changed := ChangedFields(d.props, now);
    d.(props := now, events := if changed == [] then d.events else d.events + [changed])
  }

  // ── Linking ──────────────────────────────────────────────────────────────

  function AddService(d: DeviceView, p: ServiceProps): DeviceView {
    d.(services := d.services[p.objectPath := ServiceView(d.clock, p, map[])], clock := d.clock + 1)
  }

  function AddChar(d: DeviceView, p: CharProps): DeviceView {
    var s := p.servicePath;
    d.(chars := d.chars[p.objectPath := CharView(d.clock, p, map[], [])],
       services := if s !in d.services then d.services
                   else d.services[s := d.services[s].(chars := d.services[s].chars[p.objectPath := d.clock])],
       clock := d.clock + 1)
  }

  function AddDesc(d: DeviceView, p: DescProps): DeviceView {
    var c := p.charPath;
    d.(descs := d.descs[p.objectPath := DescView(d.clock, p)],
       chars := if c !in d.chars then d.chars
                else d.chars[c := d.chars[c].(descs := d.chars[c].descs[p.objectPath := d.clock])],
       clock := d.clock + 1)
  }

  function PostValue(d: DeviceView, path: Path, value: Bytes): DeviceView
    requires path in d.chars
  {
    d.(chars := d.chars[path := d.chars[path].(emitted := d.chars[path].emitted + [value])])
  }

  // ── Event routing ────────────────────────────────────────────────────────

  /** The step reads _handle, which is null before connect and after close. */
  predicate NeedsHandle(v: ClientView, f: Frame) {
    f.DeviceAddedFrame? || (f.AdapterFrame? && f.adapter.objectPath !in v.adapters)
  }

  function Apply(v: ClientView, f: Frame): ClientView {
    match f
    case SentinelFrame =>
      v.(snapshotDone := v.snapshotDone || v.pending, pending := false)
    case AdapterFrame(p) =>
      var cached := if p.objectPath in v.adapters then v.adapters[p.objectPath] else p;
      v.(adapters := v.adapters[p.objectPath := MergeAdapter(cached, p)])
    case DeviceUpdateFrame(p) =>
      if p.objectPath !in v.devices then v
      else v.(devices := v.devices[p.objectPath := UpdateDevice(v.devices[p.objectPath], p)])
    case CharValueFrame(p) =>
      var d := DevicePathOf(p.objectPath);
      if d !in v.devices || p.objectPath !in v.devices[d].chars then v
      else v.(devices := v.devices[d := PostValue(v.devices[d], p.objectPath, p.value)])
    case DeviceAddedFrame(p) =>
      v.(devices := v.devices[p.objectPath := NewDevice(p)])
    case DeviceRemovedFrame(p) =>
      v.(devices := v.devices - {p.objectPath})
    case ServiceAddedFrame(p) =>
      if p.devicePath !in v.devices then v
      else v.(devices := v.devices[p.devicePath := AddService(v.devices[p.devicePath], p)])
    case CharAddedFrame(p) =>
      var d := DevicePathOf(p.objectPath);
      if d !in v.devices then v else v.(devices := v.devices[d := AddChar(v.devices[d], p)])
    case DescAddedFrame(p) =>
      var d := DevicePathOf(p.objectPath);
      if d !in v.devices then v else v.(devices := v.devices[d := AddDesc(v.devices[d], p)])
    case ObjectRemovedFrame(_) => v
  }

  predicate Throws(v: ClientView, msg: Bytes) {
    match Decode(msg)
    case Thrown => true
    case Ignored => false
    case Event(f) => NeedsHandle(v, f) && !v.handle
  }

  /** _onEvent; a step that throws has changed nothing yet. */
  function OnMessage(v: ClientView, msg: Bytes): ClientView {
    match Decode(msg)
    case Event(f) => if NeedsHandle(v, f) && !v.handle then v else Apply(v, f)
    case _ => v
  }

  function ApplyAll(v: ClientView, fs: seq<Frame>): ClientView
    decreases |fs|
  {
    if fs == [] then v else ApplyAll(Apply(v, fs[0]), fs[1..])
  }

  lemma {:induction false} ApplyAllAppend(v: ClientView, a: seq<Frame>, b: seq<Frame>)
    ensures ApplyAll(v, a + b) == ApplyAll(ApplyAll(v, a), b)
    decreases |a|
  {
    if a == [] {
      assert a + b == b;
    } else {
      assert (a + b)[1..] == a[1..] + b;
      ApplyAllAppend(Apply(v, a[0]), a[1..], b);
    }
  }

  lemma HandleStaysOnce(v: ClientView, f: Frame)
    ensures Apply(v, f).handle == v.handle
  {
  }

  lemma {:induction false} HandleStays(v: ClientView, fs: seq<Frame>)
    ensures ApplyAll(v, fs).handle == v.handle
    decreases |fs|
  {
    hide Apply;
    if fs == [] {
    } else {
      HandleStaysOnce(v, fs[0]);
      HandleStays(Apply(v, fs[0]), fs[1..]);
    }
  }
}
