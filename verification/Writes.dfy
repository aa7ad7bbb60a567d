/** The last PropertiesChanged map with a key wins, whatever else happens in between. */
module Writes {
  import opened Types
  import opened Masks
  import opened Dbus
  import opened Paths
  import opened Frames
  import opened ObjectManagers
  import opened ClientModel
  import opened Replication
  import opened Runs

  /** What a variant under a tracked key says. */
  function ValueOf(v: Variant): FieldValue {
    match v
    case BoolVariant(b) => Flag(b)
    case I16Variant(n) => Number(n)
    case StringVariant(s) => Text(s)
    case _ => Flag(false)
  }

  /** The value in the last readable map that contains f's key, else the initial one. */
  function LastWrite(maps: seq<PropertiesMap>, f: DeviceField, initial: FieldValue): FieldValue
    decreases |maps|
  {
    if maps == [] then initial
    else
      var last := maps[|maps| - 1];
      if DeviceChangeReadable(last) && DeviceKey(f) in last then ValueOf(last[DeviceKey(f)])
      else LastWrite(maps[..|maps| - 1], f, initial)
  }

  /** The call neither announces nor removes the interface of the object at path. */
  predicate Leaves(c: Call, path: Path, iface: InterfaceName) {
    match c
    case Added(q, ifaces) => q == path ==> forall i :: 0 <= i < |ifaces| ==> ifaces[i].0 != iface
    case Removed(q, names) => q == path ==> forall i :: 0 <= i < |names| ==> names[i] != iface
    case _ => true
  }

  predicate AllLeave(actions: seq<Action>, path: Path, iface: InterfaceName) {
    forall i :: 0 <= i < |actions| ==> actions[i].Do? ==> Leaves(actions[i].call, path, iface)
  }

  /** a is a change of the interface of the object at path. */
  predicate IsWrite(a: Action, path: Path, iface: InterfaceName) {
    a.Do? && a.call.Changed? && a.call.path == path && a.call.iface == iface
  }

  /** The maps the run's changes of that interface carry, in order. */
  function ChangesOf(actions: seq<Action>, path: Path, iface: InterfaceName): seq<PropertiesMap>
    decreases |actions|
  {
    if actions == [] then []
    else
      var last := actions[|actions| - 1];
      ChangesOf(actions[..|actions| - 1], path, iface)
      + (if IsWrite(last, path, iface) then [last.call.changed] else [])
  }

  // ── Devices ──────────────────────────────────────────────────────────────

  lemma OverrideWrites(p: DeviceProps, changed: PropertiesMap, f: DeviceField)
    requires DeviceChangeReadable(changed)
    ensures DeviceGet(OverrideDevice(p, changed), f)
         == if DeviceKey(f) in changed then ValueOf(changed[DeviceKey(f)]) else DeviceGet(p, f)
    ensures DeviceUntracked(OverrideDevice(p, changed)) == DeviceUntracked(p)
  {
  }

  /** The device is in the tree with the same properties. */
  predicate SameDevice(t: Tree, t': Tree, path: Path) {
    && path in t.caches.devices && path in t'.caches.devices
    && t'.caches.devices[path].props == t.caches.devices[path].props
  }

  lemma {:induction false} AddedLeavesDevice(t: Tree, q: Path, ifaces: Interfaces, path: Path)
    requires path in t.caches.devices && Leaves(Added(q, ifaces), path, Device1)
    ensures SameDevice(t, TreeAdded(t, q, ifaces), path)
    decreases |ifaces|
  {
    hide DevicePathOf, ExtractAdapter, ExtractDevice, ExtractService, ExtractChar, ExtractDesc;
    if ifaces == [] {
    } else {
      AddedLeavesDevice(TreeInterfaceAdded(t, q, ifaces[0].0, ifaces[0].1), q, ifaces[1..], path);
    }
  }

  lemma {:induction false} RemovedLeavesDevice(t: Tree, q: Path, names: seq<InterfaceName>, path: Path)
    requires path in t.caches.devices && Leaves(Removed(q, names), path, Device1)
    ensures SameDevice(t, TreeRemoved(t, q, names), path)
    decreases |names|
  {
    if names == [] {
    } else {
      RemovedLeavesDevice(TreeInterfaceRemoved(t, q, names[0]), q, names[1..], path);
    }
  }

  lemma OtherStepLeavesDevice(s: System, a: Action, path: Path)
    requires path in s.tree.caches.devices && !IsWrite(a, path, Device1)
    requires a.Do? ==> Leaves(a.call, path, Device1)
    ensures SameDevice(s.tree, Step(s, a).tree, path)
  {
    hide TreeAdded, TreeRemoved, Handle, OnMessage, AllFrameBytes, OverrideDevice, OverrideAdapter, Leaves;
    match a
    case Do(Added(q, ifaces)) => AddedLeavesDevice(s.tree, q, ifaces, path);
    case Do(Removed(q, names)) => RemovedLeavesDevice(s.tree, q, names, path);
    case _ =>
  }

  /** What the tree holds of the device after writes with the given maps. */
  ghost predicate Written(was: DeviceProps, now: DeviceProps, maps: seq<PropertiesMap>) {
    && (forall f :: DeviceGet(now, f) == LastWrite(maps, f, DeviceGet(was, f)))
    && DeviceUntracked(now) == DeviceUntracked(was)
  }

  lemma OneMoreWrite(was: DeviceProps, mid: DeviceProps, maps: seq<PropertiesMap>, last: PropertiesMap)
    requires Written(was, mid, maps)
    ensures Written(was, if DeviceChangeReadable(last) then OverrideDevice(mid, last) else mid, maps + [last])
  {
    hide OverrideDevice, DeviceChangeReadable, DeviceUntracked, DeviceGet;
    var more := maps + [last];
    assert more[..|more| - 1] == maps;
    if DeviceChangeReadable(last) {
      forall f: DeviceField
        ensures DeviceGet(OverrideDevice(mid, last), f) == LastWrite(more, f, DeviceGet(was, f))
      {
        OverrideWrites(mid, last, f);
      }
      OverrideWrites(mid, last, Connected);
    }
  }

  lemma WriteStep(s: System, path: Path, changed: PropertiesMap)
    requires path in s.tree.caches.devices
    ensures
      var was, t' := s.tree.caches.devices[path].props, Step(s, Do(Changed(path, Device1, changed))).tree;
      path in t'.caches.devices
      && t'.caches.devices[path].props == if DeviceChangeReadable(changed) then OverrideDevice(was, changed) else was
  {
    hide OverrideDevice, DeviceChangeReadable, ChangeFrames, AllFrameBytes;
  }

  lemma NothingWritten(p: DeviceProps)
    ensures Written(p, p, [])
  {
  }

  lemma {:induction false} TreeAfterWrites(s: System, actions: seq<Action>, path: Path)
    requires path in s.tree.caches.devices && AllLeave(actions, path, Device1)
    ensures
      var t' := Run(s, actions).tree.caches;
      path in t'.devices
      && Written(s.tree.caches.devices[path].props, t'.devices[path].props, ChangesOf(actions, path, Device1))
    decreases |actions|
  {
    hide Step, Written, Leaves, OverrideDevice, DeviceChangeReadable;
    var was := s.tree.caches.devices[path].props;
    if actions == [] {
      NothingWritten(was);
    } else {
      var front, last := actions[..|actions| - 1], actions[|actions| - 1];
      TreeAfterWrites(s, front, path);
      assert actions == front + [last];
      RunAppendOne(s, front, last);
      var mid := Run(s, front);
      if IsWrite(last, path, Device1) {
        WriteStep(mid, path, last.call.changed);
        OneMoreWrite(was, mid.tree.caches.devices[path].props, ChangesOf(front, path, Device1), last.call.changed);
      } else {
        OtherStepLeavesDevice(mid, last, path);
        assert ChangesOf(front, path, Device1) + [] == ChangesOf(front, path, Device1);
      }
    }
  }

  /** Over every run that neither announces nor removes a cached device, whatever else it does and
      delivers, each tracked field in the Dart cache is, once what is queued is applied, the value in
      the last readable map with its key, else its value before; untracked fields are untouched. */
  lemma {:induction false} LastWriterWins(s: System, actions: seq<Action>, path: Path)
    requires Consistent(s) && path in s.tree.caches.devices
    requires ActionsSized(actions) && AllLeave(actions, path, Device1)
    ensures
      var before := DeliverAll(s.client, s.queue);
      var end := Run(s, actions);
      var after := DeliverAll(end.client, end.queue);
      var maps := ChangesOf(actions, path, Device1);
      && path in before.devices && path in after.devices
      && (forall f :: DeviceGet(after.devices[path].props, f) == LastWrite(maps, f, DeviceGet(before.devices[path].props, f)))
      && DeviceUntracked(after.devices[path].props) == DeviceUntracked(before.devices[path].props)
  {
    hide Step, Run, DeviceUntracked, DeviceGet, LastWrite, ChangesOf, Leaves, Shows, Aligned, IsFrame;
    var end := Run(s, actions);
    RunKeepsConsistent(s, actions);
    TreeAfterWrites(s, actions, path);
    ShownDevice(DeliverAll(s.client, s.queue), s.tree.caches, path);
    ShownDevice(DeliverAll(end.client, end.queue), end.tree.caches, path);
  }

  // ── Adapters ─────────────────────────────────────────────────────────────

  function LastAdapterWrite(maps: seq<PropertiesMap>, f: AdapterField, initial: FieldValue): FieldValue
    decreases |maps|
  {
    if maps == [] then initial
    else
      var last := maps[|maps| - 1];
      if AdapterChangeReadable(last) && AdapterKey(f) in last then ValueOf(last[AdapterKey(f)])
      else LastAdapterWrite(maps[..|maps| - 1], f, initial)
  }

  lemma OverrideWritesAdapter(p: AdapterProps, changed: PropertiesMap, f: AdapterField)
    requires AdapterChangeReadable(changed)
    ensures AdapterGet(OverrideAdapter(p, changed), f)
         == if AdapterKey(f) in changed then ValueOf(changed[AdapterKey(f)]) else AdapterGet(p, f)
    ensures AdapterUntracked(OverrideAdapter(p, changed)) == AdapterUntracked(p)
  {
  }

  /** The adapter is still present with the same properties. */
  predicate SameAdapter(t: Tree, t': Tree, path: Path) {
    && path in t.caches.adapters && path in t'.caches.adapters && path in t'.present
    && t'.caches.adapters[path] == t.caches.adapters[path]
  }

  predicate HasPresent(t: Tree, path: Path) {
    path in t.caches.adapters && path in t.present
  }

  lemma {:induction false} AddedLeavesAdapter(t: Tree, q: Path, ifaces: Interfaces, path: Path)
    requires HasPresent(t, path) && Leaves(Added(q, ifaces), path, Adapter1)
    ensures SameAdapter(t, TreeAdded(t, q, ifaces), path)
    decreases |ifaces|
  {
    hide DevicePathOf, ExtractAdapter, ExtractDevice, ExtractService, ExtractChar, ExtractDesc;
    if ifaces == [] {
    } else {
      AddedLeavesAdapter(TreeInterfaceAdded(t, q, ifaces[0].0, ifaces[0].1), q, ifaces[1..], path);
    }
  }

  lemma {:induction false} RemovedLeavesAdapter(t: Tree, q: Path, names: seq<InterfaceName>, path: Path)
    requires HasPresent(t, path) && Leaves(Removed(q, names), path, Adapter1)
    ensures SameAdapter(t, TreeRemoved(t, q, names), path)
    decreases |names|
  {
    if names == [] {
    } else {
      RemovedLeavesAdapter(TreeInterfaceRemoved(t, q, names[0]), q, names[1..], path);
    }
  }

  lemma OtherStepLeavesAdapter(s: System, a: Action, path: Path)
    requires HasPresent(s.tree, path) && !IsWrite(a, path, Adapter1)
    requires a.Do? ==> Leaves(a.call, path, Adapter1)
    ensures SameAdapter(s.tree, Step(s, a).tree, path)
  {
    hide TreeAdded, TreeRemoved, Handle, OnMessage, AllFrameBytes, OverrideDevice, OverrideAdapter, Leaves;
    match a
    case Do(Added(q, ifaces)) => AddedLeavesAdapter(s.tree, q, ifaces, path);
    case Do(Removed(q, names)) => RemovedLeavesAdapter(s.tree, q, names, path);
    case _ =>
  }

  ghost predicate WrittenAdapter(was: AdapterProps, now: AdapterProps, maps: seq<PropertiesMap>) {
    && (forall f :: AdapterGet(now, f) == LastAdapterWrite(maps, f, AdapterGet(was, f)))
    && AdapterUntracked(now) == AdapterUntracked(was)
  }

  lemma OneMoreAdapterWrite(was: AdapterProps, mid: AdapterProps, maps: seq<PropertiesMap>, last: PropertiesMap)
    requires WrittenAdapter(was, mid, maps)
    ensures WrittenAdapter(was, if AdapterChangeReadable(last) then OverrideAdapter(mid, last) else mid, maps + [last])
  {
    hide OverrideAdapter, AdapterChangeReadable, AdapterUntracked, AdapterGet;
    var more := maps + [last];
    assert more[..|more| - 1] == maps;
    if AdapterChangeReadable(last) {
      forall f: AdapterField
        ensures AdapterGet(OverrideAdapter(mid, last), f) == LastAdapterWrite(more, f, AdapterGet(was, f))
      {
        OverrideWritesAdapter(mid, last, f);
      }
      OverrideWritesAdapter(mid, last, Powered);
    }
  }

  lemma AdapterWriteStep(s: System, path: Path, changed: PropertiesMap)
    requires HasPresent(s.tree, path)
    ensures
      var was, t' := s.tree.caches.adapters[path], Step(s, Do(Changed(path, Adapter1, changed))).tree;
      HasPresent(t', path)
      && t'.caches.adapters[path] == if AdapterChangeReadable(changed) then OverrideAdapter(was, changed) else was
  {
    hide OverrideAdapter, AdapterChangeReadable, ChangeFrames, AllFrameBytes;
  }

  lemma NothingWrittenAdapter(p: AdapterProps)
    ensures WrittenAdapter(p, p, [])
  {
  }

  lemma {:induction false} TreeAfterAdapterWrites(s: System, actions: seq<Action>, path: Path)
    requires HasPresent(s.tree, path) && AllLeave(actions, path, Adapter1)
    ensures
      var t' := Run(s, actions).tree;
      HasPresent(t', path)
      && WrittenAdapter(s.tree.caches.adapters[path], t'.caches.adapters[path], ChangesOf(actions, path, Adapter1))
    decreases |actions|
  {
    hide Step, WrittenAdapter, Leaves, OverrideAdapter, AdapterChangeReadable;
    var was := s.tree.caches.adapters[path];
    if actions == [] {
      NothingWrittenAdapter(was);
    } else {
      var front, last := actions[..|actions| - 1], actions[|actions| - 1];
      TreeAfterAdapterWrites(s, front, path);
      assert actions == front + [last];
      RunAppendOne(s, front, last);
      var mid := Run(s, front);
      if IsWrite(last, path, Adapter1) {
        AdapterWriteStep(mid, path, last.call.changed);
        OneMoreAdapterWrite(was, mid.tree.caches.adapters[path], ChangesOf(front, path, Adapter1), last.call.changed);
      } else {
        OtherStepLeavesAdapter(mid, last, path);
        assert ChangesOf(front, path, Adapter1) + [] == ChangesOf(front, path, Adapter1);
      }
    }
  }

  /** The same of an adapter BlueZ has not removed and its five tracked fields. */
  lemma {:induction false} AdapterLastWriterWins(s: System, actions: seq<Action>, path: Path)
    requires Consistent(s) && path in s.tree.present
    requires ActionsSized(actions) && AllLeave(actions, path, Adapter1)
    ensures
      var before := DeliverAll(s.client, s.queue);
      var end := Run(s, actions);
      var after := DeliverAll(end.client, end.queue);
      var maps := ChangesOf(actions, path, Adapter1);
      && path in before.adapters && path in after.adapters
      && (forall f :: AdapterGet(after.adapters[path], f) == LastAdapterWrite(maps, f, AdapterGet(before.adapters[path], f)))
      && AdapterUntracked(after.adapters[path]) == AdapterUntracked(before.adapters[path])
  {
    hide Step, Run, AdapterUntracked, AdapterGet, LastAdapterWrite, ChangesOf, Leaves, Shows, IsFrame;
    var end := Run(s, actions);
    RunKeepsConsistent(s, actions);
    TreeAfterAdapterWrites(s, actions, path);
    ShownAdapter(DeliverAll(s.client, s.queue), s.tree.caches, path);
    ShownAdapter(DeliverAll(end.client, end.queue), end.tree.caches, path);
  }

  lemma ShownAdapter(v: ClientView, c: Caches, path: Path)
    requires Shows(v, c) && path in c.adapters
    ensures path in v.adapters
    ensures forall f :: AdapterGet(c.adapters[path], f) == AdapterGet(v.adapters[path], f)
    ensures AdapterUntracked(c.adapters[path]) == AdapterUntracked(v.adapters[path])
  {
    hide ShowsDevice;
  }

  lemma ShownDevice(v: ClientView, c: Caches, path: Path)
    requires Shows(v, c) && path in c.devices
    ensures path in v.devices
    ensures forall f :: DeviceGet(c.devices[path].props, f) == DeviceGet(v.devices[path].props, f)
    ensures DeviceUntracked(c.devices[path].props) == DeviceUntracked(v.devices[path].props)
  {
    hide DeviceGet, DeviceUntracked;
    assert ShowsDevice(v.devices[path], c.devices[path]);
    MaskIsUntracked(v.devices[path].props);
  }

  lemma MaskIsUntracked(p: DeviceProps)
    ensures forall f :: DeviceGet(p.(changedMask := 0), f) == DeviceGet(p, f)
    ensures DeviceUntracked(p.(changedMask := 0)) == DeviceUntracked(p)
  {
  }
}
