/** What a removal posts, and which adapters and devices are subscribed after any run. */
module Removals {
  import opened Types
  import opened Dbus
  import opened Frames
  import opened ObjectManagers
  import opened Runs
  import opened Announcements
  import Replication

  /** The interfaces whose removal is posted, in order. */
  function Posting(names: seq<InterfaceName>): seq<InterfaceName> {
    if names == [] then []
    else (if names[0].Device1? || names[0].GattService1? || names[0].GattDescriptor1? then [names[0]] else []) + Posting(names[1..])
  }

  /** f says that the interface of the object at path is gone: 0x05 for a device, 0x09 for a service or
      descriptor, with the path and no other property. */
  ghost predicate Reports(f: Frame, path: Path, iface: InterfaceName) {
    if iface.Device1? then f.DeviceRemovedFrame? && f.device.changedMask == 0 && DeviceReads(f.device, path, map[])
    else f.ObjectRemovedFrame? && ServiceReads(f.service, path, map[])
  }

  lemma BlanksRead(path: Path)
    ensures DeviceReads(BLANK_DEVICE.(objectPath := path), path, map[])
    ensures ServiceReads(BLANK_SERVICE.(objectPath := path), path, map[])
  {
  }

  lemma OneRemovalPosts(t: Tables, path: Path, iface: InterfaceName)
    ensures
      var fs := InterfaceRemoved(t, path, iface).frames;
      if iface.Device1? || iface.GattService1? || iface.GattDescriptor1? then |fs| == 1 && Reports(fs[0], path, iface) else fs == []
  {
    hide DeviceReads, ServiceReads;
    BlanksRead(path);
  }

  /** A removal posts one report for each removed device, service and descriptor interface, in order,
      and nothing for adapters and characteristics. */
  lemma {:induction false} RemovalPosts(t: Tables, path: Path, names: seq<InterfaceName>)
    ensures
      var fs := Handle(t, Removed(path, names)).frames;
      |fs| == |Posting(names)| && forall i :: 0 <= i < |fs| ==> Reports(fs[i], path, Posting(names)[i])
    decreases |names|
  {
    hide InterfaceRemoved, Reports;
    if names == [] {
    } else {
      OneRemovalPosts(t, path, names[0]);
      RemovalPosts(InterfaceRemoved(t, path, names[0]).tables, path, names[1..]);
    }
  }

  // ── Tables of a run ──────────────────────────────────────────────────────

  /** Whether the interface is exposed at path after a, when `on` says whether it was before. */
  predicate StaysExposed(a: Action, path: Path, iface: InterfaceName, on: bool) {
    match a
    case Do(Added(q, ifaces)) => on || (q == path && exists i :: 0 <= i < |ifaces| && ifaces[i].0 == iface)
    case Do(Removed(q, names)) => on && !(q == path && iface in names)
    case _ => on
  }

  /** The last call to announce or remove the interface at path announces it. */
  predicate EndsExposed(actions: seq<Action>, path: Path, iface: InterfaceName)
    decreases |actions|
  {
    actions != []
    && StaysExposed(actions[|actions| - 1], path, iface, EndsExposed(actions[..|actions| - 1], path, iface))
  }

  lemma {:induction false} AddedExposes(t: Tables, q: Path, ifaces: Interfaces, path: Path)
    ensures
      var t' := InterfacesAdded(t, q, ifaces).tables;
      && (path in t'.devices <==> StaysExposed(Do(Added(q, ifaces)), path, Device1, path in t.devices))
      && (path in t'.adapters <==> StaysExposed(Do(Added(q, ifaces)), path, Adapter1, path in t.adapters))
    decreases |ifaces|
  {
    if ifaces == [] {
    } else {
      AddedExposes(InterfaceAdded(t, q, ifaces[0].0, ifaces[0].1).tables, q, ifaces[1..], path);
      assert forall i :: 0 < i < |ifaces| ==> ifaces[i] == ifaces[1..][i - 1];
      assert forall i :: 0 <= i < |ifaces[1..]| ==> ifaces[1..][i] == ifaces[i + 1];
    }
  }

  lemma {:induction false} RemovedConceals(t: Tables, q: Path, names: seq<InterfaceName>, path: Path)
    ensures
      var t' := InterfacesRemoved(t, q, names).tables;
      && (path in t'.devices <==> path in t.devices && !(q == path && Device1 in names))
      && (path in t'.adapters <==> path in t.adapters && !(q == path && Adapter1 in names))
    decreases |names|
  {
    if names == [] {
    } else {
      assert names == [names[0]] + names[1..];
      RemovedConceals(InterfaceRemoved(t, q, names[0]).tables, q, names[1..], path);
    }
  }

  lemma StepExposes(s: System, a: Action, path: Path)
    ensures path in Step(s, a).tables.devices <==> StaysExposed(a, path, Device1, path in s.tables.devices)
    ensures path in Step(s, a).tables.adapters <==> StaysExposed(a, path, Adapter1, path in s.tables.adapters)
  {
    hide InterfacesAdded, InterfacesRemoved, ChangeFrames, AllFrameBytes, Replication.TreeCall;
    match a
    case Do(Added(q, ifaces)) => AddedExposes(s.tables, q, ifaces, path);
    case Do(Removed(q, names)) => RemovedConceals(s.tables, q, names, path);
    case _ =>
  }

  /** After any run a device or adapter is subscribed exactly when the last call to announce or remove
      it announced it. */
  lemma {:induction false} SubscribedWhileExposed(actions: seq<Action>, path: Path)
    ensures path in Run(START, actions).tables.devices <==> EndsExposed(actions, path, Device1)
    ensures path in Run(START, actions).tables.adapters <==> EndsExposed(actions, path, Adapter1)
    decreases |actions|
  {
    hide Step, StaysExposed;
    if actions == [] {
    } else {
      var front, last := actions[..|actions| - 1], actions[|actions| - 1];
      assert actions == front + [last];
      SubscribedWhileExposed(front, path);
      RunAppendOne(START, front, last);
      StepExposes(Run(START, front), last, path);
    }
  }
}
