/** Characteristic notifications: which bytes a change carries, and that a characteristic's stream is
    given exactly those of the changes made while it was subscribed. */
module Notifications {
  import opened ByteStrings
  import opened Types
  import opened Dbus
  import opened Paths
  import opened Frames
  import opened ObjectManagers
  import opened ClientModel
  import opened Runs
  import opened GattTree
  import Announcements
  import Replication

  /** A change of a subscribed characteristic posts one 0x03 with its path and its bytes and no other
      property, or, without bytes, nothing; a change of any other posts nothing. */
  lemma ValueIsPosted(t: Tables, path: Path, changed: PropertiesMap)
    ensures
      var fs := Handle(t, Changed(path, GattCharacteristic1, changed)).frames;
      if path in t.notify && "Value" in changed && changed["Value"].BytesVariant?
      then |fs| == 1 && fs[0].CharValueFrame? && Announcements.CharReads(fs[0].characteristic, path, map["Value" := changed["Value"]])
      else fs == []
  {
  }

  // ── Subscriptions of a run ───────────────────────────────────────────────

  /** Whether p is subscribed after a, when `on` says whether it was before. */
  predicate StaysSubscribed(a: Action, p: Path, on: bool) {
    match a
    case Do(SubscribeNotify(q)) => on || q == p
    case Do(UnsubscribeNotify(q)) => on && q != p
    case Do(Removed(q, names)) => on && !(q == p && GattCharacteristic1 in names)
    case _ => on
  }

  /** The bytes of p's Value changes made while p was subscribed, in call order. */
  function ValuesMade(actions: seq<Action>, p: Path, on: bool): seq<Bytes>
    decreases |actions|
  {
    if actions == [] then []
    else
      var a := actions[0];
      (if on && a.Do? && a.call.Changed? && a.call.path == p && a.call.iface == GattCharacteristic1
          && "Value" in a.call.changed && a.call.changed["Value"].BytesVariant?
       then [a.call.changed["Value"].bytes] else [])
      + ValuesMade(actions[1..], p, StaysSubscribed(a, p, on))
  }

  /** a neither announces the characteristic at p nor announces or removes its device. */
  predicate LeavesChar(a: Action, p: Path) {
    match a
    case Do(Added(q, ifaces)) =>
      && (q == DevicePathOf(p) ==> forall i :: 0 <= i < |ifaces| ==> ifaces[i].0 != Device1)
      && (q == p ==> forall i :: 0 <= i < |ifaces| ==> ifaces[i].0 != GattCharacteristic1)
    case Do(Removed(q, names)) => q == DevicePathOf(p) ==> Device1 !in names
    case _ => true
  }

  predicate AllSpare(fs: seq<Frame>, p: Path) {
    forall i :: 0 <= i < |fs| ==> Spares(fs[i], p)
  }

  lemma {:induction false} ValuesAppend(a: seq<Frame>, b: seq<Frame>, p: Path)
    ensures ValuesFor(a + b, p) == ValuesFor(a, p) + ValuesFor(b, p)
    decreases |a|
  {
    if a == [] {
      assert a + b == b;
    } else {
      assert (a + b)[1..] == a[1..] + b;
      ValuesAppend(a[1..], b, p);
    }
  }

  lemma {:induction false} AddedSpares(t: Tables, q: Path, ifaces: Interfaces, p: Path)
    requires LeavesChar(Do(Added(q, ifaces)), p)
    ensures
      var h := InterfacesAdded(t, q, ifaces);
      AllSpare(h.frames, p) && ValuesFor(h.frames, p) == []
    decreases |ifaces|
  {
    hide ExtractAdapter, DevicePathOf, GetManufacturer, GetServiceData;
    if ifaces == [] {
    } else {
      var first := InterfaceAdded(t, q, ifaces[0].0, ifaces[0].1);
      var rest := InterfacesAdded(first.tables, q, ifaces[1..]);
      AddedSpares(first.tables, q, ifaces[1..], p);
      ValuesAppend(first.frames, rest.frames, p);
    }
  }

  lemma {:induction false} RemovedSpares(t: Tables, q: Path, names: seq<InterfaceName>, p: Path)
    requires LeavesChar(Do(Removed(q, names)), p)
    ensures
      var h := InterfacesRemoved(t, q, names);
      AllSpare(h.frames, p) && ValuesFor(h.frames, p) == []
    decreases |names|
  {
    hide DevicePathOf;
    if names == [] {
    } else {
      var first := InterfaceRemoved(t, q, names[0]);
      var rest := InterfacesRemoved(first.tables, q, names[1..]);
      assert names == [names[0]] + names[1..];
      RemovedSpares(first.tables, q, names[1..], p);
      ValuesAppend(first.frames, rest.frames, p);
    }
  }

  lemma ChangeMakes(t: Tables, q: Path, iface: InterfaceName, changed: PropertiesMap, p: Path)
    ensures
      var fs := ChangeFrames(t, q, iface, changed);
      AllSpare(fs, p) && ValuesFor(fs, p) == ValuesMade([Do(Changed(q, iface, changed))], p, p in t.notify)
  {
    hide AdapterUpdate, DeviceUpdate, AdapterChangeReadable, DeviceChangeReadable, DevicePathOf;
    var one := [Do(Changed(q, iface, changed))];
    assert one[1..] == [];
    var fs := ChangeFrames(t, q, iface, changed);
    if fs != [] {
      ValueOfOne(fs[0], p);
      assert fs == [fs[0]];
    }
  }

  /** What one action posts of p's values, and what it makes of the subscription. */
  lemma StepMakes(s: System, a: Action, p: Path)
    requires LeavesChar(a, p)
    ensures
      var s', on := Step(s, a), p in s.tables.notify;
      && s.posted <= s'.posted && AllSpare(s'.posted[|s.posted|..], p)
      && (p in s'.tables.notify <==> StaysSubscribed(a, p, on))
      && ValuesFor(s'.posted[|s.posted|..], p) == ValuesMade([a], p, on)
  {
    hide InterfacesAdded, InterfacesRemoved, ChangeFrames, DevicePathOf, AllFrameBytes, Replication.TreeCall, OnMessage;
    Announcements.StepPosts(s, a);
    StepSubscribes(s, a, p);
    assert [a][1..] == [];
    match a
    case Do(Added(q, ifaces)) => AddedSpares(s.tables, q, ifaces, p);
    case Do(Removed(q, names)) => RemovedSpares(s.tables, q, names, p);
    case Do(Changed(q, iface, changed)) => ChangeMakes(s.tables, q, iface, changed, p);
    case Do(SubscribeNotify(_)) =>
    case Do(UnsubscribeNotify(_)) =>
    case PostSentinel => ValueOfOne(SentinelFrame, p);
    case Deliver =>
  }

  lemma {:induction false} RunMakes(s: System, actions: seq<Action>, p: Path)
    requires forall i :: 0 <= i < |actions| ==> LeavesChar(actions[i], p)
    ensures
      var s' := Run(s, actions);
      && s.posted <= s'.posted && AllSpare(s'.posted[|s.posted|..], p)
      && ValuesFor(s'.posted[|s.posted|..], p) == ValuesMade(actions, p, p in s.tables.notify)
    decreases |actions|
  {
    hide Step, LeavesChar, Spares, StaysSubscribed, ValuesFor;
    if actions == [] {
      NoValues(p);
    } else {
      var mid, end := Step(s, actions[0]), Run(s, actions);
      StepMakes(s, actions[0], p);
      RunMakes(mid, actions[1..], p);
      var first, rest := mid.posted[|s.posted|..], end.posted[|mid.posted|..];
      assert end.posted[|s.posted|..] == first + rest;
      ValuesAppend(first, rest, p);
      FirstMade(actions, p, p in s.tables.notify);
    }
  }

  lemma NoValues(p: Path)
    ensures ValuesFor([], p) == []
  {
  }

  lemma FirstMade(actions: seq<Action>, p: Path, on: bool)
    requires actions != []
    ensures ValuesMade(actions, p, on)
         == ValuesMade([actions[0]], p, on) + ValuesMade(actions[1..], p, StaysSubscribed(actions[0], p, on))
  {
    hide StaysSubscribed;
    assert [actions[0]][1..] == [];
  }

  /** End to end: over any run that neither announces a cached characteristic again nor touches its
      device's life, once what is queued is applied its stream has grown by exactly the bytes of its Value
      changes made while it was subscribed, in call order, whatever else is called and delivered. */
  lemma {:induction false} StreamReceivesSubscribedValues(s: System, actions: seq<Action>, p: Path)
    requires InOrder(s) && ActionsSized(actions) && forall i :: 0 <= i < |actions| ==> LeavesChar(actions[i], p)
    requires Cached(DeliverAll(s.client, s.queue), p)
    ensures
      var end := Run(s, actions);
      var before, after := DeliverAll(s.client, s.queue), DeliverAll(end.client, end.queue);
      && Cached(after, p) && CharAt(after, p).id == CharAt(before, p).id
      && CharAt(after, p).emitted == CharAt(before, p).emitted + ValuesMade(actions, p, p in s.tables.notify)
  {
    hide Step, Run, Apply, Cached, CharAt, LeavesChar, ValuesMade, ValuesFor, Spares, InOrder;
    var end := Run(s, actions);
    RunKeepsOrder(s, actions);
    RunMakes(s, actions, p);
    var news := end.posted[|s.posted|..];
    QueueApplied(s);
    QueueApplied(end);
    assert end.posted == s.posted + news;
    ApplyAllAppend(FRESH_CLIENT, s.posted, news);
    StreamReceivesOwnValues(DeliverAll(s.client, s.queue), news, p);
  }

  lemma QueueApplied(s: System)
    requires InOrder(s)
    ensures DeliverAll(s.client, s.queue) == ApplyAll(FRESH_CLIENT, s.posted)
  {
    hide Apply, OnMessage, FrameBytes, FrameFits;
    HandleStays(FRESH_CLIENT, s.posted[..s.delivered]);
    DeliverFrames(s.client, s.posted[s.delivered..]);
    assert s.posted[..s.delivered] + s.posted[s.delivered..] == s.posted;
    ApplyAllAppend(FRESH_CLIENT, s.posted[..s.delivered], s.posted[s.delivered..]);
  }

  /** In every run a characteristic is subscribed exactly as its calls, taken in order, leave it. */
  lemma {:induction false} SubscribedAsCalled(actions: seq<Action>, p: Path)
    ensures p in Run(START, actions).tables.notify <==> EndsSubscribed(actions, p)
    decreases |actions|
  {
    hide Step, StaysSubscribed;
    if actions == [] {
    } else {
      var front, last := actions[..|actions| - 1], actions[|actions| - 1];
      assert actions == front + [last];
      SubscribedAsCalled(front, p);
      RunAppendOne(START, front, last);
      StepSubscribes(Run(START, front), last, p);
    }
  }

  predicate EndsSubscribed(actions: seq<Action>, p: Path)
    decreases |actions|
  {
    actions != [] && StaysSubscribed(actions[|actions| - 1], p, EndsSubscribed(actions[..|actions| - 1], p))
  }

  lemma {:induction false} AddedKeepsNotify(t: Tables, q: Path, ifaces: Interfaces)
    ensures InterfacesAdded(t, q, ifaces).tables.notify == t.notify
    decreases |ifaces|
  {
    if ifaces == [] {
    } else {
      AddedKeepsNotify(InterfaceAdded(t, q, ifaces[0].0, ifaces[0].1).tables, q, ifaces[1..]);
    }
  }

  lemma {:induction false} RemovedDropsNotify(t: Tables, q: Path, names: seq<InterfaceName>, p: Path)
    ensures p in InterfacesRemoved(t, q, names).tables.notify <==> p in t.notify && !(q == p && GattCharacteristic1 in names)
    decreases |names|
  {
    if names == [] {
    } else {
      assert names == [names[0]] + names[1..];
      RemovedDropsNotify(InterfaceRemoved(t, q, names[0]).tables, q, names[1..], p);
    }
  }

  lemma StepSubscribes(s: System, a: Action, p: Path)
    ensures p in Step(s, a).tables.notify <==> StaysSubscribed(a, p, p in s.tables.notify)
  {
    hide InterfacesAdded, InterfacesRemoved, ChangeFrames, AllFrameBytes, Replication.TreeCall, OnMessage;
    match a
    case Do(Added(q, ifaces)) => AddedKeepsNotify(s.tables, q, ifaces);
    case Do(Removed(q, names)) => RemovedDropsNotify(s.tables, q, names, p);
    case _ =>
  }
}
