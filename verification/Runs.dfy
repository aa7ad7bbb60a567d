/** Every interleaving of handler calls and message deliveries, and what all of them keep. */
module Runs {
  import opened ByteStrings
  import opened Types
  import opened Masks
  import opened Dbus
  import opened Frames
  import opened ObjectManagers
  import opened ClientModel
  import opened Replication
  import opened Sizes
  import Paths
  import GattTree

  /** queue is the events port; posted is the stream of frames behind it, from the first on, and
      delivered counts the messages handed to the client. */
  datatype System = System(
    tables: Tables, queue: seq<Bytes>, client: ClientView, tree: Tree, posted: seq<Frame>, delivered: nat)

  /** A call enters a handler, the bridge posts the sentinel, or the port hands over a message. */
  datatype Action = Do(call: Call) | PostSentinel | Deliver

  const FRESH_CLIENT: ClientView := ClientView(true, true, false, map[], map[])

  const START: System := System(NO_TABLES, [], FRESH_CLIENT, EMPTY_TREE, [], 0)

  ghost function Step(s: System, a: Action): System {
    match a
    case Do(c) =>
      var h := Handle(s.tables, c);
      s.(tables := h.tables, queue := s.queue + AllFrameBytes(h.frames), tree := TreeCall(s.tree, c),
         posted := s.posted + h.frames)
    case PostSentinel =>
      s.(queue := s.queue + AllFrameBytes([SentinelFrame]), posted := s.posted + [SentinelFrame])
    case Deliver =>
      if s.queue == [] then s
      else s.(client := OnMessage(s.client, s.queue[0]), queue := s.queue[1..], delivered := s.delivered + 1)
  }

  ghost function Run(s: System, actions: seq<Action>): System
    decreases |actions|
  {
    if actions == [] then s else Run(Step(s, actions[0]), actions[1..])
  }

  function Calls(calls: seq<Call>): seq<Action> {
    seq(|calls|, i requires 0 <= i < |calls| => Do(calls[i]))
  }

  predicate ActionsSized(actions: seq<Action>) {
    forall i :: 0 <= i < |actions| ==> actions[i].Do? ==> CallSized(actions[i].call)
  }

  /** Applying the messages in order. */
  function DeliverAll(v: ClientView, msgs: seq<Bytes>): ClientView
    decreases |msgs|
  {
    if msgs == [] then v else DeliverAll(OnMessage(v, msgs[0]), msgs[1..])
  }

  /** m is a message built from a frame, decodable without a throw. */
  ghost predicate IsFrame(m: Bytes) {
    exists f :: FrameFits(f) && m == FrameBytes(f)
  }

  /** The refinement invariant: once the queue is applied, the caches are the tree. */
  ghost predicate Consistent(s: System) {
    && s.client.handle
    && Aligned(s.tables, s.tree)
    && (forall m :: m in s.queue ==> IsFrame(m))
    && Shows(DeliverAll(s.client, s.queue), s.tree.caches)
  }

  lemma OnFrameBytes(v: ClientView, f: Frame)
    requires v.handle && FrameFits(f)
    ensures OnMessage(v, FrameBytes(f)) == Apply(v, f) && !Throws(v, FrameBytes(f))
  {
    hide Decode, FrameBytes, FrameFits;
    DecodeOfFrameBytes(f);
  }

  lemma {:induction false} DeliverFrames(v: ClientView, fs: seq<Frame>)
    requires v.handle && forall i :: 0 <= i < |fs| ==> FrameFits(fs[i])
    ensures DeliverAll(v, AllFrameBytes(fs)) == ApplyAll(v, fs)
    decreases |fs|
  {
    hide Apply, OnMessage, FrameBytes, FrameFits;
    if fs == [] {
    } else {
      OnFrameBytes(v, fs[0]);
      HandleStaysOnce(v, fs[0]);
      DeliverFrames(Apply(v, fs[0]), fs[1..]);
      assert AllFrameBytes(fs)[1..] == AllFrameBytes(fs[1..]);
    }
  }

  lemma {:induction false} DeliverAppend(v: ClientView, a: seq<Bytes>, b: seq<Bytes>)
    ensures DeliverAll(v, a + b) == DeliverAll(DeliverAll(v, a), b)
    decreases |a|
  {
    hide OnMessage;
    if a == [] {
      assert a + b == b;
    } else {
      assert (a + b)[1..] == a[1..] + b;
      DeliverAppend(OnMessage(v, a[0]), a[1..], b);
    }
  }

  lemma OnMessageKeepsHandle(v: ClientView, m: Bytes)
    ensures OnMessage(v, m).handle == v.handle
  {
    hide Apply, Decode;
    match Decode(m)
    case Event(f) => HandleStaysOnce(v, f);
    case _ =>
  }

  lemma {:induction false} DeliverKeepsHandle(v: ClientView, msgs: seq<Bytes>)
    ensures DeliverAll(v, msgs).handle == v.handle
    decreases |msgs|
  {
    hide OnMessage;
    if msgs == [] {
    } else {
      OnMessageKeepsHandle(v, msgs[0]);
      DeliverKeepsHandle(OnMessage(v, msgs[0]), msgs[1..]);
    }
  }

  /** Posting frames moves the delivered-to-be caches by exactly those frames. */
  lemma PostingFrames(v: ClientView, queue: seq<Bytes>, fs: seq<Frame>)
    requires v.handle && forall i :: 0 <= i < |fs| ==> FrameFits(fs[i])
    ensures DeliverAll(v, queue + AllFrameBytes(fs)) == ApplyAll(DeliverAll(v, queue), fs)
    ensures forall m :: m in AllFrameBytes(fs) ==> IsFrame(m)
  {
    hide FrameBytes, FrameFits, ApplyAll;
    DeliverAppend(v, queue, AllFrameBytes(fs));
    DeliverKeepsHandle(v, queue);
    DeliverFrames(DeliverAll(v, queue), fs);
  }

  lemma SentinelFits()
    ensures FrameFits(SentinelFrame)
  {
  }

  lemma StepKeepsConsistent(s: System, a: Action)
    requires Consistent(s) && (a.Do? ==> CallSized(a.call))
    ensures Consistent(Step(s, a))
  {
    hide Apply, OnMessage, FrameBytes, FrameFits, Handle, TreeCall, CachesApply, Shows, Aligned, IsFrame, AllFrameBytes;
    match a
    case Do(c) =>
      var fs := Handle(s.tables, c).frames;
      CallFramesFit(s.tables, c);
      PostingFrames(s.client, s.queue, fs);
      ShowsApplyAll(DeliverAll(s.client, s.queue), s.tree.caches, fs);
      CallMatches(s.tables, s.tree, c);
    case PostSentinel =>
      SentinelFits();
      PostingFrames(s.client, s.queue, [SentinelFrame]);
      SentinelKeepsCaches(DeliverAll(s.client, s.queue), s.tree.caches);
    case Deliver =>
      if s.queue != [] {
        OnMessageKeepsHandle(s.client, s.queue[0]);
      }
  }

  lemma SentinelKeepsCaches(v: ClientView, c: Caches)
    requires Shows(v, c)
    ensures Shows(ApplyAll(v, [SentinelFrame]), c)
  {
    ShowsApplyAll(v, c, [SentinelFrame]);
    CachesApplyOne(c, SentinelFrame);
  }

  lemma {:induction false} RunKeepsConsistent(s: System, actions: seq<Action>)
    requires Consistent(s) && ActionsSized(actions)
    ensures Consistent(Run(s, actions))
    decreases |actions|
  {
    hide Step, Consistent, CallSized;
    if actions == [] {
    } else {
      StepKeepsConsistent(s, actions[0]);
      RunKeepsConsistent(Step(s, actions[0]), actions[1..]);
    }
  }

  lemma StartConsistent()
    ensures Consistent(START)
  {
  }

  /** End-to-end refinement. In every reachable state, for any interleaving of handler calls and
      deliveries, applying the queued messages to the Dart caches gives the tree the calls
      describe, the tables are that tree's live objects, and no queued message throws. */
  lemma {:induction false} EndToEnd(actions: seq<Action>)
    requires ActionsSized(actions)
    ensures
      var s := Run(START, actions);
      && Shows(DeliverAll(s.client, s.queue), s.tree.caches)
      && (s.queue == [] ==> Shows(s.client, s.tree.caches))
      && s.tables.devices == s.tree.caches.devices.Keys && s.tables.adapters == s.tree.present
      && (s.queue != [] ==> !Throws(s.client, s.queue[0]))
  {
    hide Step, Shows, OnMessage, Throws;
    StartConsistent();
    RunKeepsConsistent(START, actions);
    var s := Run(START, actions);
    if s.queue == [] {
    } else {
      assert IsFrame(s.queue[0]);
      var f :| FrameFits(f) && s.queue[0] == FrameBytes(f);
      OnFrameBytes(s.client, f);
    }
  }

  // ── First in, first out ──────────────────────────────────────────────────

  /** The client is what the delivered part of the stream makes of a fresh one, and the queue is
      the rest of the stream. */
  ghost predicate InOrder(s: System) {
    && s.delivered <= |s.posted|
    && (forall i :: 0 <= i < |s.posted| ==> FrameFits(s.posted[i]))
    && s.client == ApplyAll(FRESH_CLIENT, s.posted[..s.delivered])
    && s.queue == AllFrameBytes(s.posted[s.delivered..])
  }

  lemma PostKeepsOrder(s: System, fs: seq<Frame>, s': System)
    requires InOrder(s) && forall i :: 0 <= i < |fs| ==> FrameFits(fs[i])
    requires s'.delivered == s.delivered && s'.client == s.client
    requires s'.posted == s.posted + fs && s'.queue == s.queue + AllFrameBytes(fs)
    ensures InOrder(s')
  {
    hide ApplyAll, FrameBytes, FrameFits;
    assert s'.posted[..s.delivered] == s.posted[..s.delivered];
    assert s'.posted[s.delivered..] == s.posted[s.delivered..] + fs;
  }

  lemma DeliveryKeepsOrder(s: System)
    requires InOrder(s) && s.queue != []
    ensures InOrder(Step(s, Deliver))
  {
    hide Apply, OnMessage, FrameBytes, FrameFits;
    var s', f := Step(s, Deliver), s.posted[s.delivered];
    assert s.posted[..s'.delivered] == s.posted[..s.delivered] + [f];
    assert s.posted[s.delivered..][1..] == s.posted[s'.delivered..];
    HandleStays(FRESH_CLIENT, s.posted[..s.delivered]);
    OnFrameBytes(s.client, f);
    ApplyAllAppend(FRESH_CLIENT, s.posted[..s.delivered], [f]);
    assert [f][1..] == [];
  }

  lemma StepKeepsOrder(s: System, a: Action)
    requires InOrder(s) && (a.Do? ==> CallSized(a.call))
    ensures InOrder(Step(s, a))
  {
    hide InOrder, OnMessage, FrameFits, Handle, TreeCall, AllFrameBytes;
    match a
    case Do(c) =>
      CallFramesFit(s.tables, c);
      PostKeepsOrder(s, Handle(s.tables, c).frames, Step(s, a));
    case PostSentinel =>
      SentinelFits();
      PostKeepsOrder(s, [SentinelFrame], Step(s, a));
    case Deliver =>
      if s.queue != [] {
        DeliveryKeepsOrder(s);
      }
  }

  /** In every run the client is exactly the applied prefix of the posted stream. */
  lemma {:induction false} RunKeepsOrder(s: System, actions: seq<Action>)
    requires InOrder(s) && ActionsSized(actions)
    ensures InOrder(Run(s, actions))
    decreases |actions|
  {
    hide Step, InOrder, CallSized;
    if actions == [] {
    } else {
      StepKeepsOrder(s, actions[0]);
      RunKeepsOrder(Step(s, actions[0]), actions[1..]);
    }
  }

  lemma StartInOrder()
    ensures InOrder(START)
  {
  }

  // ── GATT objects over whole runs ─────────────────────────────────────────

  /** Every characteristic and descriptor a call announces names parent(path) as its parent. */
  predicate NamesParents(c: Call, parent: Path -> Path) {
    c.Added? ==>
      forall i :: 0 <= i < |c.ifaces| ==>
        && (c.ifaces[i].0.GattCharacteristic1? ==> GetPath(c.ifaces[i].1, "Service") == parent(c.path))
        && (c.ifaces[i].0.GattDescriptor1? ==> GetPath(c.ifaces[i].1, "Characteristic") == parent(c.path))
  }

  predicate ParentsNamed(actions: seq<Action>, parent: Path -> Path) {
    forall i :: 0 <= i < |actions| ==> actions[i].Do? ==> NamesParents(actions[i].call, parent)
  }

  predicate AllParentNamed(fs: seq<Frame>, parent: Path -> Path) {
    forall i :: 0 <= i < |fs| ==> GattTree.ParentNamed(fs[i], parent)
  }

  lemma {:induction false} AddedNameParents(t: Tables, path: Path, ifaces: Interfaces, parent: Path -> Path)
    requires NamesParents(Added(path, ifaces), parent)
    ensures AllParentNamed(InterfacesAdded(t, path, ifaces).frames, parent)
    decreases |ifaces|
  {
    if ifaces == [] {
    } else {
      AddedNameParents(InterfaceAdded(t, path, ifaces[0].0, ifaces[0].1).tables, path, ifaces[1..], parent);
    }
  }

  lemma {:induction false} RemovedNameParents(t: Tables, path: Path, names: seq<InterfaceName>, parent: Path -> Path)
    ensures AllParentNamed(InterfacesRemoved(t, path, names).frames, parent)
    decreases |names|
  {
    if names == [] {
    } else {
      RemovedNameParents(InterfaceRemoved(t, path, names[0]).tables, path, names[1..], parent);
    }
  }

  lemma CallNamesParents(t: Tables, c: Call, parent: Path -> Path)
    requires NamesParents(c, parent)
    ensures AllParentNamed(Handle(t, c).frames, parent)
  {
    hide InterfacesAdded, InterfacesRemoved;
    match c
    case Added(path, ifaces) => AddedNameParents(t, path, ifaces, parent);
    case Removed(path, names) => RemovedNameParents(t, path, names, parent);
    case _ =>
  }

  lemma {:induction false} RunNamesParents(s: System, actions: seq<Action>, parent: Path -> Path)
    requires ParentsNamed(actions, parent) && AllParentNamed(s.posted, parent)
    ensures AllParentNamed(Run(s, actions).posted, parent)
    decreases |actions|
  {
    hide Handle, TreeCall, OnMessage, NamesParents, GattTree.ParentNamed;
    if actions == [] {
    } else {
      if actions[0].Do? {
        CallNamesParents(s.tables, actions[0].call, parent);
      }
      assert AllParentNamed([SentinelFrame], parent) by {
        assert GattTree.ParentNamed(SentinelFrame, parent) by {
          SentinelNamesParent(parent);
        }
      }
      RunNamesParents(Step(s, actions[0]), actions[1..], parent);
    }
  }

  lemma SentinelNamesParent(parent: Path -> Path)
    ensures GattTree.ParentNamed(SentinelFrame, parent)
  {
  }

  /** In every reachable client state, when announcements name the parent their path implies:
      links are exactly the children announced since their parent, and an object reached through
      a service or characteristic is the device's own object for that path. */
  lemma {:induction false} IdentityInEveryRun(actions: seq<Action>, parent: Path -> Path)
    requires ActionsSized(actions) && ParentsNamed(actions, parent)
    ensures
      var v := Run(START, actions).client;
      && GattTree.WellFiled(v)
      && forall d :: d in v.devices ==> GattTree.LinksExact(v.devices[d]) && GattTree.SameObjects(v.devices[d])
  {
    hide Step, GattTree.LinksExact, GattTree.SameObjects, GattTree.ParentNamed;
    StartInOrder();
    RunKeepsOrder(START, actions);
    RunNamesParents(START, actions, parent);
    var s := Run(START, actions);
    GattTree.RunKeepsFiled(FRESH_CLIENT, s.posted[..s.delivered]);
    GattTree.RunKeepsLinks(FRESH_CLIENT, s.posted[..s.delivered], parent);
  }

  // ── Calls and deliveries ─────────────────────────────────────────────────

  lemma {:induction false} CallsKeepClient(s: System, calls: seq<Call>)
    ensures Run(s, Calls(calls)).client == s.client && Run(s, Calls(calls)).delivered == s.delivered
    decreases |calls|
  {
    hide Handle, AllFrameBytes, TreeCall;
    if calls == [] {
    } else {
      assert Calls(calls)[0] == Do(calls[0]) && Calls(calls)[1..] == Calls(calls[1..]);
      CallsKeepClient(Step(s, Do(calls[0])), calls[1..]);
    }
  }

  function Deliveries(n: nat): seq<Action> {
    seq(n, i => Deliver)
  }

  /** Delivering everything queued is a run. */
  lemma {:induction false} DeliveringEverything(s: System)
    ensures Run(s, Deliveries(|s.queue|)).client == DeliverAll(s.client, s.queue)
    decreases |s.queue|
  {
    hide OnMessage;
    if s.queue == [] {
    } else {
      assert Deliveries(|s.queue|)[1..] == Deliveries(|s.queue| - 1);
      DeliveringEverything(Step(s, Deliver));
    }
  }

  lemma {:induction false} RunAppendOne(s: System, actions: seq<Action>, a: Action)
    ensures Run(s, actions + [a]) == Step(Run(s, actions), a)
    decreases |actions|
  {
    hide Step;
    if actions == [] {
      assert ([] + [a])[1..] == [];
    } else {
      assert (actions + [a])[1..] == actions[1..] + [a];
      RunAppendOne(Step(s, actions[0]), actions[1..], a);
    }
  }

  lemma {:induction false} RunAppend(s: System, a: seq<Action>, b: seq<Action>)
    ensures Run(s, a + b) == Run(Run(s, a), b)
    decreases |a|
  {
    hide Step;
    if a == [] {
      assert a + b == b;
    } else {
      assert (a + b)[1..] == a[1..] + b;
      RunAppend(Step(s, a[0]), a[1..], b);
    }
  }

  // ── Trace bracketing ─────────────────────────────────────────────────────

  /** The last 0x04 or 0x05 for the path is a 0x04. */
  predicate LiveDevice(fs: seq<Frame>, path: Path)
    decreases |fs|
  {
    fs != [] &&
    var last := fs[|fs| - 1];
    if last.DeviceAddedFrame? && last.device.objectPath == path then true
    else if last.DeviceRemovedFrame? && last.device.objectPath == path then false
    else LiveDevice(fs[..|fs| - 1], path)
  }

  predicate KnownAdapter(fs: seq<Frame>, path: Path) {
    exists i :: 0 <= i < |fs| && fs[i].AdapterFrame? && fs[i].adapter.objectPath == path
  }

  /** f may follow the stream fs: a 0x02 only for a live device, the first 0x01 of an adapter
      only with the full mask. */
  predicate MayFollow(fs: seq<Frame>, f: Frame) {
    && (f.DeviceUpdateFrame? ==> LiveDevice(fs, f.device.objectPath))
    && (f.AdapterFrame? && !KnownAdapter(fs, f.adapter.objectPath) ==> f.adapter.changedMask == ALL_BITS)
  }

  predicate Bracketed(fs: seq<Frame>) {
    forall i :: 0 <= i < |fs| ==> MayFollow(fs[..i], fs[i])
  }

  /** The tables agree with the stream posted so far. */
  ghost predicate Tracked(t: Tables, fs: seq<Frame>) {
    && (forall p :: p in t.devices <==> LiveDevice(fs, p))
    && (forall p :: p in t.adapters ==> KnownAdapter(fs, p))
    && Bracketed(fs)
  }

  lemma OneMoreFrame(fs: seq<Frame>, f: Frame)
    requires Bracketed(fs) && MayFollow(fs, f)
    ensures Bracketed(fs + [f])
    ensures forall p :: LiveDevice(fs + [f], p)
                   <==> if f.DeviceAddedFrame? && f.device.objectPath == p then true
                        else if f.DeviceRemovedFrame? && f.device.objectPath == p then false else LiveDevice(fs, p)
    ensures forall p :: KnownAdapter(fs, p) ==> KnownAdapter(fs + [f], p)
    ensures f.AdapterFrame? ==> KnownAdapter(fs + [f], f.adapter.objectPath)
  {
    var more := fs + [f];
    assert more[..|fs|] == fs && more[|more| - 1] == f;
    forall i | 0 <= i < |more| ensures MayFollow(more[..i], more[i]) {
      if i < |fs| {
        assert more[..i] == fs[..i];
      }
    }
    forall p | KnownAdapter(fs, p) ensures KnownAdapter(more, p) {
      var i :| 0 <= i < |fs| && fs[i].AdapterFrame? && fs[i].adapter.objectPath == p;
      assert more[i] == fs[i];
    }
  }

  lemma InterfaceAddedTracked(t: Tables, fs: seq<Frame>, path: Path, iface: InterfaceName, props: PropertiesMap)
    requires Tracked(t, fs)
    ensures
      var h := InterfaceAdded(t, path, iface, props);
      Tracked(h.tables, fs + h.frames)
  {
    hide LiveDevice, KnownAdapter, Bracketed, GetManufacturer, GetServiceData;
    var h := InterfaceAdded(t, path, iface, props);
    if iface.OtherInterface? {
      assert fs + h.frames == fs;
    } else {
      OneMoreFrame(fs, h.frames[0]);
    }
  }

  lemma InterfaceRemovedTracked(t: Tables, fs: seq<Frame>, path: Path, iface: InterfaceName)
    requires Tracked(t, fs)
    ensures
      var h := InterfaceRemoved(t, path, iface);
      Tracked(h.tables, fs + h.frames)
  {
    hide LiveDevice, KnownAdapter, Bracketed;
    var h := InterfaceRemoved(t, path, iface);
    if h.frames == [] {
      assert fs + h.frames == fs;
    } else {
      OneMoreFrame(fs, h.frames[0]);
    }
  }

  lemma {:induction false} AddedTracked(t: Tables, fs: seq<Frame>, path: Path, ifaces: Interfaces)
    requires Tracked(t, fs)
    ensures
      var h := InterfacesAdded(t, path, ifaces);
      Tracked(h.tables, fs + h.frames)
    decreases |ifaces|
  {
    hide Tracked, InterfaceAdded;
    if ifaces == [] {
      assert fs + [] == fs;
    } else {
      var first := InterfaceAdded(t, path, ifaces[0].0, ifaces[0].1);
      InterfaceAddedTracked(t, fs, path, ifaces[0].0, ifaces[0].1);
      AddedTracked(first.tables, fs + first.frames, path, ifaces[1..]);
      var rest := InterfacesAdded(first.tables, path, ifaces[1..]).frames;
      assert fs + (first.frames + rest) == fs + first.frames + rest;
    }
  }

  lemma {:induction false} RemovedTracked(t: Tables, fs: seq<Frame>, path: Path, names: seq<InterfaceName>)
    requires Tracked(t, fs)
    ensures
      var h := InterfacesRemoved(t, path, names);
      Tracked(h.tables, fs + h.frames)
    decreases |names|
  {
    hide Tracked, InterfaceRemoved;
    if names == [] {
      assert fs + [] == fs;
    } else {
      var first := InterfaceRemoved(t, path, names[0]);
      InterfaceRemovedTracked(t, fs, path, names[0]);
      RemovedTracked(first.tables, fs + first.frames, path, names[1..]);
      var rest := InterfacesRemoved(first.tables, path, names[1..]).frames;
      assert fs + (first.frames + rest) == fs + first.frames + rest;
    }
  }

  lemma ChangedTracked(t: Tables, fs: seq<Frame>, path: Path, iface: InterfaceName, changed: PropertiesMap)
    requires Tracked(t, fs)
    ensures Tracked(t, fs + ChangeFrames(t, path, iface, changed))
  {
    hide LiveDevice, KnownAdapter, Bracketed, AdapterMask, DeviceMask, AdapterChangeReadable, DeviceChangeReadable;
    var more := ChangeFrames(t, path, iface, changed);
    if more == [] {
      assert fs + more == fs;
    } else {
      OneMoreFrame(fs, more[0]);
    }
  }

  lemma StepKeepsTracked(s: System, a: Action)
    requires Tracked(s.tables, s.posted)
    ensures Tracked(Step(s, a).tables, Step(s, a).posted)
  {
    hide InterfacesAdded, InterfacesRemoved, ChangeFrames, TreeCall, OnMessage, AllFrameBytes, LiveDevice, KnownAdapter,
      Bracketed;
    match a
    case Do(Added(path, ifaces)) => AddedTracked(s.tables, s.posted, path, ifaces);
    case Do(Removed(path, names)) => RemovedTracked(s.tables, s.posted, path, names);
    case Do(Changed(path, iface, changed)) => ChangedTracked(s.tables, s.posted, path, iface, changed);
    case Do(_) => assert s.posted + [] == s.posted;
    case PostSentinel => OneMoreFrame(s.posted, SentinelFrame);
    case Deliver =>
  }

  lemma {:induction false} RunKeepsTracked(s: System, actions: seq<Action>)
    requires Tracked(s.tables, s.posted)
    ensures Tracked(Run(s, actions).tables, Run(s, actions).posted)
    decreases |actions|
  {
    hide Step, Tracked;
    if actions == [] {
    } else {
      StepKeepsTracked(s, actions[0]);
      RunKeepsTracked(Step(s, actions[0]), actions[1..]);
    }
  }

  /** A live device has a 0x04 in the stream with no 0x05 for it after. */
  lemma {:induction false} LiveMeansAddedSince(fs: seq<Frame>, path: Path)
    requires LiveDevice(fs, path)
    ensures exists j :: 0 <= j < |fs| && fs[j].DeviceAddedFrame? && fs[j].device.objectPath == path
                        && forall k :: j < k < |fs| ==> !(fs[k].DeviceRemovedFrame? && fs[k].device.objectPath == path)
    decreases |fs|
  {
    var front, last := fs[..|fs| - 1], fs[|fs| - 1];
    if last.DeviceAddedFrame? && last.device.objectPath == path {
      assert fs[|fs| - 1].DeviceAddedFrame?;
    } else {
      LiveMeansAddedSince(front, path);
      var j :| 0 <= j < |front| && front[j].DeviceAddedFrame? && front[j].device.objectPath == path
               && forall k :: j < k < |front| ==> !(front[k].DeviceRemovedFrame? && front[k].device.objectPath == path);
      assert fs[j] == front[j];
      forall k | j < k < |fs| ensures !(fs[k].DeviceRemovedFrame? && fs[k].device.objectPath == path) {
        if k < |front| {
          assert fs[k] == front[k];
        }
      }
    }
  }

  /** In every run's stream each 0x02 follows a 0x04 for its path with no 0x05 for it between,
      and the first 0x01 of an adapter carries the full mask. */
  lemma {:induction false} EveryStreamIsBracketed(actions: seq<Action>)
    ensures
      var fs := Run(START, actions).posted;
      && (forall i :: 0 <= i < |fs| && fs[i].DeviceUpdateFrame? ==>
            exists j :: 0 <= j < i && fs[j].DeviceAddedFrame? && fs[j].device.objectPath == fs[i].device.objectPath
              && forall k :: j < k < i ==>
                   !(fs[k].DeviceRemovedFrame? && fs[k].device.objectPath == fs[i].device.objectPath))
      && (forall i :: 0 <= i < |fs| && fs[i].AdapterFrame?
            && (forall j :: 0 <= j < i ==> !(fs[j].AdapterFrame? && fs[j].adapter.objectPath == fs[i].adapter.objectPath))
            ==> fs[i].adapter.changedMask == ALL_BITS)
  {
    hide Step;
    RunKeepsTracked(START, actions);
    var fs := Run(START, actions).posted;
    forall i | 0 <= i < |fs| && fs[i].DeviceUpdateFrame?
      ensures exists j :: 0 <= j < i && fs[j].DeviceAddedFrame? && fs[j].device.objectPath == fs[i].device.objectPath
                && forall k :: j < k < i ==>
                     !(fs[k].DeviceRemovedFrame? && fs[k].device.objectPath == fs[i].device.objectPath)
    {
      var path := fs[i].device.objectPath;
      assert MayFollow(fs[..i], fs[i]);
      LiveMeansAddedSince(fs[..i], path);
      var j :| 0 <= j < i && fs[..i][j].DeviceAddedFrame? && fs[..i][j].device.objectPath == path
               && forall k :: j < k < i ==> !(fs[..i][k].DeviceRemovedFrame? && fs[..i][k].device.objectPath == path);
      forall k | j < k < i ensures !(fs[k].DeviceRemovedFrame? && fs[k].device.objectPath == path) {
        assert fs[..i][k] == fs[k];
      }
      assert fs[j] == fs[..i][j];
    }
    forall i | 0 <= i < |fs| && fs[i].AdapterFrame?
      && (forall j :: 0 <= j < i ==> !(fs[j].AdapterFrame? && fs[j].adapter.objectPath == fs[i].adapter.objectPath))
      ensures fs[i].adapter.changedMask == ALL_BITS
    {
      assert MayFollow(fs[..i], fs[i]);
    }
  }

  lemma CachedAfter(v: ClientView, f: Frame, path: Path)
    ensures path in Apply(v, f).devices
       <==> if f.DeviceAddedFrame? && f.device.objectPath == path then true
            else if f.DeviceRemovedFrame? && f.device.objectPath == path then false else path in v.devices
    ensures path in Apply(v, f).adapters <==> path in v.adapters || (f.AdapterFrame? && f.adapter.objectPath == path)
  {
    hide MergeDevice, MergeAdapter, UpdateDevice, AddService, AddChar, AddDesc, PostValue, NewDevice, Paths.DevicePathOf;
  }

  /** The client caches a device exactly when the stream it was given leaves it live, and an adapter
      exactly when the stream has named it. */
  lemma {:induction false} CachedIsLive(fs: seq<Frame>, path: Path)
    ensures path in ApplyAll(FRESH_CLIENT, fs).devices <==> LiveDevice(fs, path)
    ensures path in ApplyAll(FRESH_CLIENT, fs).adapters <==> KnownAdapter(fs, path)
    decreases |fs|
  {
    hide Apply, KnownAdapter;
    if fs == [] {
      NoneKnown(path);
    } else {
      var front, last := fs[..|fs| - 1], fs[|fs| - 1];
      CachedIsLive(front, path);
      assert fs == front + [last];
      ApplyAllAppend(FRESH_CLIENT, front, [last]);
      assert [last][1..] == [];
      CachedAfter(ApplyAll(FRESH_CLIENT, front), last, path);
      KnownAfter(front, last, path);
    }
  }

  lemma NoneKnown(path: Path)
    ensures !KnownAdapter([], path)
  {
  }

  lemma KnownAfter(fs: seq<Frame>, f: Frame, path: Path)
    ensures KnownAdapter(fs + [f], path) <==> KnownAdapter(fs, path) || (f.AdapterFrame? && f.adapter.objectPath == path)
  {
    var more := fs + [f];
    if KnownAdapter(fs, path) {
      var i :| 0 <= i < |fs| && fs[i].AdapterFrame? && fs[i].adapter.objectPath == path;
      assert more[i] == fs[i];
    } else if f.AdapterFrame? && f.adapter.objectPath == path {
      assert more[|fs|] == f;
    }
    if KnownAdapter(more, path) {
      var i :| 0 <= i < |more| && more[i].AdapterFrame? && more[i].adapter.objectPath == path;
      assert i < |fs| ==> fs[i] == more[i];
    }
  }

  lemma StartTracked()
    ensures Tracked(START.tables, START.posted)
  {
  }

  /** In every reachable state the next message, if it updates a device, finds it cached, and if it
      makes an adapter, carries the full record: no update is lost and no adapter is partial. */
  lemma {:induction false} NoUpdateIsLost(actions: seq<Action>)
    requires ActionsSized(actions)
    ensures
      var s := Run(START, actions);
      s.delivered < |s.posted| ==>
        var f := s.posted[s.delivered];
        && (f.DeviceUpdateFrame? ==> f.device.objectPath in s.client.devices)
        && (f.AdapterFrame? && f.adapter.objectPath !in s.client.adapters ==> f.adapter.changedMask == ALL_BITS)
  {
    hide Step, Apply, LiveDevice, KnownAdapter, FrameFits, CallSized;
    StartInOrder();
    RunKeepsOrder(START, actions);
    StartTracked();
    RunKeepsTracked(START, actions);
    var s := Run(START, actions);
    if s.delivered < |s.posted| {
      var f := s.posted[s.delivered];
      assert MayFollow(s.posted[..s.delivered], f);
      if f.DeviceUpdateFrame? {
        CachedIsLive(s.posted[..s.delivered], f.device.objectPath);
      } else if f.AdapterFrame? {
        CachedIsLive(s.posted[..s.delivered], f.adapter.objectPath);
      }
    }
  }
}
