/** The native object manager and the Dart client, object to object. */
module Pipeline {
  import opened ByteStrings
  import opened Types
  import opened Frames
  import opened ObjectManagers
  import opened ClientModel
  import opened Clients
  import Devices
  import opened Replication
  import opened Sizes
  import opened Runs
  import GattTree

  /** The handler a signal or a GATT call enters. */
  method Enter(manager: ObjectManager, c: Call)
    modifies manager
    ensures manager.Did(Handle(old(manager.State()), c))
  {
    hide InterfacesAdded, InterfacesRemoved, ChangeFrames, AllFrameBytes;
    match c
    case Added(path, ifaces) => manager.OnInterfacesAdded(path, ifaces);
    case Removed(path, names) => manager.OnInterfacesRemoved(path, names);
    case Changed(path, iface, changed) => manager.OnPropertiesChanged(path, iface, changed);
    case SubscribeNotify(path) => manager.SubscribeCharNotify(path);
    case UnsubscribeNotify(path) => manager.UnsubscribeCharNotify(path);
  }

  /** The bridge posts the one-byte sentinel on the manager's port. */
  method PostSentinel(manager: ObjectManager)
    modifies manager
    ensures manager.Did(Handled(old(manager.State()), [SentinelFrame]))
  {
    SentinelIsOneByte();
    manager.posted := manager.posted + [[0x00]];
  }

  lemma SentinelIsOneByte()
    ensures AllFrameBytes([SentinelFrame]) == [[0x00]]
  {
    assert FrameBytes(SentinelFrame) == [0x00];
    hide FrameBytes;
  }

  /** The manager's tables, its messages from the delivered one on and the client are those of s. */
  ghost predicate Playing(manager: ObjectManager, client: BlueZClient, delivered: nat, s: System)
    reads manager, client, client.Owned()
  {
    && client.Valid() && GattTree.WellFiled(client.view) && manager !in client.Owned()
    && manager.State() == s.tables && client.view == s.client
    && delivered == s.delivered <= |manager.posted| && manager.posted[delivered..] == s.queue
  }

  method Act(manager: ObjectManager, client: BlueZClient, delivered: nat, a: Action, ghost s: System)
      returns (delivered': nat)
    requires Playing(manager, client, delivered, s)
    modifies manager, client.Owned()
    ensures Playing(manager, client, delivered', Step(s, a)) && client.Grew(old(client.Owned()))
  {
    hide Step, Playing;
    match a {
      case Do(c) =>
        ActCall(manager, client, delivered, c, s);
        return delivered;
      case PostSentinel =>
        ActSentinel(manager, client, delivered, s);
        return delivered;
      case Deliver =>
        delivered' := ActDeliver(manager, client, delivered, s);
    }
  }

  lemma PostedLater(posted: seq<Bytes>, more: seq<Bytes>, n: nat)
    requires n <= |posted|
    ensures (posted + more)[n..] == posted[n..] + more
  {
  }

  method ActCall(manager: ObjectManager, client: BlueZClient, delivered: nat, c: Call, ghost s: System)
    requires Playing(manager, client, delivered, s)
    modifies manager
    ensures Playing(manager, client, delivered, Step(s, Do(c)))
  {
    hide Step, Handle, AllFrameBytes, GattTree.WellFiled, BlueZClient.Valid;
    OneStep(s, Do(c));
    PostedLater(manager.posted, AllFrameBytes(Handle(s.tables, c).frames), delivered);
    Enter(manager, c);
  }

  method ActSentinel(manager: ObjectManager, client: BlueZClient, delivered: nat, ghost s: System)
    requires Playing(manager, client, delivered, s)
    modifies manager
    ensures Playing(manager, client, delivered, Step(s, Action.PostSentinel))
  {
    hide Step, AllFrameBytes, GattTree.WellFiled, BlueZClient.Valid;
    OneStep(s, Action.PostSentinel);
    PostedLater(manager.posted, AllFrameBytes([SentinelFrame]), delivered);
    PostSentinel(manager);
  }

  method ActDeliver(manager: ObjectManager, client: BlueZClient, delivered: nat, ghost s: System) returns (delivered': nat)
    requires Playing(manager, client, delivered, s)
    modifies client.Owned()
    ensures Playing(manager, client, delivered', Step(s, Deliver)) && client.Grew(old(client.Owned()))
  {
    hide Step, OnMessage, GattTree.WellFiled, BlueZClient.Valid, BlueZClient.Owned;
    OneStep(s, Deliver);
    if delivered == |manager.posted| {
      return delivered;
    }
    var _ := client.OnEvent(manager.posted[delivered]);
    return delivered + 1;
  }

  /** Any interleaving of handler calls, the sentinel and deliveries, carried out by a manager and a
      client: tables, messages not yet delivered and client are those of the run. */
  method Play(actions: seq<Action>) returns (manager: ObjectManager, client: BlueZClient, delivered: nat)
    ensures fresh(manager) && fresh(client.Owned()) && Playing(manager, client, delivered, Run(START, actions))
  {
    hide Step, GattTree.WellFiled, BlueZClient.Valid;
    manager := new ObjectManager();
    client := new BlueZClient(true);
    delivered := 0;
    NothingFiled(FRESH_CLIENT);
    var i := 0;
    while i < |actions|
      invariant 0 <= i <= |actions| && fresh(manager) && fresh(client.Owned())
      invariant Playing(manager, client, delivered, Run(START, actions[..i]))
    {
      hide Playing;
      assert actions[..i + 1] == actions[..i] + [actions[i]];
      RunAppendOne(START, actions[..i], actions[i]);
      delivered := Act(manager, client, delivered, actions[i], Run(START, actions[..i]));
      i := i + 1;
    }
    assert actions[..i] == actions;
  }

  lemma NothingFiled(v: ClientView)
    requires v.devices == map[]
    ensures GattTree.WellFiled(v)
  {
  }

  lemma OneStep(s: System, a: Action)
    ensures match a
      case Do(c) =>
        var h := Handle(s.tables, c);
        && Step(s, a).tables == h.tables && Step(s, a).queue == s.queue + AllFrameBytes(h.frames)
        && Step(s, a).client == s.client && Step(s, a).delivered == s.delivered
      case PostSentinel =>
        && Step(s, a).tables == s.tables && Step(s, a).queue == s.queue + AllFrameBytes([SentinelFrame])
        && Step(s, a).client == s.client && Step(s, a).delivered == s.delivered
      case Deliver =>
        && Step(s, a).tables == s.tables
        && if s.queue == [] then Step(s, a) == s
           else Step(s, a).client == OnMessage(s.client, s.queue[0]) && Step(s, a).queue == s.queue[1..]
                && Step(s, a).delivered == s.delivered + 1
  {
    hide Handle, AllFrameBytes, OnMessage, TreeCall;
  }

  lemma DeliverOne(v: ClientView, msg: Bytes)
    ensures DeliverAll(v, [msg]) == OnMessage(v, msg)
  {
    hide OnMessage;
    assert DeliverAll(OnMessage(v, msg), [msg][1..]) == OnMessage(v, msg);
  }

  method DeliverEach(client: BlueZClient, msgs: seq<Bytes>)
    requires client.Valid() && GattTree.WellFiled(client.view)
    modifies client.Owned()
    ensures client.Valid() && client.view == DeliverAll(old(client.view), msgs)
  {
    hide BlueZClient.Valid, OnMessage;
    var i := 0;
    while i < |msgs|
      invariant 0 <= i <= |msgs|
      invariant client.Valid() && GattTree.WellFiled(client.view)
      invariant client.view == DeliverAll(old(client.view), msgs[..i])
      invariant client.Grew(old(client.Owned()))
    {
      assert msgs[..i + 1] == msgs[..i] + [msgs[i]];
      DeliverAppend(old(client.view), msgs[..i], [msgs[i]]);
      DeliverOne(client.view, msgs[i]);
      var _ := client.OnEvent(msgs[i]);
      i := i + 1;
    }
    assert msgs[..i] == msgs;
  }

  /** What delivering the rest of the queue makes of the client, and what that keeps. */
  lemma AllDelivered(actions: seq<Action>, parent: Path -> Path)
    requires ActionsSized(actions)
    ensures
      var s := Run(START, actions);
      var v := DeliverAll(s.client, s.queue);
      && Shows(v, s.tree.caches) && s.tables.devices == v.devices.Keys
      && (ParentsNamed(actions, parent) ==> forall d :: d in v.devices ==> GattTree.SameObjects(v.devices[d]))
  {
    hide Step, Apply, OnMessage, FrameBytes, FrameFits, GattTree.SameObjects, GattTree.LinksExact, ParentsNamed, ActionsSized,
      GattTree.ParentNamed, ShowsDevice;
    var s := Run(START, actions);
    EndToEnd(actions);
    StartInOrder();
    RunKeepsOrder(START, actions);
    HandleStays(FRESH_CLIENT, s.posted[..s.delivered]);
    DeliverFrames(s.client, s.posted[s.delivered..]);
    assert s.posted[..s.delivered] + s.posted[s.delivered..] == s.posted;
    ApplyAllAppend(FRESH_CLIENT, s.posted[..s.delivered], s.posted[s.delivered..]);
    if ParentsNamed(actions, parent) {
      RunNamesParents(START, actions, parent);
      GattTree.RunKeepsLinks(FRESH_CLIENT, s.posted, parent);
    }
  }

  /** After any interleaving of handler calls and deliveries, and delivery of what is still queued, the
      objects the Dart client caches show exactly the tree the calls describe; and when each
      announcement names the parent its path implies, whatever is reached through a service or a
      characteristic is the device's own object. */
  method Replicate(actions: seq<Action>, ghost parent: Path -> Path) returns (manager: ObjectManager, client: BlueZClient)
    requires ActionsSized(actions)
    ensures client.Valid() && Shows(client.view, Run(START, actions).tree.caches)
    ensures manager.State() == Run(START, actions).tables && manager.deviceProxies == client.devices.Keys
    ensures ParentsNamed(actions, parent) ==> forall d :: d in client.devices ==> client.devices[d].Shared()
  {
    hide Step, OnMessage, CallSized, ActionsSized, ParentsNamed, Shows, GattTree.SameObjects, GattTree.WellFiled,
      Devices.BlueZDevice.Valid;
    var delivered: nat;
    manager, client, delivered := Play(actions);
    AllDelivered(actions, parent);
    DeliverEach(client, manager.posted[delivered..]);
    if ParentsNamed(actions, parent) {
      forall d | d in client.devices ensures client.devices[d].Shared() {
        client.devices[d].SharedReferences();
      }
    }
  }
}
