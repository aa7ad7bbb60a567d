/** bluez_client_create and BlueZClient.connect(): what the snapshot sentinel guarantees to a caller. */
module Sessions {
  import opened ByteStrings
  import opened Types
  import opened Dbus
  import opened Paths
  import opened Frames
  import opened ObjectManagers
  import opened ClientModel
  import opened Linking
  import opened Snapshot
  import opened Runs
  import opened Sizes
  import Replication

  // ── bluez_client_create ──────────────────────────────────────────────────

  /** Snapshot object by object, then the sentinel; the event loop starts only after. */
  function CreateActions(objects: Objects): seq<Action> {
    SnapshotActions(objects) + [PostSentinel]
  }

  function SnapshotActions(objects: Objects): seq<Action> {
    seq(|objects|, i requires 0 <= i < |objects| => Do(Added(objects[i].0, objects[i].1)))
  }

  function SnapshotFrames(objects: Objects): seq<Frame> {
    SnapshotOf(NO_TABLES, objects).frames
  }

  // ── Sessions ─────────────────────────────────────────────────────────────

  /** connected: _connected. live: the context exists and its port is listened to. objects: what
      GetManagedObjects returned to it. waiting: the call that created it is still suspended. */
  datatype Session = Session(connected: bool, live: bool, objects: Objects, sys: System, waiting: bool)

  const IDLE: Session := Session(false, false, [], START, false)

  datatype Event =
    | ConnectCall(creation: Option<Objects>)
    | Native(call: Call)
    | Message
    | Resume
    | CloseCall

  /** The suspended call's continuation is in the microtask queue. */
  predicate Ready(s: Session) {
    s.waiting && s.sys.client.snapshotDone
  }

  ghost function SessionStep(s: Session, e: Event): Session {
    match e
    case ConnectCall(creation) =>
      // An early return; a creation that fails, so that the call throws; or a new context.
      if s.connected || creation.None? then s
      else Session(true, true, creation.value, Run(START, CreateActions(creation.value)), true)
    case Native(c) =>
      if s.live then s.(sys := Step(s.sys, Do(c))) else s
    case Message =>
      // Microtasks run before the next message.
      if s.live && !Ready(s) then s.(sys := Step(s.sys, Deliver)) else s
    case Resume =>
      if Ready(s) then s.(waiting := false) else s
    case CloseCall =>
      s.(live := false)
  }

  ghost function RunSession(s: Session, es: seq<Event>): Session
    decreases |es|
  {
    if es == [] then s else RunSession(SessionStep(s, es[0]), es[1..])
  }

  /** A call of connect() returns normally in state s. */
  predicate Returns(s: Session, e: Event) {
    (e.ConnectCall? && s.connected) || (e.Resume? && Ready(s))
  }

  predicate EventSized(e: Event) {
    match e
    case ConnectCall(Some(objects)) => forall i :: 0 <= i < |objects| ==> CallSized(Added(objects[i].0, objects[i].1))
    case Native(c) => CallSized(c)
    case _ => true
  }

  predicate EventsSized(es: seq<Event>) {
    forall i :: 0 <= i < |es| ==> EventSized(es[i])
  }

  // ── The stream of a session ──────────────────────────────────────────────

  predicate NoSentinel(fs: seq<Frame>) {
    forall i :: 0 <= i < |fs| ==> !fs[i].SentinelFrame?
  }

  /** posted is the snapshot, one sentinel, and frames of the event loop. */
  predicate Sealed(objects: Objects, posted: seq<Frame>) {
    var n := |SnapshotFrames(objects)|;
    && n < |posted| && posted[..n] == SnapshotFrames(objects) && posted[n] == SentinelFrame
    && NoSentinel(SnapshotFrames(objects)) && NoSentinel(posted[n + 1..])
  }

  /** The sentinel, and with it every snapshot frame before it, has been applied. */
  predicate BarrierPassed(s: Session) {
    |SnapshotFrames(s.objects)| < s.sys.delivered
  }

  ghost predicate SessionInv(s: Session) {
    && (!s.connected ==> s == IDLE)
    && (s.connected ==> InOrder(s.sys) && Sealed(s.objects, s.sys.posted))
    && (s.waiting ==> s.connected && s.sys.delivered <= |SnapshotFrames(s.objects)| + 1)
    && (s.connected && !s.waiting ==> BarrierPassed(s))
    && (s.live ==> s.connected)
  }

  lemma {:induction false} AddedPostNoSentinel(t: Tables, path: Path, ifaces: Interfaces)
    ensures NoSentinel(InterfacesAdded(t, path, ifaces).frames)
    decreases |ifaces|
  {
    if ifaces == [] {
    } else {
      AddedPostNoSentinel(InterfaceAdded(t, path, ifaces[0].0, ifaces[0].1).tables, path, ifaces[1..]);
    }
  }

  lemma {:induction false} RemovedPostNoSentinel(t: Tables, path: Path, names: seq<InterfaceName>)
    ensures NoSentinel(InterfacesRemoved(t, path, names).frames)
    decreases |names|
  {
    if names == [] {
    } else {
      RemovedPostNoSentinel(InterfaceRemoved(t, path, names[0]).tables, path, names[1..]);
    }
  }

  lemma CallPostsNoSentinel(t: Tables, c: Call)
    ensures NoSentinel(Handle(t, c).frames)
  {
    hide InterfacesAdded, InterfacesRemoved;
    match c
    case Added(path, ifaces) => AddedPostNoSentinel(t, path, ifaces);
    case Removed(path, names) => RemovedPostNoSentinel(t, path, names);
    case _ =>
  }

  lemma {:induction false} SnapshotPostsNoSentinel(t: Tables, objects: Objects)
    ensures NoSentinel(SnapshotOf(t, objects).frames)
    decreases |objects|
  {
    hide InterfacesAdded;
    if objects == [] {
    } else {
      AddedPostNoSentinel(t, objects[0].0, objects[0].1);
      SnapshotPostsNoSentinel(InterfacesAdded(t, objects[0].0, objects[0].1).tables, objects[1..]);
    }
  }

  lemma AddedStep(s: System, path: Path, ifaces: Interfaces)
    ensures
      var s' := Step(s, Do(Added(path, ifaces)));
      var h := InterfacesAdded(s.tables, path, ifaces);
      s'.tables == h.tables && s'.posted == s.posted + h.frames && s'.delivered == s.delivered && s'.client == s.client
  {
    hide InterfacesAdded, AllFrameBytes, Replication.TreeCall;
  }

  lemma ActionsOf(objects: Objects)
    requires objects != []
    ensures CreateActions(objects) != []
    ensures CreateActions(objects)[0] == Do(Added(objects[0].0, objects[0].1))
    ensures CreateActions(objects)[1..] == CreateActions(objects[1..])
  {
  }

  /** Creating a context enters the handlers once per object, posts what they post and the
      sentinel, and delivers nothing. */
  lemma {:induction false} CreationPosts(s: System, objects: Objects)
    ensures
      var s' := Run(s, CreateActions(objects));
      && s'.posted == s.posted + SnapshotOf(s.tables, objects).frames + [SentinelFrame]
      && s'.delivered == s.delivered && s'.client == s.client
    decreases |objects|
  {
    if objects == [] {
      assert CreateActions(objects) == [PostSentinel] && CreateActions(objects)[1..] == [];
      assert Run(s, [PostSentinel]) == Step(s, PostSentinel);
      assert s.posted + [] == s.posted;
    } else {
      hide Step, InterfacesAdded, CreateActions;
      var a := Do(Added(objects[0].0, objects[0].1));
      var first := InterfacesAdded(s.tables, objects[0].0, objects[0].1);
      ActionsOf(objects);
      AddedStep(s, objects[0].0, objects[0].1);
      CreationPosts(Step(s, a), objects[1..]);
      Regroup(s.posted, first.frames, SnapshotOf(first.tables, objects[1..]).frames);
    }
  }

  // ── What every session keeps ─────────────────────────────────────────────

  lemma {:induction false} SentinelFlags(v: ClientView, fs: seq<Frame>)
    requires v.pending != v.snapshotDone
    ensures ApplyAll(v, fs).snapshotDone <==> v.snapshotDone || !NoSentinel(fs)
    ensures ApplyAll(v, fs).pending != ApplyAll(v, fs).snapshotDone
    decreases |fs|
  {
    if fs == [] {
    } else {
      FlagsOnce(v, fs[0]);
      SentinelFlags(Apply(v, fs[0]), fs[1..]);
      hide Apply;
      if NoSentinel(fs[1..]) && !fs[0].SentinelFrame? {
        forall i | 0 <= i < |fs| ensures !fs[i].SentinelFrame? {
          assert i == 0 || fs[i] == fs[1..][i - 1];
        }
      }
    }
  }

  lemma FlagsOnce(v: ClientView, f: Frame)
    requires v.pending != v.snapshotDone
    ensures Apply(v, f).snapshotDone <==> v.snapshotDone || f.SentinelFrame?
    ensures Apply(v, f).pending != Apply(v, f).snapshotDone
  {
  }

  /** The future is completed exactly when the barrier has been passed. */
  lemma {:induction false} FutureIsBarrier(s: Session)
    requires SessionInv(s) && s.connected
    ensures s.sys.client.snapshotDone <==> BarrierPassed(s)
    ensures s.sys.client.pending <==> !BarrierPassed(s)
  {
    var n, done := |SnapshotFrames(s.objects)|, s.sys.posted[..s.sys.delivered];
    SentinelFlags(FRESH_CLIENT, done);
    if n < s.sys.delivered {
      assert done[n].SentinelFrame?;
    } else {
      forall i | 0 <= i < |done| ensures !done[i].SentinelFrame? {
        assert done[i] == s.sys.posted[..n][i];
      }
    }
  }

  lemma MoreFrames(objects: Objects, posted: seq<Frame>, more: seq<Frame>)
    requires Sealed(objects, posted) && NoSentinel(more)
    ensures Sealed(objects, posted + more)
  {
    var n := |SnapshotFrames(objects)|;
    assert (posted + more)[..n] == posted[..n];
    assert (posted + more)[n + 1..] == posted[n + 1..] + more;
  }

  lemma CreationSized(objects: Objects)
    requires EventSized(ConnectCall(Some(objects)))
    ensures ActionsSized(CreateActions(objects))
  {
  }

  lemma CreatedSession(objects: Objects)
    requires EventSized(ConnectCall(Some(objects)))
    ensures SessionInv(Session(true, true, objects, Run(START, CreateActions(objects)), true))
  {
    hide InOrder, SnapshotOf, CallSized, Step;
    CreationSized(objects);
    StartInOrder();
    RunKeepsOrder(START, CreateActions(objects));
    CreationPosts(START, objects);
    SnapshotPostsNoSentinel(NO_TABLES, objects);
    var fs := SnapshotFrames(objects);
    assert [] + fs + [SentinelFrame] == fs + [SentinelFrame];
    assert (fs + [SentinelFrame])[..|fs|] == fs;
    assert (fs + [SentinelFrame])[|fs| + 1..] == [];
  }

  lemma EventKeepsInv(s: Session, e: Event)
    requires SessionInv(s) && EventSized(e)
    ensures SessionInv(SessionStep(s, e))
  {
    hide InOrder, Sealed, CallSized, OnMessage, Handle, AllFrameBytes, Replication.TreeCall, CreateActions, SnapshotFrames;
    match e
    case ConnectCall(creation) =>
      if !s.connected && creation.Some? {
        CreatedSession(creation.value);
      }
    case Native(c) =>
      if s.live {
        StepKeepsOrder(s.sys, Do(c));
        CallPostsNoSentinel(s.sys.tables, c);
        MoreFrames(s.objects, s.sys.posted, Handle(s.sys.tables, c).frames);
      }
    case Message =>
      if s.live && !Ready(s) {
        StepKeepsOrder(s.sys, Deliver);
        FutureIsBarrier(s);
      }
    case Resume =>
      if Ready(s) {
        FutureIsBarrier(s);
      }
    case CloseCall =>
  }

  lemma {:induction false} SessionKeepsInv(s: Session, es: seq<Event>)
    requires SessionInv(s) && EventsSized(es)
    ensures SessionInv(RunSession(s, es))
    decreases |es|
  {
    hide SessionInv, SessionStep, EventSized;
    if es == [] {
    } else {
      EventKeepsInv(s, es[0]);
      SessionKeepsInv(SessionStep(s, es[0]), es[1..]);
    }
  }

  lemma SentinelOnlyFlags(v: ClientView)
    ensures ApplyAll(v, [SentinelFrame]) == v.(snapshotDone := v.snapshotDone || v.pending, pending := false)
  {
    assert [SentinelFrame][1..] == [];
  }

  // ── The barrier ──────────────────────────────────────────────────────────

  /** Until the sentinel, the caches hold a prefix of the snapshot and nothing of the event loop. */
  lemma {:induction false} NothingEarly(es: seq<Event>)
    requires EventsSized(es)
    ensures
      var s := RunSession(IDLE, es);
      s.connected && !BarrierPassed(s) ==>
        s.sys.client == ApplyAll(FRESH_CLIENT, SnapshotFrames(s.objects)[..s.sys.delivered])
  {
    hide SessionStep, EventSized, SnapshotFrames, Apply;
    SessionKeepsInv(IDLE, es);
    var s := RunSession(IDLE, es);
    if s.connected && !BarrierPassed(s) {
      var n := |SnapshotFrames(s.objects)|;
      assert s.sys.posted[..s.sys.delivered] == s.sys.posted[..n][..s.sys.delivered];
    }
  }

  lemma SealedPrefix(objects: Objects, posted: seq<Frame>)
    requires Sealed(objects, posted)
    ensures posted[..|SnapshotFrames(objects)| + 1] == SnapshotFrames(objects) + [SentinelFrame]
  {
    hide SnapshotFrames, NoSentinel;
  }

  /** A suspended connect() returns with caches that are exactly the snapshot: every frame of it
      applied and none of the event loop. */
  lemma {:induction false} WaitedReturnHasSnapshot(es: seq<Event>)
    requires EventsSized(es) && Ready(RunSession(IDLE, es))
    ensures
      var s := RunSession(IDLE, es);
      var snapshot := ApplyAll(FRESH_CLIENT, SnapshotFrames(s.objects));
      s.sys.client.adapters == snapshot.adapters && s.sys.client.devices == snapshot.devices
  {
    hide SessionStep, EventSized, SnapshotFrames, Apply;
    SessionKeepsInv(IDLE, es);
    var s := RunSession(IDLE, es);
    FutureIsBarrier(s);
    var fs := SnapshotFrames(s.objects);
    SealedPrefix(s.objects, s.sys.posted);
    hide Sealed;
    ApplyAllAppend(FRESH_CLIENT, fs, [SentinelFrame]);
    SentinelOnlyFlags(ApplyAll(FRESH_CLIENT, fs));
  }

  /** With BlueZ's tree, that is every object and every link. */
  lemma {:induction false} WaitedReturnHasWholeTree(es: seq<Event>)
    requires EventsSized(es) && Ready(RunSession(IDLE, es))
    requires IsSortedMap(RunSession(IDLE, es).objects) && IsBlueZTree(RunSession(IDLE, es).objects)
    ensures
      var s := RunSession(IDLE, es);
      var v := s.sys.client;
      && (forall x :: x in Facets(s.objects) ==> InCache(v, x))
      && (forall a :: a in v.adapters ==> Exposes(s.objects, a, Adapter1))
      && (forall d :: d in v.devices ==> Exposes(s.objects, d, Device1) && FullyLinked(v.devices[d]))
      && (forall d, p :: d in v.devices && p in v.devices[d].services ==> Exposes(s.objects, p, GattService1))
      && (forall d, p :: d in v.devices && p in v.devices[d].chars ==> Exposes(s.objects, p, GattCharacteristic1))
      && (forall d, p :: d in v.devices && p in v.devices[d].descs ==> Exposes(s.objects, p, GattDescriptor1))
  {
    hide RunSession, Apply, IsSortedMap, IsBlueZTree, FullyLinked, Exposes, Facets, EventsSized;
    WaitedReturnHasSnapshot(es);
    var s := RunSession(IDLE, es);
    SnapshotIsComplete(NO_TABLES, FRESH_CLIENT, s.objects);
    forall x | x in Facets(s.objects) ensures InCache(s.sys.client, x) {
      assert InCache(ApplyAll(FRESH_CLIENT, SnapshotFrames(s.objects)), x);
    }
  }

  /** A suspended call that has not been woken: the first connect() still waits for the snapshot. */
  predicate StillWaiting(s: Session) {
    s.waiting && !Ready(s)
  }

  /** In every session the completer is pending exactly while an earlier call still waits. */
  lemma {:induction false} PendingIsWaiting(es: seq<Event>)
    requires EventsSized(es) && RunSession(IDLE, es).connected
    ensures RunSession(IDLE, es).sys.client.pending <==> StillWaiting(RunSession(IDLE, es))
  {
    hide SessionStep, EventSized, SnapshotFrames, Sealed, InOrder;
    SessionKeepsInv(IDLE, es);
    FutureIsBarrier(RunSession(IDLE, es));
  }

  /** Every normal return of connect() has the barrier behind it exactly when it is not the immediate
      return of a call made while an earlier call still waits. */
  lemma {:induction false} ReturnHasBarrierIff(es: seq<Event>, e: Event)
    requires EventsSized(es) && Returns(RunSession(IDLE, es), e)
    ensures BarrierPassed(RunSession(IDLE, es)) <==> !(e.ConnectCall? && StillWaiting(RunSession(IDLE, es)))
  {
    hide SessionStep, EventSized, SnapshotFrames, Sealed, InOrder;
    SessionKeepsInv(IDLE, es);
    FutureIsBarrier(RunSession(IDLE, es));
  }

  /** A second call while the first waits returns at once, with the device of a BlueZ tree not yet
      cached. */
  lemma {:induction false} SecondCallMissesSnapshot()
    ensures
      var objects: Objects := [(FIVE_PART_PATH, [(Device1, map[])])];
      var s := RunSession(IDLE, [ConnectCall(Some(objects))]);
      && IsSortedMap(objects) && IsBlueZTree(objects)
      && Returns(s, ConnectCall(None)) && !BarrierPassed(s)
      && Exposes(objects, FIVE_PART_PATH, Device1) && FIVE_PART_PATH !in s.sys.client.devices
  {
    hide Step, Runs.Run, InterfacesAdded, HasDeviceDepth;
    var objects: Objects := [(FIVE_PART_PATH, [(Device1, map[])])];
    var es := [ConnectCall(Some(objects))];
    assert es[1..] == [];
    assert RunSession(SessionStep(IDLE, es[0]), []) == SessionStep(IDLE, es[0]);
    CreationPosts(START, objects);
    FiveParts();
    var x := Facet(FIVE_PART_PATH, Device1, map[]);
    assert objects[1..] == [];
    assert Facets(objects) == [x];
    assert WellPlaced(objects, x);
    assert x in Facets(objects);
  }

  /** Once a creation has succeeded no later call makes another context, and after close() none
      delivers anything: _connected is never cleared again. */
  lemma {:induction false} OneContextForEver(s: Session, es: seq<Event>)
    requires s.connected
    ensures RunSession(s, es).connected && RunSession(s, es).objects == s.objects
    ensures !s.live ==> RunSession(s, es).sys == s.sys && !RunSession(s, es).live
    decreases |es|
  {
    hide Step;
    if es == [] {
    } else {
      OneContextForEver(SessionStep(s, es[0]), es[1..]);
    }
  }

  // ── Which suspended calls return ─────────────────────────────────────────

  /** While the port is listened to, delivering up to the sentinel returns the call. */
  lemma {:induction false} ListeningReturns(s: Session)
    requires SessionInv(s) && s.waiting && (s.live || Ready(s))
    ensures exists es :: EventsSized(es) && !RunSession(s, es).waiting
    decreases |SnapshotFrames(s.objects)| + 1 - s.sys.delivered
  {
    hide Step, SessionInv, SnapshotFrames;
    var e := if Ready(s) then Resume else Message;
    var s' := SessionStep(s, e);
    EventKeepsInv(s, e);
    var rest: seq<Event> := [];
    if !Ready(s) {
      MessageDelivers(s);
      ListeningReturns(s');
      rest :| EventsSized(rest) && !RunSession(s', rest).waiting;
    }
    FirstEvent(s, e, rest);
    assert EventsSized([e] + rest) && !RunSession(s, [e] + rest).waiting;
  }

  lemma FirstEvent(s: Session, e: Event, es: seq<Event>)
    ensures RunSession(s, [e] + es) == RunSession(SessionStep(s, e), es)
  {
    hide SessionStep;
    assert ([e] + es)[1..] == es;
  }

  lemma {:induction false} MessageDelivers(s: Session)
    requires SessionInv(s) && s.waiting && s.live && !Ready(s)
    ensures SessionStep(s, Message) == s.(sys := Step(s.sys, Deliver))
    ensures s.sys.delivered < SessionStep(s, Message).sys.delivered <= |SnapshotFrames(s.objects)| + 1
  {
    hide SnapshotFrames, OnMessage, AllFrameBytes, NoSentinel;
    FutureIsBarrier(s);
  }

  /** Once the port is closed with the sentinel not yet applied, no continuation returns the call. */
  lemma {:induction false} ClosedNeverReturns(s: Session, es: seq<Event>)
    requires s.waiting && s.connected && !s.live && !Ready(s)
    ensures RunSession(s, es).waiting && !Ready(RunSession(s, es))
    decreases |es|
  {
    hide Step;
    if es == [] {
    } else {
      ClosedNeverReturns(SessionStep(s, es[0]), es[1..]);
    }
  }

  /** In every reachable session a suspended connect() returns in some continuation exactly when the
      port is still listened to or the sentinel has been applied. */
  lemma {:induction false} SuspendedReturnsIff(es: seq<Event>)
    requires EventsSized(es) && RunSession(IDLE, es).waiting
    ensures
      var s := RunSession(IDLE, es);
      (exists more :: EventsSized(more) && !RunSession(s, more).waiting) <==> s.live || Ready(s)
  {
    hide SessionStep, EventSized, SnapshotFrames, Sealed, InOrder;
    SessionKeepsInv(IDLE, es);
    var s := RunSession(IDLE, es);
    if s.live || Ready(s) {
      ListeningReturns(s);
    } else {
      forall more ensures RunSession(s, more).waiting {
        ClosedNeverReturns(s, more);
      }
    }
  }

  /** So a connect() closed before any message is delivered waits for ever, whatever the tree. */
  lemma {:induction false} CloseStrandsConnect(objects: Objects, more: seq<Event>)
    ensures
      var s := RunSession(IDLE, [ConnectCall(Some(objects)), CloseCall]);
      RunSession(s, more).waiting
  {
    hide Step, Runs.Run, CreateActions;
    var es := [ConnectCall(Some(objects)), CloseCall];
    FirstEvent(IDLE, es[0], [CloseCall]);
    FirstEvent(SessionStep(IDLE, es[0]), CloseCall, []);
    assert [es[0]] + [CloseCall] == es && [CloseCall] + [] == [CloseCall];
    CreationPosts(START, objects);
    ClosedNeverReturns(SessionStep(SessionStep(IDLE, es[0]), CloseCall), more);
  }

  // ── The calls of a session ───────────────────────────────────────────────

  function SnapshotCalls(objects: Objects): seq<Call> {
    if objects == [] then [] else [Added(objects[0].0, objects[0].1)] + SnapshotCalls(objects[1..])
  }

  /** The native calls made before close(). */
  function CallsUntilClose(es: seq<Event>): seq<Call> {
    if es == [] || es[0].CloseCall? then []
    else (if es[0].Native? then [es[0].call] else []) + CallsUntilClose(es[1..])
  }

  /** The first connect() that makes a context describes the snapshot; after it, the calls until close(). */
  function SessionCalls(es: seq<Event>): seq<Call> {
    if es == [] then []
    else if es[0].ConnectCall? && es[0].creation.Some? then SnapshotCalls(es[0].creation.value) + CallsUntilClose(es[1..])
    else SessionCalls(es[1..])
  }

  /** The tree the calls describe, applied in order. */
  function TreeOf(t: Replication.Tree, calls: seq<Call>): Replication.Tree
    decreases |calls|
  {
    if calls == [] then t else TreeOf(Replication.TreeCall(t, calls[0]), calls[1..])
  }

  lemma {:induction false} TreeOfAppend(t: Replication.Tree, a: seq<Call>, b: seq<Call>)
    ensures TreeOf(t, a + b) == TreeOf(TreeOf(t, a), b)
    decreases |a|
  {
    hide Replication.TreeCall;
    if a == [] {
      assert a + b == b;
    } else {
      assert (a + b)[1..] == a[1..] + b;
      TreeOfAppend(Replication.TreeCall(t, a[0]), a[1..], b);
    }
  }

  lemma FirstCall(t: Replication.Tree, c: Call, calls: seq<Call>)
    ensures TreeOf(t, [c] + calls) == TreeOf(Replication.TreeCall(t, c), calls)
    ensures TreeOf(t, [] + calls) == TreeOf(t, calls)
  {
    hide Replication.TreeCall;
    assert ([c] + calls)[1..] == calls && [] + calls == calls;
  }

  lemma StepTree(s: System, a: Action)
    ensures Step(s, a).tree == if a.Do? then Replication.TreeCall(s.tree, a.call) else s.tree
  {
    hide Handle, AllFrameBytes, OnMessage, Replication.TreeCall;
  }

  lemma {:induction false} CreationTree(s: System, objects: Objects)
    ensures Run(s, CreateActions(objects)).tree == TreeOf(s.tree, SnapshotCalls(objects))
    decreases |objects|
  {
    hide Step, Replication.TreeCall, CreateActions;
    if objects == [] {
      JustSentinel(s);
      StepTree(s, PostSentinel);
    } else {
      ActionsOf(objects);
      StepTree(s, Do(Added(objects[0].0, objects[0].1)));
      CreationTree(Step(s, Do(Added(objects[0].0, objects[0].1))), objects[1..]);
      FirstCall(s.tree, Added(objects[0].0, objects[0].1), SnapshotCalls(objects[1..]));
    }
  }

  lemma JustSentinel(s: System)
    ensures Run(s, CreateActions([])) == Step(s, PostSentinel)
  {
    hide Step;
    assert CreateActions([]) == [PostSentinel] && CreateActions([])[1..] == [];
    assert Run(s, [PostSentinel]) == Run(Step(s, PostSentinel), [PostSentinel][1..]);
  }

  ghost predicate AllConsistent(s: Session) {
    s.connected ==> Consistent(s.sys)
  }

  lemma EventKeepsConsistent(s: Session, e: Event)
    requires AllConsistent(s) && EventSized(e)
    ensures AllConsistent(SessionStep(s, e))
  {
    hide Consistent, CallSized, Step, CreateActions;
    match e
    case ConnectCall(creation) =>
      if !s.connected && creation.Some? {
        CreationSized(creation.value);
        StartConsistent();
        RunKeepsConsistent(START, CreateActions(creation.value));
      }
    case Native(c) =>
      if s.connected {
        StepKeepsConsistent(s.sys, Do(c));
      }
    case Message =>
      if s.connected {
        StepKeepsConsistent(s.sys, Deliver);
      }
    case _ =>
  }

  lemma {:induction false} SessionKeepsConsistent(s: Session, es: seq<Event>)
    requires AllConsistent(s) && EventsSized(es)
    ensures AllConsistent(RunSession(s, es))
    decreases |es|
  {
    hide AllConsistent, SessionStep, EventSized;
    if es == [] {
    } else {
      EventKeepsConsistent(s, es[0]);
      SessionKeepsConsistent(SessionStep(s, es[0]), es[1..]);
    }
  }

  /** Once connected, the tree follows the calls until close(), and then stays. */
  lemma {:induction false} ConnectedTree(s: Session, es: seq<Event>)
    requires s.connected
    ensures RunSession(s, es).sys.tree == TreeOf(s.sys.tree, if s.live then CallsUntilClose(es) else [])
    decreases |es|
  {
    hide Step, Replication.TreeCall;
    if es == [] {
    } else {
      var e := es[0];
      StepTree(s.sys, Deliver);
      if e.Native? {
        StepTree(s.sys, Do(e.call));
        FirstCall(s.sys.tree, e.call, CallsUntilClose(es[1..]));
      }
      assert [] + CallsUntilClose(es[1..]) == CallsUntilClose(es[1..]);
      ConnectedTree(SessionStep(s, e), es[1..]);
    }
  }

  lemma {:induction false} SessionTree(s: Session, es: seq<Event>)
    requires !s.connected && !s.live && !s.waiting
    ensures RunSession(s, es).connected ==> RunSession(s, es).sys.tree == TreeOf(Replication.EMPTY_TREE, SessionCalls(es))
    decreases |es|
  {
    hide Step, Run, Replication.TreeCall, CreateActions, SnapshotCalls, CallsUntilClose;
    if es == [] {
    } else {
      var e, s' := es[0], SessionStep(s, es[0]);
      if e.ConnectCall? && e.creation.Some? {
        CreationTree(START, e.creation.value);
        ConnectedTree(s', es[1..]);
        TreeOfAppend(Replication.EMPTY_TREE, SnapshotCalls(e.creation.value), CallsUntilClose(es[1..]));
      } else {
        SessionTree(s', es[1..]);
      }
    }
  }

  /** In every session, applying what is queued gives the caches of the tree that the snapshot and the
      native calls made until close() describe. */
  lemma {:induction false} SessionShowsCalls(es: seq<Event>)
    requires EventsSized(es) && RunSession(IDLE, es).connected
    ensures
      var s := RunSession(IDLE, es);
      Replication.Shows(DeliverAll(s.sys.client, s.sys.queue), TreeOf(Replication.EMPTY_TREE, SessionCalls(es)).caches)
  {
    hide SessionStep, EventSized, Replication.Shows, Replication.Aligned, IsFrame, SessionCalls;
    SessionKeepsConsistent(IDLE, es);
    SessionTree(IDLE, es);
  }

  predicate OnlyDelivers(es: seq<Event>) {
    forall i :: 0 <= i < |es| ==> es[i].Message? || es[i].Resume?
  }

  /** While the port is open, delivering messages and resuming the caller brings the client there. */
  lemma {:induction false} SessionCatchesUp(s: Session)
    requires s.live && s.connected
    ensures exists es :: OnlyDelivers(es) && RunSession(s, es).sys.queue == []
                      && RunSession(s, es).sys.client == DeliverAll(s.sys.client, s.sys.queue)
    decreases |s.sys.queue|, if Ready(s) then 1 else 0
  {
    hide OnMessage;
    if s.sys.queue == [] {
      assert RunSession(s, []) == s;
    } else {
      var e := if Ready(s) then Resume else Message;
      var s' := SessionStep(s, e);
      SessionCatchesUp(s');
      var rest :| OnlyDelivers(rest) && RunSession(s', rest).sys.queue == []
                  && RunSession(s', rest).sys.client == DeliverAll(s'.sys.client, s'.sys.queue);
      FirstEvent(s, e, rest);
      assert RunSession(s, [e] + rest).sys.queue == [];
    }
  }
}
