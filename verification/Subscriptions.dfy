/** notify_proxies_ under two threads: GATT calls on the Dart thread, signals on the event loop, and
    proxies_mutex_ between them. */
module Subscriptions {
  import opened Types
  import opened Dbus
  import opened Frames
  import opened ObjectManagers

  datatype Thread = DartThread | EventLoop

  /** What a critical section does: subscribe_char_notify, unsubscribe_char_notify, or the
      Characteristic1 case of on_interfaces_removed. */
  datatype Op = Subscribe(path: Path) | Unsubscribe(path: Path) | Erase(path: Path)

  /** Where a thread is. Calling: the D-Bus method call before the lock. Locked, Created and Leaving
      hold the mutex; a created proxy already receives signals but is not in the table yet. */
  datatype Place =
    | Idle
    | Calling(op: Op)
    | Wanting(op: Op)
    | Locked(op: Op)
    | Created(op: Op, id: nat)
    | Leaving(op: Op)

  /** table is notify_proxies_, live the proxies whose callback is registered, history the critical
      sections in lock order. */
  datatype Shared = Shared(
    table: map<Path, nat>, live: map<nat, Path>, next: nat, holder: Option<Thread>,
    dart: Place, loop: Place, history: seq<Op>, frames: seq<Frame>)

  const INITIAL: Shared := Shared(map[], map[], 0, None, Idle, Idle, [], [])

  datatype Move =
    | Start(t: Thread, op: Op)
    | Reply(success: bool)
    | Acquire(t: Thread)
    | Proceed(t: Thread)
    | Signal(path: Path, changed: PropertiesMap)

  function At(s: Shared, t: Thread): Place {
    if t == DartThread then s.dart else s.loop
  }

  function Put(s: Shared, t: Thread, p: Place): Shared {
    if t == DartThread then s.(dart := p) else s.(loop := p)
  }

  function Drop(s: Shared, path: Path): Shared {
    if path in s.table then s.(live := s.live - {s.table[path]}, table := s.table - {path}) else s
  }

  /** One statement inside the critical section. */
  function Inside(s: Shared, t: Thread): Shared {
    match At(s, t)
    case Locked(Subscribe(path)) =>
      if path in s.table then Put(s, t, Leaving(Subscribe(path)))
      else Put(s.(live := s.live[s.next := path], next := s.next + 1), t, Created(Subscribe(path), s.next))
    case Created(op, id) => Put(s.(table := s.table[op.path := id]), t, Leaving(op))
    case Locked(op) => Put(Drop(s, op.path), t, Leaving(op))
    case Leaving(op) => Put(s.(holder := None, history := s.history + [op]), t, Idle)
    case _ => s
  }

  /** The callbacks of the live proxies ids[0..n) for the path; each posts at most one frame. */
  function Callbacks(live: map<nat, Path>, next: nat, path: Path, changed: PropertiesMap): seq<Frame> {
    if next == 0 then []
    else
      Callbacks(live, next - 1, path, changed)
      + (if next - 1 in live && live[next - 1] == path then ValueFrame(path, changed) else [])
  }

  function Moved(s: Shared, m: Move): Shared {
    match m
    case Start(DartThread, op) => if s.dart.Idle? && !op.Erase? then s.(dart := Calling(op)) else s
    case Start(EventLoop, op) => if s.loop.Idle? && op.Erase? then s.(loop := Wanting(op)) else s
    case Reply(success) =>
      if s.dart.Calling? then s.(dart := if success then Wanting(s.dart.op) else Idle) else s
    case Acquire(t) =>
      if At(s, t).Wanting? && s.holder == None then Put(s.(holder := Some(t)), t, Locked(At(s, t).op)) else s
    case Proceed(t) => Inside(s, t)
    case Signal(path, changed) =>
      if s.loop.Idle? then s.(frames := s.frames + Callbacks(s.live, s.next, path, changed)) else s
  }

  function MoveAll(s: Shared, ms: seq<Move>): Shared
    decreases |ms|
  {
    if ms == [] then s else MoveAll(Moved(s, ms[0]), ms[1..])
  }

  // ── Invariants ───────────────────────────────────────────────────────────

  predicate Inner(p: Place) {
    p.Locked? || p.Created? || p.Leaving?
  }

  /** The last operation on the path in lock order is a subscription. */
  predicate Subscribed(history: seq<Op>, path: Path)
    decreases |history|
  {
    history != [] &&
    var last := history[|history| - 1];
    if last.path == path then last.Subscribe? else Subscribed(history[..|history| - 1], path)
  }

  /** The table a thread in its critical section has made, or is about to: history with its op when
      the table has been changed already. */
  function Settled(s: Shared): seq<Op> {
    if s.dart.Leaving? then s.history + [s.dart.op]
    else if s.loop.Leaving? then s.history + [s.loop.op]
    else s.history
  }

  /** id is the proxy a thread has created and not stored yet. */
  predicate Unstored(s: Shared, id: nat) {
    (s.dart.Created? && s.dart.id == id) || (s.loop.Created? && s.loop.id == id)
  }

  predicate CreatedRight(s: Shared, p: Place) {
    p.Created? ==> p.op.Subscribe? && p.op.path !in s.table && p.id in s.live && s.live[p.id] == p.op.path
  }

  predicate Exclusive(s: Shared) {
    (Inner(s.dart) <==> s.holder == Some(DartThread)) && (Inner(s.loop) <==> s.holder == Some(EventLoop))
  }

  ghost predicate InStep(s: Shared) {
    forall p :: p in s.table <==> Subscribed(Settled(s), p)
  }

  /** One live proxy for each entry of the table and for the proxy being stored, no other. */
  ghost predicate OneProxyEach(s: Shared) {
    && (forall p :: p in s.table ==> s.table[p] in s.live && s.live[s.table[p]] == p)
    && (forall id :: id in s.live ==>
          id < s.next && (Unstored(s, id) || (s.live[id] in s.table && s.table[s.live[id]] == id)))
    && CreatedRight(s, s.dart) && CreatedRight(s, s.loop)
  }

  ghost predicate Safe(s: Shared) {
    Exclusive(s) && InStep(s) && OneProxyEach(s)
  }

  lemma OneMoreOp(history: seq<Op>, op: Op)
    ensures forall p :: Subscribed(history + [op], p) <==> if op.path == p then op.Subscribe? else Subscribed(history, p)
  {
    assert (history + [op])[..|history|] == history;
  }

  lemma SubscribeKeepsSafe(s: Shared, t: Thread)
    requires Safe(s) && At(s, t).Locked? && At(s, t).op.Subscribe?
    ensures Safe(Inside(s, t))
  {
    hide Subscribed;
    OneMoreOp(s.history, At(s, t).op);
  }

  lemma StoreKeepsSafe(s: Shared, t: Thread)
    requires Safe(s) && At(s, t).Created?
    ensures Safe(Inside(s, t))
  {
    hide Subscribed;
    OneMoreOp(s.history, At(s, t).op);
  }

  lemma DropKeepsSafe(s: Shared, t: Thread)
    requires Safe(s) && At(s, t).Locked? && !At(s, t).op.Subscribe?
    ensures Safe(Inside(s, t))
  {
    hide Subscribed;
    OneMoreOp(s.history, At(s, t).op);
  }

  lemma LeaveKeepsSafe(s: Shared, t: Thread)
    requires Safe(s) && At(s, t).Leaving?
    ensures Safe(Inside(s, t))
  {
    hide Subscribed;
  }

  lemma AcquireKeepsSafe(s: Shared, t: Thread)
    requires Safe(s)
    ensures Safe(Moved(s, Acquire(t)))
  {
    hide Subscribed, Callbacks, Inside;
  }

  lemma OutsideKeepsSafe(s: Shared, m: Move)
    requires Safe(s) && !m.Proceed? && !m.Acquire?
    ensures Safe(Moved(s, m))
  {
    hide Subscribed, Callbacks, Inside;
  }

  lemma MoveKeepsSafe(s: Shared, m: Move)
    requires Safe(s)
    ensures Safe(Moved(s, m))
  {
    hide Safe;
    match m
    case Proceed(t) =>
      match At(s, t) {
        case Locked(op) =>
          if op.Subscribe? {
            SubscribeKeepsSafe(s, t);
          } else {
            DropKeepsSafe(s, t);
          }
        case Created(_, _) => StoreKeepsSafe(s, t);
        case Leaving(_) => LeaveKeepsSafe(s, t);
        case _ =>
      }
    case Acquire(t) => AcquireKeepsSafe(s, t);
    case _ => OutsideKeepsSafe(s, m);
  }

  lemma {:induction false} RunKeepsSafe(s: Shared, ms: seq<Move>)
    requires Safe(s)
    ensures Safe(MoveAll(s, ms))
    decreases |ms|
  {
    hide Safe, Moved;
    if ms == [] {
    } else {
      MoveKeepsSafe(s, ms[0]);
      RunKeepsSafe(Moved(s, ms[0]), ms[1..]);
    }
  }

  lemma InitiallySafe()
    ensures Safe(INITIAL)
  {
  }

  // ── Exact subscriptions ──────────────────────────────────────────────────

  /** Under any interleaving, whenever the mutex is free the table holds exactly the paths whose last
      operation in lock order is a subscription. */
  lemma {:induction false} TableIsHistory(ms: seq<Move>)
    ensures
      var s := MoveAll(INITIAL, ms);
      s.holder == None ==> forall p :: p in s.table <==> Subscribed(s.history, p)
  {
    hide Moved, Subscribed, OneProxyEach;
    InitiallySafe();
    RunKeepsSafe(INITIAL, ms);
  }

  /** The handlers run one after another in lock order. */
  function Replay(history: seq<Op>): Tables
    decreases |history|
  {
    if history == [] then NO_TABLES
    else
      var before, last := Replay(history[..|history| - 1]), history[|history| - 1];
      match last
      case Subscribe(path) => Handle(before, SubscribeNotify(path)).tables
      case Unsubscribe(path) => Handle(before, UnsubscribeNotify(path)).tables
      case Erase(path) => Handle(before, Removed(path, [GattCharacteristic1])).tables
  }

  lemma {:induction false} ReplayIsSubscribed(history: seq<Op>)
    ensures forall p :: p in Replay(history).notify <==> Subscribed(history, p)
    decreases |history|
  {
    if history == [] {
    } else {
      var last := history[|history| - 1];
      ReplayIsSubscribed(history[..|history| - 1]);
      assert InterfacesRemoved(Replay(history[..|history| - 1]), last.path, [GattCharacteristic1]).tables
          == InterfaceRemoved(Replay(history[..|history| - 1]), last.path, GattCharacteristic1).tables;
    }
  }

  /** No two live proxies listen to the same path. */
  ghost predicate Unique(live: map<nat, Path>) {
    forall i, j :: i in live && j in live && live[i] == live[j] ==> i == j
  }

  lemma SafeIsUnique(s: Shared)
    requires Safe(s)
    ensures Unique(s.live)
  {
    hide InStep;
  }

  lemma {:induction false} CallbacksOfUnique(live: map<nat, Path>, next: nat, path: Path, changed: PropertiesMap)
    requires Unique(live)
    ensures Callbacks(live, next, path, changed)
         == if exists id :: id in live && id < next && live[id] == path then ValueFrame(path, changed) else []
  {
    if next == 0 {
    } else {
      CallbacksOfUnique(live, next - 1, path, changed);
      if next - 1 in live && live[next - 1] == path {
        assert forall id :: id in live && id < next - 1 ==> live[id] != path;
        assert [] + ValueFrame(path, changed) == ValueFrame(path, changed);
      } else {
        assert Callbacks(live, next, path, changed) == Callbacks(live, next - 1, path, changed);
      }
    }
  }

  /** In every reachable state, even inside a critical section, one Value change posts at most one
      0x03, however often start_notify was called; and with the mutex free it posts what the
      handlers run in lock order would. */
  lemma {:induction false} OneFrameEachChange(ms: seq<Move>, path: Path, changed: PropertiesMap)
    ensures
      var s := MoveAll(INITIAL, ms);
      var posts := Callbacks(s.live, s.next, path, changed);
      && |posts| <= 1
      && (s.holder == None ==> posts == ChangeFrames(Replay(s.history), path, GattCharacteristic1, changed))
  {
    hide Moved, Callbacks, Subscribed, Replay;
    InitiallySafe();
    RunKeepsSafe(INITIAL, ms);
    var s := MoveAll(INITIAL, ms);
    SafeIsUnique(s);
    CallbacksOfUnique(s.live, s.next, path, changed);
    ReplayIsSubscribed(s.history);
    if s.holder == None && path in s.table {
      assert s.table[path] in s.live && s.table[path] < s.next;
    }
  }
}
