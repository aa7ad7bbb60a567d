/** What the outcome of StartNotify and StopNotify does to the table: granted operations take effect, in
    order, and refused ones do not. */
module Outcomes {
  import opened Types
  import opened Dbus
  import opened Subscriptions

  // ── Granted operations ───────────────────────────────────────────────────

  /** The Dart operations whose D-Bus call succeeded, in the order of the replies. */
  function Granted(ms: seq<Move>): seq<Op>
    decreases |ms|
  {
    if ms == [] then []
    else
      var front, last := ms[..|ms| - 1], ms[|ms| - 1];
      Granted(front) + (if last == Reply(true) && Asking(front).Some? then [Asking(front).value] else [])
  }

  /** The operation whose D-Bus call is running. */
  function Asking(ms: seq<Move>): Option<Op> {
    var s := MoveAll(INITIAL, ms);
    if s.dart.Calling? then Some(s.dart.op) else None
  }

  /** The removals the event loop has begun, in order. */
  function Erased(ms: seq<Move>): seq<Op>
    decreases |ms|
  {
    if ms == [] then []
    else
      var front, last := ms[..|ms| - 1], ms[|ms| - 1];
      Erased(front)
      + (if last.Start? && last.t == EventLoop && last.op.Erase? && MoveAll(INITIAL, front).loop.Idle? then [last.op] else [])
  }

  /** The removals among ops, or the others. */
  function Select(ops: seq<Op>, erase: bool): seq<Op>
    decreases |ops|
  {
    if ops == [] then []
    else
      var last := ops[|ops| - 1];
      Select(ops[..|ops| - 1], erase) + (if last.Erase? == erase then [last] else [])
  }

  /** The operation a thread is past its D-Bus call with and has not released the mutex for. */
  function InFlight(p: Place): seq<Op> {
    if p.Wanting? || p.Locked? || p.Created? || p.Leaving? then [p.op] else []
  }

  /** Each thread does its own kind of operation. */
  predicate OwnOps(s: Shared) {
    (s.dart.Idle? || !s.dart.op.Erase?) && (s.loop.Idle? || (s.loop.op.Erase? && !s.loop.Calling?))
  }

  lemma SelectAppend(ops: seq<Op>, op: Op, erase: bool)
    ensures Select(ops + [op], erase) == Select(ops, erase) + (if op.Erase? == erase then [op] else [])
  {
    assert (ops + [op])[..|ops|] == ops;
  }

  lemma {:induction false} MoveAllAppend(s: Shared, ms: seq<Move>, m: Move)
    ensures MoveAll(s, ms + [m]) == Moved(MoveAll(s, ms), m)
    decreases |ms|
  {
    hide Moved;
    if ms == [] {
      assert ([] + [m])[1..] == [];
    } else {
      assert (ms + [m])[1..] == ms[1..] + [m];
      MoveAllAppend(Moved(s, ms[0]), ms[1..], m);
    }
  }

  /** history and what is in flight account for every operation granted or begun. */
  ghost predicate Accounted(s: Shared, granted: seq<Op>, erased: seq<Op>) {
    && OwnOps(s)
    && granted == Select(s.history, false) + InFlight(s.dart)
    && erased == Select(s.history, true) + InFlight(s.loop)
  }

  lemma MoveKeepsAccounts(s: Shared, m: Move, granted: seq<Op>, erased: seq<Op>)
    requires Accounted(s, granted, erased)
    ensures
      Accounted(Moved(s, m),
        granted + (if m == Reply(true) && s.dart.Calling? then [s.dart.op] else []),
        erased + (if m.Start? && m.t == EventLoop && m.op.Erase? && s.loop.Idle? then [m.op] else []))
  {
    hide Callbacks, Select, Inside;
    if m.Proceed? {
      InsideKeepsAccounts(s, m.t, granted, erased);
      assert granted + [] == granted && erased + [] == erased;
    }
  }

  lemma InsideKeepsAccounts(s: Shared, t: Thread, granted: seq<Op>, erased: seq<Op>)
    requires Accounted(s, granted, erased)
    ensures Accounted(Inside(s, t), granted, erased)
  {
    hide Select;
    if At(s, t).Leaving? {
      SelectAppend(s.history, At(s, t).op, false);
      SelectAppend(s.history, At(s, t).op, true);
    }
  }

  /** Under any interleaving the Dart operations that took effect, in lock order, are exactly the granted
      ones, less at most the one whose critical section is still to end; the removals likewise. */
  lemma {:induction false} HistoryIsGranted(ms: seq<Move>)
    ensures Accounted(MoveAll(INITIAL, ms), Granted(ms), Erased(ms))
    decreases |ms|
  {
    hide Moved, Accounted;
    if ms == [] {
      NothingGranted();
    } else {
      var front, last := ms[..|ms| - 1], ms[|ms| - 1];
      assert ms == front + [last];
      HistoryIsGranted(front);
      MoveAllAppend(INITIAL, front, last);
      MoveKeepsAccounts(MoveAll(INITIAL, front), last, Granted(front), Erased(front));
    }
  }

  lemma NothingGranted()
    ensures Accounted(INITIAL, [], [])
  {
  }

  /** A running call is the last one the Dart thread started, and has had no reply. */
  lemma {:induction false} AskingWasStarted(ms: seq<Move>)
    requires Asking(ms).Some?
    ensures exists j :: 0 <= j < |ms| && ms[j] == Start(DartThread, Asking(ms).value)
                     && forall k :: j < k < |ms| ==> !ms[k].Reply?
    decreases |ms|
  {
    hide Callbacks, Inside;
    if ms == [] {
    } else {
      var front, last := ms[..|ms| - 1], ms[|ms| - 1];
      assert ms == front + [last];
      MoveAllAppend(INITIAL, front, last);
      var s := MoveAll(INITIAL, front);
      if last == Start(DartThread, Asking(ms).value) {
        assert ms[|ms| - 1] == last;
      } else {
        InsideStartsNothing(s);
        AskingWasStarted(front);
        var j :| 0 <= j < |front| && front[j] == Start(DartThread, Asking(front).value)
                 && forall k :: j < k < |front| ==> !front[k].Reply?;
        assert ms[j] == front[j];
      }
    }
  }

  lemma InsideStartsNothing(s: Shared)
    ensures forall t :: Inside(s, t).dart.Calling? ==> s.dart == Inside(s, t).dart
  {
  }

  // ── What is subscribed ───────────────────────────────────────────────────

  /** The last operation on p is a subscription. */
  predicate LastSubscribes(ops: seq<Op>, p: Path) {
    exists i :: 0 <= i < |ops| && ops[i] == Subscribe(p) && forall j :: i < j < |ops| ==> ops[j].path != p
  }

  lemma {:induction false} SubscribedIsLast(ops: seq<Op>, p: Path)
    ensures Subscribed(ops, p) <==> LastSubscribes(ops, p)
    decreases |ops|
  {
    if ops == [] {
    } else {
      var front, last := ops[..|ops| - 1], ops[|ops| - 1];
      SubscribedIsLast(front, p);
      if last.path == p {
        if last.Subscribe? {
          assert ops[|ops| - 1] == Subscribe(p);
        }
      } else {
        assert forall i :: 0 <= i < |front| ==> ops[i] == front[i];
      }
    }
  }

  lemma {:induction false} SelectKeepsSubscribed(ops: seq<Op>, p: Path)
    requires Erase(p) !in Select(ops, true)
    ensures Subscribed(ops, p) <==> Subscribed(Select(ops, false), p)
    decreases |ops|
  {
    if ops == [] {
    } else {
      var front, last := ops[..|ops| - 1], ops[|ops| - 1];
      assert ops == front + [last];
      SelectAppend(front, last, false);
      SelectAppend(front, last, true);
      SelectKeepsSubscribed(front, p);
      hide Select;
      if !last.Erase? {
        var more := Select(front, false) + [last];
        assert more[..|more| - 1] == Select(front, false) && more[|more| - 1] == last;
      } else {
        assert Select(front, false) + [] == Select(front, false);
      }
    }
  }

  /** Under any interleaving in which p is not removed, once both threads are through: p is subscribed
      exactly when the last call on p that succeeded is start_notify. */
  lemma {:induction false} SubscribedIffGranted(ms: seq<Move>, p: Path)
    requires
      var s := MoveAll(INITIAL, ms);
      s.holder == None && InFlight(s.dart) == [] && Erase(p) !in Erased(ms)
    ensures p in MoveAll(INITIAL, ms).table <==> LastSubscribes(Granted(ms), p)
  {
    hide Moved, Subscribed, LastSubscribes, MoveAll, Granted, Erased;
    var s := MoveAll(INITIAL, ms);
    TableIsHistory(ms);
    HistoryIsGranted(ms);
    SelectKeepsSubscribed(s.history, p);
    assert Select(s.history, false) + [] == Select(s.history, false);
    SubscribedIsLast(Granted(ms), p);
  }

  // ── Every operation can complete ─────────────────────────────────────────

  /** From any state with the mutex free and the Dart thread idle, a call that succeeds runs to
      its end: the path is then in the table exactly after start_notify. */
  lemma {:induction false} GrantedCompletes(s: Shared, op: Op)
    requires s.holder == None && s.dart.Idle? && !op.Erase?
    ensures
      var done := MoveAll(s, [Start(DartThread, op), Reply(true), Acquire(DartThread),
                              Proceed(DartThread), Proceed(DartThread), Proceed(DartThread)]);
      && done.dart.Idle? && done.holder == None && done.history == s.history + [op] && done.loop == s.loop
      && done.table.Keys == (if op.Subscribe? then s.table.Keys + {op.path} else s.table.Keys - {op.path})
  {
    hide Moved, Inside;
    var p := Proceed(DartThread);
    ThreeMoves(s, Start(DartThread, op), Reply(true), Acquire(DartThread));
    Entered(s, op);
    var inside := s.(dart := Locked(op), holder := Some(DartThread));
    ThreeMoves(inside, p, p, p);
    SectionRuns(inside, op);
    SixMoves(s, Start(DartThread, op), Reply(true), Acquire(DartThread));
  }

  lemma Entered(s: Shared, op: Op)
    requires s.holder == None && s.dart.Idle? && !op.Erase?
    ensures Moved(Moved(Moved(s, Start(DartThread, op)), Reply(true)), Acquire(DartThread))
         == s.(dart := Locked(op), holder := Some(DartThread))
  {
    hide Callbacks, Inside;
  }

  lemma SectionRuns(s: Shared, op: Op)
    requires s.dart == Locked(op) && !op.Erase?
    ensures
      var p := Proceed(DartThread);
      var done := Moved(Moved(Moved(s, p), p), p);
      && done.dart.Idle? && done.holder == None && done.history == s.history + [op] && done.loop == s.loop
      && done.table.Keys == (if op.Subscribe? then s.table.Keys + {op.path} else s.table.Keys - {op.path})
  {
    hide Callbacks;
    var next := Inside(s, DartThread);
    if op.Subscribe? && op.path !in s.table {
      assert next.dart == Created(op, s.next) && next.table == s.table;
    } else {
      assert next.dart == Leaving(op);
      assert op.Subscribe? ==> s.table.Keys + {op.path} == s.table.Keys;
    }
  }

  lemma ThreeMoves(s: Shared, a: Move, b: Move, c: Move)
    ensures MoveAll(s, [a, b, c]) == Moved(Moved(Moved(s, a), b), c)
  {
    hide Moved;
    assert [a, b, c][1..] == [b, c] && [b, c][1..] == [c] && [c][1..] == [];
    assert MoveAll(s, [a, b, c]) == MoveAll(Moved(s, a), [b, c]);
    assert MoveAll(Moved(s, a), [b, c]) == MoveAll(Moved(Moved(s, a), b), [c]);
    assert MoveAll(Moved(Moved(s, a), b), [c]) == MoveAll(Moved(Moved(Moved(s, a), b), c), []);
  }

  lemma SixMoves(s: Shared, a: Move, b: Move, c: Move)
    ensures MoveAll(s, [a, b, c, Proceed(DartThread), Proceed(DartThread), Proceed(DartThread)])
         == MoveAll(MoveAll(s, [a, b, c]), [Proceed(DartThread), Proceed(DartThread), Proceed(DartThread)])
  {
    hide Moved;
    var p := Proceed(DartThread);
    ThreeMoves(s, a, b, c);
    assert [a, b, c, p, p, p][1..] == [b, c, p, p, p] && [b, c, p, p, p][1..] == [c, p, p, p] && [c, p, p, p][1..] == [p, p, p];
    assert MoveAll(s, [a, b, c, p, p, p]) == MoveAll(Moved(s, a), [b, c, p, p, p]);
    assert MoveAll(Moved(s, a), [b, c, p, p, p]) == MoveAll(Moved(Moved(s, a), b), [c, p, p, p]);
    assert MoveAll(Moved(Moved(s, a), b), [c, p, p, p]) == MoveAll(Moved(Moved(Moved(s, a), b), c), [p, p, p]);
  }

  /** A call that fails changes nothing. */
  lemma RefusedChangesNothing(s: Shared, op: Op)
    requires s.dart.Idle?
    ensures Moved(Moved(s, Start(DartThread, op)), Reply(false)) == s
  {
  }

  /** A removal runs to its end and leaves the path out of the table. */
  lemma RemovalCompletes(s: Shared, p: Path)
    requires s.holder == None && s.loop.Idle?
    ensures
      var done := Moved(Moved(MoveAll(s, [Start(EventLoop, Erase(p)), Acquire(EventLoop), Proceed(EventLoop)]),
                              Proceed(EventLoop)), Proceed(EventLoop));
      && done.loop.Idle? && done.holder == None && done.dart == s.dart
      && done.history == s.history + [Erase(p)] && done.table.Keys == s.table.Keys - {p}
  {
    hide Callbacks;
    ThreeMoves(s, Start(EventLoop, Erase(p)), Acquire(EventLoop), Proceed(EventLoop));
  }

  /** A signal handled while the event loop is free posts what the live proxies' callbacks post. */
  lemma {:induction false} SignalPosts(ms: seq<Move>, path: Path, changed: PropertiesMap)
    ensures
      var s := MoveAll(INITIAL, ms);
      var after := MoveAll(INITIAL, ms + [Signal(path, changed)]);
      && s.frames <= after.frames && after.table == s.table && after.history == s.history
      && |after.frames| <= |s.frames| + 1
      && (s.loop.Idle? && s.holder == None && path in s.table && "Value" in changed && changed["Value"].BytesVariant? ==>
            |after.frames| == |s.frames| + 1 && after.frames[|s.frames|].CharValueFrame?
            && after.frames[|s.frames|].characteristic.objectPath == path
            && BytesVariant(after.frames[|s.frames|].characteristic.value) == changed["Value"])
      && (s.holder == None && path !in s.table ==> after.frames == s.frames)
      && (!s.loop.Idle? ==> after.frames == s.frames)
  {
    hide Callbacks, Replay, MoveAll, Safe;
    var s := MoveAll(INITIAL, ms);
    MoveAllAppend(INITIAL, ms, Signal(path, changed));
    OneFrameEachChange(ms, path, changed);
    TableIsHistory(ms);
    ReplayIsSubscribed(s.history);
  }
}
