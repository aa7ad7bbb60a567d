/** Listeners of a device's propertiesChanged stream: a mirror that copies the named fields, and the
    waiters in connect(), disconnect() and waitForServicesResolved(). */
module Observers {
  import opened Types
  import opened Masks
  import opened Dbus
  import opened Paths
  import opened Frames
  import opened ClientModel
  import GattTree

  /** The flag a waiter awaits. */
  datatype Goal = WantConnected | WantDisconnected | WantResolved

  predicate Met(goal: Goal, p: DeviceProps) {
    match goal
    case WantConnected => p.connected
    case WantDisconnected => !p.connected
    case WantResolved => p.servicesResolved
  }

  /** Parked: subscribed and given the events before seen. Woken: `first` has completed. */
  datatype Waiter =
    | Parked(goal: Goal, seen: nat)
    | Woken(goal: Goal)
    | Finished(goal: Goal)

  /** held is the device the listeners hold; current while the client still caches that object
      at path. The mirror has been given the events before seen. */
  datatype Watch = Watch(
    v: ClientView, path: Path, held: DeviceView, current: bool,
    mirror: DeviceField -> FieldValue, seen: nat, waiters: seq<Waiter>)

  datatype Moment =
    | Message(frame: Frame)
    | CallWaiter(goal: Goal)
    | NotifyWaiter(i: nat)
    | ResumeWaiter(i: nat)
    | NotifyMirror

  /** A mirror started on a cached device copies every field first. */
  function Listen(v: ClientView, path: Path): Watch
    requires path in v.devices
  {
    var d := v.devices[path];
    Watch(v, path, d, true, f => DeviceGet(d.props, f), |d.events|, [])
  }

  /** The frame leaves the object cached at path where it is. */
  predicate Keeps(f: Frame, path: Path) {
    !(f.DeviceAddedFrame? && f.device.objectPath == path) && !(f.DeviceRemovedFrame? && f.device.objectPath == path)
  }

  function Happen(s: Watch, m: Moment): Watch {
    match m
    case Message(f) =>
      var v := Apply(s.v, f);
      if s.current && Keeps(f, s.path) && s.path in v.devices then s.(v := v, held := v.devices[s.path])
      else s.(v := v, current := false)
    case CallWaiter(goal) =>
      s.(waiters := s.waiters + [if Met(goal, s.held.props) then Finished(goal) else Parked(goal, |s.held.events|)])
    case NotifyWaiter(i) =>
      if i < |s.waiters| && s.waiters[i].Parked? && s.waiters[i].seen < |s.held.events| then
        var w := s.waiters[i];
        s.(waiters := s.waiters[i := if Met(w.goal, s.held.props) then Woken(w.goal) else Parked(w.goal, w.seen + 1)])
      else s
    case ResumeWaiter(i) =>
      if i < |s.waiters| && s.waiters[i].Woken? then s.(waiters := s.waiters[i := Finished(s.waiters[i].goal)]) else s
    case NotifyMirror =>
      if s.seen < |s.held.events| then
        var named, now, was := s.held.events[s.seen], s.held.props, s.mirror;
        s.(mirror := f => if f in named then DeviceGet(now, f) else was(f), seen := s.seen + 1)
      else s
  }

  function HappenAll(s: Watch, ms: seq<Moment>): Watch
    decreases |ms|
  {
    if ms == [] then s else HappenAll(Happen(s, ms[0]), ms[1..])
  }

  // ── What every interleaving keeps ────────────────────────────────────────

  /** An event the mirror has not been given names f. */
  predicate Announced(s: Watch, f: DeviceField) {
    exists k :: s.seen <= k < |s.held.events| && f in s.held.events[k]
  }

  predicate Awake(w: Waiter, d: DeviceView) {
    w.Parked? ==> w.seen <= |d.events| && (Met(w.goal, d.props) ==> w.seen < |d.events|)
  }

  ghost predicate Watching(s: Watch) {
    && (s.current ==> s.path in s.v.devices && s.held == s.v.devices[s.path])
    && s.seen <= |s.held.events|
    && (forall f :: s.mirror(f) != DeviceGet(s.held.props, f) ==> Announced(s, f))
    && (forall i :: 0 <= i < |s.waiters| ==> Awake(s.waiters[i], s.held))
  }

  /** events grew by the names of exactly the tracked fields that differ, or nothing differs. */
  ghost predicate Notified(was: DeviceView, now: DeviceView) {
    if now.events == was.events then forall f :: DeviceGet(now.props, f) == DeviceGet(was.props, f)
    else
      && |now.events| == |was.events| + 1 && now.events[..|was.events|] == was.events
      && (exists f :: DeviceGet(now.props, f) != DeviceGet(was.props, f))
      && forall f :: f in now.events[|was.events|] <==> DeviceGet(now.props, f) != DeviceGet(was.props, f)
  }

  lemma UpdateNotifies(d: DeviceView, p: DeviceProps)
    ensures Notified(d, UpdateDevice(d, p))
  {
    hide MergeDevice, ChangedFields, DeviceGet;
    var now := UpdateDevice(d, p);
    forall f: DeviceField
      ensures f in ChangedFields(d.props, now.props) <==> DeviceGet(now.props, f) != DeviceGet(d.props, f)
    {
      ChangedFieldsAreTheDifference(d.props, now.props, f);
    }
    if now.events != d.events {
      assert ChangedFields(d.props, now.props)[0] in ChangedFields(d.props, now.props);
    }
  }

  /** An event is emitted exactly when some tracked field really changed, and names those fields:
      true of any frame that leaves the device where it is. */
  lemma FrameNotifies(v: ClientView, f: Frame, path: Path)
    requires path in v.devices && Keeps(f, path)
    ensures path in Apply(v, f).devices && Notified(v.devices[path], Apply(v, f).devices[path])
  {
    hide UpdateDevice, DevicePathOf, DeviceGet, MergeAdapter;
    if f.DeviceUpdateFrame? {
      UpdateNotifies(v.devices[path], f.device);
    }
  }

  lemma MirrorStaysAnnounced(s: Watch, now: DeviceView)
    requires Watching(s) && Notified(s.held, now)
    ensures forall f :: s.mirror(f) != DeviceGet(now.props, f) ==> Announced(s.(held := now), f)
  {
    var s' := s.(held := now);
    forall f | s.mirror(f) != DeviceGet(now.props, f) ensures Announced(s', f) {
      if DeviceGet(now.props, f) != DeviceGet(s.held.props, f) {
        assert f in now.events[|s.held.events|];
      } else {
        var k :| s.seen <= k < |s.held.events| && f in s.held.events[k];
        assert now.events[k] == s.held.events[k];
      }
    }
  }

  lemma WaiterStaysAwake(w: Waiter, was: DeviceView, now: DeviceView)
    requires Awake(w, was) && Notified(was, now)
    ensures Awake(w, now)
  {
    if w.Parked? && now.events == was.events {
      assert DeviceGet(now.props, Connected) == DeviceGet(was.props, Connected);
      assert DeviceGet(now.props, ServicesResolved) == DeviceGet(was.props, ServicesResolved);
    }
  }

  lemma MomentKeepsWatching(s: Watch, m: Moment)
    requires Watching(s)
    ensures Watching(Happen(s, m))
  {
    hide Apply, Met, DeviceGet, Notified;
    match m
    case Message(f) =>
      if s.current && Keeps(f, s.path) {
        FrameNotifies(s.v, f, s.path);
        var now := Apply(s.v, f).devices[s.path];
        MirrorStaysAnnounced(s, now);
        EventsGrow(s.held, now);
        forall i | 0 <= i < |s.waiters| ensures Awake(s.waiters[i], now) {
          WaiterStaysAwake(s.waiters[i], s.held, now);
        }
      } else {
        assert forall f :: Announced(s, f) ==> Announced(Happen(s, m), f);
      }
    case NotifyMirror =>
      if s.seen < |s.held.events| {
        GivenStaysAnnounced(s);
      }
    case CallWaiter(_) => assert forall f :: Announced(s, f) ==> Announced(Happen(s, m), f);
    case NotifyWaiter(_) => assert forall f :: Announced(s, f) ==> Announced(Happen(s, m), f);
    case ResumeWaiter(_) => assert forall f :: Announced(s, f) ==> Announced(Happen(s, m), f);
  }

  lemma EventsGrow(was: DeviceView, now: DeviceView)
    requires Notified(was, now)
    ensures |was.events| <= |now.events|
  {
  }

  lemma GivenStaysAnnounced(s: Watch)
    requires Watching(s) && s.seen < |s.held.events|
    ensures forall f :: Happen(s, NotifyMirror).mirror(f) != DeviceGet(s.held.props, f)
                        ==> Announced(Happen(s, NotifyMirror), f)
  {
    var s' := Happen(s, NotifyMirror);
    forall f | s'.mirror(f) != DeviceGet(s.held.props, f) ensures Announced(s', f) {
      var k :| s.seen <= k < |s.held.events| && f in s.held.events[k];
      assert k != s.seen;
    }
  }

  lemma {:induction false} RunKeepsWatching(s: Watch, ms: seq<Moment>)
    requires Watching(s)
    ensures Watching(HappenAll(s, ms))
    ensures HappenAll(s, ms).path == s.path
    decreases |ms|
  {
    hide Watching, Happen;
    if ms == [] {
    } else {
      MomentKeepsWatching(s, ms[0]);
      PathStays(s, ms[0]);
      RunKeepsWatching(Happen(s, ms[0]), ms[1..]);
    }
  }

  lemma PathStays(s: Watch, m: Moment)
    ensures Happen(s, m).path == s.path
  {
  }

  predicate IsParked(s: Watch, i: nat) {
    i < |s.waiters| && s.waiters[i].Parked?
  }

  /** No message of ms replaces or drops the device cached at path. */
  predicate NeverReplaced(ms: seq<Moment>, path: Path) {
    forall i :: 0 <= i < |ms| ==> !Replaces(ms[i], path)
  }

  /** m delivers a 0x04 or 0x05 for path. */
  predicate Replaces(m: Moment, path: Path) {
    m.Message? && (m.frame.DeviceAddedFrame? || m.frame.DeviceRemovedFrame?) && m.frame.device.objectPath == path
  }

  /** The object the listeners hold stays the cached one exactly while no 0x04 or 0x05 for its path
      is delivered. */
  lemma {:induction false} CurrentIff(s: Watch, ms: seq<Moment>)
    requires s.current && s.path in s.v.devices
    ensures HappenAll(s, ms).current <==> NeverReplaced(ms, s.path)
    ensures HappenAll(s, ms).current ==> s.path in HappenAll(s, ms).v.devices
    decreases |ms|
  {
    hide Apply, Notified;
    if ms == [] {
    } else {
      var m := ms[0];
      if m.Message? && !Keeps(m.frame, s.path) {
        ReplacedIsFrozen(Happen(s, m), ms[1..]);
      } else {
        if m.Message? {
          FrameNotifies(s.v, m.frame, s.path);
        }
        CurrentIff(Happen(s, m), ms[1..]);
        assert NeverReplaced(ms, s.path) <==> NeverReplaced(ms[1..], s.path) by {
          assert ms == [m] + ms[1..];
        }
      }
    }
  }

  /** Once the client has replaced or dropped the object, it never changes again and never notifies. */
  lemma {:induction false} ReplacedIsFrozen(s: Watch, ms: seq<Moment>)
    requires !s.current
    ensures !HappenAll(s, ms).current && HappenAll(s, ms).held == s.held
    decreases |ms|
  {
    hide Apply;
    if ms == [] {
    } else {
      ReplacedIsFrozen(Happen(s, ms[0]), ms[1..]);
    }
  }

  /** A listener that copies only the fields each event names equals the device's tracked state
      once the pending events are delivered, whatever was interleaved. */
  lemma {:induction false} MirrorCatchesUp(v: ClientView, path: Path, ms: seq<Moment>)
    requires path in v.devices
    ensures
      var s := HappenAll(Listen(v, path), ms);
      NeverReplaced(ms, path) && s.seen == |s.held.events| ==>
        path in s.v.devices && forall f :: s.mirror(f) == DeviceGet(s.v.devices[path].props, f)
  {
    hide Happen, DeviceGet;
    CurrentIff(Listen(v, path), ms);
    RunKeepsWatching(Listen(v, path), ms);
  }

  /** While the device object stays cached, a waiter with no notification pending is not parked
      with its flag already at the awaited value. */
  lemma {:induction false} NoLostWakeup(v: ClientView, path: Path, ms: seq<Moment>, i: nat)
    requires path in v.devices
    ensures
      var s := HappenAll(Listen(v, path), ms);
      NeverReplaced(ms, path) && IsParked(s, i) && s.waiters[i].seen == |s.held.events| ==>
        path in s.v.devices && !Met(s.waiters[i].goal, s.v.devices[path].props)
  {
    hide Happen, DeviceGet, Met;
    CurrentIff(Listen(v, path), ms);
    RunKeepsWatching(Listen(v, path), ms);
  }

  // ── Draining ─────────────────────────────────────────────────────────────

  lemma {:induction false} OneMoment(s: Watch, ms: seq<Moment>, m: Moment)
    ensures HappenAll(s, ms + [m]) == Happen(HappenAll(s, ms), m)
    decreases |ms|
  {
    hide Happen;
    if ms == [] {
      assert ([] + [m])[1..] == [];
    } else {
      assert (ms + [m])[1..] == ms[1..] + [m];
      OneMoment(Happen(s, ms[0]), ms[1..], m);
    }
  }

  function Repeated(m: Moment, n: nat): seq<Moment> {
    seq(n, i => m)
  }

  /** Giving the mirror what is pending, event by event, leaves nothing pending and the device as it was. */
  lemma {:induction false} MirrorDrains(s: Watch, n: nat)
    requires s.seen + n <= |s.held.events|
    ensures
      var s' := HappenAll(s, Repeated(NotifyMirror, n));
      s'.seen == s.seen + n && s' == s.(mirror := s'.mirror, seen := s'.seen)
    decreases n
  {
    hide DeviceGet;
    if n == 0 {
    } else {
      assert Repeated(NotifyMirror, n) == Repeated(NotifyMirror, n - 1) + [NotifyMirror];
      MirrorDrains(s, n - 1);
      OneMoment(s, Repeated(NotifyMirror, n - 1), NotifyMirror);
    }
  }

  /** So after any run without a 0x04 or 0x05 for the path, the pending events bring the mirror up to date. */
  lemma {:induction false} MirrorIsDrainedToDate(v: ClientView, path: Path, ms: seq<Moment>)
    requires path in v.devices && NeverReplaced(ms, path)
    ensures
      var s := HappenAll(Listen(v, path), ms);
      && path in s.v.devices && s.seen <= |s.held.events|
      && var drained := HappenAll(s, Repeated(NotifyMirror, |s.held.events| - s.seen));
         forall f :: drained.mirror(f) == DeviceGet(s.v.devices[path].props, f)
  {
    hide Happen, DeviceGet;
    CurrentIff(Listen(v, path), ms);
    RunKeepsWatching(Listen(v, path), ms);
    var s := HappenAll(Listen(v, path), ms);
    MirrorDrains(s, |s.held.events| - s.seen);
    RunKeepsWatching(s, Repeated(NotifyMirror, |s.held.events| - s.seen));
  }

  /** The state of a parked waiter given n of its pending events: woken by the first if its flag holds,
      parked with n fewer pending if not. */
  lemma {:induction false} WaiterDrains(s: Watch, i: nat, n: nat)
    requires IsParked(s, i) && 0 < n && s.waiters[i].seen + n <= |s.held.events|
    ensures
      var s', w := HappenAll(s, Repeated(NotifyWaiter(i), n)), s.waiters[i];
      && s' == s.(waiters := s'.waiters) && |s'.waiters| == |s.waiters|
      && s'.waiters[i] == if Met(w.goal, s.held.props) then Woken(w.goal) else Parked(w.goal, w.seen + n)
    decreases n
  {
    hide Met;
    var m := NotifyWaiter(i);
    assert Repeated(m, n) == Repeated(m, n - 1) + [m];
    OneMoment(s, Repeated(m, n - 1), m);
    if n > 1 {
      WaiterDrains(s, i, n - 1);
    }
  }

  // ── Resuming ─────────────────────────────────────────────────────────────

  /** Every microtask has run: nothing is left to notify or resume. */
  predicate Drained(s: Watch) {
    forall i :: 0 <= i < |s.waiters| ==>
      !s.waiters[i].Woken? && (s.waiters[i].Parked? ==> s.waiters[i].seen == |s.held.events|)
  }

  /** Messages are handled only once the microtasks have run, as the Dart event loop does. */
  predicate Disciplined(s: Watch, ms: seq<Moment>)
    decreases |ms|
  {
    ms == [] || ((ms[0].Message? ==> Drained(s)) && Disciplined(Happen(s, ms[0]), ms[1..]))
  }

  predicate WokenMet(s: Watch) {
    forall i :: 0 <= i < |s.waiters| && s.waiters[i].Woken? ==> Met(s.waiters[i].goal, s.held.props)
  }

  lemma MomentKeepsWokenMet(s: Watch, m: Moment)
    requires WokenMet(s) && (m.Message? ==> Drained(s))
    ensures WokenMet(Happen(s, m))
  {
    hide Apply, Met, DeviceGet;
  }

  /** The flag holds when a waiter resumes. */
  lemma {:induction false} FlagHoldsAtResume(s: Watch, ms: seq<Moment>)
    requires WokenMet(s) && Disciplined(s, ms)
    ensures WokenMet(HappenAll(s, ms))
    decreases |ms|
  {
    hide Happen;
    if ms == [] {
    } else {
      MomentKeepsWokenMet(s, ms[0]);
      FlagHoldsAtResume(Happen(s, ms[0]), ms[1..]);
    }
  }

  // ── Waiting ──────────────────────────────────────────────────────────────

  /** connect() waits for connected, disconnect() for its absence, waitForServicesResolved() for
      servicesResolved: a call returns at once when its flag is already so, and suspends otherwise. */
  lemma CallWaitsForItsFlag(s: Watch)
    ensures var p, now := s.held.props, |s.held.events|;
      && Happen(s, CallWaiter(WantConnected))
         == s.(waiters := s.waiters + [if p.connected then Finished(WantConnected) else Parked(WantConnected, now)])
      && Happen(s, CallWaiter(WantDisconnected))
         == s.(waiters := s.waiters + [if p.connected then Parked(WantDisconnected, now) else Finished(WantDisconnected)])
      && Happen(s, CallWaiter(WantResolved))
         == s.(waiters := s.waiters + [if p.servicesResolved then Finished(WantResolved) else Parked(WantResolved, now)])
  {
  }

  /** The waiter's call returns in moment m, with its flag as awaited on the device it holds. */
  predicate ReturnsWithFlag(s: Watch, m: Moment, i: nat, goal: Goal) {
    && ((m == CallWaiter(goal) && i == |s.waiters|) || (m == ResumeWaiter(i) && i < |s.waiters| && s.waiters[i] == Woken(goal)))
    && (goal.WantConnected? ==> s.held.props.connected) && (goal.WantDisconnected? ==> !s.held.props.connected)
    && (goal.WantResolved? ==> s.held.props.servicesResolved)
  }

  /** Whenever microtasks run before the next message: a call that has returned did so with its flag as
      awaited, when it was made or when it resumed. */
  lemma {:induction false} ReturnedWithFlag(s: Watch, ms: seq<Moment>, i: nat)
    requires WokenMet(s) && Disciplined(s, ms) && (i < |s.waiters| ==> !s.waiters[i].Finished?)
    requires i < |HappenAll(s, ms).waiters| && HappenAll(s, ms).waiters[i].Finished?
    ensures exists k :: 0 <= k < |ms| && ReturnsWithFlag(HappenAll(s, ms[..k]), ms[k], i, HappenAll(s, ms).waiters[i].goal)
    decreases |ms|
  {
    hide Apply;
    if ms == [] {
    } else {
      var m, s' := ms[0], Happen(s, ms[0]);
      MomentKeepsWokenMet(s, m);
      assert ms[..0] == [];
      if i < |s'.waiters| && s'.waiters[i].Finished? {
        FinishedStays(s', ms[1..], i);
        assert ReturnsWithFlag(HappenAll(s, ms[..0]), ms[0], i, HappenAll(s, ms).waiters[i].goal);
      } else {
        ReturnedWithFlag(s', ms[1..], i);
        var k :| 0 <= k < |ms[1..]| && ReturnsWithFlag(HappenAll(s', ms[1..][..k]), ms[1..][k], i, HappenAll(s, ms).waiters[i].goal);
        assert ms[..k + 1][0] == m && ms[..k + 1][1..] == ms[1..][..k] && ms[k + 1] == ms[1..][k];
      }
    }
  }

  lemma {:induction false} FinishedStays(s: Watch, ms: seq<Moment>, i: nat)
    requires i < |s.waiters| && s.waiters[i].Finished?
    ensures i < |HappenAll(s, ms).waiters| && HappenAll(s, ms).waiters[i] == s.waiters[i]
    decreases |ms|
  {
    hide Apply, Met, DeviceGet;
    if ms == [] {
    } else {
      FinishedStays(Happen(s, ms[0]), ms[1..], i);
    }
  }

  // ── Which waiters can still return ─────────────────────────────────────

  /** A waiter parked on such an object, its flag not at the awaited value, is parked for ever. */
  lemma {:induction false} ReplacedStrandsWaiter(s: Watch, ms: seq<Moment>, i: nat)
    requires !s.current && IsParked(s, i) && !Met(s.waiters[i].goal, s.held.props)
    ensures IsParked(HappenAll(s, ms), i)
    decreases |ms|
  {
    hide Apply, Met, DeviceGet;
    if ms == [] {
    } else {
      ReplacedStrandsWaiter(Happen(s, ms[0]), ms[1..], i);
    }
  }

  /** A 0x02 that brings the flag to the awaited value, and nothing else. */
  function Granting(goal: Goal, path: Path): DeviceProps {
    match goal
    case WantConnected => BLANK_DEVICE.(objectPath := path, changedMask := 1, connected := true)
    case WantDisconnected => BLANK_DEVICE.(objectPath := path, changedMask := 1, connected := false)
    case WantResolved => BLANK_DEVICE.(objectPath := path, changedMask := 8, servicesResolved := true)
  }

  lemma GrantingBits()
    ensures Bit(1, DART_CONNECTED_BIT) && Bit(8, DART_SERVICES_RESOLVED_BIT)
  {
    assert Bit(2, 1) && Bit(4, 2);
  }

  lemma GrantingMeets(d: DeviceView, goal: Goal, path: Path)
    requires !Met(goal, d.props)
    ensures
      var now := UpdateDevice(d, Granting(goal, path));
      Met(goal, now.props) && |now.events| == |d.events| + 1
  {
    hide Bit, ChangedFields, DeviceUntracked;
    GrantingBits();
    var now := MergeDevice(d.props, Granting(goal, path));
    assert Met(goal, now);
    ChangedFieldsAreTheDifference(d.props, now, if goal.WantResolved? then ServicesResolved else Connected);
  }

  lemma TwoMoments(s: Watch, m: Moment, n: Moment)
    ensures HappenAll(s, [m, n]) == Happen(Happen(s, m), n)
  {
    hide Happen;
    assert [m, n][1..] == [n] && [n][1..] == [];
    assert HappenAll(Happen(s, m), [n]) == HappenAll(Happen(Happen(s, m), n), []);
  }

  /** A notification of a waiter whose flag holds wakes it. */
  lemma NotifyWakes(s: Watch, i: nat)
    requires Watching(s) && IsParked(s, i) && Met(s.waiters[i].goal, s.held.props)
    ensures Happen(s, NotifyWaiter(i)).waiters[i].Woken?
  {
    assert Awake(s.waiters[i], s.held);
  }

  /** The waiter's call has returned after ms. */
  predicate Finishes(s: Watch, ms: seq<Moment>, i: nat) {
    i < |HappenAll(s, ms).waiters| && HappenAll(s, ms).waiters[i].Finished?
  }

  /** In any state a run can reach, a parked waiter returns in some continuation exactly when its object
      is still the cached one or already has the flag. */
  lemma {:induction false} ReturnsIff(s: Watch, i: nat)
    requires Watching(s) && GattTree.WellFiled(s.v) && IsParked(s, i)
    ensures (exists ms :: Finishes(s, ms, i)) <==> s.current || Met(s.waiters[i].goal, s.held.props)
  {
    if Met(s.waiters[i].goal, s.held.props) {
      MetFinishes(s, i);
    } else if s.current {
      CurrentFinishes(s, i);
    } else {
      forall ms ensures !Finishes(s, ms, i) {
        ReplacedStrandsWaiter(s, ms, i);
      }
    }
  }

  lemma MetFinishes(s: Watch, i: nat)
    requires Watching(s) && IsParked(s, i) && Met(s.waiters[i].goal, s.held.props)
    ensures exists ms :: Finishes(s, ms, i)
  {
    hide Watching, Met, Apply;
    NotifyWakes(s, i);
    TwoMoments(s, NotifyWaiter(i), ResumeWaiter(i));
    assert Finishes(s, [NotifyWaiter(i), ResumeWaiter(i)], i);
  }

  lemma CurrentFinishes(s: Watch, i: nat)
    requires Watching(s) && GattTree.WellFiled(s.v) && IsParked(s, i)
    requires s.current && !Met(s.waiters[i].goal, s.held.props)
    ensures exists ms :: Finishes(s, ms, i)
  {
    hide UpdateDevice, Met, Granting, DeviceGet, DevicePathOf;
    var w := s.waiters[i];
    var m := Message(DeviceUpdateFrame(Granting(w.goal, s.path)));
    assert GattTree.Proper(s.path, s.held);
    GrantingMeets(s.held, w.goal, s.path);
    GrantingPath(w.goal, s.path);
    MomentKeepsWatching(s, m);
    MetFinishes(Happen(s, m), i);
    var rest :| Finishes(Happen(s, m), rest, i);
    assert ([m] + rest)[1..] == rest;
    assert Finishes(s, [m] + rest, i);
  }

  lemma GrantingPath(goal: Goal, path: Path)
    ensures Granting(goal, path).objectPath == path
  {
  }

  lemma {:induction false} RunKeepsFiled(s: Watch, ms: seq<Moment>)
    requires GattTree.WellFiled(s.v)
    ensures GattTree.WellFiled(HappenAll(s, ms).v)
    decreases |ms|
  {
    hide Apply, GattTree.WellFiled;
    if ms == [] {
    } else {
      if ms[0].Message? {
        GattTree.StepKeepsFiled(s.v, ms[0].frame);
      }
      RunKeepsFiled(Happen(s, ms[0]), ms[1..]);
    }
  }

  /** A waiter parked with nothing pending is stranded, whatever happens next, exactly when a 0x04 or
      0x05 for its device's path has been delivered since its object was cached. */
  lemma {:induction false} StrandedIff(v: ClientView, path: Path, ms: seq<Moment>, i: nat)
    requires path in v.devices && GattTree.WellFiled(v)
    requires
      var s := HappenAll(Listen(v, path), ms);
      IsParked(s, i) && s.waiters[i].seen == |s.held.events|
    ensures (forall more :: !Finishes(HappenAll(Listen(v, path), ms), more, i))
       <==> exists j :: 0 <= j < |ms| && Replaces(ms[j], path)
  {
    hide Happen, Finishes, Met, DeviceGet, GattTree.WellFiled, Replaces;
    var s := HappenAll(Listen(v, path), ms);
    RunKeepsWatching(Listen(v, path), ms);
    RunKeepsFiled(Listen(v, path), ms);
    CurrentIff(Listen(v, path), ms);
    assert Awake(s.waiters[i], s.held);
    ReturnsIff(s, i);
  }

  /** A 0x04 for a device already cached strands a waiter even though the cached device, at the same
      path, has the awaited flag. */
  lemma ReannouncedDeviceStrandsWaiter(v: ClientView, p: DeviceProps, ms: seq<Moment>)
    requires p.objectPath in v.devices && !v.devices[p.objectPath].props.connected && p.connected
    ensures
      var s := HappenAll(Listen(v, p.objectPath), [CallWaiter(WantConnected), Message(DeviceAddedFrame(p))]);
      && p.objectPath in s.v.devices && Met(WantConnected, s.v.devices[p.objectPath].props)
      && IsParked(HappenAll(s, ms), 0)
  {
    var start := Listen(v, p.objectPath);
    TwoMoments(start, CallWaiter(WantConnected), Message(DeviceAddedFrame(p)));
    var s := HappenAll(start, [CallWaiter(WantConnected), Message(DeviceAddedFrame(p))]);
    ReplacedStrandsWaiter(s, ms, 0);
  }
}
