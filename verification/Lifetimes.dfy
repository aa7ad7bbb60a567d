/** Which GATT objects the client caches, as a function of the stream it was given: those announced
    since their device was, with the record of the last announcement, until the device goes. */
module Lifetimes {
  import opened Types
  import opened Paths
  import opened Frames
  import opened ClientModel
  import opened Runs

  datatype GattKind = ServiceObject | CharObject | DescObject

  /** f announces an object of the kind at path p, and routes it to device d. */
  predicate Announces(f: Frame, kind: GattKind, d: Path, p: Path) {
    match kind
    case ServiceObject => f.ServiceAddedFrame? && f.service.objectPath == p && f.service.devicePath == d
    case CharObject => f.CharAddedFrame? && f.characteristic.objectPath == p && DevicePathOf(p) == d
    case DescObject => f.DescAddedFrame? && f.desc.objectPath == p && DevicePathOf(p) == d
  }

  /** f replaces or drops device d and all it holds. */
  predicate Resets(f: Frame, d: Path) {
    (f.DeviceAddedFrame? && f.device.objectPath == d) || (f.DeviceRemovedFrame? && f.device.objectPath == d)
  }

  predicate Caches(v: ClientView, kind: GattKind, d: Path, p: Path) {
    d in v.devices &&
    match kind
    case ServiceObject => p in v.devices[d].services
    case CharObject => p in v.devices[d].chars
    case DescObject => p in v.devices[d].descs
  }

  /** The cached record is the one f carries. */
  predicate CachesRecord(v: ClientView, kind: GattKind, d: Path, p: Path, f: Frame) {
    Caches(v, kind, d, p) && Announces(f, kind, d, p) &&
    match kind
    case ServiceObject => v.devices[d].services[p].props == f.service
    case CharObject => v.devices[d].chars[p].props == f.characteristic
    case DescObject => v.devices[d].descs[p].props == f.desc
  }

  /** fs[i] is the last announcement of the object, made to a live device that no later frame resets. */
  ghost predicate Latest(fs: seq<Frame>, i: nat, kind: GattKind, d: Path, p: Path) {
    && i < |fs| && Announces(fs[i], kind, d, p) && LiveDevice(fs[..i], d)
    && forall k :: i < k < |fs| ==> !Resets(fs[k], d) && !Announces(fs[k], kind, d, p)
  }

  lemma ServiceAfter(v: ClientView, f: Frame, d: Path, p: Path)
    ensures Caches(Apply(v, f), ServiceObject, d, p)
       <==> !Resets(f, d) && (if Announces(f, ServiceObject, d, p) then d in v.devices else Caches(v, ServiceObject, d, p))
  {
    hide MergeDevice, MergeAdapter, ChangedFields, DevicePathOf;
  }

  lemma CharAfter(v: ClientView, f: Frame, d: Path, p: Path)
    ensures Caches(Apply(v, f), CharObject, d, p)
       <==> !Resets(f, d) && (if Announces(f, CharObject, d, p) then d in v.devices else Caches(v, CharObject, d, p))
  {
    hide MergeDevice, MergeAdapter, ChangedFields, DevicePathOf;
  }

  lemma DescAfter(v: ClientView, f: Frame, d: Path, p: Path)
    ensures Caches(Apply(v, f), DescObject, d, p)
       <==> !Resets(f, d) && (if Announces(f, DescObject, d, p) then d in v.devices else Caches(v, DescObject, d, p))
  {
    hide MergeDevice, MergeAdapter, ChangedFields, DevicePathOf;
  }

  lemma CachesAfter(v: ClientView, f: Frame, kind: GattKind, d: Path, p: Path)
    ensures Caches(Apply(v, f), kind, d, p)
       <==> !Resets(f, d) && (if Announces(f, kind, d, p) then d in v.devices else Caches(v, kind, d, p))
  {
    hide Apply, Announces, Resets, Caches;
    match kind
    case ServiceObject => ServiceAfter(v, f, d, p);
    case CharObject => CharAfter(v, f, d, p);
    case DescObject => DescAfter(v, f, d, p);
  }

  lemma RecordAfter(v: ClientView, f: Frame, kind: GattKind, d: Path, p: Path, g: Frame)
    requires !Resets(f, d)
    ensures Announces(f, kind, d, p) && d in v.devices ==> CachesRecord(Apply(v, f), kind, d, p, f)
    ensures !Announces(f, kind, d, p) && CachesRecord(v, kind, d, p, g) ==> CachesRecord(Apply(v, f), kind, d, p, g)
  {
    hide MergeDevice, MergeAdapter, ChangedFields, DevicePathOf;
  }

  lemma LatestAfter(fs: seq<Frame>, f: Frame, i: nat, kind: GattKind, d: Path, p: Path)
    ensures Latest(fs + [f], i, kind, d, p)
       <==> if i == |fs| then Announces(f, kind, d, p) && LiveDevice(fs, d)
            else Latest(fs, i, kind, d, p) && !Resets(f, d) && !Announces(f, kind, d, p)
  {
    hide LiveDevice, Announces, Resets;
    var more := fs + [f];
    if i < |fs| {
      assert more[..i] == fs[..i];
      assert forall k :: i < k < |fs| ==> more[k] == fs[k];
      assert more[|fs|] == f;
    } else if i == |fs| {
      assert more[..i] == fs;
    }
  }

  lemma AnnouncedIsNoReset(f: Frame, kind: GattKind, d: Path, p: Path)
    requires Announces(f, kind, d, p)
    ensures !Resets(f, d)
  {
  }

  /** v caches the object exactly when some announcement is its latest, and then with that record. */
  ghost predicate Accounted(v: ClientView, fs: seq<Frame>, kind: GattKind, d: Path, p: Path) {
    && (Caches(v, kind, d, p) <==> exists i: nat :: Latest(fs, i, kind, d, p))
    && (forall i: nat :: i < |fs| && Latest(fs, i, kind, d, p) ==> CachesRecord(v, kind, d, p, fs[i]))
  }

  /** The cached services, characteristics and descriptors of a device are exactly those announced to
      it since it was itself, each with the record of its last announcement: nothing else removes one. */
  lemma {:induction false} CachedSinceAnnounced(fs: seq<Frame>, kind: GattKind, d: Path, p: Path)
    ensures Accounted(ApplyAll(FRESH_CLIENT, fs), fs, kind, d, p)
    decreases |fs|
  {
    hide Apply, Accounted;
    if fs == [] {
      NothingCached(kind, d, p);
    } else {
      var front, last := fs[..|fs| - 1], fs[|fs| - 1];
      CachedSinceAnnounced(front, kind, d, p);
      CachedIsLive(front, d);
      OneFrameLater(ApplyAll(FRESH_CLIENT, front), front, last, kind, d, p);
      assert fs == front + [last];
      ApplyAllAppend(FRESH_CLIENT, front, [last]);
      assert [last][1..] == [];
    }
  }

  lemma NothingCached(kind: GattKind, d: Path, p: Path)
    ensures Accounted(ApplyAll(FRESH_CLIENT, []), [], kind, d, p)
  {
  }

  lemma OneFrameLater(v: ClientView, fs: seq<Frame>, f: Frame, kind: GattKind, d: Path, p: Path)
    requires Accounted(v, fs, kind, d, p) && (d in v.devices <==> LiveDevice(fs, d))
    ensures Accounted(Apply(v, f), fs + [f], kind, d, p)
  {
    hide Apply, Caches, CachesRecord, Announces, Resets, LiveDevice, Latest;
    var more := fs + [f];
    CachesAfter(v, f, kind, d, p);
    if Announces(f, kind, d, p) {
      AnnouncedIsNoReset(f, kind, d, p);
    }
    forall i: nat
      ensures Latest(more, i, kind, d, p)
         <==> if i == |fs| then Announces(f, kind, d, p) && LiveDevice(fs, d)
              else Latest(fs, i, kind, d, p) && !Resets(f, d) && !Announces(f, kind, d, p)
      ensures Latest(fs, i, kind, d, p) ==> i < |fs|
    {
      LatestAfter(fs, f, i, kind, d, p);
      if Latest(fs, i, kind, d, p) {
        LatestIsIndex(fs, i, kind, d, p);
      }
    }
    assert Latest(more, |fs|, kind, d, p) <==> Announces(f, kind, d, p) && LiveDevice(fs, d);
    forall i: nat | i < |more| && Latest(more, i, kind, d, p) ensures CachesRecord(Apply(v, f), kind, d, p, more[i]) {
      RecordAfter(v, f, kind, d, p, more[i]);
    }
  }

  lemma LatestIsIndex(fs: seq<Frame>, i: nat, kind: GattKind, d: Path, p: Path)
    requires Latest(fs, i, kind, d, p)
    ensures i < |fs|
  {
  }

  /** In every reachable state that is so of the client and the stream delivered to it. */
  lemma {:induction false} CachedInEveryRun(actions: seq<Action>, kind: GattKind, d: Path, p: Path)
    requires ActionsSized(actions)
    ensures
      var s := Run(START, actions);
      s.delivered <= |s.posted| && Accounted(s.client, s.posted[..s.delivered], kind, d, p)
  {
    hide Step, Accounted, FrameFits, AllFrameBytes;
    StartInOrder();
    RunKeepsOrder(START, actions);
    var s := Run(START, actions);
    CachedSinceAnnounced(s.posted[..s.delivered], kind, d, p);
  }
}
