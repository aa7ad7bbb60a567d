/** What services and characteristics list after any stream of frames, and exactly when a listed object
    is the device's own. */
module Identity {
  import opened ByteStrings
  import opened Types
  import opened Paths
  import opened Frames
  import opened ClientModel
  import opened GattTree
  import opened Runs
  import opened Lifetimes

  // ── What a parent lists ──────────────────────────────────────────────────

  /** f announces to device d a child that names the given parent; kind is the parent's. */
  predicate Links(f: Frame, kind: GattKind, d: Path, parent: Path, child: Path) {
    match kind
    case ServiceObject => Announces(f, CharObject, d, child) && f.characteristic.servicePath == parent
    case CharObject => Announces(f, DescObject, d, child) && f.desc.charPath == parent
    case DescObject => false
  }

  predicate ServiceLists(d: DeviceView, s: Path, c: Path) {
    s in d.services && c in d.services[s].chars
  }

  predicate CharLists(d: DeviceView, c: Path, e: Path) {
    c in d.chars && e in d.chars[c].descs
  }

  /** The parent's object lists the child. */
  predicate Listed(v: ClientView, kind: GattKind, d: Path, parent: Path, child: Path) {
    d in v.devices &&
    match kind
    case ServiceObject => ServiceLists(v.devices[d], parent, child)
    case CharObject => CharLists(v.devices[d], parent, child)
    case DescObject => false
  }

  /** fs[j] announces the child to the parent's object, which fs[i] made and nothing has replaced since. */
  ghost predicate LinkedAt(fs: seq<Frame>, i: nat, j: nat, kind: GattKind, d: Path, parent: Path, child: Path) {
    Latest(fs, i, kind, d, parent) && i < j < |fs| && Links(fs[j], kind, d, parent, child)
  }

  lemma UpdateLists(d: DeviceView, p: DeviceProps, parent: Path, child: Path)
    ensures ServiceLists(UpdateDevice(d, p), parent, child) <==> ServiceLists(d, parent, child)
    ensures CharLists(UpdateDevice(d, p), parent, child) <==> CharLists(d, parent, child)
  {
    hide MergeDevice, ChangedFields;
  }

  lemma PostLists(d: DeviceView, p: CharProps, parent: Path, child: Path)
    ensures p.objectPath in d.chars ==>
      var d' := PostValue(d, p.objectPath, p.value);
      && (ServiceLists(d', parent, child) <==> ServiceLists(d, parent, child))
      && (CharLists(d', parent, child) <==> CharLists(d, parent, child))
  {
  }

  lemma NewListsNothing(p: DeviceProps, parent: Path, child: Path)
    ensures !ServiceLists(NewDevice(p), parent, child) && !CharLists(NewDevice(p), parent, child)
  {
  }

  lemma AddServiceLists(d: DeviceView, p: ServiceProps, parent: Path, child: Path)
    ensures ServiceLists(AddService(d, p), parent, child) <==> ServiceLists(d, parent, child) && parent != p.objectPath
    ensures CharLists(AddService(d, p), parent, child) <==> CharLists(d, parent, child)
  {
  }

  lemma AddCharLists(d: DeviceView, p: CharProps, parent: Path, child: Path)
    ensures ServiceLists(AddChar(d, p), parent, child)
       <==> ServiceLists(d, parent, child) || (parent in d.services && parent == p.servicePath && child == p.objectPath)
    ensures CharLists(AddChar(d, p), parent, child) <==> CharLists(d, parent, child) && parent != p.objectPath
  {
  }

  lemma AddDescLists(d: DeviceView, p: DescProps, parent: Path, child: Path)
    ensures ServiceLists(AddDesc(d, p), parent, child) <==> ServiceLists(d, parent, child)
    ensures CharLists(AddDesc(d, p), parent, child)
       <==> CharLists(d, parent, child) || (parent in d.chars && parent == p.charPath && child == p.objectPath)
  {
  }

  lemma ServiceListsAfter(v: ClientView, f: Frame, d: Path, s: Path, c: Path)
    ensures Listed(Apply(v, f), ServiceObject, d, s, c)
       <==> !Resets(f, d) && !Announces(f, ServiceObject, d, s)
            && (Listed(v, ServiceObject, d, s, c) || (Caches(v, ServiceObject, d, s) && Links(f, ServiceObject, d, s, c)))
  {
    hide MergeAdapter, DevicePathOf, ServiceLists, CharLists, UpdateDevice, PostValue, NewDevice, AddService, AddChar, AddDesc;
    if f.DeviceAddedFrame? {
      NewListsNothing(f.device, s, c);
    } else if d in v.devices {
      var view := v.devices[d];
      match f
      case DeviceUpdateFrame(p) => UpdateLists(view, p, s, c);
      case CharValueFrame(p) => PostLists(view, p, s, c);
      case ServiceAddedFrame(p) => AddServiceLists(view, p, s, c);
      case CharAddedFrame(p) => AddCharLists(view, p, s, c);
      case DescAddedFrame(p) => AddDescLists(view, p, s, c);
      case _ =>
    }
  }

  lemma CharListsAfter(v: ClientView, f: Frame, d: Path, c: Path, e: Path)
    ensures Listed(Apply(v, f), CharObject, d, c, e)
       <==> !Resets(f, d) && !Announces(f, CharObject, d, c)
            && (Listed(v, CharObject, d, c, e) || (Caches(v, CharObject, d, c) && Links(f, CharObject, d, c, e)))
  {
    hide MergeAdapter, DevicePathOf, ServiceLists, CharLists, UpdateDevice, PostValue, NewDevice, AddService, AddChar, AddDesc;
    if f.DeviceAddedFrame? {
      NewListsNothing(f.device, c, e);
    } else if d in v.devices {
      var view := v.devices[d];
      match f
      case DeviceUpdateFrame(p) => UpdateLists(view, p, c, e);
      case CharValueFrame(p) => PostLists(view, p, c, e);
      case ServiceAddedFrame(p) => AddServiceLists(view, p, c, e);
      case CharAddedFrame(p) => AddCharLists(view, p, c, e);
      case DescAddedFrame(p) => AddDescLists(view, p, c, e);
      case _ =>
    }
  }

  lemma ListedAfter(v: ClientView, f: Frame, kind: GattKind, d: Path, parent: Path, child: Path)
    ensures Listed(Apply(v, f), kind, d, parent, child)
       <==> !Resets(f, d) && !Announces(f, kind, d, parent)
            && (Listed(v, kind, d, parent, child) || (Caches(v, kind, d, parent) && Links(f, kind, d, parent, child)))
  {
    hide Apply, Caches, Resets, Announces;
    match kind
    case ServiceObject => ServiceListsAfter(v, f, d, parent, child);
    case CharObject => CharListsAfter(v, f, d, parent, child);
    case DescObject =>
  }

  lemma LinkedAfter(fs: seq<Frame>, f: Frame, i: nat, j: nat, kind: GattKind, d: Path, parent: Path, child: Path)
    ensures LinkedAt(fs + [f], i, j, kind, d, parent, child)
       <==> if j == |fs| then Latest(fs, i, kind, d, parent) && !Resets(f, d) && !Announces(f, kind, d, parent)
                              && Links(f, kind, d, parent, child)
            else LinkedAt(fs, i, j, kind, d, parent, child) && !Resets(f, d) && !Announces(f, kind, d, parent)
  {
    hide Latest, Links, Resets, Announces;
    LatestAfter(fs, f, i, kind, d, parent);
    if Latest(fs, i, kind, d, parent) {
      LatestIsIndex(fs, i, kind, d, parent);
    }
    assert forall k :: 0 <= k < |fs| ==> (fs + [f])[k] == fs[k];
  }

  ghost predicate ListsAccounted(v: ClientView, fs: seq<Frame>, kind: GattKind, d: Path, parent: Path, child: Path) {
    Listed(v, kind, d, parent, child) <==> exists i: nat, j: nat :: LinkedAt(fs, i, j, kind, d, parent, child)
  }

  lemma OneFrameListed(v: ClientView, fs: seq<Frame>, f: Frame, kind: GattKind, d: Path, parent: Path, child: Path)
    requires ListsAccounted(v, fs, kind, d, parent, child) && Accounted(v, fs, kind, d, parent)
    ensures ListsAccounted(Apply(v, f), fs + [f], kind, d, parent, child)
  {
    hide Apply, Listed, LinkedAt, Links, Caches, CachesRecord, Latest, Resets, Announces;
    var more := fs + [f];
    ListedAfter(v, f, kind, d, parent, child);
    forall i: nat, j: nat
      ensures LinkedAt(more, i, j, kind, d, parent, child)
         <==> if j == |fs| then Latest(fs, i, kind, d, parent) && !Resets(f, d) && !Announces(f, kind, d, parent)
                                && Links(f, kind, d, parent, child)
              else LinkedAt(fs, i, j, kind, d, parent, child) && !Resets(f, d) && !Announces(f, kind, d, parent)
    {
      LinkedAfter(fs, f, i, j, kind, d, parent, child);
    }
    forall i: nat, j: nat | LinkedAt(fs, i, j, kind, d, parent, child) ensures j < |fs| {
      LinkedIsIndex(fs, i, j, kind, d, parent, child);
    }
    if i: nat :| Latest(fs, i, kind, d, parent) {
      assert LinkedAt(more, i, |fs|, kind, d, parent, child)
        <==> !Resets(f, d) && !Announces(f, kind, d, parent) && Links(f, kind, d, parent, child);
    }
  }

  lemma LinkedIsIndex(fs: seq<Frame>, i: nat, j: nat, kind: GattKind, d: Path, parent: Path, child: Path)
    requires LinkedAt(fs, i, j, kind, d, parent, child)
    ensures j < |fs|
  {
  }

  lemma NothingListed(kind: GattKind, d: Path, parent: Path, child: Path)
    ensures ListsAccounted(ApplyAll(FRESH_CLIENT, []), [], kind, d, parent, child)
  {
  }

  /** After any stream, a service lists exactly the characteristics announced naming it since it was
      itself announced, and a characteristic the descriptors likewise. */
  lemma {:induction false} ListsSinceAnnounced(fs: seq<Frame>, kind: GattKind, d: Path, parent: Path, child: Path)
    ensures Listed(ApplyAll(FRESH_CLIENT, fs), kind, d, parent, child)
       <==> exists i: nat, j: nat :: LinkedAt(fs, i, j, kind, d, parent, child)
    decreases |fs|
  {
    hide Apply, Accounted, Listed, LinkedAt;
    if fs == [] {
      NothingListed(kind, d, parent, child);
    } else {
      var front, last := fs[..|fs| - 1], fs[|fs| - 1];
      ListsSinceAnnounced(front, kind, d, parent, child);
      CachedSinceAnnounced(front, kind, d, parent);
      OneFrameListed(ApplyAll(FRESH_CLIENT, front), front, last, kind, d, parent, child);
      assert fs == front + [last];
      ApplyAllAppend(FRESH_CLIENT, front, [last]);
      assert [last][1..] == [];
    }
  }

  // ── Whose object is listed ───────────────────────────────────────────────

  /** A listed child is cached, and the listed object is the device's own exactly when the child's
      record names the parent. */
  ghost predicate OwnIffNamed(d: DeviceView) {
    && (forall s, c :: s in d.services && c in d.services[s].chars ==>
          c in d.chars && (d.services[s].chars[c] == d.chars[c].id <==> d.chars[c].props.servicePath == s))
    && (forall c, e :: c in d.chars && e in d.chars[c].descs ==>
          e in d.descs && (d.chars[c].descs[e] == d.descs[e].id <==> d.descs[e].props.charPath == c))
    && (forall s, c :: s in d.services && c in d.services[s].chars ==> d.services[s].chars[c] < d.clock)
    && (forall c, e :: c in d.chars && e in d.chars[c].descs ==> d.chars[c].descs[e] < d.clock)
  }

  ghost predicate AllOwnIffNamed(v: ClientView) {
    forall d :: d in v.devices ==> OwnIffNamed(v.devices[d])
  }

  lemma AddServiceKeepsOwn(d: DeviceView, p: ServiceProps)
    requires OwnIffNamed(d)
    ensures OwnIffNamed(AddService(d, p))
  {
  }

  lemma AddCharKeepsOwn(d: DeviceView, p: CharProps)
    requires OwnIffNamed(d)
    ensures OwnIffNamed(AddChar(d, p))
  {
  }

  lemma AddDescKeepsOwn(d: DeviceView, p: DescProps)
    requires OwnIffNamed(d)
    ensures OwnIffNamed(AddDesc(d, p))
  {
  }

  lemma PostValueKeepsOwn(d: DeviceView, path: Path, value: Bytes)
    requires OwnIffNamed(d) && path in d.chars
    ensures OwnIffNamed(PostValue(d, path, value))
  {
  }

  lemma UpdateKeepsOwn(d: DeviceView, p: DeviceProps)
    requires OwnIffNamed(d)
    ensures OwnIffNamed(UpdateDevice(d, p))
  {
    hide MergeDevice, ChangedFields;
  }

  lemma NewDeviceOwn(p: DeviceProps)
    ensures OwnIffNamed(NewDevice(p))
  {
  }

  lemma StepKeepsOwn(v: ClientView, f: Frame)
    requires AllOwnIffNamed(v)
    ensures AllOwnIffNamed(Apply(v, f))
  {
    hide MergeAdapter, UpdateDevice, DevicePathOf, AddService, AddChar, AddDesc, PostValue, NewDevice, OwnIffNamed;
    match f
    case DeviceUpdateFrame(p) =>
      if p.objectPath in v.devices {
        UpdateKeepsOwn(v.devices[p.objectPath], p);
      }
    case CharValueFrame(p) =>
      var d := DevicePathOf(p.objectPath);
      if d in v.devices && p.objectPath in v.devices[d].chars {
        PostValueKeepsOwn(v.devices[d], p.objectPath, p.value);
      }
    case DeviceAddedFrame(p) =>
      NewDeviceOwn(p);
    case ServiceAddedFrame(p) =>
      if p.devicePath in v.devices {
        AddServiceKeepsOwn(v.devices[p.devicePath], p);
      }
    case CharAddedFrame(p) =>
      if DevicePathOf(p.objectPath) in v.devices {
        AddCharKeepsOwn(v.devices[DevicePathOf(p.objectPath)], p);
      }
    case DescAddedFrame(p) =>
      if DevicePathOf(p.objectPath) in v.devices {
        AddDescKeepsOwn(v.devices[DevicePathOf(p.objectPath)], p);
      }
    case _ =>
  }

  /** Whatever the frames, a listed object is the device's own exactly when the record cached for it
      names the object that lists it. */
  lemma {:induction false} RunKeepsOwn(v: ClientView, fs: seq<Frame>)
    requires AllOwnIffNamed(v)
    ensures AllOwnIffNamed(ApplyAll(v, fs))
    decreases |fs|
  {
    hide Apply, AllOwnIffNamed;
    if fs == [] {
    } else {
      StepKeepsOwn(v, fs[0]);
      RunKeepsOwn(Apply(v, fs[0]), fs[1..]);
    }
  }

  // ── Identity over whole runs ─────────────────────────────────────────────

  function ChildOf(kind: GattKind): GattKind {
    if kind.ServiceObject? then CharObject else DescObject
  }

  /** The child was announced to the parent's present object, but last announced naming another. */
  ghost predicate Moved(fs: seq<Frame>, kind: GattKind, d: Path, parent: Path, child: Path) {
    (exists i: nat, j: nat :: LinkedAt(fs, i, j, kind, d, parent, child))
    && exists k: nat :: k < |fs| && Latest(fs, k, ChildOf(kind), d, child) && !Links(fs[k], kind, d, parent, child)
  }

  /** The object listed is the device's own for its path. */
  predicate ListsOwn(v: ClientView, kind: GattKind, d: Path, parent: Path, child: Path)
    requires Listed(v, kind, d, parent, child)
  {
    match kind
    case ServiceObject =>
      child in v.devices[d].chars && v.devices[d].services[parent].chars[child] == v.devices[d].chars[child].id
    case CharObject =>
      child in v.devices[d].descs && v.devices[d].chars[parent].descs[child] == v.devices[d].descs[child].id
  }

  lemma ListedIsCached(v: ClientView, kind: GattKind, d: Path, parent: Path, child: Path)
    requires AllOwnIffNamed(v) && Listed(v, kind, d, parent, child)
    ensures Caches(v, ChildOf(kind), d, child)
  {
  }

  lemma OwnIffRecordLinks(v: ClientView, f: Frame, kind: GattKind, d: Path, parent: Path, child: Path)
    requires AllOwnIffNamed(v) && Listed(v, kind, d, parent, child) && CachesRecord(v, ChildOf(kind), d, child, f)
    ensures ListsOwn(v, kind, d, parent, child) <==> Links(f, kind, d, parent, child)
  {
    assert OwnIffNamed(v.devices[d]);
  }

  /** After any stream, a listed object is not the device's own exactly when the child moved. */
  lemma {:induction false} OwnIffNotMoved(fs: seq<Frame>, kind: GattKind, d: Path, parent: Path, child: Path)
    ensures
      var v := ApplyAll(FRESH_CLIENT, fs);
      Moved(fs, kind, d, parent, child) <==> Listed(v, kind, d, parent, child) && !ListsOwn(v, kind, d, parent, child)
  {
    hide Apply, ApplyAll, AllOwnIffNamed, Listed, ListsOwn, Links, LinkedAt, Caches, CachesRecord, Latest;
    var v := ApplyAll(FRESH_CLIENT, fs);
    NothingOwned();
    RunKeepsOwn(FRESH_CLIENT, fs);
    ListsSinceAnnounced(fs, kind, d, parent, child);
    if Listed(v, kind, d, parent, child) {
      ListedIsCached(v, kind, d, parent, child);
      CachedSinceAnnounced(fs, ChildOf(kind), d, child);
      forall k: nat | k < |fs| && Latest(fs, k, ChildOf(kind), d, child)
        ensures ListsOwn(v, kind, d, parent, child) <==> Links(fs[k], kind, d, parent, child)
      {
        OwnIffRecordLinks(v, fs[k], kind, d, parent, child);
      }
      var k: nat :| Latest(fs, k, ChildOf(kind), d, child);
      LatestIsIndex(fs, k, ChildOf(kind), d, child);
    }
  }

  lemma NothingOwned()
    ensures AllOwnIffNamed(FRESH_CLIENT)
  {
  }

  lemma SameIffListsOwn(v: ClientView, d: Path)
    requires d in v.devices
    ensures SameObjects(v.devices[d])
       <==> forall kind, parent, child :: Listed(v, kind, d, parent, child) ==> ListsOwn(v, kind, d, parent, child)
  {
    if forall kind, parent, child :: Listed(v, kind, d, parent, child) ==> ListsOwn(v, kind, d, parent, child) {
      var view := v.devices[d];
      forall s, c | s in view.services && c in view.services[s].chars
        ensures c in view.chars && view.services[s].chars[c] == view.chars[c].id
      {
        assert Listed(v, ServiceObject, d, s, c);
      }
      forall c, e | c in view.chars && e in view.chars[c].descs
        ensures e in view.descs && view.chars[c].descs[e] == view.descs[e].id
      {
        assert Listed(v, CharObject, d, c, e);
      }
    }
  }

  /** After any stream, whatever is reached in a cached device is the device's own object exactly when no
      child announced to a present parent was last announced naming another. */
  lemma {:induction false} IdentityIff(fs: seq<Frame>, d: Path)
    requires d in ApplyAll(FRESH_CLIENT, fs).devices
    ensures SameObjects(ApplyAll(FRESH_CLIENT, fs).devices[d])
       <==> forall kind, parent, child :: !Moved(fs, kind, d, parent, child)
  {
    hide Apply, ApplyAll, SameObjects, Listed, ListsOwn, Moved;
    var v := ApplyAll(FRESH_CLIENT, fs);
    SameIffListsOwn(v, d);
    forall kind, parent, child
      ensures Moved(fs, kind, d, parent, child) <==> Listed(v, kind, d, parent, child) && !ListsOwn(v, kind, d, parent, child)
    {
      OwnIffNotMoved(fs, kind, d, parent, child);
    }
  }

  /** In every reachable state that is so of the client and the stream delivered to it. */
  lemma {:induction false} IdentityIffInEveryRun(actions: seq<Action>, d: Path)
    requires ActionsSized(actions) && d in Run(START, actions).client.devices
    ensures
      var s := Run(START, actions);
      s.delivered <= |s.posted|
      && (SameObjects(s.client.devices[d])
          <==> forall kind, parent, child :: !Moved(s.posted[..s.delivered], kind, d, parent, child))
  {
    hide Step, Apply, FrameFits, AllFrameBytes, SameObjects, Moved;
    StartInOrder();
    RunKeepsOrder(START, actions);
    var s := Run(START, actions);
    IdentityIff(s.posted[..s.delivered], d);
  }

  // ── One frame ────────────────────────────────────────────────────────────

  /** f's object is listed by no parent but the one it names, in the device it routes to. */
  ghost predicate ListedOnlyWhereNamed(v: ClientView, f: Frame) {
    match f
    case CharAddedFrame(p) =>
      DevicePathOf(p.objectPath) in v.devices ==> ListedOnlyByParent(v.devices[DevicePathOf(p.objectPath)], p)
    case DescAddedFrame(p) =>
      DevicePathOf(p.objectPath) in v.devices ==> DescListedOnlyByParent(v.devices[DevicePathOf(p.objectPath)], p)
    case _ => true
  }

  ghost predicate AllSame(v: ClientView) {
    forall d :: d in v.devices ==> SameObjects(v.devices[d])
  }

  lemma ServiceKeepsSame(d: DeviceView, p: ServiceProps)
    requires SameObjects(d)
    ensures SameObjects(AddService(d, p))
  {
  }

  lemma UpdateKeepsSame(d: DeviceView, p: DeviceProps)
    requires SameObjects(d)
    ensures SameObjects(UpdateDevice(d, p))
  {
    hide MergeDevice, ChangedFields;
  }

  lemma PostKeepsSame(d: DeviceView, path: Path, value: Bytes)
    requires SameObjects(d) && path in d.chars
    ensures SameObjects(PostValue(d, path, value))
  {
  }

  lemma NewDeviceSame(p: DeviceProps)
    ensures SameObjects(NewDevice(p))
  {
  }

  /** A frame keeps identity in every cached device exactly when no other parent lists its path. */
  lemma FrameKeepsIdentityIff(v: ClientView, f: Frame)
    requires WellFiled(v) && AllSame(v)
    ensures AllSame(Apply(v, f)) <==> ListedOnlyWhereNamed(v, f)
  {
    hide MergeAdapter, UpdateDevice, DevicePathOf, AddService, AddChar, AddDesc, PostValue, NewDevice, SameObjects,
      Filed, RoutedTo, ListedOnlyByParent, DescListedOnlyByParent;
    match f
    case DeviceUpdateFrame(p) =>
      if p.objectPath in v.devices {
        UpdateKeepsSame(v.devices[p.objectPath], p);
      }
    case CharValueFrame(p) =>
      var d := DevicePathOf(p.objectPath);
      if d in v.devices && p.objectPath in v.devices[d].chars {
        PostKeepsSame(v.devices[d], p.objectPath, p.value);
      }
    case DeviceAddedFrame(p) =>
      NewDeviceSame(p);
    case ServiceAddedFrame(p) =>
      if p.devicePath in v.devices {
        ServiceKeepsSame(v.devices[p.devicePath], p);
      }
    case CharAddedFrame(p) =>
      if DevicePathOf(p.objectPath) in v.devices {
        var d := DevicePathOf(p.objectPath);
        CharKeepsIdentityIff(v.devices[d], p);
        assert Apply(v, f).devices[d] == AddChar(v.devices[d], p);
      }
    case DescAddedFrame(p) =>
      if DevicePathOf(p.objectPath) in v.devices {
        var d := DevicePathOf(p.objectPath);
        DescKeepsIdentityIff(v.devices[d], p);
        assert Apply(v, f).devices[d] == AddDesc(v.devices[d], p);
      }
    case _ =>
  }
}
