/** What every run keeps about services, characteristics and descriptors: links, identity,
    routing and value streams. */
module GattTree {
  import opened ByteStrings
  import opened Types
  import opened Masks
  import opened Paths
  import opened Frames
  import opened ClientModel

  // ── Links ────────────────────────────────────────────────────────────────

  /** Every object is filed under its own path, and ids are older than the clock. */
  ghost predicate Filed(d: DeviceView) {
    && (forall s :: s in d.services ==> d.services[s].props.objectPath == s && d.services[s].id < d.clock)
    && (forall c :: c in d.chars ==> d.chars[c].props.objectPath == c && d.chars[c].id < d.clock)
    && (forall e :: e in d.descs ==> d.descs[e].props.objectPath == e && d.descs[e].id < d.clock)
  }

  /** The service filed under s lists exactly the characteristics announced after it that name s,
      each as the device's own object. */
  ghost predicate ServiceExact(service: ServiceView, s: Path, chars: map<Path, CharView>) {
    && (forall c :: c in service.chars
               <==> c in chars && chars[c].props.servicePath == s && service.id < chars[c].id)
    && (forall c :: c in service.chars ==> service.chars[c] == chars[c].id)
  }

  ghost predicate CharExact(holder: CharView, c: Path, descs: map<Path, DescView>) {
    && (forall e :: e in holder.descs <==> e in descs && descs[e].props.charPath == c && holder.id < descs[e].id)
    && (forall e :: e in holder.descs ==> holder.descs[e] == descs[e].id)
  }

  ghost predicate ServicesExact(services: map<Path, ServiceView>, chars: map<Path, CharView>) {
    forall s :: s in services ==> ServiceExact(services[s], s, chars)
  }

  ghost predicate CharsExact(chars: map<Path, CharView>, descs: map<Path, DescView>) {
    forall c :: c in chars ==> CharExact(chars[c], c, descs)
  }

  /** The links are exactly the children announced since their parent was: the tree in closed form. */
  ghost predicate LinksExact(d: DeviceView) {
    ServicesExact(d.services, d.chars) && CharsExact(d.chars, d.descs)
  }

  /** The same characteristics, whatever descriptors and values they hold. */
  ghost predicate SameChars(chars: map<Path, CharView>, chars': map<Path, CharView>) {
    chars.Keys == chars'.Keys && forall c :: c in chars ==> chars'[c].props == chars[c].props && chars'[c].id == chars[c].id
  }

  lemma SameCharsSameLinks(services: map<Path, ServiceView>, chars: map<Path, CharView>, chars': map<Path, CharView>)
    requires ServicesExact(services, chars) && SameChars(chars, chars')
    ensures ServicesExact(services, chars')
  {
    forall s | s in services ensures ServiceExact(services[s], s, chars') {
      assert ServiceExact(services[s], s, chars);
    }
  }

  /** A characteristic reached through a service is the device's own object for that path, and
      a descriptor reached through a characteristic likewise. */
  ghost predicate SameObjects(d: DeviceView) {
    && (forall s, c :: s in d.services && c in d.services[s].chars
          ==> c in d.chars && d.services[s].chars[c] == d.chars[c].id)
    && (forall c, e :: c in d.chars && e in d.chars[c].descs
          ==> e in d.descs && d.chars[c].descs[e] == d.descs[e].id)
  }

  lemma ExactLinksShareObjects(d: DeviceView)
    requires LinksExact(d)
    ensures SameObjects(d)
  {
    forall s | s in d.services ensures ServiceExact(d.services[s], s, d.chars) {
    }
    forall c | c in d.chars ensures CharExact(d.chars[c], c, d.descs) {
    }
  }

  /** No service other than the one p names lists p's path. */
  ghost predicate ListedOnlyByParent(d: DeviceView, p: CharProps) {
    forall s :: s in d.services && s != p.servicePath ==> p.objectPath !in d.services[s].chars
  }

  ghost predicate DescListedOnlyByParent(d: DeviceView, p: DescProps) {
    forall c :: c in d.chars && c != p.charPath ==> p.objectPath !in d.chars[c].descs
  }

  lemma ServiceAnnounced(d: DeviceView, p: ServiceProps)
    requires Filed(d) && LinksExact(d)
    ensures LinksExact(AddService(d, p))
  {
    assert ServiceExact(ServiceView(d.clock, p, map[]), p.objectPath, d.chars);
    hide ServiceExact, CharExact;
  }

  /** One service after the announcement of a characteristic. */
  lemma ServiceAfterChar(d: DeviceView, p: CharProps, s: Path)
    requires Filed(d) && s in d.services && ServiceExact(d.services[s], s, d.chars)
    requires s != p.servicePath ==> p.objectPath !in d.services[s].chars
    ensures ServiceExact(AddChar(d, p).services[s], s, AddChar(d, p).chars)
  {
  }

  lemma CharAfterDesc(d: DeviceView, p: DescProps, c: Path)
    requires Filed(d) && c in d.chars && CharExact(d.chars[c], c, d.descs)
    requires c != p.charPath ==> p.objectPath !in d.chars[c].descs
    ensures CharExact(AddDesc(d, p).chars[c], c, AddDesc(d, p).descs)
  {
  }

  lemma CharAnnounced(d: DeviceView, p: CharProps)
    requires Filed(d) && LinksExact(d) && ListedOnlyByParent(d, p)
    ensures LinksExact(AddChar(d, p))
  {
    assert CharExact(CharView(d.clock, p, map[], []), p.objectPath, d.descs);
    hide ServiceExact, CharExact;
    var d' := AddChar(d, p);
    forall s | s in d'.services ensures ServiceExact(d'.services[s], s, d'.chars) {
      ServiceAfterChar(d, p, s);
    }
  }

  lemma DescAnnounced(d: DeviceView, p: DescProps)
    requires Filed(d) && LinksExact(d) && DescListedOnlyByParent(d, p)
    ensures LinksExact(AddDesc(d, p))
  {
    hide ServiceExact, CharExact;
    var d' := AddDesc(d, p);
    SameCharsSameLinks(d.services, d.chars, d'.chars);
    forall c | c in d'.chars ensures CharExact(d'.chars[c], c, d'.descs) {
      CharAfterDesc(d, p, c);
    }
  }

  /** Announcing a characteristic keeps identity exactly when no service other than its parent
      already lists its path; otherwise that service keeps the replaced object. */
  lemma CharKeepsIdentityIff(d: DeviceView, p: CharProps)
    requires Filed(d) && SameObjects(d)
    ensures SameObjects(AddChar(d, p)) <==> ListedOnlyByParent(d, p)
  {
    var d' := AddChar(d, p);
    if s :| s in d.services && s != p.servicePath && p.objectPath in d.services[s].chars {
      assert d.services[s].chars[p.objectPath] == d.chars[p.objectPath].id < d.clock;
      assert d'.services[s].chars[p.objectPath] == d.services[s].chars[p.objectPath];
      assert d'.chars[p.objectPath].id == d.clock;
    }
    if ListedOnlyByParent(d, p) {
      forall s, c | s in d'.services && c in d'.services[s].chars
        ensures c in d'.chars && d'.services[s].chars[c] == d'.chars[c].id
      {
        if c != p.objectPath {
          assert c in d.services[s].chars;
        }
      }
    }
  }

  lemma DescKeepsIdentityIff(d: DeviceView, p: DescProps)
    requires Filed(d) && SameObjects(d)
    ensures SameObjects(AddDesc(d, p)) <==> DescListedOnlyByParent(d, p)
  {
    var d' := AddDesc(d, p);
    if c :| c in d.chars && c != p.charPath && p.objectPath in d.chars[c].descs {
      assert d.chars[c].descs[p.objectPath] == d.descs[p.objectPath].id < d.clock;
      assert d'.chars[c].descs[p.objectPath] == d.chars[c].descs[p.objectPath];
      assert d'.descs[p.objectPath].id == d.clock;
    } else {
      forall c, e | c in d'.chars && e in d'.chars[c].descs
        ensures e in d'.descs && d'.chars[c].descs[e] == d'.descs[e].id
      {
        if e != p.objectPath {
          assert e in d.chars[c].descs;
        }
      }
    }
  }

  /** A characteristic announced under one service and then under another stays, as its replaced
      object, in the first. */
  lemma MovedCharKeepsTwoObjects(d: DeviceView, first: CharProps, second: CharProps)
    requires Filed(d) && SameObjects(d) && ListedOnlyByParent(d, first)
    requires first.objectPath == second.objectPath && first.servicePath != second.servicePath
    requires first.servicePath in d.services
    ensures !SameObjects(AddChar(AddChar(d, first), second))
  {
    var listed := AddChar(d, first);
    CharKeepsIdentityIff(d, first);
    assert first.objectPath in listed.services[first.servicePath].chars;
    CharKeepsIdentityIff(listed, second);
  }

  // ── Whole runs ───────────────────────────────────────────────────────────

  /** The parent property of an announcement is a function of the object's path. */
  predicate ParentNamed(f: Frame, parent: Path -> Path) {
    match f
    case CharAddedFrame(p) => p.servicePath == parent(p.objectPath)
    case DescAddedFrame(p) => p.charPath == parent(p.objectPath)
    case _ => true
  }

  ghost predicate ParentsOfChildren(d: DeviceView, parent: Path -> Path) {
    && (forall c :: c in d.chars ==> d.chars[c].props.servicePath == parent(c))
    && (forall e :: e in d.descs ==> d.descs[e].props.charPath == parent(e))
  }

  /** Each characteristic is cached at the device its own path routes to. */
  ghost predicate RoutedTo(d: Path, view: DeviceView) {
    && view.props.objectPath == d
    && (forall c :: c in view.chars ==> DevicePathOf(c) == d)
    && (forall e :: e in view.descs ==> DevicePathOf(e) == d)
    && (forall s :: s in view.services ==> view.services[s].props.devicePath == d)
  }

  /** Holds in every reachable state, whatever the frames. */
  ghost predicate WellFiled(v: ClientView) {
    forall d :: d in v.devices ==> Proper(d, v.devices[d])
  }

  ghost predicate Proper(d: Path, view: DeviceView) {
    Filed(view) && RoutedTo(d, view)
  }

  lemma StepKeepsFiled(v: ClientView, f: Frame)
    requires WellFiled(v)
    ensures WellFiled(Apply(v, f))
  {
    hide MergeDevice, MergeAdapter, ChangedFields, UpdateDevice, AddService, AddChar, AddDesc, PostValue, NewDevice,
      Filed, RoutedTo, DevicePathOf;
    match f
    case DeviceUpdateFrame(p) =>
      if p.objectPath in v.devices {
        UpdateKeepsFiled(p.objectPath, v.devices[p.objectPath], p);
      }
    case CharValueFrame(p) =>
      var d := DevicePathOf(p.objectPath);
      if d in v.devices && p.objectPath in v.devices[d].chars {
        ValueKeepsFiled(d, v.devices[d], p.objectPath, p.value);
      }
    case DeviceAddedFrame(p) =>
      NewDeviceFiled(p);
    case ServiceAddedFrame(p) =>
      if p.devicePath in v.devices {
        ServiceKeepsFiled(v.devices[p.devicePath], p);
      }
    case CharAddedFrame(p) =>
      if DevicePathOf(p.objectPath) in v.devices {
        CharKeepsFiled(v.devices[DevicePathOf(p.objectPath)], p);
      }
    case DescAddedFrame(p) =>
      if DevicePathOf(p.objectPath) in v.devices {
        DescKeepsFiled(v.devices[DevicePathOf(p.objectPath)], p);
      }
    case _ =>
  }

  lemma UpdateKeepsFiled(d: Path, view: DeviceView, p: DeviceProps)
    requires Proper(d, view)
    ensures Proper(d, UpdateDevice(view, p))
  {
    hide Bit, ChangedFields, DevicePathOf;
  }

  lemma ValueKeepsFiled(d: Path, view: DeviceView, path: Path, value: Bytes)
    requires Proper(d, view) && path in view.chars
    ensures Proper(d, PostValue(view, path, value))
  {
    hide DevicePathOf;
  }

  lemma NewDeviceFiled(p: DeviceProps)
    ensures Proper(p.objectPath, NewDevice(p))
  {
  }

  lemma ServiceKeepsFiled(view: DeviceView, p: ServiceProps)
    requires Proper(p.devicePath, view)
    ensures Proper(p.devicePath, AddService(view, p))
  {
    hide DevicePathOf;
  }

  lemma CharKeepsFiled(view: DeviceView, p: CharProps)
    requires Proper(DevicePathOf(p.objectPath), view)
    ensures Proper(DevicePathOf(p.objectPath), AddChar(view, p))
  {
    hide DevicePathOf;
  }

  lemma DescKeepsFiled(view: DeviceView, p: DescProps)
    requires Proper(DevicePathOf(p.objectPath), view)
    ensures Proper(DevicePathOf(p.objectPath), AddDesc(view, p))
  {
    hide DevicePathOf;
  }

  /** Links and identity in every cached device. */
  ghost predicate WellLinked(v: ClientView, parent: Path -> Path) {
    forall d :: d in v.devices ==> LinksExact(v.devices[d]) && ParentsOfChildren(v.devices[d], parent)
  }

  lemma ParentsAgree(d: DeviceView, parent: Path -> Path, path: Path)
    requires LinksExact(d) && ParentsOfChildren(d, parent)
    ensures forall p: CharProps :: p.objectPath == path && p.servicePath == parent(path) ==> ListedOnlyByParent(d, p)
    ensures forall p: DescProps :: p.objectPath == path && p.charPath == parent(path) ==> DescListedOnlyByParent(d, p)
  {
  }

  lemma StepKeepsLinks(v: ClientView, f: Frame, parent: Path -> Path)
    requires WellFiled(v) && WellLinked(v, parent) && ParentNamed(f, parent)
    ensures WellLinked(Apply(v, f), parent)
  {
    hide MergeDevice, MergeAdapter, ChangedFields, UpdateDevice, DevicePathOf, AddService, AddChar, AddDesc, PostValue,
      NewDevice, LinksExact, Filed, RoutedTo, ParentsOfChildren, ListedOnlyByParent, DescListedOnlyByParent;
    match f
    case ServiceAddedFrame(p) =>
      if p.devicePath in v.devices {
        ServiceAnnounced(v.devices[p.devicePath], p);
        AddServiceKeepsParents(v.devices[p.devicePath], p, parent);
      }
    case CharAddedFrame(p) =>
      var d := DevicePathOf(p.objectPath);
      if d in v.devices {
        ParentsAgree(v.devices[d], parent, p.objectPath);
        CharAnnounced(v.devices[d], p);
        AddCharKeepsParents(v.devices[d], p, parent);
      }
    case DescAddedFrame(p) =>
      var d := DevicePathOf(p.objectPath);
      if d in v.devices {
        ParentsAgree(v.devices[d], parent, p.objectPath);
        DescAnnounced(v.devices[d], p);
        AddDescKeepsParents(v.devices[d], p, parent);
      }
    case DeviceUpdateFrame(p) =>
      if p.objectPath in v.devices {
        UpdateKeepsLinks(v.devices[p.objectPath], p, parent);
      }
    case CharValueFrame(p) =>
      var d := DevicePathOf(p.objectPath);
      if d in v.devices && p.objectPath in v.devices[d].chars {
        ValueKeepsLinks(v.devices[d], p.objectPath, p.value, parent);
      }
    case DeviceAddedFrame(p) =>
      NewDeviceLinked(p, parent);
    case _ =>
  }

  lemma AddServiceKeepsParents(d: DeviceView, p: ServiceProps, parent: Path -> Path)
    requires ParentsOfChildren(d, parent)
    ensures ParentsOfChildren(AddService(d, p), parent)
  {
  }

  lemma AddCharKeepsParents(d: DeviceView, p: CharProps, parent: Path -> Path)
    requires ParentsOfChildren(d, parent) && p.servicePath == parent(p.objectPath)
    ensures ParentsOfChildren(AddChar(d, p), parent)
  {
  }

  lemma AddDescKeepsParents(d: DeviceView, p: DescProps, parent: Path -> Path)
    requires ParentsOfChildren(d, parent) && p.charPath == parent(p.objectPath)
    ensures ParentsOfChildren(AddDesc(d, p), parent)
  {
  }

  lemma NewDeviceLinked(p: DeviceProps, parent: Path -> Path)
    ensures LinksExact(NewDevice(p)) && ParentsOfChildren(NewDevice(p), parent)
  {
  }

  lemma UpdateKeepsLinks(d: DeviceView, p: DeviceProps, parent: Path -> Path)
    requires LinksExact(d) && ParentsOfChildren(d, parent)
    ensures LinksExact(UpdateDevice(d, p)) && ParentsOfChildren(UpdateDevice(d, p), parent)
  {
    hide MergeDevice, ChangedFields;
  }

  lemma ValueKeepsLinks(d: DeviceView, path: Path, value: Bytes, parent: Path -> Path)
    requires path in d.chars && LinksExact(d) && ParentsOfChildren(d, parent)
    ensures LinksExact(PostValue(d, path, value)) && ParentsOfChildren(PostValue(d, path, value), parent)
  {
    SameCharsSameLinks(d.services, d.chars, PostValue(d, path, value).chars);
  }

  lemma {:induction false} RunKeepsFiled(v: ClientView, fs: seq<Frame>)
    requires WellFiled(v)
    ensures WellFiled(ApplyAll(v, fs))
    decreases |fs|
  {
    hide Apply, WellFiled;
    if fs == [] {
    } else {
      StepKeepsFiled(v, fs[0]);
      RunKeepsFiled(Apply(v, fs[0]), fs[1..]);
    }
  }

  /** Over every run in which parent properties are a function of the path, links are exact and
      shared objects identical in every cached device, announcements repeated or not. */
  lemma {:induction false} RunKeepsLinks(v: ClientView, fs: seq<Frame>, parent: Path -> Path)
    requires WellFiled(v) && WellLinked(v, parent)
    requires forall i :: 0 <= i < |fs| ==> ParentNamed(fs[i], parent)
    ensures WellLinked(ApplyAll(v, fs), parent)
    ensures forall d :: d in ApplyAll(v, fs).devices ==> SameObjects(ApplyAll(v, fs).devices[d])
    decreases |fs|
  {
    hide Apply, WellFiled;
    if fs != [] {
      StepKeepsFiled(v, fs[0]);
      StepKeepsLinks(v, fs[0], parent);
      RunKeepsLinks(Apply(v, fs[0]), fs[1..], parent);
    } else {
      forall d | d in v.devices ensures SameObjects(v.devices[d]) {
        ExactLinksShareObjects(v.devices[d]);
      }
    }
  }

  // ── Value routing ────────────────────────────────────────────────────────

  /** A characteristic with the path p is cached in at most one device, the one p routes to:
      searching every device finds what a two-level lookup finds. */
  lemma {:induction false} SearchIsLookup(v: ClientView, d: Path, c: Path, p: Path)
    requires WellFiled(v) && d in v.devices && c in v.devices[d].chars
    ensures v.devices[d].chars[c].props.objectPath == p <==> d == DevicePathOf(p) && c == p
  {
    hide DevicePathOf;
  }

  lemma CachedWhereRouted(v: ClientView, d: Path, c: Path)
    requires WellFiled(v) && d in v.devices && c in v.devices[d].chars
    ensures d == DevicePathOf(c)
  {
    hide DevicePathOf;
  }

  /** f neither replaces nor drops the characteristic object at path p. */
  predicate Spares(f: Frame, p: Path) {
    match f
    case DeviceAddedFrame(q) => q.objectPath != DevicePathOf(p)
    case DeviceRemovedFrame(q) => q.objectPath != DevicePathOf(p)
    case CharAddedFrame(q) => q.objectPath != p
    case _ => true
  }

  /** The values the 0x03 frames carry for path p, in frame order. */
  function ValuesFor(fs: seq<Frame>, p: Path): seq<Bytes> {
    if fs == [] then []
    else (if fs[0].CharValueFrame? && fs[0].characteristic.objectPath == p then [fs[0].characteristic.value] else [])
         + ValuesFor(fs[1..], p)
  }

  ghost predicate Cached(v: ClientView, p: Path) {
    DevicePathOf(p) in v.devices && p in v.devices[DevicePathOf(p)].chars
  }

  function CharAt(v: ClientView, p: Path): CharView
    requires Cached(v, p)
  {
    v.devices[DevicePathOf(p)].chars[p]
  }

  lemma StepEmits(v: ClientView, f: Frame, p: Path)
    requires Cached(v, p) && Spares(f, p)
    ensures Cached(Apply(v, f), p) && CharAt(Apply(v, f), p).id == CharAt(v, p).id
    ensures CharAt(Apply(v, f), p).emitted == CharAt(v, p).emitted + ValuesFor([f], p)
  {
    hide MergeDevice, MergeAdapter, ChangedFields, UpdateDevice, AddService, AddChar, AddDesc, DevicePathOf, ValuesFor;
    ValueOfOne(f, p);
    match f
    case DeviceUpdateFrame(q) => UpdateKeepsChars(v, q);
    case CharAddedFrame(q) => CharEmitsNothing(v, q);
    case ServiceAddedFrame(q) => ServiceAddsNoChar(v, q);
    case DescAddedFrame(q) => DescEmitsNothing(v, q);
    case _ =>
  }

  lemma ValueOfOne(f: Frame, p: Path)
    ensures ValuesFor([f], p) == if f.CharValueFrame? && f.characteristic.objectPath == p then [f.characteristic.value] else []
  {
    assert [f][1..] == [];
  }

  lemma ServiceAddsNoChar(v: ClientView, q: ServiceProps)
    ensures q.devicePath in v.devices ==> AddService(v.devices[q.devicePath], q).chars == v.devices[q.devicePath].chars
  {
  }

  lemma UpdateKeepsChars(v: ClientView, q: DeviceProps)
    ensures q.objectPath in v.devices ==> UpdateDevice(v.devices[q.objectPath], q).chars == v.devices[q.objectPath].chars
  {
    hide MergeDevice, ChangedFields;
  }

  lemma CharEmitsNothing(v: ClientView, q: CharProps)
    ensures
      var d := DevicePathOf(q.objectPath);
      d in v.devices ==> forall c :: c in v.devices[d].chars && c != q.objectPath ==>
        c in AddChar(v.devices[d], q).chars && AddChar(v.devices[d], q).chars[c] == v.devices[d].chars[c]
  {
    hide DevicePathOf;
  }

  lemma DescEmitsNothing(v: ClientView, q: DescProps)
    ensures
      var d := DevicePathOf(q.objectPath);
      d in v.devices ==>
        && AddDesc(v.devices[d], q).chars.Keys == v.devices[d].chars.Keys
        && forall c :: c in v.devices[d].chars ==>
          && AddDesc(v.devices[d], q).chars[c].emitted == v.devices[d].chars[c].emitted
          && AddDesc(v.devices[d], q).chars[c].id == v.devices[d].chars[c].id
  {
    hide DevicePathOf;
  }

  lemma FirstValues(fs: seq<Frame>, p: Path)
    requires fs != []
    ensures ValuesFor(fs, p) == ValuesFor([fs[0]], p) + ValuesFor(fs[1..], p)
  {
    ValueOfOne(fs[0], p);
  }

  /** While its object stays cached, a characteristic's stream receives exactly the values of
      its own path, in frame order. */
  lemma {:induction false} StreamReceivesOwnValues(v: ClientView, fs: seq<Frame>, p: Path)
    requires Cached(v, p) && forall i :: 0 <= i < |fs| ==> Spares(fs[i], p)
    ensures Cached(ApplyAll(v, fs), p) && CharAt(ApplyAll(v, fs), p).id == CharAt(v, p).id
    ensures CharAt(ApplyAll(v, fs), p).emitted == CharAt(v, p).emitted + ValuesFor(fs, p)
    decreases |fs|
  {
    hide Apply, DevicePathOf, Spares;
    if fs == [] {
    } else {
      StepEmits(v, fs[0], p);
      StreamReceivesOwnValues(Apply(v, fs[0]), fs[1..], p);
      FirstValues(fs, p);
      hide ValuesFor;
    }
  }
}
