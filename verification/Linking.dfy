/** Announcements that put parents first are all cached and all linked: none is dropped by `?.`. */
module Linking {
  import opened Types
  import opened Paths
  import opened Frames
  import opened ClientModel
  import opened GattTree

  // ── Streams that announce parents first ──────────────────────────────────

  predicate AnnouncesAdapter(fs: seq<Frame>, path: Path) {
    exists f :: f in fs && f.AdapterFrame? && f.adapter.objectPath == path
  }

  predicate AnnouncesDevice(fs: seq<Frame>, path: Path) {
    exists f :: f in fs && f.DeviceAddedFrame? && f.device.objectPath == path
  }

  predicate AnnouncesService(fs: seq<Frame>, path: Path) {
    exists f :: f in fs && f.ServiceAddedFrame? && f.service.objectPath == path
  }

  predicate AnnouncesServiceOf(fs: seq<Frame>, path: Path, device: Path) {
    exists f :: f in fs && f.ServiceAddedFrame? && f.service.objectPath == path && f.service.devicePath == device
  }

  predicate AnnouncesChar(fs: seq<Frame>, path: Path) {
    exists f :: f in fs && f.CharAddedFrame? && f.characteristic.objectPath == path
  }

  predicate AnnouncesDesc(fs: seq<Frame>, path: Path) {
    exists f :: f in fs && f.DescAddedFrame? && f.desc.objectPath == path
  }

  /** f announces a new object whose parent the stream fs has announced, under the same device. */
  predicate Admissible(fs: seq<Frame>, f: Frame) {
    match f
    case AdapterFrame(p) => !AnnouncesAdapter(fs, p.objectPath)
    case DeviceAddedFrame(p) => !AnnouncesDevice(fs, p.objectPath)
    case ServiceAddedFrame(p) => !AnnouncesService(fs, p.objectPath) && AnnouncesDevice(fs, p.devicePath)
    case CharAddedFrame(p) =>
      !AnnouncesChar(fs, p.objectPath) && AnnouncesServiceOf(fs, p.servicePath, DevicePathOf(p.objectPath))
    case DescAddedFrame(p) =>
      && !AnnouncesDesc(fs, p.objectPath) && AnnouncesChar(fs, p.charPath)
      && DevicePathOf(p.charPath) == DevicePathOf(p.objectPath)
    case _ => false
  }

  predicate ParentsFirst(fs: seq<Frame>)
    decreases |fs|
  {
    fs == [] || (ParentsFirst(fs[..|fs| - 1]) && Admissible(fs[..|fs| - 1], fs[|fs| - 1]))
  }

  // ── The caches mirror the stream ─────────────────────────────────────────

  predicate HasAdapter(v: ClientView, p: AdapterProps) {
    p.objectPath in v.adapters && v.adapters[p.objectPath] == p
  }

  predicate HasDevice(v: ClientView, p: DeviceProps) {
    p.objectPath in v.devices && v.devices[p.objectPath].props == p
  }

  predicate FiledService(d: DeviceView, p: ServiceProps) {
    p.objectPath in d.services && d.services[p.objectPath].props == p
  }

  predicate FiledChar(d: DeviceView, p: CharProps) {
    p.objectPath in d.chars && d.chars[p.objectPath].props == p
  }

  predicate FiledDesc(d: DeviceView, p: DescProps) {
    p.objectPath in d.descs && d.descs[p.objectPath].props == p
  }

  predicate HasService(v: ClientView, p: ServiceProps) {
    p.devicePath in v.devices && FiledService(v.devices[p.devicePath], p)
  }

  predicate HasChar(v: ClientView, p: CharProps) {
    var d := DevicePathOf(p.objectPath);
    d in v.devices && FiledChar(v.devices[d], p)
  }

  predicate HasDesc(v: ClientView, p: DescProps) {
    var d := DevicePathOf(p.objectPath);
    d in v.devices && FiledDesc(v.devices[d], p)
  }

  /** The cached objects are exactly those the frames announce, with their properties. */
  ghost predicate Mirrors(v: ClientView, fs: seq<Frame>) {
    && (forall a :: AdapterFrame(a) in fs <==> HasAdapter(v, a))
    && (forall d :: DeviceAddedFrame(d) in fs <==> HasDevice(v, d))
    && (forall s :: ServiceAddedFrame(s) in fs <==> HasService(v, s))
    && (forall c :: CharAddedFrame(c) in fs <==> HasChar(v, c))
    && (forall e :: DescAddedFrame(e) in fs <==> HasDesc(v, e))
  }

  /** c's service is cached and older than c. */
  predicate ServiceOlder(d: DeviceView, c: Path)
    requires c in d.chars
  {
    var s := d.chars[c].props.servicePath;
    s in d.services && d.services[s].id < d.chars[c].id
  }

  predicate CharOlder(d: DeviceView, e: Path)
    requires e in d.descs
  {
    var c := d.descs[e].props.charPath;
    c in d.chars && d.chars[c].id < d.descs[e].id
  }

  ghost predicate Attached(d: DeviceView) {
    && (forall c :: c in d.chars ==> ServiceOlder(d, c))
    && (forall e :: e in d.descs ==> CharOlder(d, e))
  }

  /** Each service holds exactly the characteristics that name it, each characteristic exactly
      the descriptors that name it, as the device's own objects, and no parent is missing. */
  ghost predicate FullyLinked(d: DeviceView) {
    && (forall s, c :: s in d.services ==>
          (c in d.services[s].chars <==> c in d.chars && d.chars[c].props.servicePath == s))
    && (forall c, e :: c in d.chars ==>
          (e in d.chars[c].descs <==> e in d.descs && d.descs[e].props.charPath == c))
    && SameObjects(d)
    && (forall c :: c in d.chars ==> d.chars[c].props.servicePath in d.services)
    && (forall e :: e in d.descs ==> d.descs[e].props.charPath in d.chars)
  }

  lemma ServicesFull(d: DeviceView)
    requires LinksExact(d)
    requires forall c :: c in d.chars ==> ServiceOlder(d, c)
    ensures forall s, c :: s in d.services ==>
              (c in d.services[s].chars <==> c in d.chars && d.chars[c].props.servicePath == s)
  {
    forall s | s in d.services ensures ServiceExact(d.services[s], s, d.chars) {
    }
  }

  lemma CharsFull(d: DeviceView)
    requires LinksExact(d)
    requires forall e :: e in d.descs ==> CharOlder(d, e)
    ensures forall c, e :: c in d.chars ==>
              (e in d.chars[c].descs <==> e in d.descs && d.descs[e].props.charPath == c)
  {
    forall c | c in d.chars ensures CharExact(d.chars[c], c, d.descs) {
    }
  }

  lemma AttachedIsFullyLinked(d: DeviceView)
    requires LinksExact(d) && Attached(d)
    ensures FullyLinked(d)
  {
    hide LinksExact, SameObjects;
    ExactLinksShareObjects(d);
    ServicesFull(d);
    CharsFull(d);
  }

  ghost predicate Linked(v: ClientView) {
    forall d :: d in v.devices ==> LinksExact(v.devices[d]) && Attached(v.devices[d])
  }

  // ── One announcement ─────────────────────────────────────────────────────

  lemma NewDeviceAttached(p: DeviceProps)
    ensures LinksExact(NewDevice(p)) && Attached(NewDevice(p))
  {
  }

  lemma ServiceAttached(d: DeviceView, p: ServiceProps)
    requires Filed(d) && LinksExact(d) && Attached(d) && p.objectPath !in d.services
    ensures LinksExact(AddService(d, p)) && Attached(AddService(d, p))
  {
    hide LinksExact;
    ServiceAnnounced(d, p);
  }

  lemma CharAttached(d: DeviceView, p: CharProps)
    requires Filed(d) && LinksExact(d) && Attached(d) && p.objectPath !in d.chars && p.servicePath in d.services
    ensures LinksExact(AddChar(d, p)) && Attached(AddChar(d, p))
  {
    hide LinksExact;
    ExactLinksShareObjects(d);
    CharAnnounced(d, p);
  }

  lemma DescAttached(d: DeviceView, p: DescProps)
    requires Filed(d) && LinksExact(d) && Attached(d) && p.objectPath !in d.descs && p.charPath in d.chars
    ensures LinksExact(AddDesc(d, p)) && Attached(AddDesc(d, p))
  {
    hide LinksExact;
    ExactLinksShareObjects(d);
    DescAnnounced(d, p);
  }

  /** A parent announced is a parent cached; an object not announced is not cached. */
  lemma AnnouncedIsCached(v: ClientView, fs: seq<Frame>)
    requires WellFiled(v) && Mirrors(v, fs)
    ensures forall d :: AnnouncesDevice(fs, d) <==> d in v.devices
    ensures forall d, s :: d in v.devices && s in v.devices[d].services ==> AnnouncesService(fs, s)
    ensures forall s, d :: AnnouncesServiceOf(fs, s, d) ==> d in v.devices && s in v.devices[d].services
    ensures forall c :: AnnouncesChar(fs, c) <==> Cached(v, c)
    ensures forall e :: AnnouncesDesc(fs, e)
                   <==> DevicePathOf(e) in v.devices && e in v.devices[DevicePathOf(e)].descs
  {
    hide DevicePathOf;
    forall d | d in v.devices ensures AnnouncesDevice(fs, d) {
      assert HasDevice(v, v.devices[d].props);
      assert DeviceAddedFrame(v.devices[d].props) in fs;
    }
    forall d, s | d in v.devices && s in v.devices[d].services ensures AnnouncesService(fs, s) {
      assert HasService(v, v.devices[d].services[s].props);
      assert ServiceAddedFrame(v.devices[d].services[s].props) in fs;
    }
    forall c | Cached(v, c) ensures AnnouncesChar(fs, c) {
      assert HasChar(v, CharAt(v, c).props);
      assert CharAddedFrame(CharAt(v, c).props) in fs;
    }
    forall e | DevicePathOf(e) in v.devices && e in v.devices[DevicePathOf(e)].descs ensures AnnouncesDesc(fs, e) {
      assert HasDesc(v, v.devices[DevicePathOf(e)].descs[e].props);
      assert DescAddedFrame(v.devices[DevicePathOf(e)].descs[e].props) in fs;
    }
    AnnouncedParents(v, fs);
  }

  lemma AnnouncedParents(v: ClientView, fs: seq<Frame>)
    requires Mirrors(v, fs)
    ensures forall d :: AnnouncesDevice(fs, d) ==> d in v.devices
    ensures forall s, d :: AnnouncesServiceOf(fs, s, d) ==> d in v.devices && s in v.devices[d].services
    ensures forall c :: AnnouncesChar(fs, c) ==> Cached(v, c)
    ensures forall e :: AnnouncesDesc(fs, e) ==> DevicePathOf(e) in v.devices && e in v.devices[DevicePathOf(e)].descs
  {
    hide DevicePathOf;
    forall d | AnnouncesDevice(fs, d) ensures d in v.devices {
      var f :| f in fs && f.DeviceAddedFrame? && f.device.objectPath == d;
      assert HasDevice(v, f.device);
    }
    forall s, d | AnnouncesServiceOf(fs, s, d) ensures d in v.devices && s in v.devices[d].services {
      var f :| f in fs && f.ServiceAddedFrame? && f.service.objectPath == s && f.service.devicePath == d;
      assert HasService(v, f.service);
    }
    forall c | AnnouncesChar(fs, c) ensures Cached(v, c) {
      var f :| f in fs && f.CharAddedFrame? && f.characteristic.objectPath == c;
      assert HasChar(v, f.characteristic);
    }
    forall e | AnnouncesDesc(fs, e) ensures DevicePathOf(e) in v.devices && e in v.devices[DevicePathOf(e)].descs {
      var f :| f in fs && f.DescAddedFrame? && f.desc.objectPath == e;
      assert HasDesc(v, f.desc);
    }
  }

  lemma StepKeepsLinked(v: ClientView, fs: seq<Frame>, f: Frame)
    requires WellFiled(v) && Mirrors(v, fs) && Linked(v) && Admissible(fs, f)
    ensures Linked(Apply(v, f))
  {
    hide LinksExact, Attached, Filed, RoutedTo, AddService, AddChar, AddDesc, NewDevice, DevicePathOf, Mirrors,
      AnnouncesDevice, AnnouncesService, AnnouncesServiceOf, AnnouncesChar, AnnouncesDesc, AnnouncesAdapter, MergeAdapter;
    AnnouncedIsCached(v, fs);
    match f
    case DeviceAddedFrame(p) => NewDeviceAttached(p);
    case ServiceAddedFrame(p) => ServiceAttached(v.devices[p.devicePath], p);
    case CharAddedFrame(p) => CharAttached(v.devices[DevicePathOf(p.objectPath)], p);
    case DescAddedFrame(p) => DescAttached(v.devices[DevicePathOf(p.objectPath)], p);
    case AdapterFrame(_) =>
  }

  /** v' caches one object more than v, the one f announces. */
  ghost predicate Gains(v: ClientView, v': ClientView, f: Frame) {
    && (forall a :: HasAdapter(v', a) <==> HasAdapter(v, a) || f == AdapterFrame(a))
    && (forall d :: HasDevice(v', d) <==> HasDevice(v, d) || f == DeviceAddedFrame(d))
    && (forall s :: HasService(v', s) <==> HasService(v, s) || f == ServiceAddedFrame(s))
    && (forall c :: HasChar(v', c) <==> HasChar(v, c) || f == CharAddedFrame(c))
    && (forall e :: HasDesc(v', e) <==> HasDesc(v, e) || f == DescAddedFrame(e))
  }

  lemma GainsMirrored(v: ClientView, v': ClientView, fs: seq<Frame>, f: Frame)
    requires Mirrors(v, fs) && Gains(v, v', f)
    ensures Mirrors(v', fs + [f])
  {
    hide HasAdapter, HasDevice, HasService, HasChar, HasDesc;
  }

  function Replace(v: ClientView, d: Path, view: DeviceView): ClientView {
    v.(devices := v.devices[d := view])
  }

  /** Replacing the view of one device changes what is cached under it and nothing else. */
  lemma Replaced(v: ClientView, d: Path, view: DeviceView)
    ensures forall a :: HasAdapter(Replace(v, d, view), a) <==> HasAdapter(v, a)
    ensures forall p :: HasDevice(Replace(v, d, view), p)
                   <==> if p.objectPath == d then p == view.props else HasDevice(v, p)
    ensures forall p :: HasService(Replace(v, d, view), p)
                   <==> if p.devicePath == d then FiledService(view, p) else HasService(v, p)
    ensures forall p :: HasChar(Replace(v, d, view), p)
                   <==> if DevicePathOf(p.objectPath) == d then FiledChar(view, p) else HasChar(v, p)
    ensures forall p :: HasDesc(Replace(v, d, view), p)
                   <==> if DevicePathOf(p.objectPath) == d then FiledDesc(view, p) else HasDesc(v, p)
  {
    hide FiledService, FiledChar, FiledDesc, DevicePathOf;
  }

  lemma Unreplaced(v: ClientView, d: Path)
    requires d in v.devices
    ensures Replace(v, d, v.devices[d]) == v
  {
  }

  lemma ServiceFiled(d: DeviceView, s: ServiceProps)
    ensures forall p :: FiledService(AddService(d, s), p)
                   <==> if p.objectPath == s.objectPath then p == s else FiledService(d, p)
    ensures forall p :: FiledChar(AddService(d, s), p) <==> FiledChar(d, p)
    ensures forall p :: FiledDesc(AddService(d, s), p) <==> FiledDesc(d, p)
    ensures AddService(d, s).props == d.props
  {
  }

  lemma CharFiled(d: DeviceView, c: CharProps)
    ensures forall p :: FiledChar(AddChar(d, c), p)
                   <==> if p.objectPath == c.objectPath then p == c else FiledChar(d, p)
    ensures forall p :: FiledService(AddChar(d, c), p) <==> FiledService(d, p)
    ensures forall p :: FiledDesc(AddChar(d, c), p) <==> FiledDesc(d, p)
    ensures AddChar(d, c).props == d.props
  {
  }

  lemma DescFiled(d: DeviceView, e: DescProps)
    ensures forall p :: FiledDesc(AddDesc(d, e), p)
                   <==> if p.objectPath == e.objectPath then p == e else FiledDesc(d, p)
    ensures forall p :: FiledChar(AddDesc(d, e), p) <==> FiledChar(d, p)
    ensures forall p :: FiledService(AddDesc(d, e), p) <==> FiledService(d, p)
    ensures AddDesc(d, e).props == d.props
  {
  }

  lemma MergeWithItself(p: AdapterProps)
    ensures MergeAdapter(p, p) == p
  {
  }

  ghost predicate AdaptersFiled(v: ClientView) {
    forall a :: a in v.adapters ==> v.adapters[a].objectPath == a
  }

  lemma AnnouncedAdapters(v: ClientView, fs: seq<Frame>, path: Path)
    requires Mirrors(v, fs) && AdaptersFiled(v)
    ensures path in v.adapters ==> AnnouncesAdapter(fs, path)
  {
    if path in v.adapters {
      assert HasAdapter(v, v.adapters[path]);
      assert AdapterFrame(v.adapters[path]) in fs;
    }
  }

  lemma AdapterGained(v: ClientView, fs: seq<Frame>, p: AdapterProps)
    requires Mirrors(v, fs) && AdaptersFiled(v) && Admissible(fs, AdapterFrame(p))
    ensures Gains(v, Apply(v, AdapterFrame(p)), AdapterFrame(p)) && AdaptersFiled(Apply(v, AdapterFrame(p)))
  {
    hide Mirrors, MergeAdapter, AnnouncesAdapter, DevicePathOf;
    MergeWithItself(p);
    AnnouncedAdapters(v, fs, p.objectPath);
  }

  lemma DeviceGained(v: ClientView, fs: seq<Frame>, p: DeviceProps)
    requires WellFiled(v) && Mirrors(v, fs) && Admissible(fs, DeviceAddedFrame(p))
    ensures Gains(v, Apply(v, DeviceAddedFrame(p)), DeviceAddedFrame(p))
  {
    hide Mirrors, AnnouncesDevice, AnnouncesService, AnnouncesServiceOf, AnnouncesChar,
      AnnouncesDesc,
      FiledService, FiledChar, FiledDesc;
    AnnouncedIsCached(v, fs);
    var view := NewDevice(p);
    assert Apply(v, DeviceAddedFrame(p)) == Replace(v, p.objectPath, view);
    hide Apply, Replace, DevicePathOf;
    Replaced(v, p.objectPath, view);
    NothingFiled(p);
  }

  lemma NothingFiled(p: DeviceProps)
    ensures forall q :: !FiledService(NewDevice(p), q)
    ensures forall q :: !FiledChar(NewDevice(p), q)
    ensures forall q :: !FiledDesc(NewDevice(p), q)
  {
  }

  lemma ServiceGained(v: ClientView, fs: seq<Frame>, p: ServiceProps)
    requires WellFiled(v) && Mirrors(v, fs) && Admissible(fs, ServiceAddedFrame(p))
    ensures Gains(v, Apply(v, ServiceAddedFrame(p)), ServiceAddedFrame(p))
  {
    hide Mirrors, WellFiled, AnnouncesDevice, AnnouncesService, AnnouncesServiceOf, AnnouncesChar,
      AnnouncesDesc,
      HasAdapter, HasDevice, HasService, HasChar, HasDesc, AddService, FiledChar, FiledDesc;
    AnnouncedIsCached(v, fs);
    var d := p.devicePath;
    var view := AddService(v.devices[d], p);
    assert Apply(v, ServiceAddedFrame(p)) == Replace(v, d, view);
    hide Apply, Replace, DevicePathOf;
    Replaced(v, d, view);
    Unreplaced(v, d);
    Replaced(v, d, v.devices[d]);
    ServiceFiled(v.devices[d], p);
  }

  lemma CharGained(v: ClientView, fs: seq<Frame>, p: CharProps)
    requires WellFiled(v) && Mirrors(v, fs) && Admissible(fs, CharAddedFrame(p))
    ensures Gains(v, Apply(v, CharAddedFrame(p)), CharAddedFrame(p))
  {
    hide Mirrors, WellFiled, AnnouncesDevice, AnnouncesService, AnnouncesServiceOf, AnnouncesChar,
      AnnouncesDesc,
      HasAdapter, HasDevice, HasService, HasChar, HasDesc, AddChar, FiledService, FiledDesc;
    AnnouncedIsCached(v, fs);
    var d := DevicePathOf(p.objectPath);
    var view := AddChar(v.devices[d], p);
    assert Apply(v, CharAddedFrame(p)) == Replace(v, d, view);
    hide Apply, Replace, DevicePathOf;
    Replaced(v, d, view);
    Unreplaced(v, d);
    Replaced(v, d, v.devices[d]);
    CharFiled(v.devices[d], p);
  }

  lemma DescGained(v: ClientView, fs: seq<Frame>, p: DescProps)
    requires WellFiled(v) && Mirrors(v, fs) && Admissible(fs, DescAddedFrame(p))
    ensures Gains(v, Apply(v, DescAddedFrame(p)), DescAddedFrame(p))
  {
    hide Mirrors, WellFiled, AnnouncesDevice, AnnouncesService, AnnouncesServiceOf, AnnouncesChar,
      AnnouncesDesc,
      HasAdapter, HasDevice, HasService, HasChar, HasDesc, AddDesc, FiledService, FiledChar;
    AnnouncedIsCached(v, fs);
    var d := DevicePathOf(p.objectPath);
    var view := AddDesc(v.devices[d], p);
    assert Apply(v, DescAddedFrame(p)) == Replace(v, d, view);
    hide Apply, Replace, DevicePathOf;
    Replaced(v, d, view);
    Unreplaced(v, d);
    Replaced(v, d, v.devices[d]);
    DescFiled(v.devices[d], p);
  }

  lemma StepKeepsMirrors(v: ClientView, fs: seq<Frame>, f: Frame)
    requires WellFiled(v) && AdaptersFiled(v) && Mirrors(v, fs) && Admissible(fs, f)
    ensures Mirrors(Apply(v, f), fs + [f]) && AdaptersFiled(Apply(v, f))
  {
    match f
    case AdapterFrame(p) => AdapterGained(v, fs, p);
    case DeviceAddedFrame(p) => DeviceGained(v, fs, p);
    case ServiceAddedFrame(p) => ServiceGained(v, fs, p);
    case CharAddedFrame(p) => CharGained(v, fs, p);
    case DescAddedFrame(p) => DescGained(v, fs, p);
    GainsMirrored(v, Apply(v, f), fs, f);
  }

  // ── Whole streams ────────────────────────────────────────────────────────

  ghost predicate Empty(v: ClientView) {
    v.adapters == map[] && v.devices == map[]
  }

  /** A stream that announces parents first is cached completely: exactly its objects, each in
      the device its path routes to, and every link its parent properties describe. */
  lemma {:induction false} ParentsFirstIsComplete(v: ClientView, fs: seq<Frame>)
    requires Empty(v) && ParentsFirst(fs)
    ensures
      var after := ApplyAll(v, fs);
      && Mirrors(after, fs)
      && WellFiled(after) && AdaptersFiled(after) && Linked(after)
      && forall d :: d in after.devices ==> FullyLinked(after.devices[d])
    decreases |fs|
  {
    hide Mirrors, Apply, Admissible, WellFiled, AdaptersFiled, FullyLinked, LinksExact, Attached;
    if fs == [] {
      NothingCached(v);
    } else {
      var front, last := fs[..|fs| - 1], fs[|fs| - 1];
      ParentsFirstIsComplete(v, front);
      var before := ApplyAll(v, front);
      assert fs == front + [last];
      ApplyAllAppend(v, front, [last]);
      assert [last][1..] == [];
      StepKeepsFiled(before, last);
      StepKeepsMirrors(before, front, last);
      StepKeepsLinked(before, front, last);
    }
    var after := ApplyAll(v, fs);
    forall d | d in after.devices ensures FullyLinked(after.devices[d]) {
      AttachedIsFullyLinked(after.devices[d]);
    }
  }

  lemma NothingCached(v: ClientView)
    requires Empty(v)
    ensures Mirrors(v, []) && WellFiled(v) && AdaptersFiled(v)
  {
    hide DevicePathOf;
  }
}
