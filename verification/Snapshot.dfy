/** The initial snapshot: std::map order puts parents first, so the whole tree is cached and linked. */
module Snapshot {
  import opened ByteStrings
  import opened Types
  import opened Dbus
  import opened Paths
  import opened Frames
  import opened ObjectManagers
  import opened ClientModel
  import opened Linking
  import GattTree

  /** One interface of one object. */
  datatype Facet = Facet(path: Path, name: InterfaceName, props: PropertiesMap)

  function FacetsOf(path: Path, ifaces: Interfaces): (fs: seq<Facet>)
    ensures |fs| == |ifaces|
    ensures forall i :: 0 <= i < |fs| ==> fs[i] == Facet(path, ifaces[i].0, ifaces[i].1)
  {
    seq(|ifaces|, i requires 0 <= i < |ifaces| => Facet(path, ifaces[i].0, ifaces[i].1))
  }

  /** Every interface of every object, in the order the snapshot visits them. */
  function Facets(objects: Objects): seq<Facet> {
    if objects == [] then [] else FacetsOf(objects[0].0, objects[0].1) + Facets(objects[1..])
  }

  // ── What GetManagedObjects returns ───────────────────────────────────────

  /** The result is a std::map of std::maps: paths ascend, an object's interface names differ. */
  ghost predicate IsSortedMap(objects: Objects) {
    && (forall i, j :: 0 <= i < j < |objects| ==> Less(objects[i].0, objects[j].0))
    && (forall i, j, k :: 0 <= i < |objects| && 0 <= j < k < |objects[i].1| ==>
          objects[i].1[j].0 != objects[i].1[k].0)
  }

  ghost predicate Exposes(objects: Objects, path: Path, name: InterfaceName) {
    exists x :: x in Facets(objects) && x.path == path && x.name == name
  }

  /** BlueZ's layout: /org/bluez/hciN/dev_X/serviceN/charN/descN, each object's parent property
      naming the object it lies below. */
  ghost predicate WellPlaced(objects: Objects, x: Facet) {
    match x.name
    case Device1 => HasDeviceDepth(x.path)
    case GattService1 =>
      Below(GetPath(x.props, "Device"), x.path) && Exposes(objects, GetPath(x.props, "Device"), Device1)
    case GattCharacteristic1 =>
      Below(GetPath(x.props, "Service"), x.path) && Exposes(objects, GetPath(x.props, "Service"), GattService1)
    case GattDescriptor1 =>
      && Below(GetPath(x.props, "Characteristic"), x.path)
      && Exposes(objects, GetPath(x.props, "Characteristic"), GattCharacteristic1)
    case _ => true
  }

  ghost predicate IsBlueZTree(objects: Objects) {
    forall x :: x in Facets(objects) ==> WellPlaced(objects, x)
  }

  // ── The frames of a snapshot ─────────────────────────────────────────────

  function Announce(x: Facet): seq<Frame> {
    InterfaceAdded(NO_TABLES, x.path, x.name, x.props).frames
  }

  function AnnounceAll(xs: seq<Facet>): seq<Frame>
    decreases |xs|
  {
    if xs == [] then [] else AnnounceAll(xs[..|xs| - 1]) + Announce(xs[|xs| - 1])
  }

  lemma {:induction false} AnnounceAppend(a: seq<Facet>, b: seq<Facet>)
    ensures AnnounceAll(a + b) == AnnounceAll(a) + AnnounceAll(b)
    decreases |b|
  {
    hide Announce;
    if b == [] {
      assert a + b == a;
    } else {
      assert (a + b)[..|a + b| - 1] == a + b[..|b| - 1];
      AnnounceAppend(a, b[..|b| - 1]);
    }
  }

  lemma SameAnnouncement(t: Tables, path: Path, name: InterfaceName, props: PropertiesMap)
    ensures InterfaceAdded(t, path, name, props).frames == Announce(Facet(path, name, props))
  {
    hide ExtractAdapter, ExtractDevice, ExtractService, ExtractChar, ExtractDesc;
  }

  lemma AnnounceOne(x: Facet)
    ensures AnnounceAll([x]) == Announce(x)
  {
    hide Announce;
    assert [x][..0] == [];
    assert AnnounceAll([]) + Announce(x) == Announce(x);
  }

  lemma {:induction false} AddedAnnounces(t: Tables, path: Path, ifaces: Interfaces)
    ensures InterfacesAdded(t, path, ifaces).frames == AnnounceAll(FacetsOf(path, ifaces))
    decreases |ifaces|
  {
    hide InterfaceAdded, Announce, AnnounceAll;
    if ifaces == [] {
      NothingAnnounced();
      assert FacetsOf(path, ifaces) == [];
    } else {
      var first := InterfaceAdded(t, path, ifaces[0].0, ifaces[0].1);
      AddedAnnounces(first.tables, path, ifaces[1..]);
      var x := Facet(path, ifaces[0].0, ifaces[0].1);
      SameAnnouncement(t, path, ifaces[0].0, ifaces[0].1);
      AnnounceOne(x);
      assert FacetsOf(path, ifaces) == [x] + FacetsOf(path, ifaces[1..]);
      AnnounceAppend([x], FacetsOf(path, ifaces[1..]));
    }
  }

  /** The snapshot posts one frame for each known interface, whatever is subscribed already. */
  lemma {:induction false} SnapshotAnnounces(t: Tables, objects: Objects)
    ensures SnapshotOf(t, objects).frames == AnnounceAll(Facets(objects))
    decreases |objects|
  {
    hide InterfacesAdded, AnnounceAll, FacetsOf;
    if objects == [] {
      NothingAnnounced();
    } else {
      var first := InterfacesAdded(t, objects[0].0, objects[0].1);
      AddedAnnounces(t, objects[0].0, objects[0].1);
      SnapshotAnnounces(first.tables, objects[1..]);
      AnnounceAppend(FacetsOf(objects[0].0, objects[0].1), Facets(objects[1..]));
    }
  }

  lemma NothingAnnounced()
    ensures AnnounceAll([]) == []
  {
  }

  /** A facet's frame is in the stream, and every frame in the stream is a facet's. */
  lemma {:induction false} AnnouncedBy(xs: seq<Facet>, f: Frame)
    ensures f in AnnounceAll(xs) <==> exists x :: x in xs && f in Announce(x)
    decreases |xs|
  {
    hide Announce;
    if xs == [] {
    } else {
      var front, last := xs[..|xs| - 1], xs[|xs| - 1];
      AnnouncedBy(front, f);
      assert xs == front + [last];
      if f in AnnounceAll(front) {
        var x :| x in front && f in Announce(x);
        assert x in xs;
      } else if f in Announce(last) {
        assert last in xs;
      }
    }
  }

  // ── Order ────────────────────────────────────────────────────────────────

  predicate Before(x: Facet, y: Facet) {
    Less(x.path, y.path) || (x.path == y.path && x.name != y.name)
  }

  ghost predicate InMapOrder(xs: seq<Facet>) {
    forall i, j :: 0 <= i < j < |xs| ==> Before(xs[i], xs[j])
  }

  lemma {:induction false} FacetPaths(objects: Objects)
    ensures forall x :: x in Facets(objects) ==> exists i :: 0 <= i < |objects| && objects[i].0 == x.path
    decreases |objects|
  {
    if objects == [] {
    } else {
      FacetPaths(objects[1..]);
      forall x | x in Facets(objects) ensures exists i :: 0 <= i < |objects| && objects[i].0 == x.path {
        if x in Facets(objects[1..]) {
          var i :| 0 <= i < |objects[1..]| && objects[1..][i].0 == x.path;
          assert objects[i + 1].0 == x.path;
        } else {
          assert objects[0].0 == x.path;
        }
      }
    }
  }

  lemma {:induction false} SortedMapInOrder(objects: Objects)
    requires IsSortedMap(objects)
    ensures InMapOrder(Facets(objects))
    decreases |objects|
  {
    hide Less;
    if objects == [] {
    } else {
      var rest := objects[1..];
      assert IsSortedMap(rest) by {
        assert forall i :: 0 <= i < |rest| ==> rest[i] == objects[i + 1];
      }
      SortedMapInOrder(rest);
      FacetPaths(rest);
      var here, there := FacetsOf(objects[0].0, objects[0].1), Facets(rest);
      forall i, j | 0 <= i < j < |here + there| ensures Before((here + there)[i], (here + there)[j]) {
        if i < |here| <= j {
          var y := there[j - |here|];
          assert y in there;
          var k :| 0 <= k < |rest| && rest[k].0 == y.path;
          assert objects[k + 1].0 == y.path;
        }
      }
    }
  }

  /** A facet whose path lies below another's comes later. */
  lemma ParentIsEarlier(xs: seq<Facet>, parent: Facet, j: nat)
    requires InMapOrder(xs) && parent in xs && j < |xs| && Below(parent.path, xs[j].path)
    ensures parent in xs[..j]
  {
    hide Less, Below;
    BelowIsLess(parent.path, xs[j].path);
    LessAsymmetric(parent.path, xs[j].path);
    var i :| 0 <= i < |xs| && xs[i] == parent;
    if j < i {
      assert false;
    }
    assert xs[..j][i] == parent;
  }

  /** No earlier facet has the same path and interface. */
  lemma FacetIsNew(xs: seq<Facet>, j: nat, x: Facet)
    requires InMapOrder(xs) && j < |xs| && x in xs[..j]
    ensures x.path != xs[j].path || x.name != xs[j].name
  {
    var i :| 0 <= i < j && xs[..j][i] == x;
    assert Before(xs[i], xs[j]);
    if xs[i].path == xs[j].path {
      LessIrreflexive(xs[i].path);
    }
  }

  // ── Parents come first ───────────────────────────────────────────────────

  function NameOf(f: Frame): InterfaceName {
    match f
    case AdapterFrame(_) => Adapter1
    case DeviceAddedFrame(_) => Device1
    case ServiceAddedFrame(_) => GattService1
    case CharAddedFrame(_) => GattCharacteristic1
    case DescAddedFrame(_) => GattDescriptor1
    case _ => OtherInterface("")
  }

  function PathOf(f: Frame): Path {
    match f
    case AdapterFrame(p) => p.objectPath
    case DeviceAddedFrame(p) => p.objectPath
    case ServiceAddedFrame(p) => p.objectPath
    case CharAddedFrame(p) => p.objectPath
    case DescAddedFrame(p) => p.objectPath
    case _ => []
  }

  lemma AnnouncesItself(x: Facet, f: Frame)
    requires f in Announce(x)
    ensures Announce(x) == [f] && NameOf(f) == x.name && PathOf(f) == x.path
    ensures !x.name.OtherInterface?
    ensures f.ServiceAddedFrame? ==> f.service.devicePath == GetPath(x.props, "Device")
    ensures f.CharAddedFrame? ==> f.characteristic.servicePath == GetPath(x.props, "Service")
    ensures f.DescAddedFrame? ==> f.desc.charPath == GetPath(x.props, "Characteristic")
  {
    hide GetPath, GetManufacturer, GetServiceData;
  }

  lemma FrameIsNew(xs: seq<Facet>, j: nat, f: Frame)
    requires InMapOrder(xs) && j < |xs| && f in Announce(xs[j])
    ensures forall g :: g in AnnounceAll(xs[..j]) ==> NameOf(g) != NameOf(f) || PathOf(g) != PathOf(f)
  {
    hide Announce, InMapOrder, NameOf, PathOf;
    AnnouncesItself(xs[j], f);
    forall g | g in AnnounceAll(xs[..j]) ensures NameOf(g) != NameOf(f) || PathOf(g) != PathOf(f) {
      AnnouncedBy(xs[..j], g);
      var x :| x in xs[..j] && g in Announce(x);
      AnnouncesItself(x, g);
      FacetIsNew(xs, j, x);
    }
  }

  lemma ExposedEarlier(objects: Objects, path: Path, name: InterfaceName, j: nat) returns (x: Facet)
    requires InMapOrder(Facets(objects)) && j < |Facets(objects)|
    requires Exposes(objects, path, name) && Below(path, Facets(objects)[j].path)
    ensures x in Facets(objects) && x.path == path && x.name == name
    ensures forall f :: f in Announce(x) ==> f in AnnounceAll(Facets(objects)[..j])
  {
    hide InMapOrder, Below, Announce, AnnounceAll;
    var xs := Facets(objects);
    x :| x in xs && x.path == path && x.name == name;
    ParentIsEarlier(xs, x, j);
    forall f | f in Announce(x) ensures f in AnnounceAll(xs[..j]) {
      AnnouncedBy(xs[..j], f);
    }
  }

  /** A service and everything below it route to the device the service names. */
  lemma ServiceRoutes(objects: Objects, s: Facet, path: Path)
    requires IsBlueZTree(objects) && s in Facets(objects) && s.name == GattService1
    requires Below(s.path, path)
    ensures DevicePathOf(path) == GetPath(s.props, "Device")
  {
    hide Below, DevicePathOf, HasDeviceDepth, GetPath;
    var d := GetPath(s.props, "Device");
    assert WellPlaced(objects, s);
    var x :| x in Facets(objects) && x.path == d && x.name == Device1;
    assert WellPlaced(objects, x);
    BelowTransitive(d, s.path, path);
    RoutesToDevice(d, path);
  }

  lemma CharRoutes(objects: Objects, c: Facet, path: Path)
    requires IsBlueZTree(objects) && c in Facets(objects) && c.name == GattCharacteristic1
    requires Below(c.path, path)
    ensures DevicePathOf(path) == DevicePathOf(c.path)
  {
    hide Below, DevicePathOf, HasDeviceDepth, GetPath;
    assert WellPlaced(objects, c);
    var s :| s in Facets(objects) && s.path == GetPath(c.props, "Service") && s.name == GattService1;
    ServiceRoutes(objects, s, c.path);
    BelowTransitive(s.path, c.path, path);
    ServiceRoutes(objects, s, path);
  }

  lemma DeviceAdmissible(objects: Objects, j: nat)
    requires InMapOrder(Facets(objects)) && j < |Facets(objects)| && Facets(objects)[j].name == Device1
    ensures
      var x := Facets(objects)[j];
      Admissible(AnnounceAll(Facets(objects)[..j]), DeviceAddedFrame(ExtractDevice(x.path, x.props)))
  {
    hide InMapOrder, AnnounceAll, GetManufacturer, GetServiceData;
    var x := Facets(objects)[j];
    FrameIsNew(Facets(objects), j, DeviceAddedFrame(ExtractDevice(x.path, x.props)));
  }

  lemma AdapterAdmissible(objects: Objects, j: nat)
    requires InMapOrder(Facets(objects)) && j < |Facets(objects)| && Facets(objects)[j].name == Adapter1
    ensures
      var x := Facets(objects)[j];
      Admissible(AnnounceAll(Facets(objects)[..j]), AdapterFrame(ExtractAdapter(x.path, x.props)))
  {
    hide InMapOrder, AnnounceAll;
    var x := Facets(objects)[j];
    FrameIsNew(Facets(objects), j, AdapterFrame(ExtractAdapter(x.path, x.props)));
  }

  lemma ServiceAdmissible(objects: Objects, j: nat)
    requires InMapOrder(Facets(objects)) && IsBlueZTree(objects)
    requires j < |Facets(objects)| && Facets(objects)[j].name == GattService1
    ensures
      var x := Facets(objects)[j];
      Admissible(AnnounceAll(Facets(objects)[..j]), ServiceAddedFrame(ExtractService(x.path, x.props)))
  {
    hide InMapOrder, AnnounceAll, Below, HasDeviceDepth, GetPath, Exposes, GetManufacturer, GetServiceData;
    var x := Facets(objects)[j];
    assert WellPlaced(objects, x);
    FrameIsNew(Facets(objects), j, ServiceAddedFrame(ExtractService(x.path, x.props)));
    var d := ExposedEarlier(objects, GetPath(x.props, "Device"), Device1, j);
    assert DeviceAddedFrame(ExtractDevice(d.path, d.props)) in Announce(d);
  }

  lemma CharAdmissible(objects: Objects, j: nat)
    requires InMapOrder(Facets(objects)) && IsBlueZTree(objects)
    requires j < |Facets(objects)| && Facets(objects)[j].name == GattCharacteristic1
    ensures
      var x := Facets(objects)[j];
      Admissible(AnnounceAll(Facets(objects)[..j]), CharAddedFrame(ExtractChar(x.path, x.props)))
  {
    hide InMapOrder, AnnounceAll, Below, HasDeviceDepth, GetPath, Exposes, DevicePathOf;
    var x := Facets(objects)[j];
    assert WellPlaced(objects, x);
    FrameIsNew(Facets(objects), j, CharAddedFrame(ExtractChar(x.path, x.props)));
    var s := ExposedEarlier(objects, GetPath(x.props, "Service"), GattService1, j);
    ServiceRoutes(objects, s, x.path);
    assert ServiceAddedFrame(ExtractService(s.path, s.props)) in Announce(s);
  }

  lemma DescAdmissible(objects: Objects, j: nat)
    requires InMapOrder(Facets(objects)) && IsBlueZTree(objects)
    requires j < |Facets(objects)| && Facets(objects)[j].name == GattDescriptor1
    ensures
      var x := Facets(objects)[j];
      Admissible(AnnounceAll(Facets(objects)[..j]), DescAddedFrame(ExtractDesc(x.path, x.props)))
  {
    hide InMapOrder, AnnounceAll, Below, HasDeviceDepth, GetPath, DevicePathOf, Exposes;
    var x := Facets(objects)[j];
    assert WellPlaced(objects, x);
    FrameIsNew(Facets(objects), j, DescAddedFrame(ExtractDesc(x.path, x.props)));
    var c := ExposedEarlier(objects, GetPath(x.props, "Characteristic"), GattCharacteristic1, j);
    assert CharAddedFrame(ExtractChar(c.path, c.props)) in Announce(c);
    CharRoutes(objects, c, x.path);
  }

  lemma NextAdmissible(objects: Objects, j: nat)
    requires InMapOrder(Facets(objects)) && IsBlueZTree(objects) && j < |Facets(objects)|
    ensures
      var more := Announce(Facets(objects)[j]);
      more == [] || (|more| == 1 && Admissible(AnnounceAll(Facets(objects)[..j]), more[0]))
  {
    hide InMapOrder, IsBlueZTree, Admissible, AnnounceAll, ExtractAdapter, ExtractDevice, ExtractService, ExtractChar,
      ExtractDesc;
    match Facets(objects)[j].name
    case Adapter1 => AdapterAdmissible(objects, j);
    case Device1 => DeviceAdmissible(objects, j);
    case GattService1 => ServiceAdmissible(objects, j);
    case GattCharacteristic1 => CharAdmissible(objects, j);
    case GattDescriptor1 => DescAdmissible(objects, j);
    case OtherInterface(_) =>
  }

  lemma MoreParentsFirst(fs: seq<Frame>, more: seq<Frame>)
    requires ParentsFirst(fs) && (more == [] || (|more| == 1 && Admissible(fs, more[0])))
    ensures ParentsFirst(fs + more)
  {
    hide Admissible;
    if more == [] {
      assert fs + more == fs;
    } else {
      assert (fs + more)[..|fs|] == fs;
    }
  }

  lemma {:induction false} PrefixPutsParentsFirst(objects: Objects, n: nat)
    requires InMapOrder(Facets(objects)) && IsBlueZTree(objects) && n <= |Facets(objects)|
    ensures ParentsFirst(AnnounceAll(Facets(objects)[..n]))
  {
    hide InMapOrder, IsBlueZTree, Admissible, Announce, Facets, ParentsFirst;
    if n == 0 {
      NoneFirst();
    } else {
      var xs := Facets(objects);
      PrefixPutsParentsFirst(objects, n - 1);
      NextAdmissible(objects, n - 1);
      MoreParentsFirst(AnnounceAll(xs[..n - 1]), Announce(xs[n - 1]));
      assert xs[..n][..n - 1] == xs[..n - 1];
    }
  }

  lemma NoneFirst()
    ensures ParentsFirst([])
  {
  }

  /** The expected tree, read off the objects: for every interface its full record. */
  ghost predicate InCache(v: ClientView, x: Facet) {
    match x.name
    case Adapter1 => HasAdapter(v, ExtractAdapter(x.path, x.props))
    case Device1 => HasDevice(v, ExtractDevice(x.path, x.props))
    case GattService1 => HasService(v, ExtractService(x.path, x.props))
    case GattCharacteristic1 => HasChar(v, ExtractChar(x.path, x.props))
    case GattDescriptor1 => HasDesc(v, ExtractDesc(x.path, x.props))
    case OtherInterface(_) => true
  }

  /** After the frames of a snapshot, from whatever tables, the caches hold every object of the
      tree and no other, and in every device each service has exactly the characteristics that
      name it and each characteristic exactly the descriptors that name it: `?.` drops none. */
  lemma {:induction false} SnapshotIsComplete(t: Tables, v: ClientView, objects: Objects)
    requires Empty(v) && IsSortedMap(objects) && IsBlueZTree(objects)
    ensures
      var after := ApplyAll(v, SnapshotOf(t, objects).frames);
      && (forall x :: x in Facets(objects) ==> InCache(after, x))
      && (forall a :: a in after.adapters ==> Exposes(objects, a, Adapter1))
      && (forall d :: d in after.devices ==> Exposes(objects, d, Device1) && FullyLinked(after.devices[d]))
      && (forall d, s :: d in after.devices && s in after.devices[d].services ==> Exposes(objects, s, GattService1))
      && (forall d, c :: d in after.devices && c in after.devices[d].chars ==> Exposes(objects, c, GattCharacteristic1))
      && (forall d, e :: d in after.devices && e in after.devices[d].descs ==> Exposes(objects, e, GattDescriptor1))
  {
    hide InMapOrder, IsSortedMap, IsBlueZTree, FullyLinked, ParentsFirst, Linked, Apply;
    var xs := Facets(objects);
    SnapshotAnnounces(t, objects);
    SortedMapInOrder(objects);
    PrefixPutsParentsFirst(objects, |xs|);
    assert xs[..|xs|] == xs;
    ParentsFirstIsComplete(v, AnnounceAll(xs));
    var after := ApplyAll(v, AnnounceAll(xs));
    EverythingHeld(after, xs);
    NothingElse(after, objects);
  }

  lemma EverythingHeld(v: ClientView, xs: seq<Facet>)
    requires Mirrors(v, AnnounceAll(xs))
    ensures forall x :: x in xs ==> InCache(v, x)
  {
    hide HasAdapter, HasDevice, HasService, HasChar, HasDesc, AnnounceAll;
    forall x | x in xs ensures InCache(v, x) {
      if Announce(x) != [] {
        AnnouncedBy(xs, Announce(x)[0]);
      }
    }
  }

  lemma NothingElse(v: ClientView, objects: Objects)
    requires GattTree.WellFiled(v) && AdaptersFiled(v) && Mirrors(v, AnnounceAll(Facets(objects)))
    ensures forall a :: a in v.adapters ==> Exposes(objects, a, Adapter1)
    ensures forall d :: d in v.devices ==> Exposes(objects, d, Device1)
    ensures forall d, s :: d in v.devices && s in v.devices[d].services ==> Exposes(objects, s, GattService1)
    ensures forall d, c :: d in v.devices && c in v.devices[d].chars ==> Exposes(objects, c, GattCharacteristic1)
    ensures forall d, e :: d in v.devices && e in v.devices[d].descs ==> Exposes(objects, e, GattDescriptor1)
  {
    hide DevicePathOf, AnnounceAll, Exposes;
    forall a | a in v.adapters ensures Exposes(objects, a, Adapter1) {
      assert HasAdapter(v, v.adapters[a]);
      FrameIsExposed(objects, AdapterFrame(v.adapters[a]));
    }
    forall d | d in v.devices ensures Exposes(objects, d, Device1) {
      assert HasDevice(v, v.devices[d].props);
      FrameIsExposed(objects, DeviceAddedFrame(v.devices[d].props));
    }
    forall d, s | d in v.devices && s in v.devices[d].services ensures Exposes(objects, s, GattService1) {
      assert HasService(v, v.devices[d].services[s].props);
      FrameIsExposed(objects, ServiceAddedFrame(v.devices[d].services[s].props));
    }
    NothingElseBelow(v, objects);
  }

  lemma NothingElseBelow(v: ClientView, objects: Objects)
    requires GattTree.WellFiled(v) && Mirrors(v, AnnounceAll(Facets(objects)))
    ensures forall d, c :: d in v.devices && c in v.devices[d].chars ==> Exposes(objects, c, GattCharacteristic1)
    ensures forall d, e :: d in v.devices && e in v.devices[d].descs ==> Exposes(objects, e, GattDescriptor1)
  {
    hide DevicePathOf, AnnounceAll, Exposes;
    forall d, c | d in v.devices && c in v.devices[d].chars ensures Exposes(objects, c, GattCharacteristic1) {
      assert HasChar(v, v.devices[d].chars[c].props);
      FrameIsExposed(objects, CharAddedFrame(v.devices[d].chars[c].props));
    }
    forall d, e | d in v.devices && e in v.devices[d].descs ensures Exposes(objects, e, GattDescriptor1) {
      assert HasDesc(v, v.devices[d].descs[e].props);
      FrameIsExposed(objects, DescAddedFrame(v.devices[d].descs[e].props));
    }
  }

  lemma FrameIsExposed(objects: Objects, f: Frame)
    requires f in AnnounceAll(Facets(objects))
    ensures Exposes(objects, PathOf(f), NameOf(f))
  {
    hide Announce, NameOf, PathOf;
    AnnouncedBy(Facets(objects), f);
    var x :| x in Facets(objects) && f in Announce(x);
    AnnouncesItself(x, f);
  }
}
