/** bluez_device.dart and the GATT objects it holds, as objects that refer to each other. */
module Devices {
  import opened ByteStrings
  import opened Types
  import opened Masks
  import opened ClientModel
  import GattTree

  class BlueZGattDescriptor {
    const props: DescProps
    /** Its place in the order of creation within the device. */
    ghost const id: nat

    constructor (props: DescProps, ghost id: nat)
      ensures this.props == props && this.id == id
    {
      this.props, this.id := props, id;
    }
  }

  class BlueZGattCharacteristic {
    const props: CharProps
    ghost const id: nat
    var descriptors: map<Path, BlueZGattDescriptor>
    /** Everything the value stream was given. */
    var emitted: seq<Bytes>

    constructor (props: CharProps, ghost id: nat)
      ensures this.props == props && this.id == id && descriptors == map[] && emitted == []
    {
      this.props, this.id, descriptors, emitted := props, id, map[], [];
    }

    method PostValue(bytes: Bytes)
      modifies this`emitted
      ensures emitted == old(emitted) + [bytes]
    {
      emitted := emitted + [bytes];
    }

    method AddDescriptor(d: BlueZGattDescriptor)
      modifies this`descriptors
      ensures descriptors == old(descriptors)[d.props.objectPath := d]
    {
      descriptors := descriptors[d.props.objectPath := d];
    }
  }

  class BlueZGattService {
    const props: ServiceProps
    ghost const id: nat
    var characteristics: map<Path, BlueZGattCharacteristic>

    constructor (props: ServiceProps, ghost id: nat)
      ensures this.props == props && this.id == id && characteristics == map[]
    {
      this.props, this.id, characteristics := props, id, map[];
    }

    method AddCharacteristic(c: BlueZGattCharacteristic)
      modifies this
      ensures characteristics == old(characteristics)[c.props.objectPath := c]
    {
      characteristics := characteristics[c.props.objectPath := c];
    }
  }

  // ── Objects and their views ──────────────────────────────────────────────

  /** o is the object with the given id. */
  ghost predicate Born(born: seq<object>, o: object, id: nat) {
    id < |born| && born[id] == o
  }

  lemma BornOnce(born: seq<object>, x: object, y: object, id: nat)
    requires Born(born, x, id) && Born(born, y, id)
    ensures x == y
  {
  }

  /** v is what the service filed under path holds, everything reachable from it born here. */
  ghost predicate ServiceShown(o: BlueZGattService, path: Path, v: ServiceView, born: seq<object>)
    reads o
  {
    && o.props.objectPath == path && v.props == o.props && v.id == o.id && Born(born, o, o.id)
    && v.chars.Keys == o.characteristics.Keys
    && (forall c :: c in o.characteristics ==>
          v.chars[c] == o.characteristics[c].id && Born(born, o.characteristics[c], o.characteristics[c].id))
  }

  ghost predicate CharShown(o: BlueZGattCharacteristic, path: Path, v: CharView, born: seq<object>)
    reads o
  {
    && o.props.objectPath == path && v.props == o.props && v.id == o.id && Born(born, o, o.id)
    && v.emitted == o.emitted && v.descs.Keys == o.descriptors.Keys
    && (forall e :: e in o.descriptors ==>
          v.descs[e] == o.descriptors[e].id && Born(born, o.descriptors[e], o.descriptors[e].id))
  }

  ghost predicate DescShown(o: BlueZGattDescriptor, path: Path, v: DescView, born: seq<object>) {
    o.props.objectPath == path && v.props == o.props && v.id == o.id && Born(born, o, o.id)
  }

  ghost predicate ServicesShown(ss: map<Path, BlueZGattService>, vs: map<Path, ServiceView>, born: seq<object>)
    reads ss.Values
  {
    ss.Keys == vs.Keys && forall s :: s in ss ==> ServiceShown(ss[s], s, vs[s], born)
  }

  ghost predicate CharsShown(cs: map<Path, BlueZGattCharacteristic>, vs: map<Path, CharView>, born: seq<object>)
    reads cs.Values
  {
    cs.Keys == vs.Keys && forall c :: c in cs ==> CharShown(cs[c], c, vs[c], born)
  }

  ghost predicate DescsShown(ds: map<Path, BlueZGattDescriptor>, vs: map<Path, DescView>, born: seq<object>) {
    ds.Keys == vs.Keys && forall e :: e in ds ==> DescShown(ds[e], e, vs[e], born)
  }

  /** What was born before stays born, so everything shown stays shown. */
  lemma OneMoreBorn(d: BlueZDevice, o: object)
    requires d.Valid()
    ensures ServicesShown(d.services, d.view.services, d.born + [o])
    ensures CharsShown(d.characteristics, d.view.chars, d.born + [o])
    ensures DescsShown(d.descriptors, d.view.descs, d.born + [o])
    ensures Born(d.born + [o], o, |d.born|)
  {
  }

  class BlueZDevice {
    var props: DeviceProps
    var services: map<Path, BlueZGattService>
    var characteristics: map<Path, BlueZGattCharacteristic>
    var descriptors: map<Path, BlueZGattDescriptor>
    /** Everything the propertiesChanged stream was given. */
    var events: seq<seq<DeviceField>>
    /** The device as a value. */
    ghost var view: DeviceView
    /** Every GATT object ever made for this device, in order of creation. */
    ghost var born: seq<object>
    ghost var Repr: set<object>

    /** view is what the fields hold, each object filed under its own path. */
    ghost predicate Valid()
      reads this, Repr
    {
      && this in Repr && services.Values <= Repr && characteristics.Values <= Repr
      && view.props == props && view.events == events && view.clock == |born|
      && ServicesShown(services, view.services, born)
      && CharsShown(characteristics, view.chars, born)
      && DescsShown(descriptors, view.descs, born)
    }

    constructor (props: DeviceProps)
      ensures Valid() && view == NewDevice(props) && Repr == {this}
    {
      this.props, events := props, [];
      services, characteristics, descriptors := map[], map[], map[];
      view, born, Repr := NewDevice(props), [], {this};
    }

    method UpdateProps(partial: DeviceProps)
      requires Valid()
      modifies this
      ensures Valid() && view == UpdateDevice(old(view), partial)
      ensures Repr == old(Repr)
    {
      hide MergeDevice, ChangedEarly, ChangedLate, ServicesShown, CharsShown, DescsShown;
      view := UpdateDevice(view, partial);
      var now := Merged(props, partial);
      var changed := AddEarlyNames(props, now);
      changed := AddLateNames(changed, props, now);
      props := now;
      if changed != [] {
        events := events + [changed];
      }
    }

    method AddService(p: ServiceProps)
      requires Valid()
      modifies this
      ensures Valid() && view == ClientModel.AddService(old(view), p)
      ensures fresh(Repr - old(Repr))
    {
      hide ServicesShown, CharsShown, DescsShown, Born;
      var s := new BlueZGattService(p, |born|);
      OneMoreBorn(this, s);
      ServiceJoins(services, view.services, s, born + [s]);
      view := ClientModel.AddService(view, p);
      services := services[p.objectPath := s];
      born, Repr := born + [s], Repr + {s};
    }

    method AddCharacteristic(p: CharProps)
      requires Valid()
      modifies Repr
      ensures Valid() && view == AddChar(old(view), p)
      ensures fresh(Repr - old(Repr))
    {
      hide ServicesShown, CharsShown, DescsShown, Born;
      ghost var was := view;
      var c := FileCharacteristic(p);
      ListInService(services, p.servicePath, c, was.services, born);
      view := view.(services := AddChar(was, p).services);
    }

    /** _characteristics[path] = char, for a new object. */
    method FileCharacteristic(p: CharProps) returns (c: BlueZGattCharacteristic)
      requires Valid()
      modifies this
      ensures Valid() && fresh(c) && Repr == old(Repr) + {c}
      ensures services == old(services) && view == AddChar(old(view), p).(services := old(view).services)
      ensures c.props == p && c.id == |old(born)| && Born(born, c, c.id)
    {
      hide ServicesShown, CharsShown, DescsShown, Born;
      c := new BlueZGattCharacteristic(p, |born|);
      OneMoreBorn(this, c);
      CharJoins(characteristics, view.chars, c, born + [c]);
      view := AddChar(view, p).(services := view.services);
      characteristics := characteristics[p.objectPath := c];
      born, Repr := born + [c], Repr + {c};
    }

    method AddDescriptor(p: DescProps)
      requires Valid()
      modifies Repr
      ensures Valid() && view == AddDesc(old(view), p)
      ensures fresh(Repr - old(Repr))
    {
      hide ServicesShown, CharsShown, DescsShown, Born;
      ghost var was := view;
      var e := FileDescriptor(p);
      ListInChar(characteristics, p.charPath, e, was.chars, born);
      view := view.(chars := AddDesc(was, p).chars);
    }

    /** _descriptors[path] = desc, for a new object. */
    method FileDescriptor(p: DescProps) returns (e: BlueZGattDescriptor)
      requires Valid()
      modifies this
      ensures Valid() && fresh(e) && Repr == old(Repr) + {e}
      ensures characteristics == old(characteristics) && view == AddDesc(old(view), p).(chars := old(view).chars)
      ensures e.props == p && e.id == |old(born)| && Born(born, e, e.id)
    {
      hide ServicesShown, CharsShown, DescsShown, Born;
      e := new BlueZGattDescriptor(p, |born|);
      OneMoreBorn(this, e);
      DescJoins(descriptors, view.descs, e, born + [e]);
      view := AddDesc(view, p).(chars := view.chars);
      descriptors := descriptors[p.objectPath := e];
      born, Repr := born + [e], Repr + {e};
    }

    /** postValue on the device's own object for the path. */
    method PostValueTo(path: Path, bytes: Bytes)
      requires Valid() && path in characteristics && path in view.chars
      modifies Repr
      ensures Valid() && view == PostValue(old(view), path, bytes)
      ensures fresh(Repr - old(Repr))
    {
      hide ServicesShown, CharsShown, DescsShown, Born;
      Emit(characteristics, path, bytes, view.chars, born);
      view := PostValue(view, path, bytes);
    }

    /** An object reached through a service or a characteristic is the very object the device holds,
        so what is added to one is seen through the other. */
    ghost predicate Shared()
      reads this, services.Values, characteristics.Values
    {
      && (forall s, c :: s in services && c in services[s].characteristics ==>
            c in characteristics && services[s].characteristics[c] == characteristics[c])
      && (forall c, e :: c in characteristics && e in characteristics[c].descriptors ==>
            e in descriptors && characteristics[c].descriptors[e] == descriptors[e])
    }

    /** Equal ids are equal references. */
    lemma SharedReferences()
      requires Valid() && GattTree.SameObjects(view)
      ensures Shared()
    {
      hide Born;
      forall s, c | s in services && c in services[s].characteristics
        ensures c in characteristics && services[s].characteristics[c] == characteristics[c]
      {
        assert c in view.services[s].chars;
        BornOnce(born, services[s].characteristics[c], characteristics[c], characteristics[c].id);
      }
      forall c, e | c in characteristics && e in characteristics[c].descriptors
        ensures e in descriptors && characteristics[c].descriptors[e] == descriptors[e]
      {
        assert e in view.chars[c].descs;
        BornOnce(born, characteristics[c].descriptors[e], descriptors[e], descriptors[e].id);
      }
    }
  }

  lemma ServiceJoins(ss: map<Path, BlueZGattService>, vs: map<Path, ServiceView>, s: BlueZGattService, born: seq<object>)
    requires ServicesShown(ss, vs, born) && Born(born, s, s.id) && s.characteristics == map[]
    ensures ServicesShown(ss[s.props.objectPath := s], vs[s.props.objectPath := ServiceView(s.id, s.props, map[])], born)
  {
    hide Born;
  }

  lemma CharJoins(cs: map<Path, BlueZGattCharacteristic>, vs: map<Path, CharView>, c: BlueZGattCharacteristic,
                  born: seq<object>)
    requires CharsShown(cs, vs, born) && Born(born, c, c.id) && c.descriptors == map[] && c.emitted == []
    ensures CharsShown(cs[c.props.objectPath := c], vs[c.props.objectPath := CharView(c.id, c.props, map[], [])], born)
  {
    hide Born;
  }

  lemma DescJoins(ds: map<Path, BlueZGattDescriptor>, vs: map<Path, DescView>, e: BlueZGattDescriptor, born: seq<object>)
    requires DescsShown(ds, vs, born) && Born(born, e, e.id)
    ensures DescsShown(ds[e.props.objectPath := e], vs[e.props.objectPath := DescView(e.id, e.props)], born)
  {
    hide Born;
  }

  /** The fields updateProps takes from the partial struct, the mask, and all other fields kept. */
  method Merged(props: DeviceProps, partial: DeviceProps) returns (now: DeviceProps)
    ensures now == MergeDevice(props, partial)
  {
    hide Bit;
    var mask := partial.changedMask;
    var connected := if Bit(mask, DART_CONNECTED_BIT) then partial.connected else props.connected;
    var rssi := if Bit(mask, DART_RSSI_BIT) then partial.rssi else props.rssi;
    var paired := if Bit(mask, DART_PAIRED_BIT) then partial.paired else props.paired;
    var servicesResolved :=
      if Bit(mask, DART_SERVICES_RESOLVED_BIT) then partial.servicesResolved else props.servicesResolved;
    var name := if Bit(mask, DART_NAME_BIT) then partial.name else props.name;
    var trusted := if Bit(mask, DART_TRUSTED_BIT) then partial.trusted else props.trusted;
    var blocked := if Bit(mask, DART_BLOCKED_BIT) then partial.blocked else props.blocked;
    var alias := if Bit(mask, DART_ALIAS_BIT) then partial.alias else props.alias;
    now := DeviceProps(
      props.objectPath, mask, props.adapterPath, props.address, props.addressType, name, alias, rssi, props.txPower,
      props.appearance, props.deviceClass, paired, trusted, blocked, connected, servicesResolved, props.legacyPairing,
      props.uuids, props.manufacturerData, props.serviceData);
  }

  /** The list updateProps builds up, up to ServicesResolved and from Name on. */
  method AddEarlyNames(was: DeviceProps, now: DeviceProps) returns (changed: seq<DeviceField>)
    ensures changed == ChangedEarly(was, now)
  {
    changed := [];
    if now.connected != was.connected { changed := changed + [Connected]; }
    if now.rssi != was.rssi { changed := changed + [RSSI]; }
    if now.paired != was.paired { changed := changed + [Paired]; }
    if now.servicesResolved != was.servicesResolved { changed := changed + [ServicesResolved]; }
  }

  method AddLateNames(names: seq<DeviceField>, was: DeviceProps, now: DeviceProps) returns (changed: seq<DeviceField>)
    ensures changed == names + ChangedLate(was, now)
  {
    changed := names;
    if now.name != was.name { changed := changed + [Name]; }
    if now.trusted != was.trusted { changed := changed + [Trusted]; }
    if now.blocked != was.blocked { changed := changed + [Blocked]; }
    if now.alias != was.alias { changed := changed + [Alias]; }
  }

  /** _services[path]?.addCharacteristic(c): no service other than that one changes. */
  method ListInService(ss: map<Path, BlueZGattService>, path: Path, c: BlueZGattCharacteristic,
                       ghost vs: map<Path, ServiceView>, ghost born: seq<object>)
    requires ServicesShown(ss, vs, born) && Born(born, c, c.id)
    modifies if path in ss then {ss[path]} else {}
    ensures ServicesShown(ss, if path !in vs then vs
                              else vs[path := vs[path].(chars := vs[path].chars[c.props.objectPath := c.id])], born)
  {
    hide Born;
    if path in ss {
      assert forall s :: s in ss && s != path ==> ss[s] != ss[path];
      ss[path].AddCharacteristic(c);
    }
  }

  /** _characteristics[path]?.addDescriptor(e) */
  method ListInChar(cs: map<Path, BlueZGattCharacteristic>, path: Path, e: BlueZGattDescriptor,
                    ghost vs: map<Path, CharView>, ghost born: seq<object>)
    requires CharsShown(cs, vs, born) && Born(born, e, e.id)
    modifies if path in cs then {cs[path]} else {}
    ensures CharsShown(cs, if path !in vs then vs
                           else vs[path := vs[path].(descs := vs[path].descs[e.props.objectPath := e.id])], born)
  {
    hide Born;
    if path in cs {
      assert forall c :: c in cs && c != path ==> cs[c] != cs[path];
      cs[path].AddDescriptor(e);
    }
  }

  /** postValue on the object filed under path: no other characteristic emits. */
  method Emit(cs: map<Path, BlueZGattCharacteristic>, path: Path, bytes: Bytes, ghost vs: map<Path, CharView>,
              ghost born: seq<object>)
    requires CharsShown(cs, vs, born) && path in cs && path in vs
    modifies cs[path]
    ensures CharsShown(cs, vs[path := vs[path].(emitted := vs[path].emitted + [bytes])], born)
  {
    hide Born;
    assert forall c :: c in cs && c != path ==> cs[c] != cs[path];
    cs[path].PostValue(bytes);
  }
}
