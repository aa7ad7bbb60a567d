/** codec.dart: the bounds-checked reader and the per-struct decoders. */
module Codec {
  import opened ByteStrings
  import opened Schema
  import opened Wire
  import opened WireTheorems
  import opened Types

  /** RangeError is the exception every failed bounds check throws. */
  datatype Result<+T> = Success(value: T) | RangeError {
    predicate IsFailure() {
      RangeError?
    }

    function PropagateFailure<U>(): Result<U>
      requires IsFailure()
    {
      RangeError
    }

    function Extract(): T
      requires !IsFailure()
    {
      value
    }
  }

  // ── Reading a field list step by step ────────────────────────────────────

  /** Where field i of a list starts, when the fields before it can be read. */
  ghost function FieldStart(fs: seq<Kind>, view: Bytes, from: nat, i: nat): Parsed<()>
    requires i <= |fs|
  {
    if i == 0 then Parsed((), from)
    else match Read(fs[0], view, from)
      case Overrun => Overrun
      case Parsed(_, o) => FieldStart(fs[1..], view, o, i - 1)
  }

  lemma Begin(fs: seq<Kind>, view: Bytes, from: nat)
    ensures FieldStart(fs, view, from, 0) == Parsed((), from)
    ensures Agrees(fs, view, from, [])
  {
  }

  /** The next field decides: if it overruns the whole list does, else its value stands in
      the result and the field after it starts where it ends. */
  lemma {:induction false} Step(fs: seq<Kind>, view: Bytes, from: nat, i: nat, at: nat)
    requires i < |fs| && FieldStart(fs, view, from, i) == Parsed((), at)
    ensures match Read(fs[i], view, at)
            case Overrun => ReadAll(fs, view, from).Overrun? && Read(KStruct(fs), view, from).Overrun?
            case Parsed(v, to) =>
              && FieldStart(fs, view, from, i + 1) == Parsed((), to)
              && (ReadAll(fs, view, from).Parsed? ==> ReadAll(fs, view, from).value[i] == v)
  {
    if i == 0 {
    } else {
      Step(fs[1..], view, Read(fs[0], view, from).offset, i - 1, at);
    }
  }

  lemma {:induction false} Finish(fs: seq<Kind>, view: Bytes, from: nat, at: nat)
    requires FieldStart(fs, view, from, |fs|) == Parsed((), at)
    ensures ReadAll(fs, view, from).Parsed? && ReadAll(fs, view, from).offset == at
    ensures Read(KStruct(fs), view, from) == Parsed(VSeq(ReadAll(fs, view, from).value), at)
  {
    if fs == [] {
    } else {
      Finish(fs[1..], view, Read(fs[0], view, from).offset, at);
    }
  }

  /** The values read so far, when the whole list can be read. */
  ghost predicate Agrees(fs: seq<Kind>, view: Bytes, from: nat, vs: seq<Value>) {
    var r := ReadAll(fs, view, from);
    r.Parsed? ==> vs <= r.value
  }

  lemma AgreesNext(fs: seq<Kind>, view: Bytes, from: nat, vs: seq<Value>, v: Value)
    requires Agrees(fs, view, from, vs) && |vs| < |fs|
    requires ReadAll(fs, view, from).Parsed? ==> ReadAll(fs, view, from).value[|vs|] == v
    ensures Agrees(fs, view, from, vs + [v])
  {
  }

  lemma AgreesAll(fs: seq<Kind>, view: Bytes, from: nat, vs: seq<Value>)
    requires Agrees(fs, view, from, vs) && |vs| == |fs| && ReadAll(fs, view, from).Parsed?
    ensures ReadAll(fs, view, from).value == vs
  {
  }

  lemma VectorOverrun(elem: Kind, view: Bytes, offset: nat)
    ensures ReadUInt(4, view, offset).Overrun? ==> Read(KVector(elem), view, offset).Overrun?
  {
  }

  lemma VectorOf(elem: Kind, view: Bytes, offset: nat)
    requires ReadUInt(4, view, offset).Parsed?
    ensures
      var n := ReadUInt(4, view, offset);
      Read(KVector(elem), view, offset) == AsVector(ReadAll(Repeat(elem, n.value), view, n.offset))
  {
  }

  class Reader {
    /** The whole backing buffer; the view is the length bytes from start. */
    const buffer: Bytes
    const start: nat
    const length: nat
    var offset: nat

    ghost predicate Valid() {
      start + length <= |buffer|
    }

    ghost function View(): (view: Bytes)
      requires Valid()
      ensures |view| == length
    {
      buffer[start..start + length]
    }

    constructor (buffer: Bytes, start: nat, length: nat, offset: nat)
      requires start + length <= |buffer|
      ensures Valid() && View() == buffer[start..start + length]
      ensures this.offset == offset
    {
      this.buffer, this.start, this.length, this.offset := buffer, start, length, offset;
    }

    method CheckBounds(needed: nat) returns (r: Result<()>)
      ensures r.Success? <==> offset + needed <= length
    {
      if offset + needed > length {
        return RangeError;
      }
      return Success(());
    }

    method ReadBool() returns (r: Result<bool>)
      requires Valid()
      modifies this
      ensures Read(KBool, View(), old(offset)) == if r.Success? then Parsed(VBool(r.value), offset) else Overrun
    {
      var _ :- CheckBounds(1);
      var v := buffer[start + offset] != 0;
      offset := offset + 1;
      return Success(v);
    }

    method ReadUint16() returns (r: Result<U16>)
      requires Valid()
      modifies this
      ensures Read(KUInt(2), View(), old(offset)) == if r.Success? then Parsed(VInt(r.value), offset) else Overrun
    {
      var _ :- CheckBounds(2);
      var p := start + offset;
      var v := buffer[p] as int + 0x100 * (buffer[p + 1] as int);
      TwoBytes(View()[offset..offset + 2]);
      offset := offset + 2;
      return Success(v);
    }

    method ReadInt16() returns (r: Result<I16>)
      requires Valid()
      modifies this
      ensures Read(KInt16, View(), old(offset)) == if r.Success? then Parsed(VInt(r.value), offset) else Overrun
    {
      var _ :- CheckBounds(2);
      var p := start + offset;
      var high := if buffer[p + 1] < 0x80 then buffer[p + 1] as int else buffer[p + 1] as int - 0x100;
      TwoBytes(View()[offset..offset + 2]);
      offset := offset + 2;
      return Success(buffer[p] as int + 0x100 * high);
    }

    method ReadUint32() returns (r: Result<U32>)
      requires Valid()
      modifies this
      ensures r.Success? ==> ReadUInt(4, View(), old(offset)) == Parsed(r.value, offset) && offset == old(offset) + 4 <= length
      ensures r.RangeError? ==> ReadUInt(4, View(), old(offset)) == Overrun
      ensures Read(KUInt(4), View(), old(offset)) == if r.Success? then Parsed(VInt(r.value), offset) else Overrun
    {
      var _ :- CheckBounds(4);
      var p := start + offset;
      var v := buffer[p] as int + 0x100 * (buffer[p + 1] as int)
             + 0x1_0000 * (buffer[p + 2] as int) + 0x100_0000 * (buffer[p + 3] as int);
      FourBytes(View()[offset..offset + 4]);
      offset := offset + 4;
      return Success(v);
    }

    method ReadString() returns (r: Result<Bytes>)
      requires Valid()
      modifies this
      ensures Read(KBlob, View(), old(offset)) == if r.Success? then Parsed(VBlob(r.value), offset) else Overrun
    {
      var len :- ReadUint32();
      var _ :- CheckBounds(len);
      var bytes := buffer[start + offset..start + offset + len];
      SliceOfView(buffer, start, length, offset, offset + len);
      offset := offset + len;
      return Success(bytes);
    }

    method ReadByteList() returns (r: Result<Bytes>)
      requires Valid()
      modifies this
      ensures Read(KBlob, View(), old(offset)) == if r.Success? then Parsed(VBlob(r.value), offset) else Overrun
    {
      var count :- ReadUint32();
      var _ :- CheckBounds(count);
      var bytes := buffer[start + offset..start + offset + count];
      SliceOfView(buffer, start, length, offset, offset + count);
      offset := offset + count;
      return Success(bytes);
    }

    static lemma OneMoreString(list: seq<Bytes>, s: Bytes)
      ensures StringValues(list + [s]).vs == StringValues(list).vs + [VBlob(s)]
    {
    }

    /** elements is how many strings are read completely before the loop finishes or overruns. */
    method ReadStringList() returns (r: Result<seq<Bytes>>, ghost elements: nat)
      requires Valid() && offset <= length
      modifies this
      ensures Read(KVector(KBlob), View(), old(offset)) == if r.Success? then Parsed(StringValues(r.value), offset) else Overrun
      ensures
        var n := ReadUInt(4, View(), old(offset));
        elements == if n.Overrun? then 0 else Completed(Repeat(KBlob, n.value), View(), n.offset)
      ensures 4 * elements <= length - old(offset)
      ensures r.Success? ==> elements == |r.value| && offset <= length
    {
      hide Read, ReadAll, FieldStart, Completed, Agrees, View;
      elements := 0;
      VectorOverrun(KBlob, View(), offset);
      var head := ReadUint32();
      if head.RangeError? {
        return RangeError, 0;
      }
      var count := head.value;
      VectorOf(KBlob, View(), old(offset));
      ghost var fs, from := Repeat(KBlob, count), offset;
      Begin(fs, View(), from);
      WorkIsBounded(KBlob, count, View(), from);
      CompletedFrom(fs, View(), from);
      var list: seq<Bytes> := [];
      assert StringValues(list).vs == [];
      var i := 0;
      while i < count
        invariant 0 <= i == |list| <= count && offset <= length
        invariant FieldStart(fs, View(), from, i) == Parsed((), offset) && Agrees(fs, View(), from, StringValues(list).vs)
        invariant Completed(fs, View(), from) == i + Completed(fs[i..], View(), offset)
      {
        CompletedStep(fs, View(), i, offset);
        Step(fs, View(), from, i, offset);
        var s := ReadString();
        if s.RangeError? {
          return RangeError, i;
        }
        AgreesNext(fs, View(), from, StringValues(list).vs, VBlob(s.value));
        OneMoreString(list, s.value);
        list := list + [s.value];
        i := i + 1;
      }
      NoneLeft(fs, View(), offset);
      Finish(fs, View(), from, offset);
      AgreesAll(fs, View(), from, StringValues(list).vs);
      return Success(list), i;
    }

    static lemma OneMoreEntry(list: seq<ManufacturerData>, entry: ManufacturerData)
      ensures ManufacturerValues(list + [entry]).vs == ManufacturerValues(list).vs + [ManufacturerValue(entry)]
    {
    }

    /** One element of the list: a company id and its data. */
    method ReadManufacturerData() returns (r: Result<ManufacturerData>)
      requires Valid()
      modifies this
      ensures Read(MANUFACTURER, View(), old(offset))
           == if r.Success? then Parsed(ManufacturerValue(r.value), offset) else Overrun
    {
      hide Read, ReadAll, View;
      PairSteps(KUInt(2), KBlob, View(), offset);
      var companyId :- ReadUint16();
      var data :- ReadByteList();
      return Success(ManufacturerData(companyId, data));
    }

    method ReadManufacturerDataList() returns (r: Result<seq<ManufacturerData>>, ghost elements: nat)
      requires Valid() && offset <= length
      modifies this
      ensures Read(KVector(MANUFACTURER), View(), old(offset))
           == if r.Success? then Parsed(ManufacturerValues(r.value), offset) else Overrun
      ensures
        var n := ReadUInt(4, View(), old(offset));
        elements == if n.Overrun? then 0 else Completed(Repeat(MANUFACTURER, n.value), View(), n.offset)
      ensures 6 * elements <= length - old(offset)
      ensures r.Success? ==> elements == |r.value| && offset <= length
    {
      hide Read, ReadAll, FieldStart, Completed, Agrees, View;
      elements := 0;
      VectorOverrun(MANUFACTURER, View(), offset);
      var head := ReadUint32();
      if head.RangeError? {
        return RangeError, 0;
      }
      var count := head.value;
      VectorOf(MANUFACTURER, View(), old(offset));
      ghost var fs, from := Repeat(MANUFACTURER, count), offset;
      Begin(fs, View(), from);
      ManufacturerWork(count, View(), from);
      CompletedFrom(fs, View(), from);
      var list: seq<ManufacturerData> := [];
      assert ManufacturerValues(list).vs == [];
      var i := 0;
      while i < count
        invariant 0 <= i == |list| <= count && offset <= length
        invariant FieldStart(fs, View(), from, i) == Parsed((), offset) && Agrees(fs, View(), from, ManufacturerValues(list).vs)
        invariant Completed(fs, View(), from) == i + Completed(fs[i..], View(), offset)
      {
        CompletedStep(fs, View(), i, offset);
        Step(fs, View(), from, i, offset);
        var entry := ReadManufacturerData();
        if entry.RangeError? {
          return RangeError, i;
        }
        AgreesNext(fs, View(), from, ManufacturerValues(list).vs, ManufacturerValue(entry.value));
        OneMoreEntry(list, entry.value);
        list := list + [entry.value];
        i := i + 1;
      }
      NoneLeft(fs, View(), offset);
      Finish(fs, View(), from, offset);
      AgreesAll(fs, View(), from, ManufacturerValues(list).vs);
      return Success(list), i;
    }

    /** One entry of the map: a key and its value. */
    method ReadEntry() returns (r: Result<(Bytes, Bytes)>)
      requires Valid()
      modifies this
      ensures Read(ENTRY, View(), old(offset)) == if r.Success? then Parsed(EntryValue(r.value), offset) else Overrun
    {
      hide Read, ReadAll, View;
      PairSteps(KBlob, KBlob, View(), offset);
      var key :- ReadString();
      var value :- ReadByteList();
      return Success((key, value));
    }

    method ReadServiceDataMap() returns (r: Result<map<Bytes, Bytes>>, ghost elements: nat)
      requires Valid() && offset <= length
      modifies this
      ensures Read(KMap, View(), old(offset)) == if r.Success? then Parsed(VMap(r.value), offset) else Overrun
      ensures
        var n := ReadUInt(4, View(), old(offset));
        elements == if n.Overrun? then 0 else Completed(Repeat(ENTRY, n.value), View(), n.offset)
      ensures 8 * elements <= length - old(offset)
      ensures r.Success? ==> offset <= length
    {
      hide Read, ReadAll, FieldStart, Completed, Agrees, EntriesOf, EntryValues, EntryValue, MapOf, View;
      elements := 0;
      MapFromVector(View(), offset);
      VectorOverrun(ENTRY, View(), offset);
      var head := ReadUint32();
      if head.RangeError? {
        return RangeError, 0;
      }
      var count := head.value;
      VectorOf(ENTRY, View(), old(offset));
      ghost var fs, from := Repeat(ENTRY, count), offset;
      Begin(fs, View(), from);
      EntryWork(count, View(), from);
      CompletedFrom(fs, View(), from);
      EntriesRoundTrip([]);
      EmptyEntries();
      var m: map<Bytes, Bytes> := map[];
      ghost var es: Entries := [];
      var i := 0;
      while i < count
        invariant 0 <= i == |es| <= count && offset <= length && m == MapOf(es)
        invariant FieldStart(fs, View(), from, i) == Parsed((), offset) && Agrees(fs, View(), from, EntryValues(es))
        invariant Completed(fs, View(), from) == i + Completed(fs[i..], View(), offset)
      {
        CompletedStep(fs, View(), i, offset);
        Step(fs, View(), from, i, offset);
        var entry := ReadEntry();
        if entry.RangeError? {
          return RangeError, i;
        }
        var (key, value) := entry.value;
        m := m[key := value];
        EntryTaken(fs, View(), from, es, key, value);
        es := es + [(key, value)];
        i := i + 1;
      }
      NoneLeft(fs, View(), offset);
      Finish(fs, View(), from, offset);
      AgreesAll(fs, View(), from, EntryValues(es));
      EntriesRoundTrip(es);
      return Success(m), i;
    }
  }

  // ── Proof steps ──────────────────────────────────────────────────────────

  lemma SliceOfView(buffer: Bytes, start: nat, length: nat, a: nat, b: nat)
    requires start + length <= |buffer| && a <= b <= length
    ensures buffer[start..start + length][a..b] == buffer[start + a..start + b]
  {
    var part := buffer[start..start + length][a..b];
    assert forall k :: 0 <= k < b - a ==> part[k] == buffer[start + a..start + b][k];
  }

  lemma TwoBytes(bs: Bytes)
    requires |bs| == 2
    ensures FromLittleEndian(bs) == bs[0] as int + 0x100 * (bs[1] as int)
  {
    assert bs[1..][1..] == [];
  }

  lemma FourBytes(bs: Bytes)
    requires |bs| == 4
    ensures FromLittleEndian(bs) == bs[0] as int + 0x100 * (bs[1] as int) + 0x1_0000 * (bs[2] as int) + 0x100_0000 * (bs[3] as int)
  {
    TwoBytes(bs[1..][1..]);
  }

  lemma MapFromVector(view: Bytes, offset: nat)
    ensures match Read(KVector(ENTRY), view, offset)
            case Overrun => Read(KMap, view, offset).Overrun?
            case Parsed(v, o) => v.VSeq? && Read(KMap, view, offset) == Parsed(VMap(MapOf(EntriesOf(v.vs))), o)
  {
  }

  /** One more entry in the map and in the values read. */
  lemma EntryTaken(fs: seq<Kind>, view: Bytes, from: nat, es: Entries, key: Bytes, value: Bytes)
    requires Agrees(fs, view, from, EntryValues(es)) && |es| < |fs|
    requires ReadAll(fs, view, from).Parsed? ==> ReadAll(fs, view, from).value[|es|] == EntryValue((key, value))
    ensures MapOf(es + [(key, value)]) == MapOf(es)[key := value]
    ensures Agrees(fs, view, from, EntryValues(es + [(key, value)]))
  {
    hide Agrees, ReadAll, MapOf, EntryValues, EntryValue;
    EntryValuesAppend(es, (key, value));
    MapOfAppend(es, key, value);
    AgreesNext(fs, view, from, EntryValues(es), EntryValue((key, value)));
  }

  lemma EmptyEntries()
    ensures MapOf([]) == map[] && EntryValues([]) == []
  {
  }

  lemma CompletedFrom(fs: seq<Kind>, view: Bytes, offset: nat)
    ensures Completed(fs[0..], view, offset) == Completed(fs, view, offset)
  {
    assert fs[0..] == fs;
  }

  lemma CompletedStep(fs: seq<Kind>, view: Bytes, i: nat, offset: nat)
    requires i < |fs|
    ensures Completed(fs[i..], view, offset)
         == if Read(fs[i], view, offset).Overrun? then 0
            else 1 + Completed(fs[i + 1..], view, Read(fs[i], view, offset).offset)
  {
    assert fs[i..][0] == fs[i] && fs[i..][1..] == fs[i + 1..];
  }

  lemma NoneLeft(fs: seq<Kind>, view: Bytes, offset: nat)
    ensures Completed(fs[|fs|..], view, offset) == 0
  {
  }

  /** A two-field record reads as its fields one after the other. */
  lemma PairSteps(a: Kind, b: Kind, view: Bytes, offset: nat)
    ensures
      var first := Read(a, view, offset);
      var second := if first.Parsed? then Read(b, view, first.offset) else Overrun;
      Read(KStruct([a, b]), view, offset)
      == if second.Parsed? then Parsed(VSeq([first.value, second.value]), second.offset) else Overrun
  {
    var fs := [a, b];
    var first := Read(a, view, offset);
    assert fs[1..] == [b];
    if first.Parsed? {
      LastField(b, view, first.offset);
      var second := Read(b, view, first.offset);
      if second.Parsed? {
        assert [first.value] + [second.value] == [first.value, second.value];
      }
    }
  }

  lemma LastField(k: Kind, view: Bytes, offset: nat)
    ensures
      var r := Read(k, view, offset);
      ReadAll([k], view, offset) == if r.Parsed? then Parsed([r.value], r.offset) else Overrun
  {
    var r := Read(k, view, offset);
    assert [k][1..] == [];
    if r.Parsed? {
      assert ReadAll([k][1..], view, r.offset) == Parsed([], r.offset);
      assert [r.value] + [] == [r.value];
    }
  }

  lemma ManufacturerWork(n: nat, view: Bytes, offset: nat)
    requires offset <= |view|
    ensures 6 * Completed(Repeat(MANUFACTURER, n), view, offset) <= |view| - offset
  {
    PairWidth(KUInt(2), KBlob);
    WorkIsBounded(MANUFACTURER, n, view, offset);
  }

  lemma EntryWork(n: nat, view: Bytes, offset: nat)
    requires offset <= |view|
    ensures 8 * Completed(Repeat(ENTRY, n), view, offset) <= |view| - offset
  {
    PairWidth(KBlob, KBlob);
    WorkIsBounded(ENTRY, n, view, offset);
  }

  lemma PairWidth(a: Kind, b: Kind)
    ensures MinWidth(KStruct([a, b])) == MinWidth(a) + MinWidth(b)
  {
    assert [a, b][1..] == [b] && [b][1..] == [];
    assert MinWidthAll([b]) == MinWidth(b);
  }

  lemma {:induction false} EntryValuesAppend(es: Entries, e: (Bytes, Bytes))
    ensures EntryValues(es + [e]) == EntryValues(es) + [EntryValue(e)]
  {
    if es == [] {
      assert [e][1..] == [];
    } else {
      EntryValuesAppend(es[1..], e);
      assert (es + [e])[1..] == es[1..] + [e];
    }
  }

  // ── Struct decoders ──────────────────────────────────────────────────────

  method DecodeAdapter(r: Reader) returns (result: Result<AdapterProps>)
    requires r.Valid() && r.offset <= r.length
    modifies r
    ensures match Read(ADAPTER, r.View(), old(r.offset))
            case Overrun => result == RangeError
            case Parsed(v, end) => result == Success(AdapterOf(v)) && r.offset == end
  {
    hide Read, ReadAll, FieldStart, AdapterOf, AdapterFields, Reader.View, AdapterIdentity, AdapterState;
    ghost var fs, from := AdapterFields(), r.offset;
    Begin(fs, r.View(), from);
    AdapterFieldKinds();
    var identity :- DecodeAdapterIdentity(r, from);
    var props :- DecodeAdapterState(r, identity, from);
    Finish(fs, r.View(), from, r.offset);
    AdapterOfFields(ReadAll(fs, r.View(), from).value, props);
    return Success(props);
  }

  /** The fields from objectPath to alias; the rest stay at their defaults. */
  method DecodeAdapterIdentity(r: Reader, ghost from: nat) returns (result: Result<AdapterProps>)
    requires r.Valid() && from == r.offset <= r.length
    modifies r
    ensures
      var whole := ReadAll(AdapterFields(), r.View(), from);
      if result.RangeError? then whole.Overrun? && Read(ADAPTER, r.View(), from).Overrun?
      else
        && FieldStart(AdapterFields(), r.View(), from, 5) == Parsed((), r.offset) && r.offset <= r.length
        && (whole.Parsed? ==> AdapterIdentity(whole.value, result.value))
  {
    hide Read, ReadAll, FieldStart, AdapterFields, Reader.View, ReadUInt;
    ghost var fs, view := AdapterFields(), r.View();
    AdapterFieldKinds();
    Begin(fs, view, from);
    Step(fs, view, from, 0, r.offset);
    var objectPath :- r.ReadString();
    Step(fs, view, from, 1, r.offset);
    var changedMask :- r.ReadUint32();
    Step(fs, view, from, 2, r.offset);
    var address :- r.ReadString();
    Step(fs, view, from, 3, r.offset);
    var name :- r.ReadString();
    Step(fs, view, from, 4, r.offset);
    var alias :- r.ReadString();
    return Success(AdapterProps(objectPath, changedMask, address, name, alias, false, false, false, false, 0, []));
  }

  /** The fields from powered on, added to what is already decoded. */
  method DecodeAdapterState(r: Reader, identity: AdapterProps, ghost from: nat) returns (result: Result<AdapterProps>)
    requires r.Valid() && r.offset <= r.length && |AdapterFields()| == 11
    requires FieldStart(AdapterFields(), r.View(), from, 5) == Parsed((), r.offset)
    requires
      var whole := ReadAll(AdapterFields(), r.View(), from);
      whole.Parsed? ==> AdapterIdentity(whole.value, identity)
    modifies r
    ensures
      var whole := ReadAll(AdapterFields(), r.View(), from);
      if result.RangeError? then whole.Overrun? && Read(ADAPTER, r.View(), from).Overrun?
      else
        && FieldStart(AdapterFields(), r.View(), from, 11) == Parsed((), r.offset)
        && (whole.Parsed? ==> AdapterIdentity(whole.value, result.value) && AdapterState(whole.value, result.value))
  {
    hide Read, ReadAll, FieldStart, AdapterFields, Reader.View, ReadUInt;
    ghost var fs, view := AdapterFields(), r.View();
    AdapterFieldKinds();
    Step(fs, view, from, 5, r.offset);
    var powered :- r.ReadBool();
    Step(fs, view, from, 6, r.offset);
    var discoverable :- r.ReadBool();
    Step(fs, view, from, 7, r.offset);
    var pairable :- r.ReadBool();
    Step(fs, view, from, 8, r.offset);
    var discovering :- r.ReadBool();
    Step(fs, view, from, 9, r.offset);
    var discoverableTimeout :- r.ReadUint32();
    Step(fs, view, from, 10, r.offset);
    var uuids, _ :- r.ReadStringList();
    return Success(identity.(
      powered := powered, discoverable := discoverable, pairable := pairable, discovering := discovering,
      discoverableTimeout := discoverableTimeout, uuids := uuids));
  }

  method DecodeDevice(r: Reader) returns (result: Result<DeviceProps>)
    requires r.Valid() && r.offset <= r.length
    modifies r
    ensures match Read(DEVICE, r.View(), old(r.offset))
            case Overrun => result == RangeError
            case Parsed(v, end) => result == Success(DeviceOf(v)) && r.offset == end
  {
    hide Read, ReadAll, FieldStart, DeviceOf, DeviceFields, Reader.View, DeviceIdentity, DeviceState;
    ghost var fs, from := DeviceFields(), r.offset;
    Begin(fs, r.View(), from);
    DeviceFieldKinds();
    var identity :- DecodeDeviceIdentity(r, from);
    var props :- DecodeDeviceState(r, identity, from);
    Finish(fs, r.View(), from, r.offset);
    DeviceOfFields(ReadAll(fs, r.View(), from).value, props);
    return Success(props);
  }

  /** The fields from objectPath to deviceClass; the rest stay at their defaults. */
  method DecodeDeviceIdentity(r: Reader, ghost from: nat) returns (result: Result<DeviceProps>)
    requires r.Valid() && from == r.offset <= r.length
    modifies r
    ensures
      var whole := ReadAll(DeviceFields(), r.View(), from);
      if result.RangeError? then whole.Overrun? && Read(DEVICE, r.View(), from).Overrun?
      else
        && FieldStart(DeviceFields(), r.View(), from, 11) == Parsed((), r.offset) && r.offset <= r.length
        && (whole.Parsed? ==> DeviceIdentity(whole.value, result.value))
  {
    hide Read, ReadAll, FieldStart, DeviceFields, Reader.View, ReadUInt;
    ghost var fs, view := DeviceFields(), r.View();
    DeviceFieldKinds();
    var names :- DecodeDeviceNames(r, from);
    Step(fs, view, from, 7, r.offset);
    var rssi :- r.ReadInt16();
    Step(fs, view, from, 8, r.offset);
    var txPower :- r.ReadInt16();
    Step(fs, view, from, 9, r.offset);
    var appearance :- r.ReadUint16();
    Step(fs, view, from, 10, r.offset);
    var deviceClass :- r.ReadUint32();
    return Success(names.(rssi := rssi, txPower := txPower, appearance := appearance, deviceClass := deviceClass));
  }

  method DecodeDeviceNames(r: Reader, ghost from: nat) returns (result: Result<DeviceProps>)
    requires r.Valid() && from == r.offset <= r.length
    modifies r
    ensures
      var whole := ReadAll(DeviceFields(), r.View(), from);
      if result.RangeError? then whole.Overrun? && Read(DEVICE, r.View(), from).Overrun?
      else
        && FieldStart(DeviceFields(), r.View(), from, 7) == Parsed((), r.offset) && r.offset <= r.length
        && (whole.Parsed? ==> DeviceNames(whole.value, result.value))
  {
    hide Read, ReadAll, FieldStart, DeviceFields, Reader.View, ReadUInt;
    ghost var fs, view := DeviceFields(), r.View();
    DeviceFieldKinds();
    Begin(fs, view, from);
    Step(fs, view, from, 0, r.offset);
    var objectPath :- r.ReadString();
    Step(fs, view, from, 1, r.offset);
    var changedMask :- r.ReadUint32();
    Step(fs, view, from, 2, r.offset);
    var adapterPath :- r.ReadString();
    Step(fs, view, from, 3, r.offset);
    var address :- r.ReadString();
    Step(fs, view, from, 4, r.offset);
    var addressType :- r.ReadString();
    Step(fs, view, from, 5, r.offset);
    var name :- r.ReadString();
    Step(fs, view, from, 6, r.offset);
    var alias :- r.ReadString();
    return Success(DeviceProps(objectPath, changedMask, adapterPath, address, addressType, name, alias, 0, 0, 0, 0,
                               false, false, false, false, false, false, [], [], map[]));
  }

  /** The fields from paired on, added to what is already decoded. */
  method DecodeDeviceState(r: Reader, identity: DeviceProps, ghost from: nat) returns (result: Result<DeviceProps>)
    requires r.Valid() && r.offset <= r.length && |DeviceFields()| == 20
    requires FieldStart(DeviceFields(), r.View(), from, 11) == Parsed((), r.offset)
    requires
      var whole := ReadAll(DeviceFields(), r.View(), from);
      whole.Parsed? ==> DeviceIdentity(whole.value, identity)
    modifies r
    ensures
      var whole := ReadAll(DeviceFields(), r.View(), from);
      if result.RangeError? then whole.Overrun? && Read(DEVICE, r.View(), from).Overrun?
      else
        && FieldStart(DeviceFields(), r.View(), from, 20) == Parsed((), r.offset)
        && (whole.Parsed? ==> DeviceIdentity(whole.value, result.value) && DeviceState(whole.value, result.value))
  {
    hide Read, ReadAll, FieldStart, DeviceFields, Reader.View, ReadUInt;
    ghost var fs, view := DeviceFields(), r.View();
    DeviceFieldKinds();
    var flags :- DecodeDeviceFlags(r, identity, from);
    Step(fs, view, from, 17, r.offset);
    var uuids, _ :- r.ReadStringList();
    Step(fs, view, from, 18, r.offset);
    var manufacturerData, _ :- r.ReadManufacturerDataList();
    Step(fs, view, from, 19, r.offset);
    var serviceData, _ :- r.ReadServiceDataMap();
    return Success(flags.(uuids := uuids, manufacturerData := manufacturerData, serviceData := serviceData));
  }

  method DecodeDeviceFlags(r: Reader, identity: DeviceProps, ghost from: nat) returns (result: Result<DeviceProps>)
    requires r.Valid() && r.offset <= r.length && |DeviceFields()| == 20
    requires FieldStart(DeviceFields(), r.View(), from, 11) == Parsed((), r.offset)
    requires
      var whole := ReadAll(DeviceFields(), r.View(), from);
      whole.Parsed? ==> DeviceIdentity(whole.value, identity)
    modifies r
    ensures
      var whole := ReadAll(DeviceFields(), r.View(), from);
      if result.RangeError? then whole.Overrun? && Read(DEVICE, r.View(), from).Overrun?
      else
        && FieldStart(DeviceFields(), r.View(), from, 17) == Parsed((), r.offset) && r.offset <= r.length
        && (whole.Parsed? ==> DeviceIdentity(whole.value, result.value) && DeviceFlags(whole.value, result.value))
  {
    hide Read, ReadAll, FieldStart, DeviceFields, Reader.View, ReadUInt;
    ghost var fs, view := DeviceFields(), r.View();
    DeviceFieldKinds();
    Step(fs, view, from, 11, r.offset);
    var paired :- r.ReadBool();
    Step(fs, view, from, 12, r.offset);
    var trusted :- r.ReadBool();
    Step(fs, view, from, 13, r.offset);
    var blocked :- r.ReadBool();
    Step(fs, view, from, 14, r.offset);
    var connected :- r.ReadBool();
    Step(fs, view, from, 15, r.offset);
    var servicesResolved :- r.ReadBool();
    Step(fs, view, from, 16, r.offset);
    var legacyPairing :- r.ReadBool();
    return Success(identity.(
      paired := paired, trusted := trusted, blocked := blocked, connected := connected,
      servicesResolved := servicesResolved, legacyPairing := legacyPairing));
  }

  method DecodeChar(r: Reader) returns (result: Result<CharProps>)
    requires r.Valid() && r.offset <= r.length
    modifies r
    ensures match Read(CHARACTERISTIC, r.View(), old(r.offset))
            case Overrun => result == RangeError
            case Parsed(v, end) => result == Success(CharOf(v)) && r.offset == end
  {
    hide Read, ReadAll, FieldStart, CharOf, CharFields, Reader.View, CharNames, CharState;
    ghost var fs, from := CharFields(), r.offset;
    CharFieldKinds();
    var names :- DecodeCharNames(r, from);
    var props :- DecodeCharState(r, names, from);
    Finish(fs, r.View(), from, r.offset);
    CharOfFields(ReadAll(fs, r.View(), from).value, props);
    return Success(props);
  }

  /** The fields from objectPath to value; the rest stay at their defaults. */
  method DecodeCharNames(r: Reader, ghost from: nat) returns (result: Result<CharProps>)
    requires r.Valid() && from == r.offset <= r.length
    modifies r
    ensures
      var whole := ReadAll(CharFields(), r.View(), from);
      if result.RangeError? then whole.Overrun? && Read(CHARACTERISTIC, r.View(), from).Overrun?
      else
        && FieldStart(CharFields(), r.View(), from, 4) == Parsed((), r.offset) && r.offset <= r.length
        && (whole.Parsed? ==> CharNames(whole.value, result.value))
  {
    hide Read, ReadAll, FieldStart, CharFields, Reader.View, ReadUInt;
    ghost var fs, view := CharFields(), r.View();
    CharFieldKinds();
    Begin(fs, view, from);
    Step(fs, view, from, 0, r.offset);
    var objectPath :- r.ReadString();
    Step(fs, view, from, 1, r.offset);
    var servicePath :- r.ReadString();
    Step(fs, view, from, 2, r.offset);
    var uuid :- r.ReadString();
    Step(fs, view, from, 3, r.offset);
    var value :- r.ReadByteList();
    return Success(CharProps(objectPath, servicePath, uuid, value, false, false, false, 0, 0, []));
  }

  /** The fields from notifying on, added to what is already decoded. */
  method DecodeCharState(r: Reader, names: CharProps, ghost from: nat) returns (result: Result<CharProps>)
    requires r.Valid() && r.offset <= r.length && |CharFields()| == 10
    requires FieldStart(CharFields(), r.View(), from, 4) == Parsed((), r.offset)
    requires
      var whole := ReadAll(CharFields(), r.View(), from);
      whole.Parsed? ==> CharNames(whole.value, names)
    modifies r
    ensures
      var whole := ReadAll(CharFields(), r.View(), from);
      if result.RangeError? then whole.Overrun? && Read(CHARACTERISTIC, r.View(), from).Overrun?
      else
        && FieldStart(CharFields(), r.View(), from, 10) == Parsed((), r.offset)
        && (whole.Parsed? ==> CharNames(whole.value, result.value) && CharState(whole.value, result.value))
  {
    hide Read, ReadAll, FieldStart, CharFields, Reader.View, ReadUInt;
    ghost var fs, view := CharFields(), r.View();
    CharFieldKinds();
    Step(fs, view, from, 4, r.offset);
    var notifying :- r.ReadBool();
    Step(fs, view, from, 5, r.offset);
    var writeAcquired :- r.ReadBool();
    Step(fs, view, from, 6, r.offset);
    var notifyAcquired :- r.ReadBool();
    Step(fs, view, from, 7, r.offset);
    var handle :- r.ReadUint16();
    Step(fs, view, from, 8, r.offset);
    var mtu :- r.ReadUint16();
    Step(fs, view, from, 9, r.offset);
    var flags, _ :- r.ReadStringList();
    return Success(names.(
      notifying := notifying, writeAcquired := writeAcquired, notifyAcquired := notifyAcquired,
      handle := handle, mtu := mtu, flags := flags));
  }

  method DecodeService(r: Reader) returns (result: Result<ServiceProps>)
    requires r.Valid() && r.offset <= r.length
    modifies r
    ensures match Read(SERVICE, r.View(), old(r.offset))
            case Overrun => result == RangeError
            case Parsed(v, end) => result == Success(ServiceOf(v)) && r.offset == end
  {
    hide Read, ReadAll, FieldStart, ServiceOf;
    ghost var fs, view, from := SERVICE.fields, r.View(), r.offset;
    Begin(fs, view, from);
    Step(fs, view, from, 0, r.offset);
    var objectPath :- r.ReadString();
    Step(fs, view, from, 1, r.offset);
    var devicePath :- r.ReadString();
    Step(fs, view, from, 2, r.offset);
    var uuid :- r.ReadString();
    Step(fs, view, from, 3, r.offset);
    var primary :- r.ReadBool();
    Step(fs, view, from, 4, r.offset);
    var handle :- r.ReadUint16();
    Finish(fs, view, from, r.offset);
    var props := ServiceProps(objectPath, devicePath, uuid, primary, handle);
    ServiceOfFields(ReadAll(fs, view, from).value, props);
    return Success(props);
  }

  method DecodeDesc(r: Reader) returns (result: Result<DescProps>)
    requires r.Valid() && r.offset <= r.length
    modifies r
    ensures match Read(DESCRIPTOR, r.View(), old(r.offset))
            case Overrun => result == RangeError
            case Parsed(v, end) => result == Success(DescOf(v)) && r.offset == end
  {
    hide Read, ReadAll, FieldStart, DescOf;
    ghost var fs, view, from := DESCRIPTOR.fields, r.View(), r.offset;
    Begin(fs, view, from);
    Step(fs, view, from, 0, r.offset);
    var objectPath :- r.ReadString();
    Step(fs, view, from, 1, r.offset);
    var charPath :- r.ReadString();
    Step(fs, view, from, 2, r.offset);
    var uuid :- r.ReadString();
    Step(fs, view, from, 3, r.offset);
    var value :- r.ReadByteList();
    Step(fs, view, from, 4, r.offset);
    var handle :- r.ReadUint16();
    Finish(fs, view, from, r.offset);
    var props := DescProps(objectPath, charPath, uuid, value, handle);
    DescOfFields(ReadAll(fs, view, from).value, props);
    return Success(props);
  }

  method DecodeValueResult(r: Reader) returns (result: Result<ValueResult>)
    requires r.Valid() && r.offset <= r.length
    modifies r
    ensures match Read(VALUE_RESULT, r.View(), old(r.offset))
            case Overrun => result == RangeError
            case Parsed(v, end) => result == Success(ValueResultOf(v)) && r.offset == end
  {
    hide Read, ReadAll, FieldStart, ValueResultOf;
    ghost var fs, view, from := VALUE_RESULT.fields, r.View(), r.offset;
    Begin(fs, view, from);
    Step(fs, view, from, 0, r.offset);
    var objectPath :- r.ReadString();
    Step(fs, view, from, 1, r.offset);
    var value :- r.ReadByteList();
    Finish(fs, view, from, r.offset);
    var props := ValueResult(objectPath, value);
    ValueResultOfFields(ReadAll(fs, view, from).value, props);
    return Success(props);
  }

  method DecodeError(r: Reader) returns (result: Result<ErrorReply>)
    requires r.Valid() && r.offset <= r.length
    modifies r
    ensures match Read(ERROR, r.View(), old(r.offset))
            case Overrun => result == RangeError
            case Parsed(v, end) => result == Success(ErrorOf(v)) && r.offset == end
  {
    hide Read, ReadAll, FieldStart, ErrorOf;
    ghost var fs, view, from := ERROR.fields, r.View(), r.offset;
    Begin(fs, view, from);
    Step(fs, view, from, 0, r.offset);
    var objectPath :- r.ReadString();
    Step(fs, view, from, 1, r.offset);
    var name :- r.ReadString();
    Step(fs, view, from, 2, r.offset);
    var message :- r.ReadString();
    Finish(fs, view, from, r.offset);
    var props := ErrorReply(objectPath, name, message);
    ErrorOfFields(ReadAll(fs, view, from).value, props);
    return Success(props);
  }
}
