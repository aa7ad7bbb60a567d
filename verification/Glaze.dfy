/** The templates of glaze_meta.h: encoders that append to a buffer, decoders that walk a raw pointer. */
module Glaze {
  import opened ByteStrings
  import opened Schema
  import opened Wire

  /** The std::vector<uint8_t> the encoders append to. */
  class Buffer {
    var data: Bytes

    constructor ()
      ensures data == []
    {
      data := [];
    }

    method WriteBytes(bytes: Bytes)
      modifies this
      ensures data == old(data) + bytes
    {
      data := data + bytes;
    }

    method EncodeField(k: Kind, v: Value)
      requires HasKind(k, v)
      modifies this
      ensures data == old(data) + Encode(k, v)
      decreases Depth(k), 0
    {
      hide LengthPrefix, LittleEndian, HaveKinds, EncodeAll;
      match k
      case KBool => WriteBytes([if v.b then 1 else 0]);
      case KUInt(w) => WriteBytes(LittleEndian(v.n, w));
      case KInt16 => WriteBytes(LittleEndian(v.n % 0x1_0000, 2));
      case KBlob =>
        WriteBytes(LengthPrefix(|v.bytes|));
        WriteBytes(v.bytes);
        Regroup(old(data), LengthPrefix(|v.bytes|), v.bytes);
      case KVector(e) =>
        WriteBytes(LengthPrefix(|v.vs|));
        EncodeEach(Repeat(e, |v.vs|), v.vs);
        Regroup(old(data), LengthPrefix(|v.vs|), EncodeAll(Repeat(e, |v.vs|), v.vs));
      case KStruct(fs) => EncodeEach(fs, v.vs);
      case KMap => EncodeMap(v.m);
    }

    /** The fold over a struct's field tuple, and the loop over a vector's elements. */
    method EncodeEach(fs: seq<Kind>, vs: seq<Value>)
      requires HaveKinds(fs, vs)
      modifies this
      ensures data == old(data) + EncodeAll(fs, vs)
      decreases DepthAll(fs), 1 + |fs|
    {
      hide Encode, HasKind;
      assert fs[0..] == fs && vs[0..] == vs;
      var i := 0;
      while i < |fs|
        invariant 0 <= i <= |fs| == |vs| && DepthAll(fs[i..]) <= DepthAll(fs)
        invariant HaveKinds(fs[i..], vs[i..])
        invariant data + EncodeAll(fs[i..], vs[i..]) == old(data) + EncodeAll(fs, vs)
      {
        EncodeAllStep(fs, vs, i);
        Regroup(data, Encode(fs[i], vs[i]), EncodeAll(fs[i + 1..], vs[i + 1..]));
        EncodeField(fs[i], vs[i]);
        i := i + 1;
      }
    }

    method EncodeMap(m: map<Bytes, Bytes>)
      modifies this
      ensures data == old(data) + Encode(KMap, VMap(m))
      ensures exists es :: InKeyOrder(es, m) && data == old(data) + LengthPrefix(|m|) + EntryBytes(es)
    {
      hide LengthPrefix, EntryBytes, Encode, InKeyOrder;
      var es := SortedEntries(m);
      WriteBytes(LengthPrefix(|m|));
      WriteEntries(es);
      MapBytesInKeyOrder(m);
      Regroup(old(data), LengthPrefix(|m|), EntryBytes(es));
    }

    method WriteEntries(es: Entries)
      modifies this
      ensures data == old(data) + EntryBytes(es)
    {
      hide BlobBytes;
      assert es[0..] == es;
      var i := 0;
      while i < |es|
        invariant 0 <= i <= |es|
        invariant data + EntryBytes(es[i..]) == old(data) + EntryBytes(es)
      {
        assert es[i..][0] == es[i] && es[i..][1..] == es[i + 1..];
        Regroup(data, BlobBytes(es[i].0), BlobBytes(es[i].1) + EntryBytes(es[i + 1..]));
        Regroup(data + BlobBytes(es[i].0), BlobBytes(es[i].1), EntryBytes(es[i + 1..]));
        WriteBlob(es[i].0);
        WriteBlob(es[i].1);
        i := i + 1;
      }
    }

    method WriteBlob(bytes: Bytes)
      modifies this
      ensures data == old(data) + BlobBytes(bytes)
    {
      WriteBytes(LengthPrefix(|bytes|));
      WriteBytes(bytes);
      assert old(data) + LengthPrefix(|bytes|) + bytes == old(data) + BlobBytes(bytes);
    }
  }

  lemma EncodeAllStep(fs: seq<Kind>, vs: seq<Value>, i: nat)
    requires i < |fs| == |vs| && HaveKinds(fs[i..], vs[i..])
    ensures HasKind(fs[i], vs[i]) && HaveKinds(fs[i + 1..], vs[i + 1..])
    ensures EncodeAll(fs[i..], vs[i..]) == Encode(fs[i], vs[i]) + EncodeAll(fs[i + 1..], vs[i + 1..])
    ensures Depth(fs[i]) <= DepthAll(fs[i..]) && DepthAll(fs[i + 1..]) <= DepthAll(fs[i..])
  {
    assert fs[i..][0] == fs[i] && fs[i..][1..] == fs[i + 1..] && vs[i..][1..] == vs[i + 1..];
  }

  function BlobBytes(bytes: Bytes): Bytes {
    LengthPrefix(|bytes|) + bytes
  }

  function EntryBytes(es: Entries): Bytes {
    if es == [] then [] else BlobBytes(es[0].0) + (BlobBytes(es[0].1) + EntryBytes(es[1..]))
  }

  lemma EntryEncode(e: (Bytes, Bytes))
    ensures HasKind(ENTRY, EntryValue(e)) && Encode(ENTRY, EntryValue(e)) == BlobBytes(e.0) + BlobBytes(e.1)
  {
    var fs, vs := [KBlob, KBlob], [VBlob(e.0), VBlob(e.1)];
    assert fs[1..] == [KBlob] && vs[1..] == [VBlob(e.1)];
    assert fs[1..][1..] == [] && vs[1..][1..] == [];
    assert HaveKinds(fs[1..], vs[1..]);
    assert EncodeAll(fs[1..], vs[1..]) == BlobBytes(e.1);
  }

  /** Writing key and value alternately is encoding a vector of key/value records. */
  lemma {:induction false} EntriesEncode(es: Entries)
    ensures EncodeAll(Repeat(ENTRY, |es|), EntryValues(es)) == EntryBytes(es)
  {
    hide Encode, BlobBytes, HasKind;
    if es == [] {
    } else {
      RepeatTail(ENTRY, |es|);
      EntriesEncode(es[1..]);
      EntryEncode(es[0]);
      assert EntryValues(es)[1..] == EntryValues(es[1..]);
      Regroup(BlobBytes(es[0].0), BlobBytes(es[0].1), EntryBytes(es[1..]));
    }
  }

  lemma MapEncode(m: map<Bytes, Bytes>)
    ensures Encode(KMap, VMap(m)) == LengthPrefix(|m|) + EntryBytes(SortedEntries(m))
  {
    EntriesEncode(SortedEntries(m));
  }

  /** es holds m's entries, each once, the key that is smaller byte for byte before the larger. */
  ghost predicate InKeyOrder(es: Entries, m: map<Bytes, Bytes>) {
    && |es| == |m|
    && (forall i :: 0 <= i < |es| ==> es[i].0 in m && m[es[i].0] == es[i].1)
    && (forall i, j :: 0 <= i < j < |es| ==> Precedes(es[i].0, es[j].0))
  }

  lemma {:induction false} AscendingInOrder(es: Entries, i: nat, j: nat)
    requires Ascending(es) && i < j < |es|
    ensures Less(es[i].0, es[j].0)
  {
    if i > 0 {
      AscendingInOrder(es[1..], i - 1, j - 1);
    } else if j > 1 {
      AscendingInOrder(es[1..], 0, j - 1);
      LessTransitive(es[0].0, es[1].0, es[j].0);
    }
  }

  lemma {:induction false} SortedEntriesFromMap(m: map<Bytes, Bytes>, i: nat)
    requires i < |SortedEntries(m)|
    ensures SortedEntries(m)[i].0 in m && m[SortedEntries(m)[i].0] == SortedEntries(m)[i].1
    decreases |m|
  {
    if i > 0 {
      var k := Least(m.Keys);
      assert (m - {k}).Keys == m.Keys - {k};
      SortedEntriesFromMap(m - {k}, i - 1);
    }
  }

  /** A map is written as its count and its entries, the keys in the order of their bytes. */
  lemma {:induction false} MapBytesInKeyOrder(m: map<Bytes, Bytes>)
    ensures InKeyOrder(SortedEntries(m), m)
    ensures Encode(KMap, VMap(m)) == LengthPrefix(|m|) + EntryBytes(SortedEntries(m))
  {
    var es := SortedEntries(m);
    MapEncode(m);
    SortedEntriesAscend(m);
    forall i, j | 0 <= i < j < |es| ensures Precedes(es[i].0, es[j].0) {
      AscendingInOrder(es, i, j);
      LessIsPrecedes(es[i].0, es[j].0);
    }
    forall i | 0 <= i < |es| ensures es[i].0 in m && m[es[i].0] == es[i].1 {
      SortedEntriesFromMap(m, i);
    }
  }

  // ── Decoding ─────────────────────────────────────────────────────────────

  method DecodeField(k: Kind, mem: Memory, offset: nat) returns (v: Value, end: nat)
    ensures (v, end) == Fetch(k, mem, offset)
    decreases Depth(k), 0
  {
    match k
    case KBool => v, end := VBool(mem(offset) != 0), offset + 1;
    case KUInt(w) => v, end := VInt(FromLittleEndian(Load(mem, offset, w))), offset + w;
    case KInt16 => v, end := VInt(Signed(FromLittleEndian(Load(mem, offset, 2)))), offset + 2;
    case KBlob =>
      var bytes;
      bytes, end := DecodeBlob(mem, offset);
      v := VBlob(bytes);
    case KVector(e) =>
      var count := FromLittleEndian(Load(mem, offset, 4));
      var vs;
      vs, end := DecodeEach(Repeat(e, count), mem, offset + 4);
      v := VSeq(vs);
    case KStruct(fs) =>
      var vs;
      vs, end := DecodeEach(fs, mem, offset);
      v := VSeq(vs);
    case KMap =>
      var m;
      m, end := DecodeMap(mem, offset);
      v := VMap(m);
  }

  method DecodeBlob(mem: Memory, offset: nat) returns (bytes: Bytes, end: nat)
    ensures (VBlob(bytes), end) == Fetch(KBlob, mem, offset)
  {
    var len := FromLittleEndian(Load(mem, offset, 4));
    bytes := Load(mem, offset + 4, len);
    end := offset + 4 + len;
  }

  function After<T>(first: seq<T>, r: (seq<T>, nat)): (seq<T>, nat) {
    (first + r.0, r.1)
  }

  lemma AfterNothing<T>(r: (seq<T>, nat))
    ensures After([], r) == r
  {
    assert [] + r.0 == r.0;
  }

  lemma AfterOneMore<T>(first: seq<T>, x: T, rest: seq<T>, end: nat)
    ensures After(first, ([x] + rest, end)) == After(first + [x], (rest, end))
  {
    assert first + ([x] + rest) == (first + [x]) + rest;
  }

  method DecodeEach(fs: seq<Kind>, mem: Memory, offset: nat) returns (vs: seq<Value>, end: nat)
    ensures (vs, end) == FetchAll(fs, mem, offset)
    decreases DepthAll(fs), 1 + |fs|
  {
    vs, end := [], offset;
    var i := 0;
    assert fs[0..] == fs;
    AfterNothing(FetchAll(fs, mem, offset));
    while i < |fs|
      invariant 0 <= i <= |fs| && DepthAll(fs[i..]) <= DepthAll(fs)
      invariant FetchAll(fs, mem, offset) == After(vs, FetchAll(fs[i..], mem, end))
    {
      assert fs[i..][0] == fs[i] && fs[i..][1..] == fs[i + 1..];
      var v;
      v, end := DecodeField(fs[i], mem, end);
      AfterOneMore(vs, v, FetchAll(fs[i + 1..], mem, end).0, FetchAll(fs[i + 1..], mem, end).1);
      vs := vs + [v];
      i := i + 1;
    }
    assert vs + [] == vs;
  }

  method DecodeMap(mem: Memory, offset: nat) returns (m: map<Bytes, Bytes>, end: nat)
    ensures (VMap(m), end) == Fetch(KMap, mem, offset)
  {
    var count := FromLittleEndian(Load(mem, offset, 4));
    m, end := map[], offset + 4;
    ghost var es: Entries := [];
    AfterNothing(FetchEntries(count, mem, offset + 4));
    var i := 0;
    while i < count
      invariant 0 <= i <= count && m == MapOf(es)
      invariant FetchEntries(count, mem, offset + 4) == After(es, FetchEntries(count - i, mem, end))
    {
      FetchEntriesStep(count - i, mem, end);
      var key, val;
      key, end := DecodeBlob(mem, end);
      val, end := DecodeBlob(mem, end);
      m := m[key := val];
      MapOfAppend(es, key, val);
      AfterOneMore(es, (key, val), FetchEntries(count - i - 1, mem, end).0, FetchEntries(count - i - 1, mem, end).1);
      es := es + [(key, val)];
      i := i + 1;
    }
    assert es + [] == es;
  }

  function FetchEntries(n: nat, mem: Memory, offset: nat): (Entries, nat) {
    var r := FetchAll(Repeat(ENTRY, n), mem, offset);
    (EntriesOf(r.0), r.1)
  }

  lemma FetchEntriesStep(n: nat, mem: Memory, offset: nat)
    requires n > 0
    ensures
      var (key, mid) := Fetch(KBlob, mem, offset);
      var (val, end) := Fetch(KBlob, mem, mid);
      var rest := FetchEntries(n - 1, mem, end);
      key.VBlob? && val.VBlob? && FetchEntries(n, mem, offset) == ([(key.bytes, val.bytes)] + rest.0, rest.1)
  {
    RepeatTail(ENTRY, n);
    FetchEntry(mem, offset);
    var (v, end) := Fetch(ENTRY, mem, offset);
    var tail := FetchAll(Repeat(ENTRY, n - 1), mem, end).0;
    assert ([v] + tail)[1..] == tail;
  }

  lemma FetchEntry(mem: Memory, offset: nat)
    ensures
      var (key, mid) := Fetch(KBlob, mem, offset);
      var (val, end) := Fetch(KBlob, mem, mid);
      key.VBlob? && val.VBlob? && Fetch(ENTRY, mem, offset) == (EntryValue((key.bytes, val.bytes)), end)
  {
    var (key, mid) := Fetch(KBlob, mem, offset);
    var (val, end) := Fetch(KBlob, mem, mid);
    var fs := [KBlob, KBlob];
    assert fs[1..] == [KBlob];
    assert [KBlob][1..] == [] && [val] + [] == [val];
    assert FetchAll([KBlob][1..], mem, end) == ([], end);
    assert FetchAll([KBlob], mem, mid) == ([val], end);
    assert [key] + [val] == [key, val];
  }
}
