/** Properties of the wire format, for every field type. */
module WireTheorems {
  import opened ByteStrings
  import opened Schema
  import opened Wire

  // ── Entries ──────────────────────────────────────────────────────────────

  lemma {:induction false} EntriesRoundTrip(es: Entries)
    ensures EntriesOf(EntryValues(es)) == es
  {
    if es == [] {
    } else {
      EntriesRoundTrip(es[1..]);
      assert EntryValues(es)[1..] == EntryValues(es[1..]);
    }
  }

  lemma {:induction false} EntryValuesRoundTrip(vs: seq<Value>)
    requires HaveKinds(Repeat(ENTRY, |vs|), vs)
    ensures EntryValues(EntriesOf(vs)) == vs
  {
    if vs == [] {
    } else {
      RepeatTail(ENTRY, |vs|);
      EntryValuesRoundTrip(vs[1..]);
      assert EntriesOf(vs)[1..] == EntriesOf(vs[1..]);
      EntryValueOf(vs[0]);
    }
  }

  lemma EntryValueOf(v: Value)
    requires HasKind(ENTRY, v)
    ensures EntryValue(EntryOf(v)) == v
  {
    assert HaveKinds([KBlob, KBlob][1..], v.vs[1..]);
    assert v.vs == [v.vs[0], v.vs[1]];
  }

  lemma EntryFits(e: (Bytes, Bytes))
    requires HasKind(ENTRY, EntryValue(e))
    ensures Fits(ENTRY, EntryValue(e)) <==> |e.0| < TWO_32 && |e.1| < TWO_32
  {
    var fs, vs := [KBlob, KBlob], [VBlob(e.0), VBlob(e.1)];
    assert fs[1..] == [KBlob] && vs[1..] == [VBlob(e.1)];
    assert AllFit(fs[1..], vs[1..]) <==> Fits(KBlob, VBlob(e.1));
  }

  ghost predicate EntriesFit(es: Entries) {
    es != [] ==> |es[0].0| < TWO_32 && |es[0].1| < TWO_32 && EntriesFit(es[1..])
  }

  lemma {:induction false} EntryValuesFit(es: Entries)
    ensures AllFit(Repeat(ENTRY, |es|), EntryValues(es)) <==> EntriesFit(es)
  {
    if es == [] {
    } else {
      RepeatTail(ENTRY, |es|);
      EntryHasKind(es[0]);
      EntryFits(es[0]);
      EntryValuesFit(es[1..]);
      assert EntryValues(es)[1..] == EntryValues(es[1..]);
    }
  }

  lemma {:induction false} MapOfFits(es: Entries)
    requires EntriesFit(es)
    ensures |MapOf(es)| <= |es|
    ensures forall k :: k in MapOf(es) ==> |k| < TWO_32 && |MapOf(es)[k]| < TWO_32
  {
    if es == [] {
    } else {
      MapOfFits(es[1..]);
      assert MapOf(es).Keys == {es[0].0} + MapOf(es[1..]).Keys;
      assert |MapOf(es).Keys| <= 1 + |MapOf(es[1..]).Keys|;
    }
  }

  lemma {:induction false} SortedEntriesFit(m: map<Bytes, Bytes>)
    requires forall k :: k in m ==> |k| < TWO_32 && |m[k]| < TWO_32
    ensures EntriesFit(SortedEntries(m))
    decreases |m|
  {
    if m != map[] {
      var k := Least(m.Keys);
      assert (m - {k}).Keys == m.Keys - {k};
      SortedEntriesFit(m - {k});
      assert SortedEntries(m)[1..] == SortedEntries(m - {k});
    }
  }

  lemma SortedMapFits(m: map<Bytes, Bytes>)
    requires Fits(KMap, VMap(m))
    ensures Fits(KVector(ENTRY), VSeq(EntryValues(SortedEntries(m))))
  {
    SortedEntriesFit(m);
    EntryValuesFit(SortedEntries(m));
  }

  // ── What the reader returns ──────────────────────────────────────────────

  /** The reader returns values of the requested type with representable lengths. */
  lemma {:induction false} ReadIsTyped(k: Kind, view: Bytes, offset: nat)
    requires Read(k, view, offset).Parsed?
    ensures HasKind(k, Read(k, view, offset).value)
    ensures Fits(k, Read(k, view, offset).value)
    decreases Depth(k), 0
  {
    match k
    case KVector(e) =>
      var n := ReadUInt(4, view, offset);
      ReadAllIsTyped(Repeat(e, n.value), view, n.offset);
    case KStruct(fs) =>
      ReadAllIsTyped(fs, view, offset);
    case KMap =>
      ReadIsTyped(KVector(ENTRY), view, offset);
      var vs := Read(KVector(ENTRY), view, offset).value.vs;
      EntryValuesRoundTrip(vs);
      EntryValuesFit(EntriesOf(vs));
      MapOfFits(EntriesOf(vs));
    case _ =>
  }

  lemma {:induction false} ReadAllIsTyped(fs: seq<Kind>, view: Bytes, offset: nat)
    requires ReadAll(fs, view, offset).Parsed?
    ensures HaveKinds(fs, ReadAll(fs, view, offset).value)
    ensures AllFit(fs, ReadAll(fs, view, offset).value)
    decreases DepthAll(fs), 1 + |fs|
  {
    if fs == [] {
    } else {
      ReadIsTyped(fs[0], view, offset);
      var r := Read(fs[0], view, offset);
      ReadAllIsTyped(fs[1..], view, r.offset);
      assert ReadAll(fs, view, offset).value[1..] == ReadAll(fs[1..], view, r.offset).value;
    }
  }

  lemma HoldsIndex(view: Bytes, offset: nat, bytes: Bytes, i: nat)
    requires Holds(view, offset, bytes) && i < |bytes|
    ensures view[offset + i] == bytes[i]
  {
    assert view[offset..offset + |bytes|][i] == bytes[i];
  }

  lemma HoldsPart(view: Bytes, offset: nat, from: Bytes, a: nat, b: nat, c: nat)
    requires a <= b <= c <= |from|
    ensures Holds(view, offset, from[a..c]) <==> Holds(view, offset, from[a..b]) && Holds(view, offset + b - a, from[b..c])
  {
    assert from[a..c] == from[a..b] + from[b..c];
    HoldsSplit(view, offset, from[a..b], from[b..c]);
  }

  /** A successful read depends on nothing but the bytes it consumed. */
  lemma {:induction false} ReadIsLocal(k: Kind, view: Bytes, offset: nat, view': Bytes, offset': nat)
    requires offset <= |view| && Read(k, view, offset).Parsed?
    requires Holds(view', offset', view[offset..Read(k, view, offset).offset])
    ensures Read(k, view', offset') == Read(k, view, offset).(offset := offset' + Read(k, view, offset).offset - offset)
    decreases Depth(k), 0
  {
    hide ReadAll;
    var end := Read(k, view, offset).offset;
    match k
    case KVector(e) =>
      HoldsPart(view', offset', view, offset, offset + 4, end);
      ReadAllIsLocal(Repeat(e, ReadUInt(4, view, offset).value), view, offset + 4, view', offset' + 4);
    case KStruct(fs) =>
      ReadAllIsLocal(fs, view, offset, view', offset');
    case KMap =>
      ReadIsLocal(KVector(ENTRY), view, offset, view', offset');
    case _ =>
      ScalarIsLocal(k, view, offset, view', offset');
  }

  lemma ScalarIsLocal(k: Kind, view: Bytes, offset: nat, view': Bytes, offset': nat)
    requires k.KBool? || k.KUInt? || k.KInt16? || k.KBlob?
    requires offset <= |view| && Read(k, view, offset).Parsed?
    requires Holds(view', offset', view[offset..Read(k, view, offset).offset])
    ensures Read(k, view', offset') == Read(k, view, offset).(offset := offset' + Read(k, view, offset).offset - offset)
  {
    hide ReadAll, FromLittleEndian;
    var end := Read(k, view, offset).offset;
    match k
    case KBool => HoldsIndex(view', offset', view[offset..end], 0);
    case KBlob => HoldsPart(view', offset', view, offset, offset + 4, end);
    case _ =>
  }

  lemma {:induction false} ReadAllIsLocal(fs: seq<Kind>, view: Bytes, offset: nat, view': Bytes, offset': nat)
    requires offset <= |view| && ReadAll(fs, view, offset).Parsed?
    requires Holds(view', offset', view[offset..ReadAll(fs, view, offset).offset])
    ensures ReadAll(fs, view', offset') == ReadAll(fs, view, offset).(offset := offset' + ReadAll(fs, view, offset).offset - offset)
    decreases DepthAll(fs), 1 + |fs|
  {
    hide Read;
    if fs == [] {
    } else {
      var mid := Read(fs[0], view, offset).offset;
      HoldsPart(view', offset', view, offset, mid, ReadAll(fs, view, offset).offset);
      ReadIsLocal(fs[0], view, offset, view', offset');
      ReadAllIsLocal(fs[1..], view, mid, view', offset' + mid - offset);
    }
  }

  // ── Round trip ───────────────────────────────────────────────────────────

  lemma LengthRoundTrip(n: nat, body: Bytes, view: Bytes, offset: nat)
    requires n < TWO_32 && Holds(view, offset, LengthPrefix(n) + body)
    ensures ReadUInt(4, view, offset) == Parsed(n, offset + 4)
    ensures Holds(view, offset + 4, body)
  {
    HoldsSplit(view, offset, LengthPrefix(n), body);
    ValueOfImage(n, 4);
  }

  lemma ReadOfBlob(bytes: Bytes, view: Bytes, offset: nat)
    requires |bytes| < TWO_32 && Holds(view, offset, LengthPrefix(|bytes|) + bytes)
    ensures Read(KBlob, view, offset) == Parsed(VBlob(bytes), offset + 4 + |bytes|)
  {
    LengthRoundTrip(|bytes|, bytes, view, offset);
  }

  lemma {:induction false} ReadOfEncode(k: Kind, v: Value, view: Bytes, offset: nat)
    requires HasKind(k, v) && Fits(k, v) && Holds(view, offset, Encode(k, v))
    ensures Read(k, view, offset) == Parsed(v, offset + |Encode(k, v)|)
    decreases Depth(k), 0
  {
    hide ReadAll, EncodeAll, HaveKinds, AllFit, LittleEndian, FromLittleEndian, LengthPrefix;
    match k
    case KVector(e) =>
      var body := EncodeAll(Repeat(e, |v.vs|), v.vs);
      LengthRoundTrip(|v.vs|, body, view, offset);
      ReadAllOfEncode(Repeat(e, |v.vs|), v.vs, view, offset + 4);
    case KStruct(fs) =>
      ReadAllOfEncode(fs, v.vs, view, offset);
    case KMap =>
      ReadOfMap(v.m, view, offset);
    case _ =>
      ReadOfScalar(k, v, view, offset);
  }

  lemma ReadOfScalar(k: Kind, v: Value, view: Bytes, offset: nat)
    requires k.KBool? || k.KUInt? || k.KInt16? || k.KBlob?
    requires HasKind(k, v) && Fits(k, v) && Holds(view, offset, Encode(k, v))
    ensures Read(k, view, offset) == Parsed(v, offset + |Encode(k, v)|)
  {
    hide ReadAll, EncodeAll, HaveKinds, AllFit;
    match k
    case KBool =>
      HoldsIndex(view, offset, Encode(k, v), 0);
    case KUInt(w) =>
      ValueOfImage(v.n, w);
    case KInt16 =>
      ValueOfImage(v.n % 0x1_0000, 2);
    case KBlob =>
      ReadOfBlob(v.bytes, view, offset);
  }

  lemma {:induction false} ReadOfMap(m: map<Bytes, Bytes>, view: Bytes, offset: nat)
    requires Fits(KMap, VMap(m)) && Holds(view, offset, Encode(KMap, VMap(m)))
    ensures Read(KMap, view, offset) == Parsed(VMap(m), offset + |Encode(KMap, VMap(m))|)
    decreases 3, 0
  {
    hide ReadAll, EncodeAll, HaveKinds, AllFit;
    var es := SortedEntries(m);
    SortedMapFits(m);
    ReadOfEncode(KVector(ENTRY), VSeq(EntryValues(es)), view, offset);
    EntriesRoundTrip(es);
    MapOfSortedEntries(m);
  }

  lemma {:induction false} ReadAllOfEncode(fs: seq<Kind>, vs: seq<Value>, view: Bytes, offset: nat)
    requires HaveKinds(fs, vs) && AllFit(fs, vs) && Holds(view, offset, EncodeAll(fs, vs))
    ensures ReadAll(fs, view, offset) == Parsed(vs, offset + |EncodeAll(fs, vs)|)
    decreases DepthAll(fs), 1 + |fs|
  {
    hide Read, Encode, HasKind, Fits;
    if fs == [] {
    } else {
      var head, rest := Encode(fs[0], vs[0]), EncodeAll(fs[1..], vs[1..]);
      HoldsSplit(view, offset, head, rest);
      ReadOfEncode(fs[0], vs[0], view, offset);
      ReadAllOfEncode(fs[1..], vs[1..], view, offset + |head|);
      ReadAllStep(fs, vs, view, offset, offset + |head|, offset + |head| + |rest|);
    }
  }

  lemma ReadAllStep(fs: seq<Kind>, vs: seq<Value>, view: Bytes, offset: nat, mid: nat, end: nat)
    requires fs != [] && vs != []
    requires Read(fs[0], view, offset) == Parsed(vs[0], mid)
    requires ReadAll(fs[1..], view, mid) == Parsed(vs[1..], end)
    ensures ReadAll(fs, view, offset) == Parsed(vs, end)
  {
    assert vs == [vs[0]] + vs[1..];
  }

  /** Between any prefix and suffix, decoding an encoding returns the value and the offset
      after it exactly when every length in the value is below 2^32. */
  lemma {:induction false} RoundTripInContext(k: Kind, v: Value, pre: Bytes, post: Bytes)
    requires HasKind(k, v)
    ensures Read(k, pre + Encode(k, v) + post, |pre|) == Parsed(v, |pre| + |Encode(k, v)|) <==> Fits(k, v)
  {
    var view := pre + Encode(k, v) + post;
    if Fits(k, v) {
      assert Holds(view, |pre|, Encode(k, v));
      ReadOfEncode(k, v, view, |pre|);
    } else if Read(k, view, |pre|).Parsed? {
      ReadIsTyped(k, view, |pre|);
    }
  }

  // ── Prefixes ─────────────────────────────────────────────────────────────

  /** Encodings of one type are injective, and none is a proper prefix of another. */
  lemma {:induction false} PrefixFree(k: Kind, v: Value, v': Value)
    requires HasKind(k, v) && Fits(k, v) && HasKind(k, v') && Fits(k, v')
    requires Encode(k, v) <= Encode(k, v')
    ensures v == v'
  {
    var long := Encode(k, v');
    assert long[0..|Encode(k, v)|] == Encode(k, v);
    assert long[0..|long|] == long;
    ReadOfEncode(k, v, long, 0);
    ReadOfEncode(k, v', long, 0);
  }

  /** Behind any prefix the checked reader overruns on every cut of an encoding. */
  lemma {:induction false} TruncationIsReported(k: Kind, v: Value, pre: Bytes, n: nat)
    requires HasKind(k, v) && Fits(k, v) && n < |Encode(k, v)|
    ensures Read(k, pre + Encode(k, v)[..n], |pre|) == Overrun
  {
    hide ReadAll, Encode, EncodeAll, Fits, HasKind;
    var whole := pre + Encode(k, v);
    var cut := pre + Encode(k, v)[..n];
    if Read(k, cut, |pre|).Parsed? {
      var end := Read(k, cut, |pre|).offset;
      SameBytes(pre, Encode(k, v), n, end);
      ReadIsLocal(k, cut, |pre|, whole, |pre|);
      AfterPrefix(pre, Encode(k, v));
      ReadOfEncode(k, v, whole, |pre|);
    }
  }

  lemma SameBytes(pre: Bytes, bytes: Bytes, n: nat, end: nat)
    requires n <= |bytes| && |pre| <= end <= |pre| + n
    ensures (pre + bytes)[|pre|..end] == (pre + bytes[..n])[|pre|..end]
  {
  }

  lemma AfterPrefix(pre: Bytes, bytes: Bytes)
    ensures Holds(pre + bytes, |pre|, bytes)
  {
  }

  // ── The two decoders ─────────────────────────────────────────────────────

  /** mem holds the view at address 0; what lies beyond the view is arbitrary. */
  ghost predicate Backs(mem: Memory, view: Bytes) {
    forall i :: 0 <= i < |view| ==> mem(i) == view[i]
  }

  lemma LoadFromView(mem: Memory, view: Bytes, offset: nat, n: nat)
    requires Backs(mem, view) && offset + n <= |view|
    ensures Load(mem, offset, n) == view[offset..offset + n]
  {
  }

  /** Whenever the checked reader succeeds, the unchecked decoder returns the same value
      and offset, whatever follows the view in memory. */
  lemma {:induction false} DecodersAgree(k: Kind, view: Bytes, offset: nat, mem: Memory)
    requires Backs(mem, view) && Read(k, view, offset).Parsed?
    ensures Fetch(k, mem, offset) == (Read(k, view, offset).value, Read(k, view, offset).offset)
    decreases Depth(k), 0
  {
    hide ReadAll, FetchAll, FromLittleEndian;
    match k
    case KVector(e) =>
      LoadFromView(mem, view, offset, 4);
      FieldDecodersAgree(Repeat(e, ReadUInt(4, view, offset).value), view, offset + 4, mem);
    case KStruct(fs) =>
      FieldDecodersAgree(fs, view, offset, mem);
    case KMap =>
      DecodersAgree(KVector(ENTRY), view, offset, mem);
    case _ =>
      ScalarDecodersAgree(k, view, offset, mem);
  }

  lemma ScalarDecodersAgree(k: Kind, view: Bytes, offset: nat, mem: Memory)
    requires k.KBool? || k.KUInt? || k.KInt16? || k.KBlob?
    requires Backs(mem, view) && Read(k, view, offset).Parsed?
    ensures Fetch(k, mem, offset) == (Read(k, view, offset).value, Read(k, view, offset).offset)
  {
    hide ReadAll, FetchAll, FromLittleEndian;
    match k
    case KBool =>
    case KUInt(w) =>
      LoadFromView(mem, view, offset, w);
    case KInt16 =>
      LoadFromView(mem, view, offset, 2);
    case KBlob =>
      LoadFromView(mem, view, offset, 4);
      LoadFromView(mem, view, offset + 4, ReadUInt(4, view, offset).value);
  }

  lemma {:induction false} FieldDecodersAgree(fs: seq<Kind>, view: Bytes, offset: nat, mem: Memory)
    requires Backs(mem, view) && ReadAll(fs, view, offset).Parsed?
    ensures FetchAll(fs, mem, offset) == (ReadAll(fs, view, offset).value, ReadAll(fs, view, offset).offset)
    decreases DepthAll(fs), 1 + |fs|
  {
    hide Read, Fetch;
    if fs == [] {
    } else {
      DecodersAgree(fs[0], view, offset, mem);
      FieldDecodersAgree(fs[1..], view, Read(fs[0], view, offset).offset, mem);
    }
  }

  // ── Canonical form ───────────────────────────────────────────────────────

  lemma LengthImage(view: Bytes, offset: nat, end: nat)
    requires ReadUInt(4, view, offset).Parsed? && offset + 4 <= end <= |view|
    ensures view[offset..end] == LengthPrefix(ReadUInt(4, view, offset).value) + view[offset + 4..end]
  {
    ImageOfValue(view[offset..offset + 4]);
    assert view[offset..end] == view[offset..offset + 4] + view[offset + 4..end];
  }

  ghost predicate ReencodesTo(k: Kind, view: Bytes, offset: nat)
    requires offset <= |view| && Read(k, view, offset).Parsed?
  {
    var r := Read(k, view, offset);
    HasKind(k, r.value) && Encode(k, r.value) == view[offset..r.offset]
  }

  ghost predicate AllReencode(fs: seq<Kind>, view: Bytes, offset: nat)
    requires offset <= |view| && ReadAll(fs, view, offset).Parsed?
  {
    var r := ReadAll(fs, view, offset);
    HaveKinds(fs, r.value) && EncodeAll(fs, r.value) == view[offset..r.offset]
  }

  lemma {:induction false} CanonicalReencodes(k: Kind, view: Bytes, offset: nat)
    requires offset <= |view| && Read(k, view, offset).Parsed? && Canonical(k, view, offset)
    ensures ReencodesTo(k, view, offset)
    decreases Depth(k), 0
  {
    hide ReadAll, EncodeAll, HaveKinds, AllFit, CanonicalAll;
    ReadIsTyped(k, view, offset);
    match k
    case KVector(e) =>
      LengthImage(view, offset, Read(k, view, offset).offset);
      CanonicalFieldsReencode(Repeat(e, ReadUInt(4, view, offset).value), view, offset + 4);
    case KStruct(fs) =>
      CanonicalFieldsReencode(fs, view, offset);
    case KMap =>
      EntriesReencode(view, offset);
    case _ =>
      CanonicalScalarReencodes(k, view, offset);
  }

  lemma CanonicalScalarReencodes(k: Kind, view: Bytes, offset: nat)
    requires k.KBool? || k.KUInt? || k.KInt16? || k.KBlob?
    requires offset <= |view| && Read(k, view, offset).Parsed? && Canonical(k, view, offset)
    ensures ReencodesTo(k, view, offset)
  {
    hide LittleEndian, FromLittleEndian, ReadAll, EncodeAll, HaveKinds, CanonicalAll;
    match k
    case KBool =>
    case KUInt(w) => ImageOfValue(view[offset..offset + w]);
    case KInt16 => ImageOfValue(view[offset..offset + 2]);
    case KBlob => LengthImage(view, offset, Read(k, view, offset).offset);
  }

  lemma EntriesReencode(view: Bytes, offset: nat)
    requires offset <= |view| && Read(KMap, view, offset).Parsed? && Canonical(KMap, view, offset)
    ensures ReencodesTo(KMap, view, offset)
    decreases 3, 0
  {
    hide ReadAll, EncodeAll, HaveKinds, AllFit, Fits, CanonicalAll, LengthPrefix;
    var vs := Read(KVector(ENTRY), view, offset).value.vs;
    EntryListIsCanonical(view, offset);
    CanonicalReencodes(KVector(ENTRY), view, offset);
    SortedEntriesAreRead(vs);
  }

  lemma SortedEntriesAreRead(vs: seq<Value>)
    requires HasKind(KVector(ENTRY), VSeq(vs)) && Ascending(EntriesOf(vs))
    ensures EntryValues(SortedEntries(MapOf(EntriesOf(vs)))) == vs
  {
    EntryValuesRoundTrip(vs);
    AscendingIsSorted(EntriesOf(vs));
  }

  lemma EntryListIsCanonical(view: Bytes, offset: nat)
    requires Read(KVector(ENTRY), view, offset).Parsed?
    ensures Canonical(KVector(ENTRY), view, offset)
  {
    var n := ReadUInt(4, view, offset);
    EntriesAreCanonical(n.value, view, n.offset);
  }

  lemma {:induction false} EntriesAreCanonical(n: nat, view: Bytes, offset: nat)
    requires ReadAll(Repeat(ENTRY, n), view, offset).Parsed?
    ensures CanonicalAll(Repeat(ENTRY, n), view, offset)
    decreases n
  {
    if n == 0 {
    } else {
      RepeatTail(ENTRY, n);
      var fs := [KBlob, KBlob];
      var first := Read(KBlob, view, offset);
      assert fs[1..] == [KBlob];
      assert CanonicalAll(fs[1..], view, first.offset);
      assert Canonical(ENTRY, view, offset);
      EntriesAreCanonical(n - 1, view, Read(ENTRY, view, offset).offset);
    }
  }

  lemma {:induction false} CanonicalFieldsReencode(fs: seq<Kind>, view: Bytes, offset: nat)
    requires offset <= |view| && ReadAll(fs, view, offset).Parsed? && CanonicalAll(fs, view, offset)
    ensures AllReencode(fs, view, offset)
    decreases DepthAll(fs), 1 + |fs|
  {
    hide Read, Encode, HasKind, Canonical;
    if fs == [] {
    } else {
      var mid, end := Read(fs[0], view, offset).offset, ReadAll(fs, view, offset).offset;
      CanonicalReencodes(fs[0], view, offset);
      CanonicalFieldsReencode(fs[1..], view, mid);
      assert ReadAll(fs, view, offset).value[1..] == ReadAll(fs[1..], view, mid).value;
      assert view[offset..end] == view[offset..mid] + view[mid..end];
    }
  }

  lemma {:induction false} ReencodedIsCanonical(k: Kind, view: Bytes, offset: nat)
    requires offset <= |view| && Read(k, view, offset).Parsed? && ReencodesTo(k, view, offset)
    ensures Canonical(k, view, offset)
    decreases Depth(k), 0
  {
    hide ReadAll, EncodeAll, HaveKinds, AllFit, CanonicalAll;
    var r := Read(k, view, offset);
    match k
    case KBool =>
      assert Encode(k, r.value)[0] == view[offset..r.offset][0];
    case KUInt(w) =>
    case KInt16 =>
    case KBlob =>
    case KVector(e) =>
      LengthImage(view, offset, r.offset);
      var fs := Repeat(e, ReadUInt(4, view, offset).value);
      ReadIsTyped(k, view, offset);
      assert view[offset + 4..r.offset] == view[offset..r.offset][4..] == EncodeAll(fs, r.value.vs);
      ReencodedFieldsAreCanonical(fs, view, offset + 4);
    case KStruct(fs) =>
      ReencodedFieldsAreCanonical(fs, view, offset);
    case KMap =>
      ReencodedMapIsCanonical(view, offset);
  }

  /** A map is written and read as the vector of its sorted entries. */
  lemma MapIsVector(m: map<Bytes, Bytes>, view: Bytes, offset: nat)
    ensures HasKind(KVector(ENTRY), VSeq(EntryValues(SortedEntries(m))))
    ensures Encode(KMap, VMap(m)) == Encode(KVector(ENTRY), VSeq(EntryValues(SortedEntries(m))))
    ensures var r := Read(KVector(ENTRY), view, offset);
      r.Parsed? && r.value.VSeq? && Ascending(EntriesOf(r.value.vs)) && Read(KMap, view, offset).Parsed?
      ==> Canonical(KMap, view, offset)
  {
    hide ReadAll, EncodeAll, HaveKinds, LengthPrefix;
  }

  lemma ReencodedMap(view: Bytes, offset: nat) returns (m: map<Bytes, Bytes>)
    requires offset <= |view| && Read(KMap, view, offset).Parsed? && ReencodesTo(KMap, view, offset)
    ensures HasKind(KMap, VMap(m)) && Fits(KMap, VMap(m)) && Holds(view, offset, Encode(KMap, VMap(m)))
  {
    hide Read, ReadAll, Encode, EncodeAll, HaveKinds, Fits, AllFit;
    ReadIsTyped(KMap, view, offset);
    m := Read(KMap, view, offset).value.m;
  }

  lemma ReencodedMapIsCanonical(view: Bytes, offset: nat)
    requires offset <= |view| && Read(KMap, view, offset).Parsed? && ReencodesTo(KMap, view, offset)
    ensures Canonical(KMap, view, offset)
  {
    hide *;
    var m := ReencodedMap(view, offset);
    var es := SortedEntries(m);
    MapIsVector(m, view, offset);
    SortedEntriesAscend(m);
    SortedMapFits(m);
    ReadOfEncode(KVector(ENTRY), VSeq(EntryValues(es)), view, offset);
    EntriesRoundTrip(es);
  }

  lemma {:induction false} ReencodedFieldsAreCanonical(fs: seq<Kind>, view: Bytes, offset: nat)
    requires offset <= |view| && ReadAll(fs, view, offset).Parsed? && AllReencode(fs, view, offset)
    ensures CanonicalAll(fs, view, offset)
    decreases DepthAll(fs), 1 + |fs|
  {
    hide Read, Encode, HasKind, Fits, Canonical;
    if fs == [] {
    } else {
      var r := ReadAll(fs, view, offset);
      ReadAllIsTyped(fs, view, offset);
      var head, rest := Encode(fs[0], r.value[0]), EncodeAll(fs[1..], r.value[1..]);
      assert Holds(view, offset, head + rest);
      HoldsSplit(view, offset, head, rest);
      ReadOfEncode(fs[0], r.value[0], view, offset);
      ReencodedIsCanonical(fs[0], view, offset);
      ReencodedFieldsAreCanonical(fs[1..], view, offset + |head|);
    }
  }

  /** Decoding and encoding again gives back the consumed bytes exactly when they are canonical. */
  lemma {:induction false} CanonicalForm(k: Kind, view: Bytes, offset: nat)
    requires offset <= |view| && Read(k, view, offset).Parsed?
    ensures ReencodesTo(k, view, offset) <==> Canonical(k, view, offset)
  {
    if Canonical(k, view, offset) {
      CanonicalReencodes(k, view, offset);
    }
    if ReencodesTo(k, view, offset) {
      ReencodedIsCanonical(k, view, offset);
    }
  }

  // ── Work ─────────────────────────────────────────────────────────────────

  /** The fewest bytes a field of the type takes. */
  function MinWidth(k: Kind): nat {
    match k
    case KBool => 1
    case KUInt(w) => w
    case KInt16 => 2
    case KBlob => 4
    case KVector(_) => 4
    case KStruct(fs) => MinWidthAll(fs)
    case KMap => 4
  }

  function MinWidthAll(fs: seq<Kind>): nat {
    if fs == [] then 0 else MinWidth(fs[0]) + MinWidthAll(fs[1..])
  }

  /** How many of the fields are read completely before the reader finishes or overruns. */
  function Completed(fs: seq<Kind>, view: Bytes, offset: nat): nat {
    if fs == [] || Read(fs[0], view, offset).Overrun? then 0
    else 1 + Completed(fs[1..], view, Read(fs[0], view, offset).offset)
  }

  lemma {:induction false} ReadTakesMinWidth(k: Kind, view: Bytes, offset: nat)
    requires Read(k, view, offset).Parsed?
    ensures Read(k, view, offset).offset >= offset + MinWidth(k)
  {
    match k
    case KStruct(fs) => ReadAllTakesMinWidth(fs, view, offset);
    case _ =>
  }

  lemma {:induction false} ReadAllTakesMinWidth(fs: seq<Kind>, view: Bytes, offset: nat)
    requires ReadAll(fs, view, offset).Parsed?
    ensures ReadAll(fs, view, offset).offset >= offset + MinWidthAll(fs)
  {
    if fs == [] {
    } else {
      ReadTakesMinWidth(fs[0], view, offset);
      ReadAllTakesMinWidth(fs[1..], view, Read(fs[0], view, offset).offset);
    }
  }

  lemma OneMore(c: nat, w: nat)
    ensures (1 + c) * w == w + c * w
  {
  }

  /** Whatever count n a buffer claims, a vector loop completes at most
      remaining / MinWidth(elem) elements. */
  lemma {:induction false} WorkIsBounded(elem: Kind, n: nat, view: Bytes, offset: nat)
    requires offset <= |view|
    ensures Completed(Repeat(elem, n), view, offset) * MinWidth(elem) <= |view| - offset
    decreases n
  {
    if n > 0 && Read(elem, view, offset).Parsed? {
      var next, w := Read(elem, view, offset).offset, MinWidth(elem);
      var c := Completed(Repeat(elem, n - 1), view, next);
      RepeatTail(elem, n);
      ReadTakesMinWidth(elem, view, offset);
      WorkIsBounded(elem, n - 1, view, next);
      OneMore(c, w);
    }
  }
}
