/** The wire format: the glaze encoder, the bounds-checked reader and the unchecked decoder. */
module Wire {
  import opened ByteStrings
  import opened Schema

  datatype Parsed<T> = Overrun | Parsed(value: T, offset: nat)

  // ── Encoding ─────────────────────────────────────────────────────────────

  /** A length prefix; lengths from 2^32 up wrap, as static_cast<uint32_t> does. */
  function LengthPrefix(n: nat): (bs: Bytes)
    ensures |bs| == 4
  {
    LittleEndian(n % TWO_32, 4)
  }

  /** A prefix reads as the length modulo 2^32. */
  lemma PrefixIsModulo(n: nat)
    ensures FromLittleEndian(LengthPrefix(n)) == n % 0x1_0000_0000
  {
    ValueOfImage(n % TWO_32, 4);
  }

  function EntryValue(e: (Bytes, Bytes)): Value {
    VSeq([VBlob(e.0), VBlob(e.1)])
  }

  function EntryValues(es: Entries): (vs: seq<Value>)
    ensures |vs| == |es|
    ensures HaveKinds(Repeat(ENTRY, |vs|), vs)
  {
    if es == [] then [] else
      var rest := EntryValues(es[1..]);
      EntryHasKind(es[0]);
      assert ([EntryValue(es[0])] + rest)[1..] == rest;
      [EntryValue(es[0])] + rest
  }

  lemma EntryHasKind(e: (Bytes, Bytes))
    ensures HasKind(ENTRY, EntryValue(e))
  {
    assert HaveKinds([KBlob, KBlob][1..], [VBlob(e.0), VBlob(e.1)][1..]);
  }

  ghost function Encode(k: Kind, v: Value): Bytes
    requires HasKind(k, v)
    decreases Depth(k), 0
  {
    match k
    case KBool => [if v.b then 1 else 0]
    case KUInt(w) => LittleEndian(v.n, w)
    case KInt16 => LittleEndian(v.n % 0x1_0000, 2)
    case KBlob => LengthPrefix(|v.bytes|) + v.bytes
    case KVector(e) => LengthPrefix(|v.vs|) + EncodeAll(Repeat(e, |v.vs|), v.vs)
    case KStruct(fs) => EncodeAll(fs, v.vs)
    case KMap => Encode(KVector(ENTRY), VSeq(EntryValues(SortedEntries(v.m))))
  }

  ghost function EncodeAll(fs: seq<Kind>, vs: seq<Value>): Bytes
    requires HaveKinds(fs, vs)
    decreases DepthAll(fs), 1 + |fs|
  {
    if fs == [] then [] else Encode(fs[0], vs[0]) + EncodeAll(fs[1..], vs[1..])
  }

  // ── The checked reader ───────────────────────────────────────────────────

  function EntryOf(v: Value): (Bytes, Bytes) {
    if v.VSeq? && |v.vs| == 2 && v.vs[0].VBlob? && v.vs[1].VBlob? then (v.vs[0].bytes, v.vs[1].bytes) else ([], [])
  }

  function EntriesOf(vs: seq<Value>): (es: Entries)
    ensures |es| == |vs|
  {
    if vs == [] then [] else [EntryOf(vs[0])] + EntriesOf(vs[1..])
  }

  function Signed(n: nat): int {
    if n < 0x8000 then n else n - 0x1_0000
  }

  function ReadUInt(width: nat, view: Bytes, offset: nat): (r: Parsed<nat>)
    ensures r.Parsed? ==> r.value < Pow256(width) && r.offset == offset + width <= |view|
  {
    if offset + width > |view| then Overrun
    else Parsed(FromLittleEndian(view[offset..offset + width]), offset + width)
  }

  /** Reads one field of a view; Overrun is the RangeError of the bounds check. */
  function Read(k: Kind, view: Bytes, offset: nat): (r: Parsed<Value>)
    ensures r.Parsed? ==> offset <= r.offset && (offset <= |view| ==> r.offset <= |view|)
    decreases Depth(k), 0
  {
    match k
    case KBool => if offset + 1 > |view| then Overrun else Parsed(VBool(view[offset] != 0), offset + 1)
    case KUInt(w) => (match ReadUInt(w, view, offset) case Overrun => Overrun case Parsed(n, o) => Parsed(VInt(n), o))
    case KInt16 => (match ReadUInt(2, view, offset) case Overrun => Overrun case Parsed(n, o) => Parsed(VInt(Signed(n)), o))
    case KBlob => (match ReadUInt(4, view, offset)
                   case Overrun => Overrun
                   case Parsed(n, o) => if o + n > |view| then Overrun else Parsed(VBlob(view[o..o + n]), o + n))
    case KVector(e) => (match ReadUInt(4, view, offset)
                        case Overrun => Overrun
                        case Parsed(n, o) => AsVector(ReadAll(Repeat(e, n), view, o)))
    case KStruct(fs) => AsVector(ReadAll(fs, view, offset))
    case KMap => (match Read(KVector(ENTRY), view, offset)
                  case Overrun => Overrun
                  case Parsed(v, o) => Parsed(VMap(if v.VSeq? then MapOf(EntriesOf(v.vs)) else map[]), o))
  }

  function AsVector(r: Parsed<seq<Value>>): Parsed<Value> {
    match r
    case Overrun => Overrun
    case Parsed(vs, o) => Parsed(VSeq(vs), o)
  }

  function Prepend(vs: seq<Value>, r: Parsed<seq<Value>>): Parsed<seq<Value>> {
    match r
    case Overrun => Overrun
    case Parsed(rest, o) => Parsed(vs + rest, o)
  }

  function ReadAll(fs: seq<Kind>, view: Bytes, offset: nat): (r: Parsed<seq<Value>>)
    ensures r.Parsed? ==> |r.value| == |fs|
    ensures r.Parsed? ==> offset <= r.offset && (offset <= |view| ==> r.offset <= |view|)
    decreases DepthAll(fs), 1 + |fs|
  {
    if fs == [] then Parsed([], offset)
    else match Read(fs[0], view, offset)
      case Overrun => Overrun
      case Parsed(v, o) => Prepend([v], ReadAll(fs[1..], view, o))
  }

  // ── The unchecked decoder ────────────────────────────────────────────────

  /** What a raw pointer can read: every address has some byte. */
  type Memory = nat -> Byte

  function Load(mem: Memory, offset: nat, n: nat): (bs: Bytes)
    ensures |bs| == n
  {
    seq(n, i requires 0 <= i => mem(offset + i))
  }

  function Fetch(k: Kind, mem: Memory, offset: nat): (r: (Value, nat))
    decreases Depth(k), 0
  {
    match k
    case KBool => (VBool(mem(offset) != 0), offset + 1)
    case KUInt(w) => (VInt(FromLittleEndian(Load(mem, offset, w))), offset + w)
    case KInt16 => (VInt(Signed(FromLittleEndian(Load(mem, offset, 2)))), offset + 2)
    case KBlob =>
      var n := FromLittleEndian(Load(mem, offset, 4));
      (VBlob(Load(mem, offset + 4, n)), offset + 4 + n)
    case KVector(e) =>
      var r := FetchAll(Repeat(e, FromLittleEndian(Load(mem, offset, 4))), mem, offset + 4);
      (VSeq(r.0), r.1)
    case KStruct(fs) =>
      var r := FetchAll(fs, mem, offset);
      (VSeq(r.0), r.1)
    case KMap =>
      var (v, o) := Fetch(KVector(ENTRY), mem, offset);
      (VMap(if v.VSeq? then MapOf(EntriesOf(v.vs)) else map[]), o)
  }

  function FetchAll(fs: seq<Kind>, mem: Memory, offset: nat): (r: (seq<Value>, nat))
    ensures |r.0| == |fs|
    decreases DepthAll(fs), 1 + |fs|
  {
    if fs == [] then ([], offset)
    else
      var (v, o) := Fetch(fs[0], mem, offset);
      var rest := FetchAll(fs[1..], mem, o);
      ([v] + rest.0, rest.1)
  }

  // ── Canonical bytes ──────────────────────────────────────────────────────

  /** Every bool byte the reader consumes is 0 or 1, and every map's keys strictly ascend. */
  ghost predicate Canonical(k: Kind, view: Bytes, offset: nat)
    requires Read(k, view, offset).Parsed?
    decreases Depth(k), 0
  {
    match k
    case KBool => view[offset] <= 1
    case KVector(e) => var n := ReadUInt(4, view, offset); CanonicalAll(Repeat(e, n.value), view, n.offset)
    case KStruct(fs) => CanonicalAll(fs, view, offset)
    case KMap => var v := Read(KVector(ENTRY), view, offset).value; v.VSeq? && Ascending(EntriesOf(v.vs))
    case _ => true
  }

  ghost predicate CanonicalAll(fs: seq<Kind>, view: Bytes, offset: nat)
    requires ReadAll(fs, view, offset).Parsed?
    decreases DepthAll(fs), 1 + |fs|
  {
    fs != [] ==>
      && Canonical(fs[0], view, offset)
      && CanonicalAll(fs[1..], view, Read(fs[0], view, offset).offset)
  }
}
