/** The field types a glz::meta<T> tuple can list, and the values they hold. */
module Schema {
  import opened ByteStrings

  /** One constructor per encoding form of glaze_meta.h. std::string and
      std::vector<uint8_t> share a form, as do vectors of strings and of structs. */
  datatype Kind =
    | KBool
    | KUInt(width: nat)
    | KInt16
    | KBlob
    | KVector(elem: Kind)
    | KStruct(fields: seq<Kind>)
    | KMap

  datatype Value =
    | VBool(b: bool)
    | VInt(n: int)
    | VBlob(bytes: Bytes)
    | VSeq(vs: seq<Value>)
    | VMap(m: map<Bytes, Bytes>)

  /** A map goes over the wire as a vector of key/value records. */
  const ENTRY: Kind := KStruct([KBlob, KBlob])

  function Depth(k: Kind): nat {
    match k
    case KVector(e) => 1 + Depth(e)
    case KStruct(fs) => 1 + DepthAll(fs)
    case KMap => 4
    case _ => 0
  }

  function DepthAll(fs: seq<Kind>): nat {
    if fs == [] then 0
    else
      var d, rest := Depth(fs[0]), DepthAll(fs[1..]);
      if d < rest then rest else d
  }

  /** The field list of a vector with n elements. */
  function Repeat(k: Kind, n: nat): (fs: seq<Kind>)
    ensures |fs| == n
    ensures forall i :: 0 <= i < n ==> fs[i] == k
    ensures DepthAll(fs) <= Depth(k)
  {
    if n == 0 then [] else
      var rest := Repeat(k, n - 1);
      assert ([k] + rest)[1..] == rest;
      [k] + rest
  }

  lemma RepeatTail(k: Kind, n: nat)
    requires n > 0
    ensures Repeat(k, n)[1..] == Repeat(k, n - 1)
  {
  }

  /** v is a C++ value of the field type k. */
  ghost predicate HasKind(k: Kind, v: Value)
    decreases Depth(k), 0
  {
    match k
    case KBool => v.VBool?
    case KUInt(w) => v.VInt? && 0 <= v.n < Pow256(w)
    case KInt16 => v.VInt? && -0x8000 <= v.n < 0x8000
    case KBlob => v.VBlob?
    case KVector(e) => v.VSeq? && HaveKinds(Repeat(e, |v.vs|), v.vs)
    case KStruct(fs) => v.VSeq? && HaveKinds(fs, v.vs)
    case KMap => v.VMap?
  }

  ghost predicate HaveKinds(fs: seq<Kind>, vs: seq<Value>)
    decreases DepthAll(fs), 1 + |fs|
  {
    |fs| == |vs| && (fs != [] ==> HasKind(fs[0], vs[0]) && HaveKinds(fs[1..], vs[1..]))
  }

  /** Every length in v survives static_cast<uint32_t>. */
  ghost predicate Fits(k: Kind, v: Value)
    requires HasKind(k, v)
    decreases Depth(k), 0
  {
    match k
    case KBlob => |v.bytes| < TWO_32
    case KVector(e) => |v.vs| < TWO_32 && AllFit(Repeat(e, |v.vs|), v.vs)
    case KStruct(fs) => AllFit(fs, v.vs)
    case KMap => |v.m| < TWO_32 && forall key :: key in v.m ==> |key| < TWO_32 && |v.m[key]| < TWO_32
    case _ => true
  }

  ghost predicate AllFit(fs: seq<Kind>, vs: seq<Value>)
    requires HaveKinds(fs, vs)
    decreases DepthAll(fs), 1 + |fs|
  {
    fs != [] ==> Fits(fs[0], vs[0]) && AllFit(fs[1..], vs[1..])
  }

  // ── Sorted maps ──────────────────────────────────────────────────────────

  type Entries = seq<(Bytes, Bytes)>

  predicate Ascending(es: Entries) {
    |es| > 1 ==> Less(es[0].0, es[1].0) && Ascending(es[1..])
  }

  /** Assigning the entries in order; a later entry replaces an earlier one with its key. */
  function MapOf(es: Entries): map<Bytes, Bytes> {
    if es == [] then map[] else map[es[0].0 := es[0].1] + MapOf(es[1..])
  }

  /** Every key and value of the map is an entry's. */
  lemma {:induction false} MapOfHolds(es: Entries, key: Bytes) returns (i: nat)
    requires key in MapOf(es)
    ensures i < |es| && es[i] == (key, MapOf(es)[key])
  {
    if key in MapOf(es[1..]) {
      i := MapOfHolds(es[1..], key);
      i := i + 1;
    } else {
      i := 0;
    }
  }

  /** The last entry with its key is in the map. */
  lemma {:induction false} LastOfKeyStays(es: Entries, i: nat)
    requires i < |es| && forall j :: i < j < |es| ==> es[j].0 != es[i].0
    ensures es[i].0 in MapOf(es) && MapOf(es)[es[i].0] == es[i].1
  {
    if i > 0 {
      assert forall j :: i - 1 < j < |es[1..]| ==> es[1..][j] == es[j + 1];
      LastOfKeyStays(es[1..], i - 1);
    } else if es[0].0 in MapOf(es[1..]) {
      var j := MapOfHolds(es[1..], es[0].0);
      assert false;
    }
  }

  predicate IsLeast(k: Bytes, keys: set<Bytes>) {
    k in keys && forall k' :: k' in keys && k' != k ==> Less(k, k')
  }

  lemma {:induction false} LeastExists(keys: set<Bytes>) returns (least: Bytes)
    requires keys != {}
    ensures IsLeast(least, keys)
  {
    var some :| some in keys;
    if keys == {some} {
      return some;
    }
    least := LeastExists(keys - {some});
    LessTotal(some, least);
    if Less(some, least) {
      forall k' | k' in keys && k' != some ensures Less(some, k') {
        if k' != least {
          LessTransitive(some, least, k');
        }
      }
      least := some;
    }
  }

  lemma LeastIsUnique(a: Bytes, b: Bytes, keys: set<Bytes>)
    requires IsLeast(a, keys) && IsLeast(b, keys)
    ensures a == b
  {
    if a != b {
      LessAsymmetric(a, b);
    }
  }

  function Least(keys: set<Bytes>): (k: Bytes)
    requires keys != {}
    ensures IsLeast(k, keys)
  {
    assert exists k :: IsLeast(k, keys) by {
      var least := LeastExists(keys);
    }
    assert forall a, b :: IsLeast(a, keys) && IsLeast(b, keys) ==> a == b by {
      forall a, b | IsLeast(a, keys) && IsLeast(b, keys) ensures a == b {
        LeastIsUnique(a, b, keys);
      }
    }
    var k :| k in keys && IsLeast(k, keys);
    k
  }

  /** The iteration order of a std::map. */
  function SortedEntries(m: map<Bytes, Bytes>): (es: Entries)
    ensures |es| == |m|
    ensures es != [] ==> es[0].0 in m
    decreases |m|
  {
    if m == map[] then []
    else
      var k := Least(m.Keys);
      assert (m - {k}).Keys == m.Keys - {k};
      [(k, m[k])] + SortedEntries(m - {k})
  }

  lemma {:induction false} SortedEntriesAscend(m: map<Bytes, Bytes>)
    ensures Ascending(SortedEntries(m))
    decreases |m|
  {
    if m != map[] {
      var k := Least(m.Keys);
      assert (m - {k}).Keys == m.Keys - {k};
      SortedEntriesAscend(m - {k});
      assert SortedEntries(m)[1..] == SortedEntries(m - {k});
    }
  }

  lemma Reattach(m: map<Bytes, Bytes>, k: Bytes)
    requires k in m
    ensures map[k := m[k]] + (m - {k}) == m
  {
  }

  lemma {:induction false} MapOfSortedEntries(m: map<Bytes, Bytes>)
    ensures MapOf(SortedEntries(m)) == m
    decreases |m|
  {
    if m != map[] {
      var k := Least(m.Keys);
      assert (m - {k}).Keys == m.Keys - {k};
      MapOfSortedEntries(m - {k});
      var es := SortedEntries(m);
      assert es[1..] == SortedEntries(m - {k});
      calc {
        MapOf(es);
        map[es[0].0 := es[0].1] + MapOf(es[1..]);
        map[k := m[k]] + (m - {k});
        { Reattach(m, k); }
        m;
      }
    }
  }

  lemma {:induction false} FirstIsBelow(es: Entries, k: Bytes)
    requires es != [] && Ascending(es) && k in MapOf(es[1..])
    ensures Less(es[0].0, k)
  {
    if k != es[1].0 {
      FirstIsBelow(es[1..], k);
      LessTransitive(es[0].0, es[1].0, k);
    }
  }

  lemma RemoveAdded(k: Bytes, v: Bytes, rest: map<Bytes, Bytes>)
    requires k !in rest
    ensures (map[k := v] + rest) - {k} == rest
  {
  }

  /** Strictly ascending entries are the iteration order of the map they build. */
  lemma {:induction false} AscendingIsSorted(es: Entries)
    requires Ascending(es)
    ensures SortedEntries(MapOf(es)) == es
  {
    if es == [] {
    } else {
      var m, k := MapOf(es), es[0].0;
      assert k in m.Keys;
      forall k' | k' in MapOf(es[1..]) ensures Less(k, k') && k' != k {
        FirstIsBelow(es, k');
        LessAsymmetric(k, k');
      }
      AscendingIsSorted(es[1..]);
      RemoveAdded(k, es[0].1, MapOf(es[1..]));
      LeastIsUnique(k, Least(m.Keys), m.Keys);
    }
  }

  lemma {:induction false} MapOfAppend(es: Entries, k: Bytes, v: Bytes)
    ensures MapOf(es + [(k, v)]) == MapOf(es)[k := v]
  {
    if es == [] {
      assert MapOf([(k, v)][1..]) == map[];
    } else {
      MapOfAppend(es[1..], k, v);
      assert (es + [(k, v)])[1..] == es[1..] + [(k, v)];
    }
  }
}
