/** Byte strings: little-endian integers and the order std::map keeps its string keys in. */
module ByteStrings {

  type Byte = b: int | 0 <= b < 256
  type Bytes = seq<Byte>

  const TWO_32: int := 0x1_0000_0000

  function Pow256(width: nat): (p: nat)
    ensures p > 0
    ensures width == 1 ==> p == 0x100
    ensures width == 2 ==> p == 0x1_0000
    ensures width == 4 ==> p == TWO_32
  {
    if width == 0 then 1 else 256 * Pow256(width - 1)
  }

  /** The memory image of an unsigned integer on a little-endian host. */
  function LittleEndian(n: nat, width: nat): (bs: Bytes)
    requires n < Pow256(width)
    ensures |bs| == width
  {
    if width == 0 then [] else [n % 256] + LittleEndian(n / 256, width - 1)
  }

  function FromLittleEndian(bs: Bytes): (n: nat)
    ensures n < Pow256(|bs|)
  {
    if bs == [] then 0 else bs[0] + 256 * FromLittleEndian(bs[1..])
  }

  lemma {:induction false} ValueOfImage(n: nat, width: nat)
    requires n < Pow256(width)
    ensures FromLittleEndian(LittleEndian(n, width)) == n
  {
    if width == 0 {
    } else {
      ValueOfImage(n / 256, width - 1);
      assert LittleEndian(n, width)[1..] == LittleEndian(n / 256, width - 1);
    }
  }

  lemma {:induction false} ImageOfValue(bs: Bytes)
    ensures LittleEndian(FromLittleEndian(bs), |bs|) == bs
  {
    if bs == [] {
    } else {
      ImageOfValue(bs[1..]);
    }
  }

  /** The byte at place i is the integer's digit of that place to the base 256, least significant first. */
  lemma {:induction false} ImageDigit(n: nat, width: nat, i: nat)
    requires n < Pow256(width) && i < width
    ensures LittleEndian(n, width)[i] == n / Pow256(i) % 256
  {
    if i == 0 {
    } else {
      ImageDigit(n / 256, width - 1, i - 1);
      DivideTwice(n, Pow256(i - 1));
    }
  }

  lemma DivideTwice(n: nat, p: nat)
    requires p > 0
    ensures n / 256 / p == n / (256 * p)
  {
    var q, r := n / 256 / p, n / 256 % p;
    assert n / 256 == q * p + r;
    assert n == 256 * (q * p + r) + n % 256;
    var low := 256 * r + n % 256;
    assert low < 256 * p by {
      assert 256 * r <= 256 * (p - 1);
    }
    assert n == q * (256 * p) + low;
    QuotientIs(n, 256 * p, q, low);
  }

  lemma QuotientIs(n: nat, d: nat, q: nat, r: nat)
    requires d > 0 && r < d && n == q * d + r
    ensures n / d == q
  {
    var q', r' := n / d, n % d;
    assert q' * d + r' == q * d + r;
    if q > q' {
      AtLeastOnce(q - q', d, q, q');
    } else if q < q' {
      AtLeastOnce(q' - q, d, q', q);
    }
  }

  lemma AtLeastOnce(k: nat, d: nat, q: nat, q': nat)
    requires k > 0 && q == q' + k
    ensures q * d >= q' * d + d
  {
    assert q * d == q' * d + k * d;
    assert k * d == d + (k - 1) * d;
  }

  lemma Regroup<T>(a: seq<T>, b: seq<T>, c: seq<T>)
    ensures a + b + c == a + (b + c)
  {
  }

  /** bytes stand in view at offset. */
  ghost predicate Holds(view: Bytes, offset: nat, bytes: Bytes) {
    offset + |bytes| <= |view| && view[offset..offset + |bytes|] == bytes
  }

  lemma HoldsSplit(view: Bytes, offset: nat, a: Bytes, b: Bytes)
    ensures Holds(view, offset, a + b) <==> Holds(view, offset, a) && Holds(view, offset + |a|, b)
  {
    if Holds(view, offset, a + b) {
      assert view[offset..offset + |a|] == (a + b)[..|a|];
      assert view[offset + |a|..offset + |a| + |b|] == (a + b)[|a|..];
    }
  }

  /** std::string::operator<, the order of std::map<std::string, T>. */
  predicate Less(a: Bytes, b: Bytes) {
    b != [] && (a == [] || a[0] < b[0] || (a[0] == b[0] && Less(a[1..], b[1..])))
  }

  lemma {:induction false} LessTotal(a: Bytes, b: Bytes)
    ensures a == b || Less(a, b) || Less(b, a)
  {
    if a != [] && b != [] && a[0] == b[0] {
      LessTotal(a[1..], b[1..]);
      assert a == [a[0]] + a[1..] && b == [b[0]] + b[1..];
    }
  }

  lemma {:induction false} LessTransitive(a: Bytes, b: Bytes, c: Bytes)
    requires Less(a, b) && Less(b, c)
    ensures Less(a, c)
  {
    if a != [] && a[0] == b[0] == c[0] {
      LessTransitive(a[1..], b[1..], c[1..]);
    }
  }

  lemma {:induction false} LessIrreflexive(a: Bytes)
    ensures !Less(a, a)
  {
    if a == [] {
    } else {
      LessIrreflexive(a[1..]);
    }
  }

  lemma LessAsymmetric(a: Bytes, b: Bytes)
    requires Less(a, b)
    ensures !Less(b, a) && a != b
  {
    LessIrreflexive(a);
    if Less(b, a) {
      LessTransitive(a, b, a);
    }
  }

  /** A path sorts before every path it is a proper prefix of. */
  lemma {:induction false} ProperPrefixIsLess(a: Bytes, b: Bytes)
    requires a < b
    ensures Less(a, b)
  {
    if a == [] {
    } else {
      assert a[0] == b[0];
      assert a[1..] < b[1..];
      ProperPrefixIsLess(a[1..], b[1..]);
    }
  }

  /** a is a proper prefix of b, or at the first place they differ has the smaller byte. */
  ghost predicate Precedes(a: Bytes, b: Bytes) {
    exists i :: 0 <= i <= |a| && i < |b| && a[..i] == b[..i] && (i == |a| || a[i] < b[i])
  }

  /** The key order compares bytes as unsigned numbers, place by place. */
  lemma {:induction false} LessIsPrecedes(a: Bytes, b: Bytes)
    ensures Less(a, b) <==> Precedes(a, b)
  {
    if b == [] {
    } else if a == [] {
      assert a[..0] == b[..0];
    } else if a[0] != b[0] {
      assert a[..0] == b[..0];
      assert forall i :: 0 < i <= |a| && i < |b| ==> a[..i][0] != b[..i][0];
    } else {
      LessIsPrecedes(a[1..], b[1..]);
      if Less(a, b) {
        var i :| 0 <= i <= |a[1..]| && i < |b[1..]| && a[1..][..i] == b[1..][..i] && (i == |a[1..]| || a[1..][i] < b[1..][i]);
        assert a[..i + 1] == [a[0]] + a[1..][..i] && b[..i + 1] == [b[0]] + b[1..][..i];
      }
      if Precedes(a, b) {
        var i :| 0 <= i <= |a| && i < |b| && a[..i] == b[..i] && (i == |a| || a[i] < b[i]);
        assert i > 0;
        assert a[1..][..i - 1] == a[..i][1..] && b[1..][..i - 1] == b[..i][1..];
      }
    }
  }
}
