/** Object paths: split('/'), take, join, and the device a GATT path belongs to. */
module Paths {
  import opened ByteStrings
  import opened Types

  const SLASH: Byte := 47

  function Split(p: Path): (parts: seq<Bytes>)
    ensures parts != []
  {
    if p == [] then [[]]
    else
      var rest := Split(p[1..]);
      if p[0] == SLASH then [[]] + rest else [[p[0]] + rest[0]] + rest[1..]
  }

  function Join(parts: seq<Bytes>): Path {
    if parts == [] then []
    else if |parts| == 1 then parts[0]
    else parts[0] + [SLASH] + Join(parts[1..])
  }

  function Take(parts: seq<Bytes>, n: nat): seq<Bytes> {
    if n < |parts| then parts[..n] else parts
  }

  /** _devicePathFromCharPath and _devicePathFromDescPath. */
  function DevicePathOf(p: Path): Path {
    Join(Take(Split(p), 5))
  }

  /** d has five '/'-separated parts, as /org/bluez/hci0/dev_XX has. */
  predicate HasDeviceDepth(d: Path) {
    |Split(d)| == 5
  }

  /** x lies below p in the object tree. */
  predicate Below(p: Path, x: Path) {
    p + [SLASH] <= x
  }

  lemma {:induction false} SplitBelow(a: Path, b: Path)
    ensures Split(a + [SLASH] + b) == Split(a) + Split(b)
  {
    var whole := a + [SLASH] + b;
    if a == [] {
      assert whole[1..] == b;
    } else {
      assert whole[1..] == a[1..] + [SLASH] + b;
      SplitBelow(a[1..], b);
    }
  }

  lemma JoinLonger(b: Byte, rest: seq<Bytes>)
    requires rest != []
    ensures Join([[b] + rest[0]] + rest[1..]) == [b] + Join(rest)
    ensures Join([[]] + rest) == [SLASH] + Join(rest)
  {
    var parts, after := [[b] + rest[0]] + rest[1..], [[]] + rest;
    assert parts[1..] == rest[1..] && parts[0] == [b] + rest[0];
    assert after[1..] == rest && after[0] == [];
    assert [] + [SLASH] == [SLASH];
    Regroup([b], rest[0], [SLASH]);
    Regroup([b], rest[0] + [SLASH], Join(rest[1..]));
  }

  lemma {:induction false} JoinOfSplit(p: Path)
    ensures Join(Split(p)) == p
  {
    if p == [] {
    } else {
      JoinOfSplit(p[1..]);
      JoinLonger(p[0], Split(p[1..]));
      assert [p[0]] + p[1..] == p;
      hide Join;
    }
  }

  /** The parts hold no slash: with JoinOfSplit, they are what lies between the slashes. */
  lemma {:induction false} PartsHoldNoSlash(p: Path, i: nat)
    requires i < |Split(p)|
    ensures SLASH !in Split(p)[i]
  {
    if p != [] {
      if p[0] == SLASH {
        if i > 0 {
          PartsHoldNoSlash(p[1..], i - 1);
        }
      } else {
        PartsHoldNoSlash(p[1..], i);
      }
    }
  }

  /** A path of at most five parts routes to itself. */
  lemma ShortRoutesToItself(p: Path)
    requires |Split(p)| <= 5
    ensures DevicePathOf(p) == p
  {
    assert Take(Split(p), 5) == Split(p);
    JoinOfSplit(p);
  }

  /** Everything below a device routes to that device. */
  lemma {:induction false} RoutesToDevice(d: Path, x: Path)
    requires HasDeviceDepth(d) && Below(d, x)
    ensures DevicePathOf(x) == d
  {
    var tail := x[|d| + 1..];
    assert x == d + [SLASH] + tail;
    SplitBelow(d, tail);
    assert Take(Split(x), 5) == Split(d);
    JoinOfSplit(d);
  }

  lemma BelowIsLess(p: Path, x: Path)
    requires Below(p, x)
    ensures Less(p, x) && p != x
  {
    assert p < x by {
      assert (p + [SLASH])[..|p|] == x[..|p|];
    }
    ProperPrefixIsLess(p, x);
  }

  lemma BelowTransitive(p: Path, x: Path, y: Path)
    requires Below(p, x) && Below(x, y)
    ensures Below(p, y)
  {
    assert x <= y by {
      assert (x + [SLASH])[..|x|] == y[..|x|];
    }
    assert y[..|p| + 1] == x[..|p| + 1];
  }

  /** A path of the depth of a device's. */
  const FIVE_PART_PATH: Path := [47, 1, 47, 2, 47, 3, 47, 4]

  lemma OnePart(b: Byte)
    requires b != SLASH
    ensures Split([b]) == [[b]]
  {
    assert [b][1..] == [] && Split([]) == [[]];
    assert [b] + [] == [b];
  }

  lemma FiveParts()
    ensures HasDeviceDepth(FIVE_PART_PATH)
  {
    OnePart(1);
    OnePart(2);
    OnePart(3);
    OnePart(4);
    hide Split;
    SplitBelow([47, 1, 47, 2, 47, 3], [4]);
    SplitBelow([47, 1, 47, 2], [3]);
    SplitBelow([47, 1], [2]);
    SplitBelow([], [1]);
    NoPart();
    assert [] + [SLASH] + [1] == [47, 1] && [47, 1] + [SLASH] + [2] == [47, 1, 47, 2];
    assert [47, 1, 47, 2] + [SLASH] + [3] == [47, 1, 47, 2, 47, 3];
    assert [47, 1, 47, 2, 47, 3] + [SLASH] + [4] == FIVE_PART_PATH;
  }

  lemma NoPart()
    ensures Split([]) == [[]]
  {
  }
}
