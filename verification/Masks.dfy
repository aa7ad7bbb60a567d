/** changedMask: the tracked fields, their bits on each side, and the uint32 operations on them. */
module Masks {
  import opened ByteStrings
  import opened Types

  /** mask & (1u << i) != 0 */
  predicate Bit(mask: nat, i: nat) {
    if i == 0 then mask % 2 == 1 else Bit(mask / 2, i - 1)
  }

  function Pow2(n: nat): (p: nat)
    ensures p > 0
  {
    if n == 0 then 1 else 2 * Pow2(n - 1)
  }

  lemma Pow2Of32()
    ensures Pow2(32) == TWO_32
  {
    assert Pow2(2) == 0x4 && Pow2(4) == 0x10 && Pow2(6) == 0x40 && Pow2(8) == 0x100;
    assert Pow2(10) == 0x400 && Pow2(12) == 0x1000 && Pow2(14) == 0x4000 && Pow2(16) == 0x1_0000;
    assert Pow2(18) == 0x4_0000 && Pow2(20) == 0x10_0000 && Pow2(22) == 0x40_0000 && Pow2(24) == 0x100_0000;
    assert Pow2(26) == 0x400_0000 && Pow2(28) == 0x1000_0000 && Pow2(30) == 0x4000_0000;
  }

  /** mask | (1u << i) */
  function SetBit(mask: nat, i: nat): nat {
    if i == 0 then mask + 1 - mask % 2
    else 2 * SetBit(mask / 2, i - 1) + mask % 2
  }

  lemma {:induction false} SetBitFits(mask: nat, i: nat, w: nat)
    requires i < w && mask < Pow2(w)
    ensures SetBit(mask, i) < Pow2(w)
  {
    var half, low, top := mask / 2, mask % 2, Pow2(w - 1);
    assert mask == 2 * half + low && Pow2(w) == 2 * top;
    assert half < top;
    if i == 0 {
      assert SetBit(mask, i) == 2 * half + 1;
    } else {
      SetBitFits(half, i - 1, w - 1);
      assert SetBit(mask, i) == 2 * SetBit(half, i - 1) + low;
    }
  }

  /** if (present) mask |= 1u << i */
  function SetBitIf(mask: U32, present: bool, i: nat): (m: U32)
    requires i < 32
  {
    Pow2Of32();
    SetBitFits(mask, i, 32);
    if present then SetBit(mask, i) else mask
  }

  lemma BitsAfterSetIf(mask: U32, present: bool, i: nat, j: nat)
    requires i < 32
    ensures Bit(SetBitIf(mask, present, i), j) <==> (present && i == j) || Bit(mask, j)
  {
    BitsAfterSet(mask, i, j);
  }

  lemma {:induction false} BitsAfterSet(mask: nat, i: nat, j: nat)
    ensures Bit(SetBit(mask, i), j) <==> i == j || Bit(mask, j)
  {
    if i > 0 && j > 0 {
      BitsAfterSet(mask / 2, i - 1, j - 1);
    }
  }

  lemma {:induction false} LowBitsSet(width: nat, i: nat)
    requires i < width
    ensures Bit(Pow2(width) - 1, i)
  {
    if i == 0 {
    } else {
      LowBitsSet(width - 1, i - 1);
    }
  }

  /** ~0u */
  const ALL_BITS: U32 := 0xFFFF_FFFF

  lemma AllBitsSet(i: nat)
    requires i < 32
    ensures Bit(ALL_BITS, i)
  {
    Pow2Of32();
    LowBitsSet(32, i);
  }

  lemma {:induction false} NoBitsSet(i: nat)
    ensures !Bit(0, i)
  {
    if i == 0 {
    } else {
      NoBitsSet(i - 1);
    }
  }

  // ── Tracked fields ───────────────────────────────────────────────────────

  datatype DeviceField = Connected | RSSI | Paired | ServicesResolved | Name | Trusted | Blocked | Alias

  datatype AdapterField = Powered | Discovering | Discoverable | Pairable | AdapterAlias

  datatype FieldValue = Flag(b: bool) | Number(n: int) | Text(s: Bytes)

  function DeviceGet(p: DeviceProps, f: DeviceField): FieldValue {
    match f
    case Connected => Flag(p.connected)
    case RSSI => Number(p.rssi)
    case Paired => Flag(p.paired)
    case ServicesResolved => Flag(p.servicesResolved)
    case Name => Text(p.name)
    case Trusted => Flag(p.trusted)
    case Blocked => Flag(p.blocked)
    case Alias => Text(p.alias)
  }

  function AdapterGet(p: AdapterProps, f: AdapterField): FieldValue {
    match f
    case Powered => Flag(p.powered)
    case Discovering => Flag(p.discovering)
    case Discoverable => Flag(p.discoverable)
    case Pairable => Flag(p.pairable)
    case AdapterAlias => Text(p.alias)
  }

  /** p with every tracked field, and the mask, cleared: what a masked merge leaves alone. */
  function DeviceUntracked(p: DeviceProps): DeviceProps {
    p.(changedMask := 0, connected := false, rssi := 0, paired := false, servicesResolved := false, name := [],
       trusted := false, blocked := false, alias := [])
  }

  function AdapterUntracked(p: AdapterProps): AdapterProps {
    p.(changedMask := 0, powered := false, discovering := false, discoverable := false, pairable := false, alias := [])
  }

  /** enum DeviceChangedBit of bluez_types.h. */
  function NativeDeviceBit(f: DeviceField): (i: nat)
    ensures i < 32
  {
    match f
    case Connected => 0
    case RSSI => 1
    case Paired => 2
    case ServicesResolved => 3
    case Name => 4
    case Trusted => 5
    case Blocked => 6
    case Alias => 7
  }

  /** enum AdapterChangedBit of bluez_types.h. */
  function NativeAdapterBit(f: AdapterField): (i: nat)
    ensures i < 32
  {
    match f
    case Powered => 0
    case Discovering => 1
    case Discoverable => 2
    case Pairable => 3
    case AdapterAlias => 4
  }

  /** The constants of class BlueZDeviceProps in types.dart. */
  const DART_CONNECTED_BIT: nat := 0
  const DART_RSSI_BIT: nat := 1
  const DART_PAIRED_BIT: nat := 2
  const DART_SERVICES_RESOLVED_BIT: nat := 3
  const DART_NAME_BIT: nat := 4
  const DART_TRUSTED_BIT: nat := 5
  const DART_BLOCKED_BIT: nat := 6
  const DART_ALIAS_BIT: nat := 7

  /** The constants of class BlueZAdapterProps in types.dart. */
  const DART_POWERED_BIT: nat := 0
  const DART_DISCOVERING_BIT: nat := 1
  const DART_DISCOVERABLE_BIT: nat := 2
  const DART_PAIRABLE_BIT: nat := 3
  const DART_ADAPTER_ALIAS_BIT: nat := 4
}
