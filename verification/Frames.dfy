/** The messages on the events port: a discriminator byte and an encoded struct. */
module Frames {
  import opened ByteStrings
  import opened Schema
  import opened Wire
  import opened WireTheorems
  import opened Types

  datatype Frame =
    | SentinelFrame
    | AdapterFrame(adapter: AdapterProps)
    | DeviceUpdateFrame(device: DeviceProps)
    | CharValueFrame(characteristic: CharProps)
    | DeviceAddedFrame(device: DeviceProps)
    | DeviceRemovedFrame(device: DeviceProps)
    | ServiceAddedFrame(service: ServiceProps)
    | CharAddedFrame(characteristic: CharProps)
    | DescAddedFrame(desc: DescProps)
    | ObjectRemovedFrame(service: ServiceProps)

  function Discriminator(f: Frame): Byte {
    match f
    case SentinelFrame => 0x00
    case AdapterFrame(_) => 0x01
    case DeviceUpdateFrame(_) => 0x02
    case CharValueFrame(_) => 0x03
    case DeviceAddedFrame(_) => 0x04
    case DeviceRemovedFrame(_) => 0x05
    case ServiceAddedFrame(_) => 0x06
    case CharAddedFrame(_) => 0x07
    case DescAddedFrame(_) => 0x08
    case ObjectRemovedFrame(_) => 0x09
  }

  function PayloadKind(f: Frame): Kind {
    match f
    case SentinelFrame => KStruct([])
    case AdapterFrame(_) => ADAPTER
    case DeviceUpdateFrame(_) => DEVICE
    case CharValueFrame(_) => CHARACTERISTIC
    case DeviceAddedFrame(_) => DEVICE
    case DeviceRemovedFrame(_) => DEVICE
    case ServiceAddedFrame(_) => SERVICE
    case CharAddedFrame(_) => CHARACTERISTIC
    case DescAddedFrame(_) => DESCRIPTOR
    case ObjectRemovedFrame(_) => SERVICE
  }

  function Payload(f: Frame): Value {
    match f
    case SentinelFrame => VSeq([])
    case AdapterFrame(p) => AdapterValue(p)
    case DeviceUpdateFrame(p) => DeviceValue(p)
    case CharValueFrame(p) => CharValue(p)
    case DeviceAddedFrame(p) => DeviceValue(p)
    case DeviceRemovedFrame(p) => DeviceValue(p)
    case ServiceAddedFrame(p) => ServiceValue(p)
    case CharAddedFrame(p) => CharValue(p)
    case DescAddedFrame(p) => DescValue(p)
    case ObjectRemovedFrame(p) => ServiceValue(p)
  }

  lemma PayloadHasKind(f: Frame)
    ensures HasKind(PayloadKind(f), Payload(f))
  {
    match f
    case SentinelFrame =>
    case AdapterFrame(p) => AdapterHasKind(p);
    case DeviceUpdateFrame(p) => DeviceHasKind(p);
    case CharValueFrame(p) => CharHasKind(p);
    case DeviceAddedFrame(p) => DeviceHasKind(p);
    case DeviceRemovedFrame(p) => DeviceHasKind(p);
    case ServiceAddedFrame(p) => ServiceHasKind(p);
    case CharAddedFrame(p) => CharHasKind(p);
    case DescAddedFrame(p) => DescHasKind(p);
    case ObjectRemovedFrame(p) => ServiceHasKind(p);
  }

  ghost function FrameBytes(f: Frame): (bytes: Bytes)
    ensures bytes != []
  {
    PayloadHasKind(f);
    [Discriminator(f)] + Encode(PayloadKind(f), Payload(f))
  }

  ghost function AllFrameBytes(fs: seq<Frame>): (msgs: seq<Bytes>)
    ensures |msgs| == |fs|
    ensures forall i :: 0 <= i < |fs| ==> msgs[i] == FrameBytes(fs[i])
  {
    seq(|fs|, i requires 0 <= i < |fs| => FrameBytes(fs[i]))
  }

  /** Every length in the payload fits its uint32 prefix. */
  ghost predicate FrameFits(f: Frame) {
    PayloadHasKind(f);
    Fits(PayloadKind(f), Payload(f))
  }

  /** What _onEvent makes of a message before acting on it. */
  datatype Decoded = Thrown | Ignored | Event(frame: Frame)

  function Decode(msg: Bytes): Decoded {
    if msg == [] then Thrown
    else if msg[0] == 0x00 then Event(SentinelFrame)
    else if msg[0] == 0x01 then DecodeAs(ADAPTER, msg, v => AdapterFrame(AdapterOf(v)))
    else if msg[0] == 0x02 then DecodeAs(DEVICE, msg, v => DeviceUpdateFrame(DeviceOf(v)))
    else if msg[0] == 0x03 then DecodeAs(CHARACTERISTIC, msg, v => CharValueFrame(CharOf(v)))
    else if msg[0] == 0x04 then DecodeAs(DEVICE, msg, v => DeviceAddedFrame(DeviceOf(v)))
    else if msg[0] == 0x05 then DecodeAs(DEVICE, msg, v => DeviceRemovedFrame(DeviceOf(v)))
    else if msg[0] == 0x06 then DecodeAs(SERVICE, msg, v => ServiceAddedFrame(ServiceOf(v)))
    else if msg[0] == 0x07 then DecodeAs(CHARACTERISTIC, msg, v => CharAddedFrame(CharOf(v)))
    else if msg[0] == 0x08 then DecodeAs(DESCRIPTOR, msg, v => DescAddedFrame(DescOf(v)))
    else Ignored
  }

  function DecodeAs(k: Kind, msg: Bytes, wrap: Value -> Frame): Decoded {
    match Read(k, msg, 1)
    case Overrun => Thrown
    case Parsed(v, _) => Event(wrap(v))
  }

  /** The discriminators of bluez_types.h. */
  lemma FirstByte(f: Frame)
    ensures
      var b := FrameBytes(f)[0];
      match f
      case SentinelFrame => b == 0x00
      case AdapterFrame(_) => b == 0x01
      case DeviceUpdateFrame(_) => b == 0x02
      case CharValueFrame(_) => b == 0x03
      case DeviceAddedFrame(_) => b == 0x04
      case DeviceRemovedFrame(_) => b == 0x05
      case ServiceAddedFrame(_) => b == 0x06
      case CharAddedFrame(_) => b == 0x07
      case DescAddedFrame(_) => b == 0x08
      case ObjectRemovedFrame(_) => b == 0x09
  {
    hide Encode;
  }

  /** What a posted frame decodes to: itself, except that 0x09 has no case. */
  function DecodedFrame(f: Frame): Decoded {
    if f.ObjectRemovedFrame? then Ignored else Event(f)
  }

  /** Decoding a posted message gives back the frame it was built from. */
  lemma {:induction false} DecodeOfFrameBytes(f: Frame)
    requires FrameFits(f)
    ensures Decode(FrameBytes(f)) == DecodedFrame(f)
  {
    hide Read, Encode, HasKind, Fits, AdapterValue, DeviceValue, CharValue, ServiceValue, DescValue,
      AdapterOf, DeviceOf, CharOf, ServiceOf, DescOf;
    PayloadHasKind(f);
    var k, v := PayloadKind(f), Payload(f);
    var msg := FrameBytes(f);
    assert msg == [Discriminator(f)] + Encode(k, v) + [];
    RoundTripInContext(k, v, [Discriminator(f)], []);
    match f
    case SentinelFrame =>
    case AdapterFrame(p) => AdapterOfValue(p);
    case DeviceUpdateFrame(p) => DeviceOfValue(p);
    case CharValueFrame(p) => CharOfValue(p);
    case DeviceAddedFrame(p) => DeviceOfValue(p);
    case DeviceRemovedFrame(p) => DeviceOfValue(p);
    case ServiceAddedFrame(p) => ServiceOfValue(p);
    case CharAddedFrame(p) => CharOfValue(p);
    case DescAddedFrame(p) => DescOfValue(p);
    case ObjectRemovedFrame(_) =>
  }
}
