/** Round trips of the seven payload structs: what the native side encodes the Dart side reads back,
    wherever it stands in a message. */
module Structs {
  import opened ByteStrings
  import opened Schema
  import opened Wire
  import opened WireTheorems
  import opened Types

  /** bytes, the encoding of some value, read back at the end of pre. */
  ghost predicate ReadsBack(r: Parsed<Value>, pre: Bytes, bytes: Bytes) {
    r.Parsed? && r.offset == |pre| + |bytes|
  }

  lemma ValueRoundTrip(k: Kind, v: Value, pre: Bytes, post: Bytes)
    requires HasKind(k, v)
    ensures Fits(k, v) ==> Read(k, pre + Encode(k, v) + post, |pre|) == Parsed(v, |pre| + |Encode(k, v)|)
  {
    hide *;
    RoundTripInContext(k, v, pre, post);
  }

  /** The struct of 0x01. */
  lemma AdapterRoundTrip(p: AdapterProps, pre: Bytes, post: Bytes)
    ensures HasKind(ADAPTER, AdapterValue(p))
    ensures
      var bytes := Encode(ADAPTER, AdapterValue(p));
      var r := Read(ADAPTER, pre + bytes + post, |pre|);
      Fits(ADAPTER, AdapterValue(p)) ==> ReadsBack(r, pre, bytes) && AdapterOf(r.value) == p
  {
    hide HasKind, Fits, Encode, Read, AdapterValue, AdapterOf;
    AdapterHasKind(p);
    AdapterOfValue(p);
    ValueRoundTrip(ADAPTER, AdapterValue(p), pre, post);
  }

  /** The struct of 0x02, 0x04 and 0x05. */
  lemma DeviceRoundTrip(p: DeviceProps, pre: Bytes, post: Bytes)
    ensures HasKind(DEVICE, DeviceValue(p))
    ensures
      var bytes := Encode(DEVICE, DeviceValue(p));
      var r := Read(DEVICE, pre + bytes + post, |pre|);
      Fits(DEVICE, DeviceValue(p)) ==> ReadsBack(r, pre, bytes) && DeviceOf(r.value) == p
  {
    hide HasKind, Fits, Encode, Read, DeviceValue, DeviceOf;
    DeviceHasKind(p);
    DeviceOfValue(p);
    ValueRoundTrip(DEVICE, DeviceValue(p), pre, post);
  }

  /** The struct of 0x03 and 0x07. */
  lemma CharRoundTrip(p: CharProps, pre: Bytes, post: Bytes)
    ensures HasKind(CHARACTERISTIC, CharValue(p))
    ensures
      var bytes := Encode(CHARACTERISTIC, CharValue(p));
      var r := Read(CHARACTERISTIC, pre + bytes + post, |pre|);
      Fits(CHARACTERISTIC, CharValue(p)) ==> ReadsBack(r, pre, bytes) && CharOf(r.value) == p
  {
    hide HasKind, Fits, Encode, Read, CharValue, CharOf;
    CharHasKind(p);
    CharOfValue(p);
    ValueRoundTrip(CHARACTERISTIC, CharValue(p), pre, post);
  }

  /** The struct of 0x06 and 0x09. */
  lemma ServiceRoundTrip(p: ServiceProps, pre: Bytes, post: Bytes)
    ensures HasKind(SERVICE, ServiceValue(p))
    ensures
      var bytes := Encode(SERVICE, ServiceValue(p));
      var r := Read(SERVICE, pre + bytes + post, |pre|);
      Fits(SERVICE, ServiceValue(p)) ==> ReadsBack(r, pre, bytes) && ServiceOf(r.value) == p
  {
    hide HasKind, Fits, Encode, Read, ServiceValue, ServiceOf;
    ServiceHasKind(p);
    ServiceOfValue(p);
    ValueRoundTrip(SERVICE, ServiceValue(p), pre, post);
  }

  /** The struct of 0x08. */
  lemma DescRoundTrip(p: DescProps, pre: Bytes, post: Bytes)
    ensures HasKind(DESCRIPTOR, DescValue(p))
    ensures
      var bytes := Encode(DESCRIPTOR, DescValue(p));
      var r := Read(DESCRIPTOR, pre + bytes + post, |pre|);
      Fits(DESCRIPTOR, DescValue(p)) ==> ReadsBack(r, pre, bytes) && DescOf(r.value) == p
  {
    hide HasKind, Fits, Encode, Read, DescValue, DescOf;
    DescHasKind(p);
    DescOfValue(p);
    ValueRoundTrip(DESCRIPTOR, DescValue(p), pre, post);
  }

  /** The reply 0x10 or 0x11 of a read. */
  lemma ValueResultRoundTrip(p: ValueResult, pre: Bytes, post: Bytes)
    ensures HasKind(VALUE_RESULT, ValueResultValue(p))
    ensures
      var bytes := Encode(VALUE_RESULT, ValueResultValue(p));
      var r := Read(VALUE_RESULT, pre + bytes + post, |pre|);
      Fits(VALUE_RESULT, ValueResultValue(p)) ==> ReadsBack(r, pre, bytes) && ValueResultOf(r.value) == p
  {
    hide HasKind, Fits, Encode, Read, ValueResultValue, ValueResultOf;
    ValueResultHasKind(p);
    ValueResultOfValue(p);
    ValueRoundTrip(VALUE_RESULT, ValueResultValue(p), pre, post);
  }

  /** The reply 0x20 of a failed call. */
  lemma ErrorRoundTrip(p: ErrorReply, pre: Bytes, post: Bytes)
    ensures HasKind(ERROR, ErrorValue(p))
    ensures
      var bytes := Encode(ERROR, ErrorValue(p));
      var r := Read(ERROR, pre + bytes + post, |pre|);
      Fits(ERROR, ErrorValue(p)) ==> ReadsBack(r, pre, bytes) && ErrorOf(r.value) == p
  {
    hide HasKind, Fits, Encode, Read, ErrorValue, ErrorOf;
    ErrorHasKind(p);
    ErrorOfValue(p);
    ValueRoundTrip(ERROR, ErrorValue(p), pre, post);
  }
}
