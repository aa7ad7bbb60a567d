/** A run in which a characteristic is announced again under another service: the client keeps two
    objects for one path. */
module MovedCharacteristic {
  import opened Types
  import opened Dbus
  import opened Paths
  import opened Frames
  import opened ObjectManagers
  import opened ClientModel
  import opened Sizes
  import opened Runs
  import Replication
  import GattTree

  const ONE_SERVICE: Path := FIVE_PART_PATH + [47, 5]
  const OTHER_SERVICE: Path := FIVE_PART_PATH + [47, 6]
  const SOME_CHAR: Path := ONE_SERVICE + [47, 7]

  /** A device, two services of it, and a characteristic announced under one and then the other. */
  const MOVING: seq<Call> := [
    Added(FIVE_PART_PATH, [(Device1, map[])]),
    Added(ONE_SERVICE, [(GattService1, map["Device" := PathVariant(FIVE_PART_PATH)])]),
    Added(OTHER_SERVICE, [(GattService1, map["Device" := PathVariant(FIVE_PART_PATH)])]),
    Added(SOME_CHAR, [(GattCharacteristic1, map["Service" := PathVariant(ONE_SERVICE)])]),
    Added(SOME_CHAR, [(GattCharacteristic1, map["Service" := PathVariant(OTHER_SERVICE)])])]

  lemma AnnouncesOne(s: System, path: Path, name: InterfaceName, props: PropertiesMap)
    ensures Step(s, Do(Added(path, [(name, props)]))).posted == s.posted + InterfaceAdded(NO_TABLES, path, name, props).frames
    ensures Step(s, Do(Added(path, [(name, props)]))).delivered == s.delivered
  {
    hide ExtractAdapter, ExtractDevice, ExtractService, ExtractChar, ExtractDesc, Replication.TreeCall, AllFrameBytes;
    var one := [(name, props)];
    assert one[1..] == [];
    var first := InterfaceAdded(s.tables, path, name, props);
    assert InterfacesAdded(first.tables, path, []) == Handled(first.tables, []);
    assert first.frames + [] == first.frames;
  }

  function MovingFrames(): (fs: seq<Frame>)
    ensures |fs| == 5
  {
    [DeviceAddedFrame(ExtractDevice(FIVE_PART_PATH, map[])),
     ServiceAddedFrame(ExtractService(ONE_SERVICE, map["Device" := PathVariant(FIVE_PART_PATH)])),
     ServiceAddedFrame(ExtractService(OTHER_SERVICE, map["Device" := PathVariant(FIVE_PART_PATH)])),
     CharAddedFrame(ExtractChar(SOME_CHAR, map["Service" := PathVariant(ONE_SERVICE)])),
     CharAddedFrame(ExtractChar(SOME_CHAR, map["Service" := PathVariant(OTHER_SERVICE)]))]
  }

  lemma OneCall(s: System, calls: seq<Call>)
    requires calls != []
    ensures Run(s, Calls(calls)) == Run(Step(s, Do(calls[0])), Calls(calls[1..]))
  {
    hide Step;
    assert Calls(calls)[0] == Do(calls[0]) && Calls(calls)[1..] == Calls(calls[1..]);
  }

  lemma MovingPosts()
    ensures Run(START, Calls(MOVING)).posted == MovingFrames() && Run(START, Calls(MOVING)).delivered == 0
  {
    hide Step, Run, ExtractDevice, ExtractService, ExtractChar;
    var s0 := START;
    var s1 := Step(s0, Do(MOVING[0]));
    var s2 := Step(s1, Do(MOVING[1]));
    var s3 := Step(s2, Do(MOVING[2]));
    var s4 := Step(s3, Do(MOVING[3]));
    var s5 := Step(s4, Do(MOVING[4]));
    AnnouncesOne(s0, FIVE_PART_PATH, Device1, map[]);
    AnnouncesOne(s1, ONE_SERVICE, GattService1, map["Device" := PathVariant(FIVE_PART_PATH)]);
    AnnouncesOne(s2, OTHER_SERVICE, GattService1, map["Device" := PathVariant(FIVE_PART_PATH)]);
    AnnouncesOne(s3, SOME_CHAR, GattCharacteristic1, map["Service" := PathVariant(ONE_SERVICE)]);
    AnnouncesOne(s4, SOME_CHAR, GattCharacteristic1, map["Service" := PathVariant(OTHER_SERVICE)]);
    OneCall(s0, MOVING);
    OneCall(s1, MOVING[1..]);
    OneCall(s2, MOVING[1..][1..]);
    OneCall(s3, MOVING[1..][1..][1..]);
    OneCall(s4, MOVING[1..][1..][1..][1..]);
    NoCalls(s5, MOVING[1..][1..][1..][1..][1..]);
    assert s5.posted == MovingFrames();
  }

  lemma NoCalls(s: System, calls: seq<Call>)
    requires calls == []
    ensures Run(s, Calls(calls)) == s
  {
  }

  lemma MovingFits()
    ensures ActionsSized(Calls(MOVING))
  {
    forall i | 0 <= i < |MOVING| ensures CallSized(MOVING[i]) {
    }
  }

  lemma CharRoutesToDevice()
    ensures DevicePathOf(SOME_CHAR) == FIVE_PART_PATH
  {
    FiveParts();
    assert FIVE_PART_PATH + [SLASH] <= SOME_CHAR;
    RoutesToDevice(FIVE_PART_PATH, SOME_CHAR);
  }

  /** The device view before the characteristic is announced. */
  function TwoServices(): DeviceView {
    AddService(AddService(NewDevice(MovingFrames()[0].device), MovingFrames()[1].service), MovingFrames()[2].service)
  }

  lemma ClientAfter()
    ensures
      var v := ApplyAll(FRESH_CLIENT, MovingFrames());
      && FIVE_PART_PATH in v.devices
      && v.devices[FIVE_PART_PATH] == AddChar(AddChar(TwoServices(), MovingFrames()[3].characteristic), MovingFrames()[4].characteristic)
  {
    hide AddChar, AddService, NewDevice, DevicePathOf, GetManufacturer, GetServiceData;
    CharRoutesToDevice();
    var fs := MovingFrames();
    var v1 := Apply(FRESH_CLIENT, fs[0]);
    var v2 := Apply(v1, fs[1]);
    var v3 := Apply(v2, fs[2]);
    var v4 := Apply(v3, fs[3]);
    var v5 := Apply(v4, fs[4]);
    assert v3.devices[FIVE_PART_PATH] == TwoServices();
    FiveApplied(FRESH_CLIENT, fs);
  }

  lemma FiveApplied(v: ClientView, fs: seq<Frame>)
    requires |fs| == 5
    ensures ApplyAll(v, fs) == Apply(Apply(Apply(Apply(Apply(v, fs[0]), fs[1]), fs[2]), fs[3]), fs[4])
  {
    OneApplied(v, fs);
    OneApplied(Apply(v, fs[0]), fs[1..]);
    OneApplied(Apply(Apply(v, fs[0]), fs[1]), fs[2..]);
    OneApplied(Apply(Apply(Apply(v, fs[0]), fs[1]), fs[2]), fs[3..]);
    OneApplied(Apply(Apply(Apply(Apply(v, fs[0]), fs[1]), fs[2]), fs[3]), fs[4..]);
    hide Apply, ApplyAll;
    NothingApplied(Apply(Apply(Apply(Apply(Apply(v, fs[0]), fs[1]), fs[2]), fs[3]), fs[4]));
    assert fs[1..][1..] == fs[2..] && fs[2..][1..] == fs[3..] && fs[3..][1..] == fs[4..] && fs[4..][1..] == [];
  }

  lemma OneApplied(v: ClientView, fs: seq<Frame>)
    requires fs != []
    ensures ApplyAll(v, fs) == ApplyAll(Apply(v, fs[0]), fs[1..])
  {
    hide Apply;
  }

  lemma NothingApplied(v: ClientView)
    ensures ApplyAll(v, []) == v
  {
  }

  /** The first service keeps the object the device has replaced. */
  lemma MovedView()
    ensures
      !GattTree.SameObjects(AddChar(AddChar(TwoServices(), MovingFrames()[3].characteristic), MovingFrames()[4].characteristic))
  {
    hide GetManufacturer, GetServiceData;
    var two, first, second := TwoServices(), MovingFrames()[3].characteristic, MovingFrames()[4].characteristic;
    assert ONE_SERVICE[9] != OTHER_SERVICE[9];
    assert first.objectPath == second.objectPath == SOME_CHAR;
    assert first.servicePath == ONE_SERVICE && second.servicePath == OTHER_SERVICE;
    assert two.chars == map[] && two.services.Keys == {ONE_SERVICE, OTHER_SERVICE};
    GattTree.MovedCharKeepsTwoObjects(two, first, second);
  }

  /** In a reachable client state the cached device has a service that lists an object other than the
      device's own for the path, so a descriptor added to the device's is not seen there. */
  lemma MovedCharBreaksIdentity()
    ensures ActionsSized(Calls(MOVING) + Deliveries(5))
    ensures
      var v := Run(START, Calls(MOVING) + Deliveries(5)).client;
      FIVE_PART_PATH in v.devices && !GattTree.SameObjects(v.devices[FIVE_PART_PATH])
  {
    hide Step, Run, Apply, OnMessage, FrameBytes, FrameFits, AddChar, CallSized, GattTree.SameObjects, MovingFrames;
    MovingFits();
    MovingPosts();
    var s := Run(START, Calls(MOVING));
    StartInOrder();
    RunKeepsOrder(START, Calls(MOVING));
    assert s.posted[0..] == s.posted;
    CallsKeepClient(START, MOVING);
    DeliverFrames(FRESH_CLIENT, s.posted);
    DeliveringEverything(s);
    RunAppend(START, Calls(MOVING), Deliveries(5));
    ClientAfter();
    MovedView();
  }
}
