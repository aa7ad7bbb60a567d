# BlueZ replication: a verified model

The repository keeps a Dart mirror of the Bluetooth daemon's D-Bus object tree. A native object
manager turns D-Bus signals into a first-in first-out stream of binary messages, each a discriminator
byte and a struct encoded field by field. The Dart client decodes the messages with its own
bounds-checked reader and rebuilds adapters, devices, services, characteristics and descriptors,
merging partial updates under a bit mask. This project models the three layers and proves that
together they replicate the tree.

- **Codec** (`ByteStrings`, `Schema`, `Wire`, `WireTheorems`, `Types`, `Structs`, `Glaze`, `Codec`). A field
  list is a `Kind`, a struct a `Value`. `Wire` defines the encoding, the checked reader and the unchecked
  decoder; `Glaze.Buffer` is the C++ side with its loops, `Codec.Reader` the Dart side with its offset, both
  proved against the definitions.
- **Native side** (`Masks`, `Dbus`, `Frames`, `Sizes`, `ObjectManagers`, `Removals`, `Subscriptions`, `Outcomes`). The handlers as
  functions from tables to tables and frames, the class `ObjectManager` that carries them out, and the
  two-thread machine around the notification table, with what StartNotify and StopNotify make of it.
- **Dart side** (`Paths`, `ClientModel`, `GattTree`, `MovedCharacteristic`, `Devices`, `Clients`, `Observers`). The caches as values with
  an id for each object's identity; the classes `BlueZDevice`, `BlueZGattService`, `BlueZGattCharacteristic` and
  `BlueZClient` with real references, each holding a ghost `view` that `Valid()` ties to its fields; and
  the listeners of a device.
- **The whole** (`Replication`, `Runs`, `Writes`, `Lifetimes`, `Announcements`, `Notifications`, `Pipeline`, `Identity`, `Linking`, `Snapshot`, `Sessions`). A reference tree to which
  handler calls apply directly, runs that interleave calls and deliveries, the snapshot and `connect()`.

`dafny verify dfyconfig.toml` checks everything.

## What turned out false

- `connect()` promises to wait for the snapshot (lib/src/bluez_client.dart:69-97). A second call made while
  the first is still waiting returns at once (line 71) with the snapshot missing: `Sessions.SecondCallMissesSnapshot`. A return
  lacks the snapshot exactly when it is such an immediate return: `Sessions.ReturnHasBarrierIff`.
- A `connect()` suspended with the sentinel not yet applied when `close()` is called (lib/src/bluez_client.dart:106-115) never
  returns, since the port is closed and nothing completes its future: `Sessions.CloseStrandsConnect`. A suspended call can still return exactly when the port is open
  or the sentinel has been applied: `Sessions.SuspendedReturnsIff`.
- A characteristic announced again under a different service stays, as the replaced object, in the service that
  listed it first, so a descriptor added to the new object is not seen there. `MovedCharacteristic.MovedCharBreaksIdentity` is a
  run of handler calls that leads there. A frame keeps identity exactly when no service other than the parent already lists
  the path (`Identity.FrameKeepsIdentityIff`), and it holds after a whole run exactly when no child announced to a present parent was
  last announced naming another (`Identity.IdentityIff`); BlueZ's paths meet that, since the parent is part of the path.
- A 0x04 for a device already cached replaces the object (lib/src/bluez_client.dart:149-150). A caller suspended in
  `connect()`, `disconnect()` or `waitForServicesResolved()` on the old object never returns, even if the new one has the flag:
  `Observers.ReannouncedDeviceStrandsWaiter`. A waiter with nothing pending is stranded exactly when a 0x04 or 0x05 for its
  path has been delivered since (`Observers.StrandedIff`); one with an event pending can still return exactly when its object is the cached
  one or already has the flag (`Observers.ReturnsIff`). A device in the snapshot whose InterfacesAdded signal is still
  queued is announced twice in this way.
- The length prefixes are 32-bit (native/include/glaze_meta.h:90-107), so a round trip fails for a length of 2^32 or more and for
  nothing else: `WireTheorems.RoundTripInContext`. With every length below 2^32 no handler leads there
  (`Sizes.CallFramesFit`); that D-Bus lengths are so, since "Message Protocol" in the D-Bus Specification limits a message to 2^27
  bytes, is an informal step.
- native/include/bluez_types.h:5 says 0x02 also carries a device's initial state; the handlers send 0x04 for that. The payloads
  built in test/codec_test.dart:48-59 lack the changedMask field. The model follows the structs and handlers.
- Comments in native/include/bluez_types.h:12 list 0x09 among the events; the Dart client has no case for it, so removed services,
  characteristics and descriptors stay cached until their device is removed or announced again, and for no other reason:
  `Lifetimes.CachedSinceAnnounced`. Removed adapters stay for ever: `Runs.CachedIsLive`.

## Model

| member | source | states |
|---|---|---|
| WireTheorems.RoundTripInContext | native/include/glaze_meta.h:63-259 | For every kind of field and all prefixes and suffixes: decoding at the end of the prefix returns the encoded value and the offset just past it, if and only if every length in the value is below 2^32. The seven payload structs are the rows of Structs. |
| WireTheorems.PrefixFree | native/include/glaze_meta.h:229-259 | If one encoding of a kind, its lengths below 2^32, is a prefix of another, the two values are equal: encodings are injective and none is a proper prefix of another. |
| WireTheorems.TruncationIsReported | lib/src/ffi/codec.dart:136-141 | Behind any prefix, as behind a discriminator byte, the checked reader reports an overrun on every strict prefix of a valid encoding. |
| WireTheorems.DecodersAgree | native/include/glaze_meta.h:137-259 | Whenever the checked Dart reader succeeds on any bytes, the unchecked C++ decoder returns the same value and final offset, whatever follows the view in memory. |
| WireTheorems.ReadIsLocal | lib/src/ffi/codec.dart:126-213 | A successful read depends on nothing but the bytes it consumed: the same bytes anywhere in any other view give the same value. |
| WireTheorems.ReadIsTyped | lib/src/ffi/codec.dart:143-212 | What the reader returns has the requested type and representable lengths, on any input. |
| WireTheorems.CanonicalForm | native/include/glaze_meta.h:126-147 | Re-encoding what was decoded gives back the consumed bytes if and only if every bool byte is 0 or 1 and the map keys are strictly ascending. |
| WireTheorems.CanonicalReencodes | native/include/glaze_meta.h:65-135 | The direction from canonical bytes to equal re-encoding. |
| WireTheorems.ReencodedIsCanonical | native/include/glaze_meta.h:65-135 | The direction from equal re-encoding to canonical bytes. |
| WireTheorems.WorkIsBounded | lib/src/ffi/codec.dart:180-212 | However many elements a count claims, the elements read completely before the end or an overrun take at least their minimal width each from what remains. |
| Schema.MapOfSortedEntries | native/include/glaze_meta.h:126-135 | Listing a map in key order and rebuilding it gives the map back. |
| Schema.AscendingIsSorted | native/include/glaze_meta.h:126-135 | A strictly ascending entry list is the sorted listing of the map it builds, so the map form is unique. |
| Schema.MapOfAppend | lib/src/ffi/codec.dart:203-212 | Reading one more entry overwrites an earlier one with the same key. |
| ByteStrings.ValueOfImage | native/include/glaze_meta.h:50-61 | A little-endian integer image of any width reads back as the integer. |
| ByteStrings.ImageOfValue | native/include/glaze_meta.h:50-61 | Any bytes are the little-endian image of the integer they read as. |
| ByteStrings.ImageDigit | native/include/glaze_meta.h:50-61 | Byte i of the image is the digit of 256 to the power i of the integer: least significant first. |
| ByteStrings.LessTotal | native/src/object_manager.cpp:38-49 | The key order of std::map is total on byte strings. |
| ByteStrings.LessTransitive | native/src/object_manager.cpp:38-49 | The key order is transitive. |
| ByteStrings.LessIsPrecedes | native/include/glaze_meta.h:126-135 | A key is less than another if and only if it is a proper prefix of it or has the smaller byte at the first place they differ. |
| ByteStrings.ProperPrefixIsLess | native/src/object_manager.cpp:46-48 | A path sorts before every path it is a proper prefix of. |
| Glaze.Buffer.EncodeField | native/include/glaze_meta.h:65-135 | The encoder for each field type appends exactly the encoding of the field to the buffer. |
| Glaze.Buffer.EncodeEach | native/include/glaze_meta.h:99-101 | The loops over elements and the fold over a field tuple append the encodings in order. |
| Glaze.Buffer.EncodeMap | native/include/glaze_meta.h:126-135 | The map encoder writes its count and then its entries, each once, every key before those that are larger byte for byte. |
| Glaze.MapBytesInKeyOrder | native/include/glaze_meta.h:126-135 | The encoding of a map is its count and its entries in that order of bytes. |
| Wire.PrefixIsModulo | native/include/glaze_meta.h:90-107 | A length prefix reads as the length modulo 2^32. |
| Glaze.DecodeField | native/include/glaze_meta.h:139-191 | The unchecked decoder of each field type returns the value and offset of the unchecked specification. |
| Glaze.DecodeEach | native/include/glaze_meta.h:177-181 | The decoding loops and the struct fold thread the offset through the elements in order. |
| Glaze.DecodeMap | native/include/glaze_meta.h:211-225 | The map decoder builds the map of the entries read, a later duplicate key winning. |
| Codec.Reader.ReadBool | lib/src/ffi/codec.dart:143-148 | Reads one byte, true when it is not zero, and advances past it, or throws exactly when the specification overruns; only bytes inside the view are read. |
| Codec.Reader.ReadInt16 | lib/src/ffi/codec.dart:150-155 | Reads two bytes as a signed little-endian integer and advances past it, or throws exactly when the specification overruns. |
| Codec.Reader.ReadUint16 | lib/src/ffi/codec.dart:157-162 | Reads two bytes as an unsigned integer and advances past it, or throws exactly when the specification overruns. |
| Codec.Reader.ReadUint32 | lib/src/ffi/codec.dart:164-169 | Reads four bytes as an unsigned integer and advances past it, or throws exactly when the specification overruns. |
| Codec.Reader.ReadString | lib/src/ffi/codec.dart:171-178 | Reads a length and that many bytes and advances past it, or throws exactly when the specification overruns. |
| Codec.Reader.ReadByteList | lib/src/ffi/codec.dart:185-192 | Reads a count and that many bytes and advances past it, or throws exactly when the specification overruns. |
| Codec.Reader.ReadStringList | lib/src/ffi/codec.dart:180-183 | Returns the list the specification reads or throws exactly when it overruns; the strings completed are exactly those the specification completes, at most a quarter as many as bytes remained. |
| Codec.Reader.ReadManufacturerDataList | lib/src/ffi/codec.dart:194-201 | The same for manufacturer entries, at most one completed for every six remaining bytes. |
| Codec.Reader.ReadServiceDataMap | lib/src/ffi/codec.dart:203-212 | The same for service data, at most one entry completed for every eight remaining bytes, the last value of a repeated key winning. |
| Codec.DecodeAdapter | lib/src/ffi/codec.dart:34-48 | Decoding BlueZAdapterProps field by field throws exactly when the field tuple of the native struct overruns, and otherwise returns the record with those field values and leaves the offset after the last. |
| Codec.DecodeDevice | lib/src/ffi/codec.dart:50-73 | Decoding BlueZDeviceProps field by field throws exactly when the field tuple of the native struct overruns, and otherwise returns the record with those field values and leaves the offset after the last. |
| Codec.DecodeChar | lib/src/ffi/codec.dart:75-88 | Decoding BlueZGattCharProps field by field throws exactly when the field tuple of the native struct overruns, and otherwise returns the record with those field values and leaves the offset after the last. |
| Codec.DecodeService | lib/src/ffi/codec.dart:90-98 | Decoding BlueZGattServiceProps field by field throws exactly when the field tuple of the native struct overruns, and otherwise returns the record with those field values and leaves the offset after the last. |
| Codec.DecodeDesc | lib/src/ffi/codec.dart:100-108 | Decoding BlueZGattDescProps field by field throws exactly when the field tuple of the native struct overruns, and otherwise returns the record with those field values and leaves the offset after the last. |
| Codec.DecodeValueResult | lib/src/ffi/codec.dart:110-115 | Decoding BlueZValueResult field by field throws exactly when the field tuple of the native struct overruns, and otherwise returns the record with those field values and leaves the offset after the last. |
| Codec.DecodeError | lib/src/ffi/codec.dart:117-123 | Decoding BlueZError field by field throws exactly when the field tuple of the native struct overruns, and otherwise returns the record with those field values and leaves the offset after the last. |
| Structs.AdapterRoundTrip | native/include/bluez_types.h:64-78 | Encoded anywhere in a message, with every length below 2^32, the native struct reads back as a value whose Dart record is the original, and the reader stops just past it. |
| Structs.DeviceRoundTrip | native/include/bluez_types.h:121-143 | Encoded anywhere in a message, with every length below 2^32, the native struct reads back as a value whose Dart record is the original, and the reader stops just past it. |
| Structs.CharRoundTrip | native/include/bluez_types.h:160-172 | Encoded anywhere in a message, with every length below 2^32, the native struct reads back as a value whose Dart record is the original, and the reader stops just past it. |
| Structs.ServiceRoundTrip | native/include/bluez_types.h:184-191 | Encoded anywhere in a message, with every length below 2^32, the native struct reads back as a value whose Dart record is the original, and the reader stops just past it. |
| Structs.DescRoundTrip | native/include/bluez_types.h:203-210 | Encoded anywhere in a message, with every length below 2^32, the native struct reads back as a value whose Dart record is the original, and the reader stops just past it. |
| Structs.ValueResultRoundTrip | native/include/bluez_types.h:219-223 | Encoded anywhere in a message, with every length below 2^32, the native struct reads back as a value whose Dart record is the original, and the reader stops just past it. |
| Structs.ErrorRoundTrip | native/include/bluez_types.h:233-238 | Encoded anywhere in a message, with every length below 2^32, the native struct reads back as a value whose Dart record is the original, and the reader stops just past it. |
| Masks.BitsAfterSet | native/src/object_manager.cpp:167-198 | Setting a mask bit sets that bit and leaves every other. |
| Masks.AllBitsSet | native/src/object_manager.cpp:275 | The full mask of a snapshot has every bit set. |
| Dbus.DeviceMaskNamesKeys | native/src/object_manager.cpp:167-198 | The mask built from a PropertiesChanged map has a field's bit if and only if the map contains the field's key. |
| Dbus.AdapterMaskNamesKeys | native/src/object_manager.cpp:226-245 | The same for adapters. |
| Dbus.DeviceUpdateIsPartial | native/src/object_manager.cpp:164-200 | The posted partial device names exactly the tracked keys present, carries their values and leaves all else at its default. |
| Dbus.AdapterUpdateIsPartial | native/src/object_manager.cpp:223-247 | The same for adapters. |
| Dbus.ExtractManufacturerData | native/src/object_manager.cpp:315-326 | Collects, in order, the entries before the first that is no byte array, whose exception is swallowed, with their ids and bytes. |
| Dbus.ExtractServiceData | native/src/object_manager.cpp:329-337 | The map of the entries before the first that is no byte array; no other key, and the bytes of the last entry of a key. |
| Announcements.InterfaceAddedReads | native/src/object_manager.cpp:53-75 | Announcing a known interface posts one frame; each member of its record is the property under its own key when the map has it with the member's type, and the default otherwise; an unknown interface posts nothing. |
| Announcements.EveryAnnouncementReads | native/src/object_manager.cpp:253-380 | In every run, each announcement posted carries in that sense the property map of some InterfacesAdded call of the run, for that path and interface. |
| Announcements.CachedObjectReads | lib/src/bluez_client.dart:158-170 | In every reachable state each cached service, characteristic and descriptor has, key by key, what the map of some call announcing it had. |
| Announcements.AnnouncedDeviceIsCached | native/src/object_manager.cpp:60-63 | Once its announcement is applied, from any reachable state, the cached device has every property of the map. |
| Announcements.DeviceSinceAnnounced | native/src/object_manager.cpp:276-341 | From its announcement on, over any run that does not announce or remove it, each tracked field of the cached device is its last readable change, else what was announced, and every other field is what was announced. |
| Announcements.AnnouncedAdapterIsCached | native/src/object_manager.cpp:56-59 | An adapter's announcement makes it with every property of the map if it is not cached, and otherwise sets the five tracked fields and keeps the rest. |
| Announcements.AnnouncingIsOverriding | native/src/object_manager.cpp:276-302 | For a readable map and a tracked key present, announcing and changing give the field the same value, that of the variant. |
| Announcements.ReadableIff | native/src/object_manager.cpp:158-245 | A change map is readable if and only if each tracked property in it has its field's type. |
| Announcements.ChangePostsIff | native/src/object_manager.cpp:145-251 | A change of a device or adapter posts one frame for its path if the path is subscribed and the map readable, and nothing otherwise. |
| Announcements.SnapshotReads | native/src/object_manager.cpp:38-49 | After the snapshot of a BlueZ tree every object is cached with what its property map has, key by key. |
| Notifications.ValueIsPosted | native/src/object_manager.cpp:117-135 | A change of a subscribed characteristic whose Value is a byte array posts one 0x03 with its path and those bytes; any other change of it, and any of an unsubscribed one, posts nothing. |
| Notifications.StreamReceivesSubscribedValues | lib/src/bluez_gatt_characteristic.dart:118 | End to end: while a characteristic and its device stay announced, once what is queued is applied its stream has grown by exactly the bytes of its Value changes made while it was subscribed, in call order, whatever else is called and delivered. |
| Notifications.SubscribedAsCalled | native/src/object_manager.cpp:109-143 | In every run a characteristic is subscribed if and only if the last call to subscribe it, unsubscribe it or remove it subscribes it. |
| Removals.RemovalPosts | native/src/object_manager.cpp:79-105 | A removal posts one 0x05 for a device and one 0x09 for each service and descriptor interface, in order, with the path, and nothing for adapters and characteristics. |
| Removals.SubscribedWhileExposed | native/src/object_manager.cpp:53-105 | After any run a device or adapter is subscribed if and only if the last call to announce or remove its interface announced it. |
| ObjectManagers.BuildDeviceUpdate | native/src/object_manager.cpp:159-201 | Builds that partial struct property by property, or throws before posting exactly when a tracked variant has the wrong type. |
| ObjectManagers.BuildAdapterUpdate | native/src/object_manager.cpp:220-248 | The same for adapters. |
| ClientModel.MergeDeviceTakesMasked | lib/src/bluez_device.dart:140-197 | A merge takes exactly the eight tracked fields whose native bit is set and keeps every other field, so the Dart bits match the native ones. |
| ClientModel.MergeAdapterTakesMasked | lib/src/bluez_adapter.dart:99-123 | The same for the five adapter fields. |
| ClientModel.ChangedFieldsAreTheDifference | lib/src/bluez_device.dart:164-174 | The names reported are exactly the tracked fields whose value really changed. |
| Frames.DecodeOfFrameBytes | lib/src/bluez_client.dart:121-172 | A message posted for a frame decodes to that frame, 0x09 to nothing. |
| Frames.FirstByte | native/include/bluez_types.h:3-14 | Each message starts with its documented discriminator. |
| Sizes.CallFramesFit | native/src/object_manager.cpp:386-400 | If every string and array in a handler's arguments is shorter than 2^32, every frame the handler posts meets the condition of the round trip. No message length is modelled: that D-Bus limits a message to 2^27 bytes is the informal reason the hypothesis holds. |
| ObjectManagers.ObjectManager.constructor | native/src/object_manager.cpp:9-27 | Starts with empty tables and nothing posted. |
| ObjectManagers.ObjectManager.PostGlaze | native/src/object_manager.cpp:385-400 | Posts one message: the discriminator and the encoding. |
| ObjectManagers.ObjectManager.OnInterfaceAdded | native/src/object_manager.cpp:55-74 | One interface: posts its full record and, for adapters and devices, subscribes the path. |
| ObjectManagers.ObjectManager.OnInterfacesAdded | native/src/object_manager.cpp:53-75 | Leaves the tables and extends the posted stream as the handler specification says for all interfaces in order. |
| ObjectManagers.ObjectManager.OnInterfaceRemoved | native/src/object_manager.cpp:82-103 | One interface: 0x05 and unsubscription for devices, unsubscription alone for adapters and characteristics, 0x09 for services and descriptors. |
| ObjectManagers.ObjectManager.OnInterfacesRemoved | native/src/object_manager.cpp:79-105 | The same over all removed interfaces in order. |
| ObjectManagers.ObjectManager.OnPropertiesChanged | native/src/object_manager.cpp:117-248 | Posts a frame if and only if the path is in the matching table, the interface matches and the variants read can be read. |
| ObjectManagers.ObjectManager.GetManagedObjects | native/src/object_manager.cpp:38-49 | Runs the added handler on every object in order: tables and posted bytes are those of the snapshot specification. |
| ObjectManagers.ObjectManager.SubscribeAdapterProps | native/src/object_manager.cpp:206-251 | The path is in the table after, once, and nothing else changed. |
| ObjectManagers.ObjectManager.SubscribeDeviceProps | native/src/object_manager.cpp:145-204 | The same for devices. |
| ObjectManagers.ObjectManager.SubscribeCharNotify | native/src/object_manager.cpp:109-138 | The same for characteristic values; nothing is posted. |
| ObjectManagers.ObjectManager.UnsubscribeCharNotify | native/src/object_manager.cpp:140-143 | The path is no longer in the table; nothing is posted. |
| Devices.BlueZDevice.constructor | lib/src/bluez_device.dart:33-35 | A new device has the given properties and no GATT objects. |
| Devices.BlueZDevice.UpdateProps | lib/src/bluez_device.dart:140-200 | The object graph afterwards is the masked merge of the one before, with one event appended exactly when a tracked field changed. |
| Devices.BlueZDevice.AddService | lib/src/bluez_device.dart:202-203 | The device gains a new service object under its path, with no characteristics, replacing one of that path. |
| Devices.BlueZDevice.AddCharacteristic | lib/src/bluez_device.dart:205-209 | The device gains a new characteristic object, which the service it names lists if cached; no other service changes. |
| Devices.BlueZDevice.AddDescriptor | lib/src/bluez_device.dart:211-215 | The same one level down. |
| Devices.BlueZDevice.SharedReferences | lib/src/bluez_device.dart:202-215 | When the identities agree, what is reached through a service or characteristic is by reference the device's own object. |
| Devices.ListInService | lib/src/bluez_device.dart:208 | The service filed under the path lists the characteristic; no other service object changes. |
| Devices.ListInChar | lib/src/bluez_device.dart:214 | The same for descriptors. |
| Clients.BlueZAdapter.UpdateProps | lib/src/bluez_adapter.dart:99-123 | The record afterwards is the masked merge. |
| Clients.FindCharacteristic | lib/src/bluez_client.dart:141-144 | The search over all devices, in any order, finds a cached characteristic of the path if there is one. |
| Clients.BlueZClient.OnEvent | lib/src/bluez_client.dart:121-172 | For every message: the object graph afterwards is what the routing specification makes of the one before, the three object streams are given exactly the adapter, new device or dropped device of that message, the handler throws exactly when the message is empty, too short or needs a handle that is gone, and then nothing has changed. |
| Clients.BlueZClient.OnSentinel | lib/src/bluez_client.dart:124-126 | Completes the pending future once. |
| Clients.BlueZClient.OnAdapter | lib/src/bluez_client.dart:128-133 | Makes an adapter only if none is cached, then merges and gives the cached object to adapterChanged; throws exactly when it must make one without a handle. |
| Clients.BlueZClient.OnDeviceUpdate | lib/src/bluez_client.dart:135-137 | Merges into the cached device; without one nothing happens. |
| Clients.BlueZClient.OnCharValue | lib/src/bluez_client.dart:139-145 | Gives the value to the characteristic at the path its own prefix routes to, or to none. |
| Clients.BlueZClient.OnDeviceAdded | lib/src/bluez_client.dart:147-151 | Replaces whatever is cached at the path by a new device and gives that object to deviceAdded; throws exactly without a handle, with nothing emitted. |
| Clients.BlueZClient.OnDeviceRemoved | lib/src/bluez_client.dart:153-156 | Drops the device of the path and no other, and gives the dropped object to deviceRemoved exactly when one was cached. |
| Clients.BlueZClient.OnService | lib/src/bluez_client.dart:158-160 | Adds the service to the device it names, if cached. |
| Clients.BlueZClient.OnChar | lib/src/bluez_client.dart:162-165 | Adds the characteristic to the device its path routes to, if cached. |
| Clients.BlueZClient.OnDesc | lib/src/bluez_client.dart:167-170 | The same for descriptors. |
| Paths.RoutesToDevice | lib/src/bluez_client.dart:177-181 | Splitting at slashes, taking five parts and joining gives the device path for everything below a device. |
| Paths.JoinOfSplit | lib/src/bluez_client.dart:177-181 | Joining the parts of a path gives the path back. |
| Paths.PartsHoldNoSlash | lib/src/bluez_client.dart:177-181 | No part holds a slash: the parts are what lies between the slashes. |
| Paths.ShortRoutesToItself | lib/src/bluez_client.dart:177-181 | A path of at most five parts routes to itself. |
| Paths.BelowIsLess | native/src/object_manager.cpp:46-48 | What lies below an object in the tree sorts after it. |
| Replication.CallMatches | native/src/object_manager.cpp:53-105 | The frames a handler call posts take the caches where the call, applied directly, takes the object tree. |
| Replication.ShowsApply | lib/src/bluez_client.dart:121-172 | If the Dart caches show a tree, after a frame they show what the frame makes of that tree. |
| Replication.ShowsOnlyOne | lib/src/bluez_client.dart:51-53 | The caches show one tree and no other: key sets, tracked and untracked fields and GATT records are all determined. |
| Replication.OverrideIsMerge | lib/src/bluez_device.dart:140-197 | Mask building and masked merge together override exactly the properties a change map names. |
| Replication.OverrideIsMergeAdapter | lib/src/bluez_adapter.dart:99-123 | The same for adapters. |
| Runs.EndToEnd | lib/src/bluez_client.dart:121-172 | In every reachable state, for any interleaving of handler calls and deliveries, applying the queued messages to the Dart caches gives the tree the calls describe; the tables are that tree's live adapters and devices; the next message does not throw. |
| Runs.RunKeepsConsistent | native/src/object_manager.cpp:53-105 | Every step of every run keeps that refinement. |
| Runs.RunKeepsOrder | native/src/object_manager.cpp:385-400 | In every run the client is exactly the applied prefix of the posted stream and the queue the bytes of the rest. |
| Pipeline.Replicate | lib/src/bluez_client.dart:121-172 | Object to object: after any interleaving of calls and deliveries and delivery of what is still queued, the client's real objects show exactly the tree the calls describe, the device table is the set of cached devices, and GATT objects are shared by reference when announcements name the parents their paths imply. |
| Pipeline.Play | native/src/object_manager.cpp:53-143 | Any interleaving of handler calls, the sentinel and deliveries, carried out by a real manager and client: tables, messages not yet delivered and client state are those of the run. |
| Pipeline.DeliverEach | lib/src/bluez_client.dart:121-172 | Delivering messages one by one leaves the client as applying them all. |
| Runs.EveryStreamIsBracketed | native/src/object_manager.cpp:53-105 | In every run's stream each 0x02 follows a 0x04 for its path with no 0x05 between, and the first 0x01 of an adapter carries the full mask. |
| Runs.NoUpdateIsLost | lib/src/bluez_client.dart:128-137 | In every reachable state the next 0x02 finds its device cached, and the next 0x01 that makes an adapter carries the full record. |
| Runs.CachedIsLive | lib/src/bluez_client.dart:147-156 | A device is cached if and only if the delivered stream leaves it live, an adapter if and only if the stream has named it: adapters are never dropped. |
| Lifetimes.CachedSinceAnnounced | lib/src/bluez_device.dart:202-215 | After any stream a service, characteristic or descriptor is cached if and only if some frame announced it to its live device with no 0x04 or 0x05 for that device since, and its record is that of the last such frame: no 0x09 or other frame removes one. |
| Lifetimes.CachedInEveryRun | lib/src/bluez_client.dart:158-170 | The same in every reachable state, of the stream delivered so far. |
| Writes.LastWriterWins | native/src/object_manager.cpp:158-201 | Over every run that neither announces nor removes a cached device, with any other calls and deliveries between: once the queue is applied each tracked field in the Dart cache is the value in the last readable PropertiesChanged map with its key, else what it was; all other fields except the stored mask are unchanged. |
| Writes.AdapterLastWriterWins | native/src/object_manager.cpp:219-248 | The same for adapters and their five tracked fields. |
| GattTree.RunKeepsLinks | lib/src/bluez_device.dart:202-215 | Over every run in which parent properties are a function of the path, services and characteristics list exactly the children announced since they were, each the device's own object, announced again or not. |
| GattTree.CharKeepsIdentityIff | lib/src/bluez_device.dart:205-209 | Announcing a characteristic keeps reached objects identical if and only if no service other than its parent already lists its path. |
| GattTree.DescKeepsIdentityIff | lib/src/bluez_device.dart:211-215 | The same for descriptors. |
| Identity.FrameKeepsIdentityIff | lib/src/bluez_client.dart:121-172 | In a client whose reached objects are all the devices' own, a frame keeps that in every device if and only if no parent but the one it names lists its path. |
| Identity.RunKeepsOwn | lib/src/bluez_device.dart:202-215 | Whatever the frames, a listed object is the device's own if and only if the record cached for its path names the object that lists it. |
| Identity.ListsSinceAnnounced | lib/src/bluez_device.dart:202-215 | After any stream a service lists a characteristic if and only if some 0x07 for it naming the service came since the service was last announced and its device last reset; the same of characteristics and descriptors. |
| Identity.OwnIffNotMoved | lib/src/bluez_device.dart:202-215 | After any stream, a listed object is not the device's own if and only if it was announced to the object that lists it and last announced naming another parent. |
| Identity.IdentityIff | lib/src/bluez_device.dart:202-215 | After any stream, all objects reached in a cached device are its own if and only if no child of it has moved in that sense. |
| Identity.IdentityIffInEveryRun | lib/src/bluez_client.dart:158-170 | The same in every reachable state, of the stream delivered so far. |
| GattTree.MovedCharKeepsTwoObjects | lib/src/bluez_device.dart:205-209 | In any device with two cached services, a new characteristic announced under one and then the other leaves two objects for its path. |
| MovedCharacteristic.MovedCharBreaksIdentity | lib/src/bluez_device.dart:205-209 | A reachable client state, five InterfacesAdded signals and their deliveries, in which a characteristic announced under one service and then another leaves the first service with an object that is not the device's. |
| Runs.IdentityInEveryRun | lib/src/bluez_device.dart:202-215 | In every reachable client state links are exact and shared objects identical when announcements name the parent their path implies. |
| GattTree.RunKeepsFiled | lib/src/bluez_client.dart:158-170 | In every run every object is cached under its own path, in the device its path routes to. |
| GattTree.SearchIsLookup | lib/src/bluez_client.dart:141-144 | A path lives in at most one device, so the linear search equals a direct two-level lookup. |
| GattTree.StreamReceivesOwnValues | lib/src/bluez_gatt_characteristic.dart:118 | While its object stays cached, a characteristic's stream receives exactly the values of its own path, in frame order. |
| Linking.ParentsFirstIsComplete | lib/src/bluez_device.dart:202-215 | A stream that announces parents first is cached completely: exactly its objects with their records, every service with exactly the characteristics that name it, every characteristic with exactly its descriptors, none dropped by the null-aware call. |
| Snapshot.SortedMapInOrder | native/src/object_manager.cpp:38-49 | Iterating the map of maps visits facets in strictly increasing order. |
| Snapshot.SnapshotAnnounces | native/src/object_manager.cpp:46-48 | The snapshot posts one frame for each known interface in that order, whatever is subscribed already. |
| Snapshot.PrefixPutsParentsFirst | native/src/object_manager.cpp:46-48 | For a BlueZ tree, map order puts every parent's frame before its children's and announces no path twice. |
| Snapshot.SnapshotIsComplete | native/src/object_manager.cpp:38-49 | After the frames of a snapshot the caches hold every object of the tree with its full record and no other, and every device is fully linked. |
| Sessions.CreationPosts | native/src/bluez_bridge.cpp:40-53 | Creating a context posts the snapshot and then one sentinel, and delivers nothing. |
| Sessions.FutureIsBarrier | lib/src/bluez_client.dart:124-126 | The snapshot future is completed if and only if the sentinel, and so every snapshot frame before it, has been applied. |
| Sessions.NothingEarly | native/src/bluez_bridge.cpp:38-57 | Until the sentinel the caches hold a prefix of the snapshot and nothing of the event loop. |
| Sessions.WaitedReturnHasSnapshot | lib/src/bluez_client.dart:91-97 | A suspended connect() returns with caches that are exactly the snapshot. |
| Sessions.WaitedReturnHasWholeTree | lib/src/bluez_client.dart:91-97 | For a BlueZ tree the caches then hold every object and every link, and no adapter, device, service, characteristic or descriptor that is not in the tree. |
| Sessions.ReturnHasBarrierIff | lib/src/bluez_client.dart:70-98 | A normal return of connect() has the barrier behind it if and only if it is not the immediate return of a call made while an earlier call still waits. |
| Sessions.PendingIsWaiting | lib/src/bluez_client.dart:70-98 | In every reachable session the completer is pending if and only if an earlier call is still waiting. |
| Sessions.SecondCallMissesSnapshot | lib/src/bluez_client.dart:71 | A second call while the first is suspended returns at once, before the one device of a well-formed BlueZ tree is cached. |
| Sessions.OneContextForEver | lib/src/bluez_client.dart:71-72 | After one success no later call makes a context, not even after close(). |
| Sessions.SuspendedReturnsIff | lib/src/bluez_client.dart:97-115 | In every reachable session some continuation returns a suspended connect() if and only if the port is still listened to or the sentinel has been applied. |
| Sessions.CloseStrandsConnect | lib/src/bluez_client.dart:97-115 | A connect() closed before its messages are delivered waits for ever, whatever the tree and whatever happens next. |
| Sessions.SessionShowsCalls | native/src/bluez_bridge.cpp:25-57 | In every session, applying what is queued gives the caches of the tree that the snapshot and the native calls made until close() describe. |
| Sessions.SessionCatchesUp | lib/src/bluez_client.dart:90-97 | While the port is open, delivering messages and resuming the caller alone brings the client to those caches. |
| Observers.UpdateNotifies | lib/src/bluez_device.dart:164-199 | An update emits an event if and only if a tracked field really changed, naming exactly those. |
| Observers.MirrorCatchesUp | lib/src/bluez_device.dart:140-200 | For every interleaving in which no 0x04 or 0x05 for the path is delivered: a listener that copies only the fields each event names equals the cached device's tracked state once pending events are delivered. |
| Observers.NoLostWakeup | lib/src/bluez_device.dart:98-117 | For every such interleaving, a waiter with nothing pending is not parked with its flag already at the awaited value. |
| Observers.FlagHoldsAtResume | lib/src/bluez_device.dart:133-136 | When microtasks run before the next message, the flag holds when a waiter resumes. |
| Observers.CallWaitsForItsFlag | lib/src/bluez_device.dart:98-136 | connect() awaits connected, disconnect() its absence, waitForServicesResolved() servicesResolved: each returns at once if that is so when it is called, and suspends otherwise. |
| Observers.ReturnedWithFlag | lib/src/bluez_device.dart:98-136 | When microtasks run before the next message, every call that has returned did so with that flag as awaited on the device it holds, when it was made or when it resumed. |
| Observers.WaiterDrains | lib/src/bluez_device.dart:98-136 | Given n pending events, a parked waiter is woken if its flag holds and has n fewer pending if not. |
| Observers.MirrorIsDrainedToDate | lib/src/bluez_device.dart:140-200 | After any run without a 0x04 or 0x05 for the path, giving a mirror its pending events makes it equal the cached device's tracked state. |
| Observers.CurrentIff | lib/src/bluez_client.dart:147-156 | The object the listeners hold is still the cached one after a run if and only if the run delivered no 0x04 or 0x05 for its path. |
| Observers.ReturnsIff | lib/src/bluez_device.dart:98-136 | From any state a run can reach, a parked waiter's call returns in some continuation if and only if its object is still the cached one or already has the flag. |
| Observers.StrandedIff | lib/src/bluez_device.dart:98-136 | The call of a waiter parked with nothing pending returns in no continuation if and only if a 0x04 or 0x05 for its device's path has been delivered since the object it listens to was the cached one. |
| Observers.ReplacedStrandsWaiter | lib/src/bluez_client.dart:147-151 | A waiter parked on an object the client has replaced or dropped, its flag not at the awaited value, stays parked whatever happens. |
| Observers.ReannouncedDeviceStrandsWaiter | lib/src/bluez_client.dart:147-151 | A second 0x04 with the connected flag set strands a connect() waiter of the device for ever, although the device then cached has the flag. |
| Subscriptions.RunKeepsSafe | native/src/object_manager.cpp:109-143 | Every interleaving keeps mutual exclusion, a table in step with the lock order, and one live proxy for each entry and for the proxy being stored. |
| Subscriptions.TableIsHistory | native/src/gatt_bridge.cpp:55-74 | Under any two-thread interleaving, with the mutex free, a path is subscribed if and only if its last operation in lock order is a subscription. |
| Subscriptions.OneFrameEachChange | native/src/object_manager.cpp:117-137 | In every reachable state, even inside a critical section, one Value change posts at most one 0x03 however often start_notify was called, and with the mutex free exactly what the handlers run in lock order would. |
| Subscriptions.ReplayIsSubscribed | native/src/object_manager.cpp:95-97 | Running the handlers in lock order gives the table the last operations describe. |
| Outcomes.HistoryIsGranted | native/src/gatt_bridge.cpp:55-74 | Under any interleaving, the Dart operations that took effect, in lock order, are exactly those whose D-Bus call succeeded, less at most the one whose critical section is still to end; the removals likewise. |
| Outcomes.AskingWasStarted | native/src/gatt_bridge.cpp:55-74 | A running D-Bus call is for an operation the Dart thread started and that has had no reply. |
| Outcomes.SubscribedIffGranted | native/src/gatt_bridge.cpp:55-74 | Under any interleaving without a removal of the path, with the mutex free and no operation in flight: the path is subscribed if and only if the last call on it that succeeded is start_notify. |
| Outcomes.GrantedCompletes | native/src/object_manager.cpp:109-143 | With the mutex free, a call that succeeds runs to its end: the path is then in the table exactly after start_notify, and the other paths are as before. |
| Outcomes.RefusedChangesNothing | native/src/gatt_bridge.cpp:55-74 | A call that fails changes nothing. |
| Outcomes.RemovalCompletes | native/src/object_manager.cpp:95-97 | With the mutex free, a removal runs to its end and leaves the path, and no other, out of the table. |
| Outcomes.SignalPosts | native/src/object_manager.cpp:117-135 | A Value signal for a subscribed path handled with the mutex free adds one 0x03 with the path and the bytes; for an unsubscribed path it adds none. |

## Left out

- Codec.Reader.ReadString: strings are byte sequences taken as valid UTF-8, so `utf8.decode` (lib/src/ffi/codec.dart:177) and the exception it can throw are not modelled.
- D-Bus transport, proxies and method calls: a proxy is its path in a table, or in `Subscriptions` its registered callback; a signal is a handler call.
- Signals BlueZ sends between GetManagedObjects and the creation of a proxy, and the `invalidated` list, which the handlers ignore.
- Host byte order: the `memcpy` of integers is fixed to little-endian, as the Dart reader reads them.
- Memory use: `resize(count)` and `List.generate(count)` before the elements are read; only the reads are bounded.
- Exceptions inside a PropertiesChanged callback: modelled as posting nothing, not where the exception goes afterwards.
- The order of devices in a Dart map: `Clients.FindCharacteristic` searches in any order, which its result does not depend on.
- What listeners of the streams do, beyond `Observers`.
- Sizes.CallFramesFit: assumes every length below 2^32; the 2^27-byte limit on a D-Bus message is not modelled.
- The client's handle as a resource, its use after `close()`, and native calls made through it.
- Result ports of read, write and notify calls: only the structs they carry (`Codec.DecodeValueResult`, `Codec.DecodeError`) are modelled.
- adapter_bridge.cpp, device_bridge.cpp, discovery filters, rfkill, enums, UUIDs and exceptions: thin wrappers or finite facts.
- Codec.DecodeAdapter, Codec.DecodeDevice and Codec.DecodeChar: split into helper methods that read the fields in the source's order; the switch of Clients.BlueZClient.OnEvent likewise.
- Observers.NoLostWakeup: for runs that deliver no 0x04 or 0x05 for the path; what happens in the others is Observers.StrandedIff.
- Sessions.WaitedReturnHasSnapshot: assumes that Dart runs the microtasks of one message before handling the next.
- Writes.LastWriterWins: a map with an ill-typed tracked variant counts as unreadable, since its callback throws before it posts.
