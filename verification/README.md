# The SOME/IP dispatcher, modelled and proved in Dafny

The repository is a SOME/IP dispatcher: a daemon that routes messages between local
applications (over Unix domain sockets), remote daemons (over TCP) and the network's service
discovery (over UDP multicast), together with the client library the applications use. This
project models its behaviour in Dafny 4.11 and proves properties of it over all inputs, all
socket behaviours and all runs.

`dafny verify dfyconfig.toml` checks the whole project.

## How it is organised

Most of the source changes things step by step. Each part therefore has two halves: a pure
description (datatypes and functions of the old state) that the theorems are about, and
classes and methods with the source's own loops and fields, each proved to do exactly what the
description says.

| files | part of the system |
|---|---|
| `Bytes`, `ByteArray`, `Wire` | byte order, the small-buffer byte vector, network serializer and deserializer with back-patched lengths |
| `IpcStream`, `IpcConnection`, `IpcProgress` | framed messages over a local socket with congestion buffering and partial reads; that they get through |
| `SomeIp`, `TcpFraming`, `TcpConnection`, `TcpHandOver`, `TcpOrder` | message headers, the TCP framer, the deframing state machine on its message buffer, what it hands over, order over a whole connection |
| `ServiceDiscovery`, `DiscoveryRoundTrip`, `DiscoveryLimits`, `DiscoveryCodec`, `Announcements`, `Requests` | service-discovery messages: length-first encoder, parser, messages with unknown parts or cut short, the serializer that back-patches, offers and stop-offers, queries and subscriptions |
| `WireFormat` | the bytes of headers, discovery messages, payloads and local messages, position by position |
| `Sessions` | session counters and reboot detection |
| `Containers` | strings, vectors and maps nested to any depth |
| `Activation`, `OnDemand` | services started on demand, by themselves and inside the daemon |
| `Lists`, `Endpoints` | vectors with first-occurrence removal; placement of services on TCP servers |
| `Daemon`, `DaemonInvariant`, `Lifecycle` | the dispatcher with its clients, registry, subscriptions and listeners as one state machine, and what every run keeps |
| `Routing`, `Notifications`, `NotificationOrder` | where messages go; requests and replies inside a daemon and across two; notifications told from the subscriptions made |
| `Effects`, `Ownership`, `Replication`, `RegistryClient`, `EndToEnd` | what registration does to listeners; the copy of the registry in every client; daemon, connection and client session as one machine |
| `Placement`, `EndpointRuns`, `Offering` | TCP endpoints and announcements over whole runs |
| `StaleService` | a run in which a client that asked twice for a service harms another |
| `Dispatcher` | the dispatcher object, method by method |

The environment is a parameter everywhere: how many bytes a `send` takes or a `recv` returns,
whether it fails and how, whether a server could be opened, whether a process could be started,
in which order clients connect, act and disconnect. In the daemon, objects are named by
handles; a client object is deleted when the idle callback runs, and anything that still names
it then would be a dangling reference.

## What is proved

- **Local IPC.** For every interleaving of writes, flushes and reads, with any partial send and
  receive and no send that fails with EBADF, the messages handed over are a prefix of those
  written, and the rest is exactly the reader's partial message, the bytes in flight and the
  pending buffer. From any moment of such a run, one flush and one poll that the socket does not
  stop hand over everything (`FlushAndPollDeliverAll`).
- **Registry replicas.** In every run, every local client's list equals, in order, the
  dispatcher's list at a past moment, message by message, and the current one once drained, if
  and only if no event since the client connected unregistered a service that was not registered
  (`ReplicaFollowsIff`). When no client asks twice for a service it provides, no event does
  (`CarefulNeverMisses`). Daemon, connection and session are also one composed machine
  (`ReplicaEndToEnd`); how they fit together is proved, not assumed.
- **Service discovery messages.** Parsing what the serializer wrote returns the message and
  consumes every byte, if and only if the length fields can hold the lengths, and no shorter part
  of it can be parsed (`OnlyWholeMessages`). Offers, stop-offers, queries and subscriptions in any
  mix are heard as what they are.
- **No dangling clients.** In every state of every run nothing refers to a client that is not
  registered, and every disconnected client is deleted exactly once.
- **TCP endpoints.** In every run the servers hold only registered local services, none of them
  twice, and a registered local service is on a server if and only if it could be placed when it
  was registered and nobody has unregistered an object with its IDs since (`OnServerIff`). When
  every needed server can be opened and every unregistration finds its service, every registered
  local service is on exactly one server, and there are as many servers as the peak number of
  simultaneous instances of one service ID (`OneServerEach`).
- **Replies.** A reply reaches the client that asked or nobody, inside one daemon and over the
  two-hop TCP path; identifiers are never reused.
- **Announcements.** In every run in which objects for services from elsewhere are unregistered
  only while they are registered, what is on offer on the network is, at every moment, exactly
  the registered local services that are on servers, at the ports of these servers. Without that
  condition, what every event says is known word by word: a registration
  (`OpensServer`, `UsesServer`, `NotOfferedHere`), the timer (`TimerOffersAll`), services that go
  (`GoneAreWithdrawn`) and all others (`SilentOtherwise`). The ports of a server are for ever those
  that opening it yielded (`PortsFromOpening`, `PortsNeverChange`).
- **Notifications.** In every state of every run a notification is sent, unchanged, to the client of
  every subscription made so far that is still registered, in the order of the subscriptions, and to
  nobody else (`NotificationsInOrder`, `NotificationsExactly`).
- **Services started on demand.** In every history of daemon and well-known services together, the
  requests routed to such a service and accepted are passed on once each and in order, all to the
  one client that took the service over; what waits is passed on at that moment. Which are accepted
  is told from the registry and the launches alone (`AcceptedExactly`, `FateExactly`).
- **Also:** subscriptions recorded twice agree with multiplicity; cached providers equal lookups
  and every request has exactly one destination; reboot detection is characterised exactly;
  the TCP deframer inverts the framer for every chunking; the all-ones length field never looks
  complete early; the byte vector refines a byte sequence; nested containers are read back
  whatever the map order.

Where something turns out not to hold, the code is modelled as it is and the exact condition
under which it does hold is proved:

- The comment in `lib/SocketStreamConnection.h` promises that data order is always kept. Bytes
  written without asking for congestion first, as the TCP client does, overtake pending bytes.
  Over a whole connection the order is kept for all contents exactly when no write moves bytes
  past pending ones (`OrderKeptIff`), and then packets arrive in order (`PacketsInOrder`).
- `send` failing with EBADF is reported as success with the bytes neither sent nor queued
  (`BadDescriptorLosesMessage`). On an open connection every byte is accounted for exactly when
  this has not happened (`RunConservedIff`).
- The deframer writes the header into the message buffer before it grows the buffer, and leaving
  the static storage copies only the bytes inside the old length, which are four. The first
  message of a connection arrives intact exactly when its payload is at most 1004 bytes or its
  header is all zeros anyway (`DeliveredIntactIff`, `LargeFirstMessageFails`).
- Length fields of discovery messages wrap; the round trip holds exactly when they do not
  (`RoundTripIff`). Option indices have one byte; announcements from number 256 on are heard
  with the right endpoint exactly when they repeat it (`HeardCorrectlyIff`,
  `ManyOffersMisheard`).
- After a detected reboot the receiver forgets the session, so of several restarts in a row every
  other one goes unnoticed (`RebootDetectedExactly`, `SecondRestartUnnoticed`).
- A client that registers a service it already provides has it on its list twice. Unregistering
  it a second time, explicitly or by disconnecting, tells everyone that listens, although the
  registry does not change. A replica then erases a missing element, which is undefined
  (`RegisteredTwiceFails`), or, if another client has registered the IDs meanwhile, erases that
  client's service: the replica is defined and wrong, and the TCP manager takes the service off
  its server (`SilentlyWrong`). From such an event on the replica is wrong for as long as the
  client stays, and only such events make it wrong (`ReplicaFollowsIff`, `ReplicasSurviveIff`).
- Registry messages carry request ID zero. Request IDs start at 0x1111 and have 16 bits, so the
  61168th request of a client has ID zero and takes a registry message for its answer
  (`RequestZeroFails`). Registry messages are kept if and only if none is read while that request
  waits (`SessionKeepsRegistryUnlessZero`).
- Over TCP, a request without return is not tagged with its sender, so the error reply of a
  remote daemon reaches the sender exactly when the upper half of the request ID happens to be
  its identifier (`RemoteErrorReachesSenderIff`, `ErrorGoesAstray`). A request ID survives the
  two hops exactly when it has 16 bits (`TwoHopReply`).

## Model

| member | source | states |
|---|---|---|
| Bytes.NetworkRoundTrip | utilLib/common.h:74-94 | reading back a value written in network order gives the value modulo the width |
| Bytes.SwapBytes | utilLib/common.h:68-72 | the in-place swap reverses the array |
| Bytes.NativeToNetworkOrder | utilLib/common.h:74-83 | on either kind of machine the memory of a value becomes its network bytes |
| Bytes.NetworkToNativeOrder | utilLib/common.h:85-94 | on either kind of machine network bytes become the memory of their value |
| ByteArrays.ByteArray.constructor | utilLib/common.h:102-109 | a new array is empty, in zeroed static storage |
| ByteArrays.ByteArray.Copy | utilLib/common.h:111-114 | a copy has the contents of the original |
| ByteArrays.ByteArray.Size | utilLib/common.h:127-129 | the size is the length of the contents, static or dynamic |
| ByteArrays.ByteArray.GetData | utilLib/common.h:135-147 | the data are the contents, static or dynamic |
| ByteArrays.ByteArray.Resize | utilLib/common.h:154-169 | the new size and the common prefix; growing exposes the bytes of the static buffer, or fills with zeros in and into the vector |
| ByteArrays.ByteArray.Poke | utilLib/common.h:135-140 | a write through the data pointer changes just those bytes of the storage, also beyond the length |
| ByteArrays.ResizedMemory | utilLib/common.h:154-169 | of the memory, exactly what lies beyond the length is replaced by zeros when the static buffer is left, and nothing otherwise |
| ByteArrays.ByteArray.WriteAt | utilLib/common.h:171-174 | overwrites just the given bytes |
| ByteArrays.ByteArray.Append | utilLib/common.h:176-180 | the contents grow by the data, wherever they are stored |
| ByteArrays.ByteArray.AppendByte | utilLib/common.h:182-186 | the contents grow by the byte |
| ByteArrays.ByteArray.Skip | utilLib/common.h:191-197 | reserves zeros and returns their position |
| ByteArrays.ByteArray.Assign | utilLib/common.h:116-120 | assignment copies the contents, shrinking or growing |
| ByteArrays.ByteArray.Execute | utilLib/common.h:99-207 | any sequence of edits refines the same edits on a byte sequence |
| ByteArrays.StorageIsInvisible | utilLib/common.h:99-207 | without growing by resize, the contents after any edits depend only on the contents before, not on the storage |
| Wire.NetworkSerializer.Write | utilLib/serialization.h:88-99 | a chain of writes appends the fields, each at its width, in network order |
| Wire.NetworkSerializer.WriteLowBytes | utilLib/serialization.h:360-377 | the byte loop writes the low bytes of the value, most significant first |
| Wire.NetworkSerializer.WriteRawData | utilLib/serialization.h:114-116 | appends the bytes |
| Wire.NetworkSerializer.OpenLength | utilLib/serialization.h:297-304 | reserves the length field and remembers where |
| Wire.NetworkSerializer.CloseLength | utilLib/serialization.h:338-354 | the reserved field gets the length of what follows it less the offset, and nothing else changes |
| Wire.NetworkDeserializer.Read | utilLib/serialization.h:220-257 | a chain of reads returns the values of the fields and advances past them |
| Wire.NetworkDeserializer.ReadLowBytes | utilLib/serialization.h:379-399 | the shift-and-add loop returns the value of the bytes |
| Wire.FieldsRoundTrip | utilLib/serialization.h:88-257 | fields written and read back are the values modulo their widths, and any suffix is left |
| SomeIp.HeaderRoundTrip | lib/SomeIP.h:199-211 | a header and its length field come back from their bytes |
| WireFormat.HeaderOnWire | lib/SomeIP.h:199-211 | the sixteen bytes of a header, most significant byte first |
| WireFormat.PacketOnWire | lib/TCPClient.cpp:158-175 | a message is its header, whose length counts the payload and eight more, and its payload |
| SomeIp.MessageIdOf | lib/SomeIP.h:89-101 | a packed message ID gives back service and member ID |
| SomeIp.TagClientIdentifier | lib/TCPClient.h:173-182 | a tagged request ID gives back the identifier and keeps its lower half and the rest of the header |
| IpcStream.PartialSizeNotZero | lib/ipc.h:155-192 | a size field of which only some of the eight bytes have arrived is never zero |
| IpcStream.CompleteExactlyAtFrameEnd | lib/ipc.h:155-192 | reading a frame, the message is complete exactly when the whole frame has been read |
| IpcStream.CompleteConsumedFrame | lib/ipc/UDS.cpp:68-95 | a complete message has consumed exactly one frame, whatever the bytes were |
| IpcStream.WriteBytesCuts | lib/ipc/UDS.cpp:208-252 | what is written is cut in two: sent, and pending |
| IpcStream.WriteMessageCuts | lib/ipc/UDS.cpp:168-206 | a framed message behind the pending bytes is cut into sent and queued exactly when no send fails with EBADF; otherwise bytes are missing |
| IpcStream.UncheckedWriteKeepsOrder | lib/ipc/UDS.cpp:208-252 | writing without the congestion test keeps the order for all data exactly when nothing is pending or nothing gets past it |
| IpcStream.PollKeepsBytes | daemon/LocalClient.cpp:101-124 | the read loop hands over whole frames and loses no byte, for every chunking |
| IpcProgress.WriteMessageTakes | lib/ipc/UDS.cpp:168-252 | exactly the bytes the calls took are sent, the rest waits; the report is OK, full or disconnected exactly as they went |
| IpcProgress.FlushTakes | lib/SocketStreamConnection.h:131-145 | a flush sends what the socket takes of the pending bytes, from the front, and reports likewise |
| IpcProgress.PollHandsAll | daemon/LocalClient.cpp:101-124 | a poll that can read everything hands over all messages that have arrived, and stops with nothing in flight |
| IpcProgress.FlushAndPollDeliverAll | lib/ipc/UDS.cpp:68-95 | from any moment of any run without EBADF on an open connection, one flush and one poll that nothing stops deliver exactly the messages written and not delivered |
| IpcStream.StepConserves | lib/ipc/UDS.cpp:168-252 | every write, flush and read that drops nothing keeps the sum of delivered, partial, in-flight and pending bytes |
| IpcStream.RunConservedIff | lib/SocketStreamConnection.h:131-156 | over every run, on an open connection, all bytes are accounted for if and only if no send failed with EBADF |
| IpcStream.DeliveryIsPrefix | lib/ipc/UDS.cpp:68-252 | unless EBADF dropped bytes, delivered messages are a prefix of those written, the remainder is partial + in flight + pending, and nothing is left when these are empty |
| IpcStream.BadDescriptorLosesMessage | lib/ipc/UDS.cpp:233-251 | with a bad descriptor every message is reported as written and is neither sent nor queued |
| IpcStream.BadDescriptorBreaksRun | lib/ipc/UDS.cpp:233-251 | after any run, such a write changes nothing but the list of messages written, so bytes are missing for good |
| IpcConnection.StreamWriter.WriteBytesNonBlocking | lib/ipc/UDS.cpp:208-252 | the writer's new state, the bytes sent and the report are those of the model, for every outcome of `send` |
| IpcConnection.StreamWriter.WriteNonBlocking | lib/ipc/UDS.cpp:168-206 | the same for a framed message with its congestion test and two sends |
| IpcConnection.StreamWriter.WritePendingDataNonBlocking | lib/SocketStreamConnection.h:131-141 | flushing sends from the front of the pending bytes and keeps the rest |
| IpcConnection.MessageReader.SetInputMessage | lib/ipc/UDSConnection.h:80-84 | aims the length reader at an all-ones size field |
| IpcConnection.MessageReader.ReceiveLength | lib/SocketStreamConnection.h:33-52 | the size field fills byte by byte in place |
| IpcConnection.MessageReader.ReadNonBlocking | lib/ipc/UDS.cpp:68-95 | one read is the model's read, for any chunk sizes |
| IpcConnection.MessageReader.OnIncomingDataAvailable | daemon/LocalClient.cpp:101-124 | the keep-going loop hands over what the model's poll does |
| TcpFraming.FrameParts | lib/TCPClient.cpp:158-174 | message ID, length of what follows, the rest of the header and the payload make the frame |
| TcpFraming.ProcessFollows | lib/TCPClient.cpp:9-75 | the receive loop stays in step with the stream of frames, whatever each `recv` returns |
| TcpFraming.DeframerInvertsFramer | lib/TCPClient.cpp:9-75 | for every chunking the messages handed over are the first ones framed, in order, and all once everything has arrived; only the header of a large first message is lost |
| TcpFraming.HeaderAfterResize | lib/TCPClient.cpp:21-36 | the header stored in the message buffer survives the resize for the payload, except as zeros when a new buffer leaves its static storage |
| TcpFraming.DeliveredIntactIff | lib/TCPClient.cpp:21-36 | the messages are handed over as sent exactly when the first payload fits the static buffer or its header is zero |
| TcpFraming.LargeFirstMessageFails | lib/TCPClient.cpp:21-36 | a first message with 1005 bytes of payload arrives whole and is not handed over as sent |
| TcpFraming.HandInjective | lib/TCPClient.cpp:47-62 | handing over keeps the whole header, identifier and lower half apart |
| TcpConnection.Serialize | lib/TCPClient.cpp:158-174 | the serializer with its back-patched length writes the frame |
| TcpConnection.TcpClient.SendMessage | lib/TCPClient.cpp:158-174 | the frame is written, sent or pending, as the stream writer model says |
| TcpConnection.TcpClient.constructor | lib/TCPClient.h:236-239 | a new message buffer of four bytes and empty readers |
| TcpConnection.TcpClient.SetPayloadSize | lib/TCPClient.h:245-248 | resizing the real buffer leaves the stored header, or zeros if the buffer was new and the payload is above 1004 bytes |
| TcpConnection.TcpClient.HandOver | lib/TCPClient.cpp:45-64 | what is read back from the buffer is handed over; a reply's request ID is cleared in place; `TcpHandOver.HandedExactly` says what that is for every packet |
| TcpHandOver.HandedExactly | lib/TCPClient.cpp:43-64 | however the bytes are cut, the i-th item is for the i-th packet: a discovery message with its header and payload, a reply with the identifier taken out of its request ID, any other message as it is; only a first packet with too large a payload has a zero header |
| TcpHandOver.BufferHoldsItem | lib/TCPClient.cpp:52-59 | after handing over, the buffer holds the header and payload handed over and, for a reply, its client identifier |
| TcpHandOver.EverythingHanded | lib/TCPClient.cpp:16-72 | whatever happened before on the connection: when all bytes have arrived and no read stops early, one call hands over every packet that was not |
| TcpHandOver.PayloadSizeWraps | lib/TCPClient.cpp:31-33 | the payload is the announced length less eight, which below eight wraps to a 64-bit number that no buffer has |
| TcpOrder.OrderKeptIff | lib/TCPClient.cpp:172-173 | over a whole connection of writes and flushes the socket gets all contents in order if and only if no write moves bytes past pending ones |
| TcpOrder.PacketsInOrder | lib/SocketStreamConnection.h:69-74 | packets sent without overtaking and received in any chunks are handed over in order, all once everything has arrived |
| TcpConnection.TcpClient.ReceiveHeader | lib/TCPClient.cpp:18-38 | the header turn of the model |
| TcpConnection.TcpClient.ReceivePayload | lib/TCPClient.cpp:40-70 | the payload turn of the model |
| TcpConnection.TcpClient.ProcessIncomingData | lib/TCPClient.cpp:9-75 | the loop hands over what the model's run of turns does |
| DiscoveryRoundTrip.EntryRoundTrip | lib/ServiceDiscovery.h:91-128 | an entry comes back with TTL modulo 2^24 and nibbles, any suffix left |
| DiscoveryRoundTrip.OptionRoundTrip | lib/ServiceDiscovery.h:50-66 | an option comes back, any suffix left |
| DiscoveryRoundTrip.BodyRoundTrip | lib/ServiceDiscovery.h:203-302 | flags, entries and options come back in order; if a length field wraps, something is missing |
| DiscoveryRoundTrip.RoundTripIff | lib/ServiceDiscovery.h:203-302 | parsing a serialized message returns it and consumes every byte if and only if both length fields fit |
| DiscoveryLimits.OnlyWholeMessages | lib/ServiceDiscovery.h:235-302 | parsing needs every byte: on any shorter part of a serialized message a read would pass the end |
| DiscoveryLimits.UnknownEntrySkipped | lib/ServiceDiscovery.h:242-266 | of an entry of unknown type only the type byte is passed over |
| DiscoveryLimits.UnknownOptionSkipped | lib/ServiceDiscovery.h:278-299 | of an option of unknown type only length, type and reserved byte are passed over |
| WireFormat.BodyOnWire | lib/ServiceDiscovery.h:203-229 | flags, reserved bytes, and entries and options each after their length in bytes |
| WireFormat.ServiceEntryOnWire | lib/ServiceDiscovery.h:96-100 | the sixteen bytes of a service entry: both runs in one byte, three bytes of lifetime |
| WireFormat.GroupEntryOnWire | lib/ServiceDiscovery.h:124-128 | the sixteen bytes of an event-group entry |
| WireFormat.OptionOnWire | lib/ServiceDiscovery.h:193-200 | the twelve bytes of an address option, whose length is nine |
| WireFormat.AnnouncementOnWire | lib/ServiceDiscovery.h:337-388 | the bytes of an offer and of a stop-offer: lifetime, versions, runs and option index |
| DiscoveryRoundTrip.KeptExactly | lib/ServiceDiscovery.h:91-128 | an entry is kept unchanged exactly when its runs are nibbles and its TTL has 24 bits |
| DiscoveryRoundTrip.KeptMessageExactly | lib/ServiceDiscovery.h:203-302 | a message is kept unchanged exactly when all its entries are |
| DiscoveryCodec.SerializeEntry | lib/ServiceDiscovery.h:96-128 | writes the entry as the encoder says, its TTL byte by byte |
| DiscoveryCodec.SerializeOption | lib/ServiceDiscovery.h:186-201 | the back-patched 16-bit length is that of the length-first encoder |
| DiscoveryCodec.SerializeEntries | lib/ServiceDiscovery.h:214-219 | the loop under a back-patched length writes the length-first encoding of all entries |
| DiscoveryCodec.SerializeOptions | lib/ServiceDiscovery.h:221-226 | the same for options, with two nested back-patched lengths |
| DiscoveryCodec.SerializeMessage | lib/ServiceDiscovery.h:203-227 | with all nested lengths patched, the bytes are those of the length-first encoder |
| DiscoveryCodec.ReadEntryFields | lib/ServiceDiscovery.h:91-94 | the fields in groups with the TTL shifted in are the fields of the decoder |
| DiscoveryCodec.DeserializeEntry | lib/ServiceDiscovery.h:245-269 | one turn of the entry switch, unknown types skipped |
| DiscoveryCodec.DeserializeEntries | lib/ServiceDiscovery.h:239-270 | the loop reads what the recursive parser reads |
| DiscoveryCodec.DeserializeOption | lib/ServiceDiscovery.h:278-299 | one turn of the option switch, unknown types skipped after their header |
| DiscoveryCodec.DeserializeOptions | lib/ServiceDiscovery.h:272-300 | the loop reads what the recursive parser reads |
| DiscoveryCodec.Deserialize | lib/ServiceDiscovery.h:233-302 | the whole body is read as the parser says |
| Announcements.DecodeMessage | lib/ServiceDiscovery.h:523-532 | one callback per entry, in order |
| Announcements.AnnouncedIsReceived | lib/ServiceDiscovery.h:337-391 | any number of offers and stop-offers, serialized and parsed, is the message built, with nothing left over |
| Announcements.AnnouncedIsHeard | lib/ServiceDiscovery.h:456-487 | the k-th entry makes exactly one callback, available or unavailable as announced, with its service IDs and the endpoint at index k modulo 256 |
| Announcements.HeardCorrectlyIff | lib/ServiceDiscovery.h:456-487 | all announcements are heard with their own endpoints exactly when those from number 256 on repeat the endpoint their truncated index names |
| Announcements.ManyOffersMisheard | lib/ServiceDiscovery.h:350-350 | the last of 257 offers is heard with the endpoint of the first |
| Requests.QueryIsHeard | lib/ServiceDiscovery.h:358-370 | a query among any entries, serialized and parsed, is heard as a query for all instances of the service |
| Requests.SubscriptionIsHeard | lib/ServiceDiscovery.h:393-406 | a subscription among any entries is heard with its service and event group, without an address |
| Requests.GroupEntryIsHeard | lib/ServiceDiscovery.h:488-506 | with a lifetime and perhaps an option: the address is passed on exactly if the entry has one, and the subscription ends exactly when the three bytes kept of the lifetime are zero |
| Requests.OfferIsHeard | lib/ServiceDiscovery.h:460-475 | an offer or stop-offer among any entries is heard with its service and the endpoint of its option |
| Requests.AcknowledgementNotHandled | lib/ServiceDiscovery.h:488-515 | an acknowledgement is received and then has no handler |
| Sessions.SessionCounter.AssignUniqueSessionID | lib/ServiceDiscovery.h:162-171 | the stamp and the new counters are the model's, wrap-around included |
| Sessions.NthMessage | lib/ServiceDiscovery.h:162-171 | the n-th message of a kind has session ((n-1) mod 65535)+1 and the reboot flag exactly up to 65535, whatever was sent in between |
| Sessions.RemoteClients.GetOrCreateClient | lib/TCPManager.cpp:7-25 | the last matching client, or a new one that remembers nothing |
| Sessions.RemoteClients.OnClientReboot | lib/TCPManager.h:57-61 | the client is forgotten |
| Sessions.RemoteClients.OnRemoteService | lib/TCPManager.cpp:27-85 | the table and whether a reboot is seen are the model's, for offers and stop-offers |
| Sessions.HandleEntries | lib/TCPManager.cpp:27-85 | after an offer or stop-offer the endpoint has an entry, with this session or, if taken for a reboot, with none; only a stop-offer taken for a reboot leaves no entry; other entries are as before |
| Sessions.KnownExactly | lib/TCPManager.cpp:27-85 | in every history an endpoint has an entry if and only if something came from it and the last thing was an offer or was not taken for a reboot |
| Sessions.HandleRemembers | lib/TCPClient.h:29-41 | a reboot is a flagged session below the last one seen from that endpoint; afterwards that session or nothing is remembered, other endpoints untouched |
| Sessions.RebootDetectedExactly | lib/TCPClient.h:29-41 | in every in-order lossy history, of the messages that begin a new life, flagged and below the last session seen, every other one in a row is taken for a reboot, and nothing else is |
| Sessions.SecondRestartUnnoticed | lib/TCPManager.cpp:45-49 | of two restarts in a row the second is not noticed |
| Containers.ContainerRoundTrip | lib/SomeIP-Serialization.h:58-168 | reading back any nesting of strings, vectors and maps returns the value and leaves exactly the suffix |
| Containers.TraversalOrderIsInvisible | lib/SomeIP-Serialization.h:102-111 | two written values are read back equal if and only if they differ in the traversal order of maps only, at any levels of nesting |
| WireFormat.TextOnWire | lib/SomeIP-Serialization.h:76-82 | a string is its length in four bytes and its characters |
| WireFormat.ListOnWire | lib/SomeIP-Serialization.h:84-93 | a vector is the number of its elements and the elements, one after the other |
| WireFormat.MapOnWire | lib/SomeIP-Serialization.h:95-111 | a map is the number of its entries and the entries, each a key and its value |
| Containers.WriteValue | lib/SomeIP-Serialization.h:58-111 | the recursive writer appends the encoding |
| Containers.WriteElements | lib/SomeIP-Serialization.h:84-93 | the vector loop appends the elements' encodings |
| Containers.WriteEntries | lib/SomeIP-Serialization.h:102-111 | the map loop appends the entries' encodings |
| Containers.ReadValue | lib/SomeIP-Serialization.h:130-168 | the recursive reader returns what the decoder does |
| Containers.ReadElements | lib/SomeIP-Serialization.h:145-154 | the vector loop returns the elements |
| Containers.ReadEntries | lib/SomeIP-Serialization.h:156-168 | the map loop inserts the entries |
| Activation.WellKnownService.SetClient | daemon/Activation.cpp:7-18 | only the first client is taken, and it gets the pending messages in order |
| Activation.WellKnownService.ActivateService | daemon/Activation.cpp:39-75 | the process is not started twice; the result tells success, failure or an exception; `Activation.FateExactly` says which |
| Activation.WellKnownService.SendMessage | daemon/Activation.cpp:21-36 | a message is passed on, kept, answered or ends in an exception, as the model says |
| Activation.AcceptedOnceInOrder | daemon/Activation.cpp:7-75 | in every run the messages accepted are those delivered then those waiting, once each and in order; answered and thrown ones are the others; messages wait only while the process is starting and has no client |
| Activation.FateExactly | daemon/Activation.cpp:21-75 | what becomes of every message, told from launches and connections alone: delivered once a client has connected, before that kept if its own or an earlier launch worked, otherwise an exception or an error answer as its launch failed |
| Activation.FirstClientStays | daemon/Activation.cpp:7-18 | the first client that connected provides the service, whoever tries later |
| Activation.ConnectedForGood | daemon/Activation.cpp:7-18 | once the process has connected nothing waits any more |
| OnDemand.RequestsReachTheProcess | lib/Dispatcher.cpp:46-60 | in every history of daemon and well-known services, requests routed to such a service and accepted are passed on once each and in order, to the one client that took it over; they wait only while the process is starting and the service has no client |
| OnDemand.AcceptedExactly | lib/Dispatcher.cpp:46-60 | which requests are accepted, told from the registry and the launches alone: all while the service has a client, before that those whose own launch works or that follow one that did |
| OnDemand.TakeOverPassesOn | lib/Dispatcher.cpp:107-117 | the client that registers a well-known service gets at that moment everything that waits, in order, and nothing else |
| Lists.RemoveFromVector | utilLib/common.h:49-60 | erases the first occurrence |
| Lists.CountRemoveFirst | utilLib/common.h:49-60 | one occurrence less of that element and of no other |
| Endpoints.TcpManager.GetEndPointOf | lib/TCPManager.h:66-73 | the first server that publishes the service |
| Endpoints.TcpManager.BindService | lib/TCPManager.h:78-100 | the service goes to the last server without its service ID, else to a new one if that could be opened; with which ports and offers is in `Offering.OpensServer` and `Offering.UsesServer` |
| Endpoints.TcpManager.OnServiceRegistered | lib/TCPManager.h:38-42 | only local services are bound |
| Endpoints.TcpManager.OnServiceUnregistered | lib/TCPManager.h:44-51 | a local service is taken off the server that publishes it |
| Endpoints.GetEndPointHolds | lib/TCPManager.h:66-73 | when services are properly placed, the lookup finds the server that holds this very service |
| Endpoints.BindKeepsPlaced | lib/TCPManager.h:78-100 | binding keeps every service on exactly one server, moves none, and opens a server only when every server has an instance of the ID |
| Endpoints.BindPlacesIff | lib/TCPManager.h:78-100 | the new service is placed if and only if a server without its ID exists or one can be opened; otherwise nothing changes |
| Endpoints.UnbindKeepsPlaced | lib/TCPManager.h:44-51 | unbinding takes away that one service, moves no other and closes no server |
| DaemonInvariant.LookupWithout | lib/Dispatcher.cpp:168-183 | a lookup after removal finds what it found before, unless that was removed |
| DaemonInvariant.UnsubscribeAllCounts | lib/Client.cpp:8-9 | unsubscribing once per recorded subscription takes away exactly that many occurrences, of this client only |
| DaemonInvariant.RegisterKeeps | lib/Dispatcher.cpp:107-166 | registering a service, new, taken over or repeated, keeps the invariant |
| DaemonInvariant.UnregisterKeeps | lib/Client.cpp:39-54 | giving a service back keeps the invariant |
| DaemonInvariant.SubscribeKeeps | lib/Client.cpp:61-65 | subscribing, also repeatedly, keeps the invariant |
| DaemonInvariant.ConnectKeeps | lib/Dispatcher.cpp:193-198 | a new client keeps the invariant |
| DaemonInvariant.DisconnectGone | lib/Client.cpp:5-21 | disconnecting removes exactly the client's services, subscriptions, listener and table entry |
| DaemonInvariant.DisconnectKeeps | lib/Client.cpp:5-21 | disconnecting keeps the invariant |
| DaemonInvariant.CleanUpKeeps | lib/Dispatcher.cpp:98-105 | deleting the disconnected clients keeps the invariant |
| DaemonInvariant.StepKeepsInv | lib/Dispatcher.cpp:16-205 | every event keeps table, life, registry, subscription, provider and listener invariants together |
| DaemonInvariant.RunKeepsInv | lib/Dispatcher.cpp:16-205 | every state of every run satisfies them |
| Lifecycle.NothingDangles | lib/Client.cpp:5-21 | in every state of every run a client that is not registered is in no table entry, service, subscriber list or listener list |
| Lifecycle.DeletedOnce | lib/Dispatcher.cpp:98-105 | a client is pending deletion or deleted once if it has left, never otherwise |
| Lifecycle.DisconnectedDeletedOnce | lib/Dispatcher.cpp:200-205 | from its disconnection on, in every later state, a client is counted once among pending and deleted and is unreachable |
| Lifecycle.NobodyWaitsAfterCleanUp | lib/Dispatcher.cpp:98-105 | an idle callback deletes every client that has left |
| Lifecycle.IdentifierNeverReused | lib/Dispatcher.h:178-185 | an identifier leads to its client while that is registered and to nobody ever after |
| Lifecycle.SubscriptionsAgree | lib/Client.cpp:61-65 | the multiplicity of a client in a subscriber list equals that of the notification in the client's list |
| Lifecycle.RegistryConsistent | lib/Dispatcher.cpp:255-265 | service IDs and notification members are distinct, and cached providers equal lookups |
| Routing.RequestGoesToOne | lib/Dispatcher.cpp:46-69 | in every run a request has exactly one destination: the one service with its IDs, marked with the sender if it expects an answer, or one error with its IDs back to the sender |
| Routing.NotificationReachesSubscribers | lib/Dispatcher.cpp:25-33 | a notification is sent to a client once per subscription the client recorded, and to nobody unregistered |
| Notifications.RecordedExactly | lib/Client.cpp:61-65 | in every run a registered client has recorded exactly the subscriptions it has made |
| Notifications.NotificationsExactly | lib/Dispatcher.cpp:25-33 | in every state of every run each delivery is the unchanged message to a registered client, each such client gets as many as it has subscribed to that member, and there are as many in all as these add up to: none if nobody subscribed |
| NotificationOrder.NotificationsInOrder | lib/Dispatcher.cpp:25-33 | the deliveries are exactly, in order, the clients of the subscriptions made so far that are still registered |
| NotificationOrder.LeavesInOrder | lib/Dispatcher.cpp:238-247 | a client that leaves goes from every list of subscribers and the others keep their order |
| Routing.ReplyGoesToOne | lib/Dispatcher.cpp:35-44 | any reply goes unchanged to the registered client with its identifier and to nobody else, and nowhere if there is none |
| Routing.ReplyComesBack | lib/Dispatcher.cpp:35-53 | a reply at any later moment reaches the client that asked, with its request ID, or nobody if that has gone |
| Routing.PacketsArrive | lib/TCPClient.cpp:9-75 | through framing, any cutting of the bytes and deframing, a packet arrives as the routing theorems take it to, exactly unless it is a first one with too large a payload |
| Routing.TwoHopRequest | lib/Dispatcher.cpp:46-60 | a request is dispatched to the client standing for the other daemon, and there to the provider of the service, with both identifiers |
| Routing.TwoHopReply | lib/TCPClient.cpp:136-156 | over two daemons with independent runs the reply reaches the peer and then the asking client, or nobody; its request ID is the original exactly when that has 16 bits |
| Routing.RemoteErrorReachesSenderIff | lib/Dispatcher.cpp:62-67 | the error of a remote daemon, at any later moment, reaches the sender exactly when that is still there and the request expected an answer or its ID carries the sender's identifier |
| Routing.ErrorGoesAstray | lib/Dispatcher.cpp:62-67 | with two clients, the error for a request without return of one goes to the other |
| Effects.NotifyAll | lib/Dispatcher.cpp:155-158 | on registration the server is bound, then announced from the new binding, then every listening client is told once |
| Effects.UnnotifyAll | lib/Dispatcher.cpp:171-175 | on unregistration clients are told, the stop-offer goes out from the old binding, then the server lets go |
| Ownership.GrantedExactly | lib/Dispatcher.cpp:107-140 | a service is granted exactly when its IDs are new, or to a local client when nobody else provides it; it is then the registered one |
| Ownership.RegisterOutcome | lib/Dispatcher.cpp:107-140 | asking for a service has three outcomes: refused and nothing changes, a new service everyone hears of, or a silent take-over |
| Ownership.UnregisterOutcome | lib/Client.cpp:39-54 | giving back changes nothing or unregisters the first recorded object with the IDs, whether it is registered or not; an owner's is |
| Ownership.MissesExactly | lib/Client.cpp:11-12 | unregistering one after the other misses exactly when an object is on the list twice or not registered to begin with |
| Ownership.CarefulNeverMisses | lib/Client.cpp:30-54 | in every run in which no client asks twice for a service it provides, no unregistration misses |
| Ownership.RunKeepsOwn | lib/Client.cpp:30-37 | without repeated registration a client's own list is duplicate-free and names exactly services it provides |
| Replication.LostMisleads | clientLib/SomeIP-clientLib.h:118-123 | unregistering an object that is not registered leaves the registry alone; a replica erases the service that has the IDs now, or is undefined if there is none |
| Replication.ReplicaFollowsIff | lib/Client.cpp:5-54 | in every run, a connected local client that has handled all its messages has the dispatcher's list if and only if no event has missed since it connected; otherwise its replica is undefined or shorter |
| Replication.ReplicasSurviveIff | lib/Client.cpp:5-54 | all replicas are right at every moment of a run if and only if no event misses while a client is there to hear it |
| Replication.ReplicaIsPastRegistry | clientLib/SomeIP-clientLib.h:111-123 | a client that has not been misled and has handled any number of its messages has, in order, the dispatcher's list of that past moment, and the current one after all; no erase misses |
| Replication.RegisterThenLeaveIff | lib/Dispatcher.cpp:134-139 | after a run without repeats, a client that registers a service and disconnects next leaves other replicas defined if and only if it did not already provide it |
| Replication.RegisteredTwiceFails | lib/Client.cpp:30-37 | from any state in which a service is new: registering it twice and disconnecting leaves every other replica undefined |
| Replication.TwoClientsFail | lib/Client.cpp:30-37 | a reachable state in which this happens |
| StaleService.SilentlyWrong | lib/Client.cpp:5-21 | a run after which a registered service is missing from its client's defined replica and has lost its server |
| RegistryClient.RegistryRoundTrip | daemon/LocalClient.h:59-65 | a registry message is decoded as encoded, and carries request ID zero |
| WireFormat.RegistryOnStream | daemon/LocalClient.h:58-64 | request ID zero, type 10 or 11, return code, and four bytes per service in the order of the host |
| WireFormat.FrameOnStream | lib/ipc/UDS.cpp:168-205 | a local message follows its length, eight bytes in the order of the host |
| RegistryClient.ActKeepsRegistryIff | lib/ipc.h:250-252 | one action keeps the registry messages exactly when it takes none for an answer |
| RegistryClient.SessionKeepsRegistryIff | clientLib/SomeIP-clientLib.cpp:203-247 | over every session they are kept in order exactly as long as none was taken for an answer |
| RegistryClient.EveryRequestAnswered | clientLib/SomeIP-clientLib.cpp:203-227 | in every session each request but the one under way has exactly one answer, in turn, and it carries the request's ID |
| RegistryClient.NothingLost | clientLib/SomeIP-clientLib.cpp:195-227 | every message read is handled, queued or an answer, once |
| RegistryClient.DispatchingCatchesUp | clientLib/SomeIP-clientLib.cpp:230-247 | when the client has dispatched, nothing is queued, and it has handled all registry messages it read, in order, if and only if none was taken for an answer |
| RegistryClient.ZeroIsDue | lib/ipc/IPC.cpp:9-9 | the request that waits has ID zero exactly if it is the 61168th, or one a multiple of 65536 later |
| RegistryClient.SessionKeepsRegistryUnlessZero | lib/ipc.h:241-252 | over every session on messages from the daemon, registry messages are kept in order if and only if none was read while request zero waited |
| RegistryClient.SessionKeepsRegistry | lib/ipc/IPC.cpp:9-9 | with the 16-bit request counter, in every session of at most 61167 requests registry messages are handled or queued in the order read |
| RegistryClient.RequestZeroFails | lib/ipc.h:241-243 | a session whose next request has ID zero loses the registry message it reads |
| EndToEnd.HistoryJoined | daemon/LocalClient.h:59-105 | in every history of daemon, connection and session together, what was written about the registry is what the daemon told the client, and what was read was delivered |
| EndToEnd.ReplicaEndToEnd | clientLib/SomeIP-clientLib.cpp:278-294 | in every history in which the client hears of no unregistration that misses, no send fails with EBADF and no news are read while request zero waits: the replica is the dispatcher's list of a past moment, and the current one once drained |
| RegistryClient.SafeMessageQueue.Push | clientLib/SomeIP-clientLib.h:331-334 | the message goes to the end of the queue |
| RegistryClient.SafeMessageQueue.Pop | clientLib/SomeIP-clientLib.h:336-347 | the first message comes out, or none and the vector is reset |
| RegistryClient.ServiceRegistry.IsServiceRegistered | clientLib/SomeIP-clientLib.h:98-101 | true exactly for listed services |
| RegistryClient.ServiceRegistry.OnServiceRegistered | clientLib/SomeIP-clientLib.h:111-116 | the service is appended |
| RegistryClient.ServiceRegistry.OnServiceUnregistered | clientLib/SomeIP-clientLib.h:118-123 | the first occurrence is erased |
| RegistryClient.ServiceRegistry.HandleMessage | clientLib/SomeIP-clientLib.cpp:249-301 | the reading loops apply the decoded message to the replica |
| RegistryClient.ServiceRegistry.DispatchQueuedMessages | clientLib/SomeIP-clientLib.cpp:230-247 | the replica ends where all queued messages take it and the queue is empty |
| Placement.BindFiles | lib/TCPManager.h:78-100 | binding puts the service on a server exactly when a server is free or can be opened, and moves no other |
| Placement.UnbindFiles | lib/TCPManager.h:44-51 | unbinding takes exactly the service that has the IDs off its server, whether or not it is the one unregistered |
| Placement.ServersHoldRegistered | lib/TCPManager.h:38-100 | in every run servers hold only registered local services under their own IDs, and no service twice |
| Placement.OnServerIff | lib/TCPManager.h:38-100 | in every run a registered local service is on a server if and only if it could be placed at its registration and no local object with its IDs has been unregistered since |
| Placement.AllPlacedIff | lib/TCPManager.h:38-100 | all registered local services are on servers at every moment of a run if and only if every needed server could be opened and no event stranded a service |
| Placement.EndpointStable | lib/TCPManager.h:66-73 | a service on a server keeps its server and ports, whatever else comes and goes, until it goes or its IDs are released |
| Placement.OffersMatchRegistry | lib/ServiceAnnouncer.cpp:28-69 | at every moment of every run what is offered and not withdrawn is exactly the registered local services on servers, at the matching ports of these |
| Placement.MatchingMembers | lib/ServiceAnnouncer.cpp:32-35 | exactly the ports whose address belongs to a channel are announced |
| Placement.StopMatchesOffer | lib/ServiceAnnouncer.cpp:28-69 | the announcer finds a server at registration and at unregistration, and withdraws the service exactly where it offered it |
| Placement.EveryStopNamesOffer | lib/ServiceAnnouncer.cpp:48-69 | every stop-offer of a run, by disconnection too and for well-known services, names an endpoint at which the service was on offer just before |
| Placement.AgainShown | lib/ServiceAnnouncer.h:50-56 | offering everything again changes nothing of what is on offer |
| EndpointRuns.OneServerEach | lib/TCPManager.h:38-100 | every registered local service is on exactly one server, servers hold nothing else and one instance per ID, and their number is the peak of simultaneous instances of one ID |
| Offering.OpensServer | lib/TCPManager.h:87-92 | a local service with new IDs, when every server has an instance of its service ID, gets a new server with exactly the ports that opening it yielded, and is offered there; if none can be opened, nothing changes |
| Offering.UsesServer | lib/TCPManager.h:80-97 | otherwise it goes to the last server without such an instance and is offered at that server's ports; other servers stay as they are |
| Offering.NotOfferedHere | lib/Dispatcher.cpp:107-140 | a service from elsewhere, or a known one, is put on no server and not offered |
| Offering.PortsFromOpening | lib/TCPServer.cpp:95-101 | in every state the ports of every server are those that opening it yielded, in the registration that opened it |
| Offering.PortsNeverChange | lib/TCPManager.h:87-92 | no server goes away or changes its ports |
| Offering.SaidOnWire | lib/ServiceAnnouncer.cpp:32-44 | an endpoint is announced once for each time it is among the ports and its address among the channels, and nothing else is |
| Offering.TimerOffersAll | lib/ServiceAnnouncer.h:50-56 | the timer adds exactly one offer per registered local service on a server, channel and matching port, in the order of the registry, and changes nothing else |
| Offering.TimerOffersEach | lib/ServiceAnnouncer.h:50-56 | how often each announcement is made then, by its service and endpoint |
| Offering.GoneAreWithdrawn | lib/ServiceAnnouncer.cpp:48-69 | services given back or left behind are withdrawn one by one, wherever a server has their IDs, once per channel and matching port, and nothing else is said |
| Offering.SilentOtherwise | lib/ServiceAnnouncer.cpp:28-69 | other events say nothing and move no service |
| DispatcherObject.SendAnnouncements | lib/ServiceAnnouncer.cpp:28-69 | the nested loops announce once per channel and matching address, in that order |
| DispatcherObject.Dispatcher.constructor | lib/Dispatcher.h:142-150 | an empty dispatcher whose first listeners are the TCP manager and the announcer |
| DispatcherObject.Dispatcher.NotifyListeners | lib/Dispatcher.cpp:155-158 | listeners hear in the order they were added |
| DispatcherObject.Dispatcher.NotifyListenersBackwards | lib/Dispatcher.cpp:171-175 | listeners hear in reverse order |
| DispatcherObject.Dispatcher.GetService | lib/Dispatcher.h:208-214 | the first service with the IDs |
| DispatcherObject.Dispatcher.RegisterService | lib/Dispatcher.cpp:142-166 | refused exactly for taken IDs, otherwise the model's registration |
| DispatcherObject.Dispatcher.UnregisterService | lib/Dispatcher.cpp:168-183 | the model's unregistration |
| DispatcherObject.Dispatcher.TryRegisterService | lib/Dispatcher.cpp:107-140 | the model's new state, and the service exactly when the client may have it |
| DispatcherObject.Dispatcher.ClientRegisterService | lib/Client.cpp:30-37 | what was granted is recorded |
| DispatcherObject.Dispatcher.ClientUnregisterService | lib/Client.cpp:39-54 | the first recorded service with the IDs is unregistered and forgotten |
| DispatcherObject.Dispatcher.GetOrCreateNotification | lib/Dispatcher.h:164-176 | the notification of the member, created with its provider looked up if there is none |
| DispatcherObject.Dispatcher.SubscribeToNotification | lib/Client.cpp:61-65 | both lists record the subscription |
| DispatcherObject.Dispatcher.UnsubscribeClient | lib/Dispatcher.cpp:238-247 | each recorded subscription removes the client's first occurrence |
| DispatcherObject.Dispatcher.RegisterClient | daemon/LocalClient.h:49-65 | the client gets the next identifier; a local one is sent the registry and then listens |
| DispatcherObject.Dispatcher.UnregisterClient | lib/Client.cpp:5-21 | the model's disconnection: listener, subscriptions, services, table entry, in this order |
| DispatcherObject.Dispatcher.CleanDisconnectedClients | lib/Dispatcher.cpp:98-105 | exactly the disconnected clients are deleted |
| DispatcherObject.Dispatcher.AnnounceServices | lib/ServiceAnnouncer.h:50-56 | every local service is offered again; what that adds is in `Offering.TimerOffersAll` |
| DispatcherObject.Dispatcher.GetClientFromId | lib/Dispatcher.h:178-185 | the table entry, or nobody beyond the table |
| DispatcherObject.Dispatcher.DispatchMessage | lib/Dispatcher.cpp:16-71 | what is sent where is what the routing model says, and only a notification changes the state; the destinations are in `Routing.RequestGoesToOne`, `Routing.ReplyGoesToOne` and `NotificationOrder.NotificationsInOrder` |
| DispatcherObject.Dispatcher.Handle | lib/Dispatcher.cpp:98-205 | the object follows the model event by event and keeps the invariant |

## Left out

- Blocking reads and writes, and `waitForAnswer`, which discards everything that is not a SOME/IP message: the replica theorems are about the non-blocking paths and about requests to the daemon itself.
- EndpointRuns.OneServerEach: assumes that every unregistration finds its service and that needed servers can be opened; `Placement.AllPlacedIff` has the exact condition for every service being on a server, without the number of servers.
- Endpoints.BindKeepsPlaced: assumes that the service can be placed; `Placement.BindFiles` says what happens otherwise.
- Endpoints.UnbindKeepsPlaced: assumes that the service unbound is a placed one; `Placement.UnbindFiles` covers the others.
- Placement.OffersMatchRegistry: assumes that objects for services from elsewhere are unregistered only while they are registered; a stop-offer for another one would withdraw a local service with its IDs until the next announcement. So does Placement.EveryStopNamesOffer.
- Placement.EveryStopNamesOffer: see the line above.
- Placement.StopMatchesOffer: is about a service that was placed and has kept its server; `Placement.OnServerIff` says when.
- Ownership.RunKeepsOwn: is about runs in which no client asks twice for a service it provides; what happens otherwise is in Replication and StaleService.
- RegistryClient.SessionKeepsRegistry: covers sessions before the request numbered zero; `RegistryClient.SessionKeepsRegistryUnlessZero` covers all.
- EndToEnd.ReplicaEndToEnd: excludes the three disturbances; each has its own exact condition, in Replication, IpcStream and RegistryClient.
- TcpOrder.PacketsInOrder: excludes sends that break the connection or fail with EBADF.
- IpcStream.StepConserves: excludes a send that drops bytes because of a bad descriptor; `IpcStream.RunConservedIff` shows that this is the exact condition. The same holds for IpcStream.DeliveryIsPrefix.
- IpcStream.DeliveryIsPrefix: see the line above.
- IpcProgress.FlushAndPollDeliverAll: excludes sends that fail with EBADF, and is about a flush and a poll that the socket does not stop; `IpcStream.DeliveryIsPrefix` covers all others.
- TcpHandOver.EverythingHanded: is about a call in which no read stops early; `TcpHandOver.HandedExactly` covers all others.
- Requests.GroupEntryIsHeard: is about runs of four bits and options that are there; the source looks an option up without asking whether it is there.
- TcpFraming.DeframerInvertsFramer: frames that announce fewer than eight bytes, which no framer produces, are not followed; the source's size computation wraps around for them.
- Routing.TwoHopRequest: the instance ID recovered on the connection is a parameter.
- Routing.RemoteErrorReachesSenderIff: the remote daemon's lookup that fails is not part of it; it begins with the error reply. `Routing.RequestGoesToOne` covers the lookup.
- Routing.TwoHopReply: covers a service provided by an application of the second daemon; a third daemon would overwrite the identifier in the request ID. The instance ID recovered on each connection is a parameter, as is the client identifier a message that is no reply inherits from the buffer.
- DiscoveryCodec.Deserialize: reads well-formed bodies only, because the source does not check for the end of the data; so do DiscoveryCodec.ReadEntryFields, DiscoveryCodec.DeserializeEntry, DiscoveryCodec.DeserializeEntries, DiscoveryCodec.DeserializeOption and DiscoveryCodec.DeserializeOptions.
- Announcements.DecodeMessage: excludes entry types on which the source asserts and option indices beyond the options, which the source reads anyway.
- Containers.ReadValue: excludes streams that end inside the value, which the source reads past; so do Containers.ReadElements and Containers.ReadEntries.
- Sessions.RebootDetectedExactly: assumes that datagrams of one sender arrive in order; losses and repetitions are covered.
- Sessions.RemoteClients.GetOrCreateClient: the registration of the new client with the dispatcher is part of the daemon model, not of this table; so are the disconnection in Sessions.RemoteClients.OnClientReboot and the service registration in Sessions.RemoteClients.OnRemoteService. The test that ignores the daemon's own announcements is not modelled.
- OnDemand.RequestsReachTheProcess: error replies of services that cannot be started, and exceptions, are recorded with the service object and not routed.
- Activation.WellKnownService.SendMessage: the error reply is recorded, not routed; the source looks its receiver up and does not check that it is still there.
- RegistryClient.ServiceRegistry.OnServiceRegistered: the availability listeners of an application are not modelled; nor are they in RegistryClient.ServiceRegistry.OnServiceUnregistered, which moreover requires the service to be listed, since the source's erase is undefined otherwise.
- Unsubscription from services on remote hosts and event-group callbacks: the source leaves both unimplemented or forwards them to other hosts, whose state is not part of the model.
- The per-connection map from service ID to service instance: a repeated remote offer stores a null entry there, which the model does not cover.
- `TCPManager::m_clients` after an ordinary disconnection, where the source keeps a pointer to the deleted client: not part of the reachability claim.
- Messages handled by the ping sender and the dispatcher's own control service before dispatch.
- Concurrency inside the client library: its mutexes are taken to make each queue operation atomic; handlers that make blocking calls while a queue is being emptied are not modelled.
- Sockets, GLib main loop, systemd, D-Bus, process start-up, configuration files, logging and command-line tools.
