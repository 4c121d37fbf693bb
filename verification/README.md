# Verification of the MQTT client core

This project models the parts of the client where its guarantees are made, and proves those
guarantees for every input, every interleaving and every reachable state. The build modelled is
MQTT 5.0 with QoS 2 (features `mqttv5` and `qos2`).

| part | files | source |
|---|---|---|
| framed pub/sub channel | `Ring`, `Channel`, `ChannelSafety`, `ChannelReads`, `ChannelTheorems`, `Broadcast`, `PubSubChannel` | `src/pubsub` |
| wire codec | `Wire`, `Varint`, `Properties`, `Packets`, `Encoder`, `Decoder`, `RoundTrip`, `ConnectReader` | `src/encoding`, `src/message.rs` |
| stream framing | `Framing`, `PublishStream`, `ControlStream`, `EndToEnd` | `src/packet.rs`, `src/encoding/received_packet.rs`, `src/encoding/packets/publish.rs` |
| session state | `PacketId`, `Session`, `SessionTheorems`, `PublishCompletion`, `SubscribeCompletion`, `SessionCapacity`, `TransmitQueue`, `SharedState` | `src/state.rs`, `src/client.rs`, `src/stack.rs`, `src/encoding/utils.rs` |
| topic filters | `Topics` | `src/topic_filter.rs` |

**How runs are modelled.** The channel and the session are transition systems with one event per
section that the source runs under its lock; a run is any sequence of events, so a statement about
all runs covers all interleavings of futures, polls, cancellations and drops. The classes
`PubSubChannel` and `Shared` carry the code of each locked section, with its loops and its updates in
place, and every method is proved to do exactly the step of the transition system. The encoder, the
decoder, the property iterator, the packet reader and the partial publish are classes as well, tied
to functions on byte sequences. A socket is an object that hands out the peer's bytes in nonempty
chunks of a size that nothing constrains; an eager one hands out all that is asked for and there.

**Panics.** Where the source indexes out of bounds or unwraps a failure, the model has an explicit
outcome (`Panic`, `Crash`, `OutOfBounds`, `Panics`), and contracts or theorems say when it occurs. All
three unwrapped insertions of the session are covered, each with the condition that excludes it over
whole runs and a run in which it fails.

**Where the source departs from its own documentation or from the standard** the model follows the
code:

- an uncommitted write grant still queues a frame of length 0 (src/pubsub/publisher.rs:398-400), against the comment above it;
- `grant_immediate` evicts frames even for a size that can never fit, or while a write is pending;
- `Property::size` is wrong for a nonzero subscription identifier, a received property block is written back with a surplus length, and the range a message keeps for its properties includes the length prefix;
- an acknowledgement of remaining length 3 loses its reason code, against section 3.4.2.1 of MQTT 5.0;
- PUBREL is written with flags 0, against section 3.6.1 of MQTT 5.0;
- a PUBLISH with fewer than two bytes after its topic makes the reader take bytes of the next packet and then panic; a header that does not fit the read buffer makes it spin;
- a control packet that the single read after its header does not bring whole, or that does not fit the read buffer, is undecodable, and the rest of it is taken for the next packet;
- an unsolicited PUBREC resets the whole session, which releases every waiting publisher as if it had succeeded;
- `run` dropped while it writes a frame loses the frame but not its identifier, so the sender waits for a frame that is gone, even when the bytes went out and the acknowledgement comes;
- a subscribe refused for lack of room leaves its identifier in `outgoing_pid`; when all places are taken so, no packet can be sent any more;
- the capacity check of `send` looks at `inflight_pub` alone, so a broker that withholds PUBCOMP can make the client panic, and CONNECT announces no Receive Maximum, so a broker with many QoS 2 messages open can too;
- `max_packet_size` leaves out the property block, so a PUBLISH with properties is never sent, and with an empty payload `send` panics;
- a final `#` does not match its parent level, against section 4.7.1.2 of MQTT 5.0.

## Model

| member | source | states |
|---|---|---|
| `Ring.RingOrderedIsDisjoint` | src/pubsub/mod.rs:90-110 | regions in ring order (ascending, with at most one wrap) lie apart pairwise, empty ones included |
| `Ring.GrantKeepsOrder` | src/pubsub/publisher.rs:196-243 | a grant placed by the code's case split, of at most the announced free space, extends any ring order to a ring order |
| `Ring.DropFrontKeepsOrder` | src/pubsub/publisher.rs:123-138 | removing any number of frames at the front keeps the order, also with a write grant outstanding behind them |
| `Ring.ShrinkBackKeepsOrder` | src/pubsub/publisher.rs:541-566 | committing less than was granted keeps the order |
| `Ring.FreeSpaceIsExactUnlessFlat` | src/pubsub/mod.rs:90-110 | a size is within `free_space` if and only if some region of that size can follow the queue, except exactly when the queue is nothing but empty frames at one address |
| `Ring.FlatQueueHasRoom` | src/pubsub/mod.rs:97-100 | with only empty frames queued at one address, either side of that address could be handed out although `free_space` is 0 |
| `ChannelSafety.StepKeepsSafe` | src/pubsub/publisher.rs:119-275 | every event keeps geometry, contiguous ids, cursor bounds, counter bounds and read marks together |
| `ChannelSafety.RunKeepsSafe` | src/pubsub/mod.rs:68-222 | the same over every run of every length |
| `ChannelTheorems.RingGeometry` | src/pubsub/publisher.rs:196-243 | in every reachable state the queued frames and the outstanding write grant lie inside the buffer and are pairwise disjoint |
| `ChannelTheorems.IdsAreContiguous` | src/pubsub/publisher.rs:564-578 | queued ids are the contiguous range ending below the next id, so `push_back` at commit never fails |
| `ChannelTheorems.CountersNeverUnderflow` | src/pubsub/subscriber.rs:73-145 | every counter is at least the number of live subscribers still to read the frame and below 256, so no decrement in a read or a drop underflows |
| `ChannelTheorems.CountersAreExact` | src/pubsub/subscriber.rs:116-145 | when no lagged subscriber is dropped the counters equal that number and do not decrease along the queue |
| `ChannelReads.LeaveKeepsExactIff` | src/pubsub/subscriber.rs:120-130 | dropping a subscriber keeps the counters exact if and only if it was not lagged or nothing is queued |
| `ChannelTheorems.ReadGrantsAreStable` | src/pubsub/subscriber.rs:73-102 | over every run without careless drops or `clear`, a frame under read stays queued and marked, and no write grant overlaps it |
| `ChannelReads.RunKeepsMarkedHeld` | src/pubsub/subscriber.rs:302-307 | over every run without a leaked grant, a frame marked as being read is held by somebody: a release ends the read |
| `ChannelReads.LeaveKeepsStableIff` | src/pubsub/subscriber.rs:116-145 | with exact counters, dropping a subscriber keeps all frames under read if and only if somebody else is still to read each of them |
| `ChannelReads.EvictedAreIdle` | src/pubsub/publisher.rs:119-139 | `grant_immediate` never evicts a frame under read |
| `ChannelTheorems.CarelessLeaveOverlapsReader` | src/pubsub/subscriber.rs:133-136 | a concrete run in which dropping one subscriber during another's read lets the next write grant overlap the bytes being read |
| `ChannelTheorems.Reclamation` | src/pubsub/subscriber.rs:276-311 | with one read grant per subscriber, grants released and no lagged drops, every queued frame is being read or owed to a live subscriber; once all have caught up the queue is empty and the whole buffer free |
| `ChannelTheorems.ReleaseBehindFrontStrands` | src/pubsub/subscriber.rs:302-307 | a concrete run in which one subscriber releases two frames in reverse order: nobody holds or wants anything, and a frame stays queued |
| `ChannelTheorems.LaggedLeaveStrands` | src/pubsub/subscriber.rs:120-130 | a concrete run in which a lagged subscriber is dropped: nobody holds or wants anything, and a frame stays queued |
| `ChannelReads.ReleaseStrandsIff` | src/pubsub/subscriber.rs:302-307 | a release leaves a frame queued that nobody reads or owes if and only if the frame is paid up and not at the front |
| `ChannelTheorems.EvictsOnlyWhenShort` | src/pubsub/publisher.rs:123-138 | every evicted frame was idle, and before it went the room was still short: the evicted prefix is the shortest |
| `ChannelTheorems.EvictionStops` | src/pubsub/publisher.rs:123-138 | eviction ends with enough room, at a frame under read, or with an empty queue |
| `ChannelTheorems.GrantImmediateOutcome` | src/pubsub/publisher.rs:119-177 | the same prefix is evicted whatever the outcome; with a write pending the call always fails; otherwise a fitting size is granted unless a frame under read is in the way, and an oversize request fails after emptying the queue up to the first frame under read |
| `Broadcast.StepRefines` | src/pubsub/subscriber.rs:43-102 | every step whose frame fits the `u16` length is accepted by an append-only log with one cursor per subscriber, and the states agree again |
| `Broadcast.RunRefines` | src/pubsub/publisher.rs:541-586 | every such run refines the log, label by label |
| `Broadcast.CommitIsFaithfulIff` | src/pubsub/publisher.rs:541-566 | a commit publishes the bytes offered if and only if their number fits the cast to `u16` |
| `Broadcast.LosslessBroadcast` | src/pubsub/subscriber.rs:43-102 | after any run, a new subscriber receives byte for byte a prefix of what is published from then on, and all of it once a read finds nothing more, as long as nothing is evicted or cleared |
| `Broadcast.ReadsSucceedIff` | src/pubsub/subscriber.rs:43-102 | over every run in which grants are released, a live subscriber that reads receives its next frame, with the bytes and identifier published under that id, if and only if the frame is queued and held by nobody |
| `Broadcast.FilledIsPublished` | src/pubsub/publisher.rs:541-586 | what is filled into a write grant is what its commit publishes, under the identifier given, whatever the readers do in between |
| `Broadcast.LossyReceipts` | src/pubsub/subscriber.rs:50-86 | with evictions and `clear`, the ids a subscriber receives strictly increase, and between two consecutive ones every missing frame was thrown away by force |
| `Broadcast.HeldBytesAreThePublishedOnes` | src/pubsub/subscriber.rs:73-102 | as long as a read grant is held, its bytes are those published under its id, whatever the writer and the other readers do |
| `PubSub.EvictLoop` | src/pubsub/publisher.rs:123-138 | the eviction loop removes exactly the specified prefix and says whether it gave up at a frame under read |
| `PubSub.Position` | src/pubsub/subscriber.rs:280-286 | the first index whose id matches, the length if there is none |
| `PubSub.SettleLoop` | src/pubsub/subscriber.rs:124-130 | the decrement loop lowers exactly the counters from the cursor on |
| `PubSub.PopPaidLoop` | src/pubsub/subscriber.rs:133-136 | the pop loop removes the longest prefix nobody owes |
| `PubSub.ReadLocked` | src/pubsub/subscriber.rs:43-102 | the locked section of a read moves cursor, counter and mark exactly as the step does, and returns the id, region and packet identifier of the frame the step names |
| `PubSub.LeaveLocked` | src/pubsub/subscriber.rs:116-145 | the locked section of a drop leaves exactly the queue of the step, for lagged and current subscribers |
| `PubSub.PubSubChannel.TakePublisher` | src/pubsub/mod.rs:172-191 | leaves every byte of the buffer 0, keeps the invariant, fails exactly when the publisher is taken |
| `PubSub.PubSubChannel.Grant` | src/pubsub/publisher.rs:179-275 | reserves the region of the step or fails with its error, keeping the invariant |
| `PubSub.PubSubChannel.GrantImmediate` | src/pubsub/publisher.rs:119-177 | eviction followed by a grant, with the early refusal at a frame under read |
| `PubSub.PubSubChannel.Commit` | src/pubsub/publisher.rs:541-586 | queues the header of the step, or only clears the flag when nobody subscribes |
| `PubSub.PubSubChannel.Subscribe` | src/pubsub/mod.rs:154-169 | a new cursor at the next id unless all places are taken |
| `PubSub.PubSubChannel.Read` | src/pubsub/subscriber.rs:43-102 | the step's new state and the frame it grants or its error |
| `PubSub.PubSubChannel.Release` | src/pubsub/subscriber.rs:276-311 | takes the step whether or not the frame is still queued and keeps the invariant; that the step ends the read is `ChannelReads.RunKeepsMarkedHeld` |
| `PubSub.PubSubChannel.Leave` | src/pubsub/subscriber.rs:116-145 | the step's new state for lagged and current subscribers |
| `PubSub.PubSubChannel.Clear` | src/pubsub/mod.rs:70-72 | the queue is empty, everything else is unchanged, the invariant holds |
| `Varint.ReadVarint` | src/encoding/decoder.rs:92-124 | the accumulating loop computes the specified value, length and error |
| `Varint.WriteVarint` | src/encoding/encoder.rs:83-96 | the emitting loop writes the specified bytes |
| `Varint.EncodedLength` | src/encoding/mod.rs:39-47 | for every value up to 268435455 the encoding has `varint_len` bytes |
| `Varint.VarintRoundTrip` | src/encoding/decoder.rs:92-124 | the decoder returns the value and consumes exactly its bytes, whatever follows (section 1.5.5 of MQTT 5.0) |
| `Varint.StrictPrefixIsShort` | src/encoding/decoder.rs:92-108 | every strict prefix of an encoding is reported as too short |
| `Varint.ErrorsIff` | src/encoding/decoder.rs:92-124 | on arbitrary bytes: too short if and only if there are fewer than four and all ask for more, malformed if and only if the first four do |
| `Varint.DecodeIgnoresRest` | src/encoding/properties.rs:278-295 | on arbitrary bytes a successful decode stays in bounds, depends only on the bytes it used, and every cut before their end is too short |
| `Properties.PropertySizeIsExactIff` | src/encoding/properties.rs:79-122 | the size table against the writer's: `size` is the number of bytes written if and only if the property is not a nonzero subscription identifier |
| `Properties.ReadBodyAdvances` | src/encoding/properties.rs:352-450 | on arbitrary bytes each item, erroneous ones included, moves the iterator forward and keeps it in bounds |
| `Properties.TablesAgree` | src/encoding/properties.rs:352-430 | the reader's table against the writer's and the identifiers: each of the 27 properties is read back under its identifier as itself |
| `Properties.BuiltIsWritten` | src/encoding/encoder.rs:175-213 | and conversely, what is read under any identifier would be written under it in the same way |
| `Properties.CutPropertyIsTooShort` | src/encoding/properties.rs:266-350 | every strict prefix of a property that has its identifier is reported as too short |
| `Properties.PropertyBlockRoundTrip` | src/encoding/encoder.rs:152-213 | for every encodable list, plain or correlated, `size` equals the bytes written and iterating them returns the list, correlation data first |
| `Properties.ShiftedItemsDiffer` | src/encoding/properties.rs:441-450 | a block read from any number of bytes too early never yields its own list |
| `Properties.DataBlockOverruns` | src/encoding/encoder.rs:160-160 | a received block written out again is two bytes longer than announced |
| `Properties.PropertiesIter.Next` | src/encoding/properties.rs:352-450 | yields the item at the index, or nothing exactly at the end, and has moved on; what the item is for each property is `Properties.TablesAgree` |
| `Properties.PropertiesIter.Drain` | src/encoding/properties.rs:441-450 | iterating terminates and collects exactly the items of the block |
| `Packets.WritesEmitBody` | src/encoding/packets/publish.rs:125-150 | the encoder calls of every `to_buffer` emit the body of the packet field by field |
| `Packets.ConnectWritesEmit` | src/encoding/packets/connect.rs:134-175 | the encoder calls of CONNECT emit its six parts in their order |
| `ConnectReader.ConnectReadsBack` | src/encoding/packets/connect.rs:134-175 | for every CONNECT with in-range strings, a reader written from sections 3.1.2 and 3.1.3 of MQTT 5.0 reads what is encoded as exactly its fields: name, level, flags, keep alive, properties, client identifier, will, user name and password |
| `Packets.AnnouncedSizeIsPeakIff` | src/encoding/packets/publish.rs:160-176 | `max_packet_size` is the peak space of the encoder always for DISCONNECT, and for the other packets if and only if there are no properties |
| `Packets.ConnectSizeIsPeak` | src/encoding/packets/connect.rs:134-205 | for CONNECT with any optional fields and any measurable properties the announced size is exactly the peak |
| `Packets.AnnouncedSizeSufficesIff` | src/encoding/packets/publish.rs:160-176 | a buffer of the announced size is enough if and only if there are no properties, and always for CONNECT and DISCONNECT |
| `Encoder.RotateLeft` | src/encoding/encoder.rs:60-60 | the rotation moves the prefix behind the rest and touches nothing beyond |
| `Encoder.MqttEncoder.Put` | src/encoding/encoder.rs:105-148 | a write succeeds exactly when it fits and appends exactly its bytes; unchecked writers panic, checked ones report |
| `Encoder.MqttEncoder.FinalizeFixedHeader` | src/encoding/encoder.rs:52-65 | afterwards the buffer starts with type and flags, remaining length and body without a gap |
| `Encoder.MqttEncoder.ToBuffer` | src/encoding/packets/connect.rs:134-175 | in-place encoding refines concatenation: it leaves exactly the packet, or fails exactly as specified: by a panic if and only if the buffer cannot hold the reserved header, the first write that does not fit is a byte or a varint, or the length is out of range, and otherwise by the error of that write or of the missing identifier |
| `Encoder.EncodesIff` | src/encoding/encoder.rs:52-148 | it succeeds if and only if the identifier is there, the length is in range and the body fits behind five bytes |
| `Encoder.EncodeAnnounced` | src/client.rs:153-162 | encoding into a grant of the announced size, as `send` does, yields the packet if and only if there are no properties (always for CONNECT and DISCONNECT) and the length is in range, and otherwise fails as specified: a PUBLISH with properties is never sent |
| `Encoder.PublishError` | src/encoding/packets/publish.rs:160-176 | how it fails for a PUBLISH with properties: as the first of the property and payload writes that does not fit in the length of the payload |
| `Encoder.EmptyPayloadPanics` | src/encoding/encoder.rs:105-109 | with an empty payload `send` panics |
| `Encoder.LongPayloadIsRefused` | src/encoding/packets/publish.rs:26-33 | with a payload at least as long as the properties it returns an error |
| `Decoder.TryNewStaysInside` | src/encoding/decoder.rs:42-67 | a parsed fixed header never claims bytes the buffer does not have |
| `Decoder.MqttDecoder.NextStr` | src/encoding/decoder.rs:127-140 | length-prefixed UTF-8 or the error, and the cursor behind it |
| `Decoder.MqttDecoder.NextProperties` | src/encoding/decoder.rs:172-189 | the block between the length prefix and its end, or the error |
| `Decoder.MqttDecoder.NextPayload` | src/encoding/decoder.rs:162-168 | the rest of the packet; the subtraction panics when the cursor has passed the end |
| `Decoder.MqttDecoder.AckFromDecoder` | src/encoding/packets/puback.rs:100-123 | the length-driven decoding of the four acknowledgements |
| `Decoder.MqttDecoder.DisconnectFromDecoder` | src/encoding/packets/disconnect.rs:100-112 | short packets default to reason 0 |
| `Decoder.MqttDecoder.ConnAckFromDecoder` | src/encoding/packets/connack.rs:86-102 | reserved flag bits are refused |
| `Decoder.MqttDecoder.SubAckFromDecoder` | src/encoding/packets/suback.rs:87-103 | identifier, block and codes of SUBACK and UNSUBACK; more codes than the list holds panic |
| `Decoder.MqttDecoder.MessageFromDecoder` | src/message.rs:32-75 | the ranges a message keeps, in order and inside the frame |
| `RoundTrip.CodecRoundTrip` | src/encoding/packets/mod.rs:70-89 | for every PUBLISH, CONNACK, PUBACK, PUBREC, PUBREL, PUBCOMP, SUBACK, UNSUBACK and DISCONNECT with in-range lengths and measurable slice properties, decoding the encoding gives back the same packet |
| `RoundTrip.MessageBack` | src/message.rs:32-75 | the ranges of a received message denote the published topic and payload, with its identifier, flags and property block |
| `RoundTrip.MessagePropertiesAreShifted` | src/message.rs:100-102 | for every published property list, iterating what `Message::properties` hands out never yields that list |
| `RoundTrip.EmptyPropertiesReadAsError` | src/message.rs:54-58 | of a message without properties it yields one invalid property 0 |
| `RoundTrip.ShortAckLosesReason` | src/encoding/packets/puback.rs:101-101 | every acknowledgement of remaining length 3 decodes as success |
| `RoundTrip.AckReasonArrivesIff` | src/encoding/packets/puback.rs:100-123 | for every acknowledgement with a reason, with or without properties, the reason decoded is the one sent if and only if the remaining length is not 3 or the reason is 0 |
| `RoundTrip.ConnAckFlagsIff` | src/encoding/packets/connack.rs:86-102 | a CONNACK is accepted if and only if the reserved bits of its flags are 0 |
| `RoundTrip.ZeroPidIsRefused` | src/encoding/utils.rs:89-99 | an identifier of 0 is refused in every acknowledgement |
| `RoundTrip.TooManyCodesPanicIff` | src/encoding/packets/suback.rs:87-103 | the decoder panics if and only if there are more codes than the list holds |
| `Framing.ReadReceived` | src/encoding/received_packet.rs:41-83 | the dispatch with its decoder computes the specified outcome for every buffer |
| `Framing.ReadHeader` | src/packet.rs:87-98 | the header parse with its decoder computes what `PublishStream.ParsePrefix` and `ControlStream.ControlParse` say of every packet |
| `Framing.Socket.ReadExact` | src/encoding/packets/publish.rs:210-218 | fills the slice with the next bytes of the stream, in any chunking, or ends at the end of the stream |
| `Framing.PacketReader.ReadChunk` | src/packet.rs:57-122 | one byte while the length is unknown, up to the packet or the buffer once it is known, with every failure |
| `Framing.PacketReader.Round` | src/packet.rs:50-52 | one round keeps the reader aligned with the packet's first byte or ends `recv` as specified, so `recv` can be abandoned before its last read and taken up again |
| `Framing.PacketReader.Recv` | src/packet.rs:39-55 | from any aligned state `recv` returns what the stream determines, up to the size of the last read, and with an eager socket altogether; what that is for each packet is stated by `PublishStream.DeliveredIff` and `ControlStream.ControlReceivedIff` |
| `PublishStream.ParsePrefix` | src/packet.rs:87-98 | what the header parser says of every prefix of a stream that starts with a PUBLISH |
| `PublishStream.DeliverableIsDelivered` | src/packet.rs:39-98 | a deliverable PUBLISH is delivered with its topic, QoS and identifier, and the bytes gathered are its own first bytes |
| `PublishStream.DeliveredIff` | src/packet.rs:87-98 | for every PUBLISH, every continuation of the stream and every chunking: delivered if and only if QoS, topic and identifier are valid, two bytes follow the topic, and the header fits the buffer |
| `PublishStream.UnparsableIsNotDelivered` | src/packet.rs:65-70 | which of the others crash the reader and which make it spin, exactly |
| `PublishStream.TopicLimitSuffices` | src/packet.rs:14-14 | a topic up to the configured length always fits the buffer |
| `PublishStream.EncodedDeliverableIff` | src/encoding/packets/publish.rs:125-150 | of the packets the encoder produces, only a QoS 0 message with neither properties nor payload is not deliverable |
| `PublishStream.PartialPublish.CopyAll` | src/encoding/packets/publish.rs:207-221 | panics exactly on a destination that is too short, reports exactly a stream that is too short, and otherwise leaves the whole packet in the destination and the stream behind it |
| `PublishStream.PartialPublish.Discard` | src/encoding/packets/publish.rs:226-242 | consumes the same bytes in pieces of 64 |
| `PublishStream.ReceiveAll` | src/packet.rs:39-55 | any run of deliverable packets, in chunks of any sizes, is received as exactly those packets in order, and discarding some of them consumes the same bytes |
| `ControlStream.ControlParse` | src/packet.rs:87-98 | for a packet other than PUBLISH the header parser asks for more until the fixed header is there, and then gives the length of the whole packet |
| `ControlStream.BodyCut` | src/encoding/packets/puback.rs:100-123 | an acknowledgement, CONNACK, SUBACK, UNSUBACK or DISCONNECT cut short inside its body is reported as such and never decoded as something else; the one exception is a DISCONNECT that carries nothing |
| `ControlStream.ControlReceivedIff` | src/packet.rs:39-123 | on every stream and for every chunking, a control packet is received as itself if and only if the last read brought all of it, and is undecodable otherwise; no byte behind it is taken |
| `ControlStream.ControlCanBeReceived` | src/packet.rs:65-70 | a control packet that fits the buffer can be read whole, and an eager socket does so |
| `ControlStream.PingRespIsReceived` | src/encoding/received_packet.rs:49-49 | a PINGRESP is received on every stream |
| `ControlStream.OtherTypesAreRefused` | src/encoding/received_packet.rs:78-78 | packet types that no client is sent are refused, whatever follows |
| `ControlStream.ReceiveMixed` | src/packet.rs:39-55 | any stream of messages, control packets and PINGRESPs is received item by item, in order, each as what was sent; messages may arrive in any chunks, control packets need a socket that hands out what is there |
| `EndToEnd.SendAndReceive` | src/stack.rs:205-342 | packets encoded in place, sent one after the other in front of anything, cut into chunks, received and decoded: each message shows the topic, payload, identifier and flags published, each control packet is the one sent |
| `PacketId.ArithmeticIsModular` | src/encoding/utils.rs:59-79 | addition and subtraction are those modulo 65535 on 1..65535 |
| `PacketId.AddSubInverse` | src/encoding/utils.rs:55-80 | they undo each other |
| `PacketId.SameIdentifierIff` | src/state.rs:96-99 | two issued identifiers are equal if and only if a multiple of 65535 lies between them |
| `PacketId.ConsecutiveAreDistinct` | src/state.rs:96-99 | any 65535 consecutive identifiers are pairwise distinct (section 2.2.1 of MQTT 5.0) |
| `SessionTheorems.StepKeepsValid` | src/state.rs:45-56 | a step that does not panic keeps all five collections within their capacity, the counter in its byte, and the state disconnected while connecting |
| `SessionTheorems.ReachedIsValid` | src/state.rs:59-128 | so in every reachable state a collection of the size of its capacity is full |
| `SessionTheorems.ConnectionIsLatest` | src/state.rs:109-128 | over every run the state says connected, and with which session, exactly as the last event of the connection does |
| `SessionTheorems.CountsCleanSessions` | src/state.rs:109-128 | over every run the counter is the number of connects without a session, modulo 256 |
| `SessionTheorems.PollDetectsSessionLossIff` | src/client.rs:574-578 | for a snapshot in any reachable state, a poll ends the stream if and only if the number of sessions lost since is not a multiple of 256; below 256, if and only if there was one |
| `SessionTheorems.QueueIsFifo` | src/client.rs:155-200 | over every run the transmit queue is what was appended, less as many as were taken off, from the front: identifiers of committed frames, 0 for abandoned grants and dropped subscriptions |
| `TransmitQueue.QueueIsTheChannel` | src/stack.rs:181-203 | for any run of the session and any lossless run of the transmit channel that commits what the session appends, the identifiers read off the channel are the first appended, in order, and the session's queue is the rest |
| `SessionTheorems.StepKeepsAccountedIff` | src/client.rs:164-203 | a step keeps every awaited identifier on a queued frame if and only if it is neither a `send` that overflows `ack_status` after recording its identifier nor a transmission left early that drops the last frame of an awaited identifier |
| `SessionTheorems.RunKeepsAccounted` | src/client.rs:164-224 | the same over every run of sends, transmissions, failed writes, dropped runs, cancellations and resets, a reset restoring the accounts |
| `SessionTheorems.ReachedIsAccounted` | src/client.rs:164-224 | and hence in every state a fresh client reaches without such a step since its last reset |
| `SessionTheorems.FramesReleaseWaiter` | src/stack.rs:181-203 | when the frames of an identifier are among the first m and the last of them is not lost, taking m frames off the queue releases its waiter, whatever else happens in between |
| `SessionTheorems.QueuePrefixReleasesWaiters` | src/client.rs:210-224 | taking off what is queued now releases every `wait_tx` of now whose last frame is not lost |
| `SessionTheorems.PendingIffNotWritten` | src/client.rs:210-224 | without reset, cancellation or reuse `wait_tx` is pending if and only if no frame of its identifier has been written |
| `SessionTheorems.LostWaiterIsStranded` | src/client.rs:210-224 | a waiter whose frame is lost waits in every continuation without cancellation, reset or reuse of the identifier |
| `SessionTheorems.DroppedTransmissionStrands` | src/stack.rs:181-192 | a run in which `run` is dropped while writing the only frame of a publish, which leaves such a waiter and takes up its place |
| `SessionTheorems.CloggedRefusesSends` | src/client.rs:164-169 | once every place in `outgoing_pid` is taken by an identifier without a frame, every `send` of any kind is refused in every continuation without a reset, a cancellation or a reuse of those identifiers |
| `SessionTheorems.RefusedSubscribeClogs` | src/client.rs:179-185 | a run in which a subscribe is refused for lack of `ack_status` room and its identifier, which nobody waits for, takes up the last place |
| `PublishCompletion.PendingIffNeverSettled` | src/client.rs:374-388 | over every run, resets included, the first poll of a publisher is pending if and only if nothing has settled its identifier: an acknowledgement, a cancellation or a reset |
| `PublishCompletion.AtLeastOnceWaiterIff` | src/client.rs:351-388 | `wait_publish_tx` for QoS 1 with both its polls, whenever they are made: within a connection it finishes if and only if its frame was written by the first and its PUBACK came by the second (section 4.3.2 of MQTT 5.0) |
| `PublishCompletion.AcknowledgedPublisherStillWaits` | src/stack.rs:187-192 | a run in which the PUBACK has come and the publisher waits on, because `run` was dropped before it noted the writing |
| `PublishCompletion.EnqueueStartsExchange` | src/client.rs:164-203 | a committed QoS 1 or 2 publish under a free identifier starts awaiting its writing, on a queued frame, in `inflight_pub` and not in `outgoing_rel` |
| `PublishCompletion.ExchangeFollowsPhases` | src/stack.rs:430-463 | within a connection the identifier of a QoS 2 publish is in exactly one of `inflight_pub` and `outgoing_rel` until PUBCOMP, then in neither |
| `PublishCompletion.ExactlyOnceWaiterIff` | src/client.rs:351-406 | `wait_publish_tx` for QoS 2 with its three polls: it finishes if and only if its frame was written by the first, a PUBREC came by the second, and a PUBCOMP after that PUBREC by the third (section 4.3.3 of MQTT 5.0) |
| `PublishCompletion.UnsolicitedPubRecReleasesAll` | src/stack.rs:126-131 | after an unsolicited PUBREC the stack handles nothing before a reset, and the reset empties all five collections and disconnects |
| `PublishCompletion.FailsIff` | src/stack.rs:407-450 | the stack is on its way to a reset exactly after its own error, a failed write, or an unsolicited PUBREC or PUBREL |
| `PublishCompletion.CancelledIsForgotten` | src/client.rs:354-366 | a cancelled publish is in neither set of the exchange; it is still awaited exactly when it was in flight and not written, a queued frame accounts for it then, and once what is queued is written it is in no set |
| `PublishCompletion.FreshIdentifierIsNotReused` | src/state.rs:96-99 | while fewer than 65535 identifiers are issued nobody sends under an identifier again |
| `PublishCompletion.ExactlyOnceExchange` | src/client.rs:164-178 | from `send` to PUBCOMP in any run of a fresh client that issues fewer than 65535 identifiers: a QoS 2 publish is in `inflight_pub` if and only if no PUBREC came, and in `outgoing_rel` if and only if a PUBREC came and no PUBCOMP since |
| `PublishCompletion.ExactlyOncePublish` | src/client.rs:351-406 | the QoS 2 waiter from `send` to its end in such a run, with no assumption about its identifier |
| `SubscribeCompletion.EnqueueStartsWaiting` | src/client.rs:179-194 | a committed subscribe or unsubscribe waits for its own kind of answer, on a queued frame |
| `SubscribeCompletion.SubscribeAnsweredIff` | src/client.rs:425-447 | a waiting subscribe is answered if and only if its SUBACK came, with the codes of the first one |
| `SubscribeCompletion.UnsubscribeAnsweredIff` | src/client.rs:514-534 | a waiting unsubscribe likewise by its UNSUBACK |
| `SubscribeCompletion.ResetForgetsAnswers` | src/state.rs:82-94 | after a reset nothing can be taken for an identifier before a subscribe or unsubscribe is enqueued under it and answered |
| `SubscribeCompletion.CancelledSubscribeIsForgotten` | src/client.rs:417-423 | a cancelled subscribe is awaited by nobody and answered to nobody from then on |
| `SessionCapacity.StepKeepsRoomyIff` | src/client.rs:135-149 | a step keeps room for all publishers past the check if and only if it is not a check passed on the last places others have claimed |
| `SessionCapacity.SendNeverPanics` | src/client.rs:164-177 | in every run without such a check the unwrapped insertion of `send` never fails |
| `SessionCapacity.TwoSendersCanPanic` | src/client.rs:135-177 | a run in which two publishers pass the check for one place and the second insertion fails |
| `SessionCapacity.StepKeepsRoomForAllIff` | src/client.rs:135-149 | a step keeps one window for publishes in flight, released and on their way if and only if it is not a check passed when that window is full |
| `SessionCapacity.OutgoingNeverPanics` | src/stack.rs:434-435 | in every run without such a check neither `send` nor the PUBREC handler unwraps a failed insertion |
| `SessionCapacity.WithheldPubCompPanics` | src/stack.rs:434-435 | a run in which the broker withholds a PUBCOMP and the next PUBREC makes the client panic |
| `SessionCapacity.IncomingIsOpen` | src/stack.rs:407-427 | over every run `incoming_pub` holds exactly the QoS 2 messages buffered and not yet released since the last reset |
| `SessionCapacity.IncomingPanicsIff` | src/stack.rs:274-281 | an incoming QoS 2 message meets a full `incoming_pub` if and only if, counting it, there are more of those than the set holds |
| `SessionCapacity.TwoOpenExchangesPanic` | src/stack.rs:274-281 | a run in which the broker opens one exchange too many |
| `SharedState.Shared.SendReserve` | src/client.rs:134-149 | keeps the invariant, takes the step, and refuses exactly when the publish window is full |
| `SharedState.EnqueueLocked` | src/client.rs:164-203 | the insertions of `send` in their order make exactly the step's new state, with its outcome on every path |
| `SharedState.Shared.SendEnqueue` | src/client.rs:164-203 | panics if and only if the unwrapped insertion fails; otherwise keeps the invariant, takes the step on every path, and succeeds exactly when its frame is committed |
| `SharedState.Shared.HandlePubRec` | src/stack.rs:430-450 | panics if and only if `outgoing_rel` is full; otherwise keeps the invariant, replies exactly to a publish in flight, and fails the stack upon any other |
| `SharedState.Shared.HandlePublish` | src/stack.rs:274-281 | panics if and only if `incoming_pub` is full; otherwise keeps the invariant and takes the step |
| `SharedState.Shared.HandlePubRel` | src/stack.rs:408-427 | keeps the invariant, replies exactly to an open exchange, and fails the stack upon any other |
| `SharedState.Shared.FinishConnect` | src/stack.rs:94-100 | keeps the invariant, and the session-loss counter moves if and only if the broker holds no session: the invariant excludes that the state already said so |
| `Topics.JoinSplit` | src/topic_filter.rs:58-58 | joining the levels gives the topic back, so splitting on `/` is injective |
| `Topics.NewFilter` | src/topic_filter.rs:28-48 | accepted if and only if it fits, is not empty and has no `#` before its last byte; the wildcard flag is right |
| `Topics.PlainFilterIsEquality` | src/topic_filter.rs:72-74 | for a filter without wildcards level-by-level matching is string equality |
| `Topics.IsMatch` | src/topic_filter.rs:56-75 | for every accepted filter and every topic both paths decide level-by-level matching |
| `Topics.DiffersFromStandardIff` | src/topic_filter.rs:58-68 | the code differs from section 4.7.1 of MQTT 5.0 exactly on the parent level of a `#` filter |
| `Topics.ParentLevelIsMissed` | src/topic_filter.rs:61-67 | the filter `a/#` and the topic `a` |

## Left out

- Broadcast.LosslessBroadcast: does not cover a reader that writes through its grant (`buf_mut`), nor taking the publisher anew over queued frames, which zeroes them; both change bytes that others have yet to read.
- Framing.PacketReader.Recv: the last read is one step; cancelling `recv` during it loses the packet length. Transport errors other than the end of the stream end the connection and are not modelled.
- Dropping `MqttStack` itself: its transmit subscriber goes with it, which empties the transmit queue and strands every awaited identifier; only the dropping of `run` is modelled.
- Ids in the channel and lengths are unbounded integers: wrap-around of the 64-bit ids, and the `u32` cast of lengths over 4 GiB in the encoder's size check, are not modelled.
- The MQTT 3.1.1 build of the codec.
- Transports, TLS, DNS, broker addresses, and the wakers, timers and futures around each locked section.
- Reason-code tables: reasons are the bytes on the wire, so the folding of unknown codes into one value is not modelled.
- The codecs of SUBSCRIBE, UNSUBSCRIBE, PINGREQ and PINGRESP, and deferred payloads; CONNECT has no decoder in the source.
- Incoming QoS 2 messages are delivered before `incoming_pub` is consulted, so there is no deduplication to prove; the set itself and its overflow are modelled.
- Keep-alive, backoff, and the retry loops of `publish` and `subscribe`.
- Matching of topics that start with `$` (section 4.7.2 of MQTT 5.0): the code has no rule for them.
