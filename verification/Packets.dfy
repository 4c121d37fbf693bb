/** The packets with a codec, what each `to_buffer` writes, and what each `max_packet_size` announces. */
module Packets {
  import opened Base
  import opened Wire
  import opened Varint
  import opened Properties

  datatype QoS = AtMostOnce | AtLeastOnce | ExactlyOnce {
    function Code(): byte {
      if AtMostOnce? then 0 else if AtLeastOnce? then 1 else 2
    }
  }

  /** PUBACK, PUBREC, PUBREL and PUBCOMP share one shape. */
  datatype AckKind = PubAck | PubRec | PubRel | PubComp {
    function TypeByte(): byte {
      match this
      case PubAck => 0x40
      case PubRec => 0x50
      case PubRel => 0x60
      case PubComp => 0x70
    }
  }

  /** SUBACK and UNSUBACK share another. */
  datatype SubKind = Subscribe | Unsubscribe {
    function TypeByte(): byte {
      if Subscribe? then 0x90 else 0xB0
    }
  }

  datatype LastWill = LastWill(topic: Bytes, data: Bytes, qos: QoS, retained: bool, props: Properties)

  /** Reason codes are kept as the bytes the wire carries. */
  datatype Packet =
    | Publish(dup: bool, qos: QoS, retain: bool, pid: Option<nat>, topic: Bytes, props: Properties, payload: Bytes)
    | Ack(kind: AckKind, ackPid: nat, reason: byte, props: Properties)
    | ConnAck(sessionPresent: bool, reason: byte, props: Properties)
    | SubAck(answers: SubKind, ackPid: nat, props: Properties, codes: Bytes)
    | Disconnect(reason: byte, props: Properties)
    | Connect(name: Bytes, level: byte, cleanStart: bool, keepAlive: nat, props: Properties, clientId: Bytes,
              will: Option<LastWill>, username: Option<Bytes>, password: Option<Bytes>)

  /** The capacity of the code list of a SUBACK or UNSUBACK. */
  const MAX_SUB_TOPICS_PER_MSG := 8

  /** What the Rust types already promise about the fields. */
  predicate WellTyped(p: Packet) {
    && AllTyped(p.props)
    && match p
       case Publish(_, _, _, pid, topic, _, _) => IsUtf8(topic) && (pid.Some? ==> 0 < pid.value < 0x1_0000)
       case Ack(_, pid, _, _) => 0 < pid < 0x1_0000
       case SubAck(_, pid, _, codes) => 0 < pid < 0x1_0000 && |codes| <= MAX_SUB_TOPICS_PER_MSG
       case Connect(name, _, _, keepAlive, _, clientId, will, username, _) =>
         && IsUtf8(name) && keepAlive < 0x1_0000 && IsUtf8(clientId) && (username.Some? ==> IsUtf8(username.value))
         && (will.Some? ==> AllTyped(will.value.props) && IsUtf8(will.value.topic))
       case _ => true
  }

  /** One call on the encoder. */
  datatype Write =
    | PutU8(b: byte)
    | PutU16(n: nat)
    | PutU32(n: nat)
    | PutVarint(n: nat)
    | PutSlice(s: Bytes)
    | PutPayload(s: Bytes)

  function Emit(w: Write): Bytes {
    match w
    case PutU8(b) => [b]
    case PutU16(n) => U16Bytes(n)
    case PutU32(n) => U32Bytes(n)
    case PutVarint(n) => EncodeVarint(n)
    case PutSlice(s) => Prefixed(s)
    case PutPayload(s) => s
  }

  function EmitAll(ws: seq<Write>): Bytes {
    if ws == [] then [] else Emit(ws[0]) + EmitAll(ws[1..])
  }

  lemma {:induction false} EmitAllConcat(a: seq<Write>, b: seq<Write>)
    ensures EmitAll(a + b) == EmitAll(a) + EmitAll(b)
  {
    if a == [] {
      assert a + b == b;
    } else {
      assert (a + b)[0] == a[0] && (a + b)[1..] == a[1..] + b;
      EmitAllConcat(a[1..], b);
      assert EmitAll(a + b) == Emit(a[0]) + (EmitAll(a[1..]) + EmitAll(b));
    }
  }

  /** The calls of `write_property`. */
  function PropertyWrites(p: Property): seq<Write> {
    [PutU8(Id(p))] + match ValueOf(p)
                    case U8(b) => [PutU8(b)]
                    case U16(n) => [PutU16(n)]
                    case U32(n) => [PutU32(n)]
                    case Var(n) => [PutVarint(n)]
                    case Str(s) => [PutSlice(s)]
                    case Bin(s) => [PutSlice(s)]
                    case Pair(k, v) => [PutSlice(k), PutSlice(v)]
  }

  function ListWrites(ps: seq<Property>): seq<Write> {
    if ps == [] then [] else PropertyWrites(ps[0]) + ListWrites(ps[1..])
  }

  /** The calls of `write_properties`. */
  function PropertiesWrites(ps: Properties): seq<Write>
    requires AllTyped(ps)
  {
    [PutVarint(Size(ps))] + match ps
                            case Slice(list) => ListWrites(list)
                            case DataBlock(block) => [PutSlice(block)]
                            case Correlated(c, list) => PropertyWrites(c) + ListWrites(list)
  }

  function OptionalSlice(s: Option<Bytes>): seq<Write> {
    if s.Some? then [PutSlice(s.value)] else []
  }

  function Bit(b: bool): byte {
    if b then 1 else 0
  }

  function ConnectFlags(p: Packet): byte
    requires p.Connect?
  {
    var w: byte := if p.will.Some? then 4 + p.will.value.qos.Code() * 8 + Bit(p.will.value.retained) * 32 else 0;
    Bit(p.cleanStart) * 2 + Bit(p.username.Some?) * 128 + Bit(p.password.Some?) * 64 + w
  }

  /** The encoder calls of each `to_buffer` before `finalize_fixed_header`. */
  function Writes(p: Packet): Result<seq<Write>, Error>
    requires WellTyped(p)
  {
    match p
    case Publish(_, qos, _, pid, topic, props, payload) =>
      if qos.AtMostOnce? then Ok([PutSlice(topic)] + PropertiesWrites(props) + [PutPayload(payload)])
      else if pid.None? then Err(PidMissing)
      else Ok([PutSlice(topic), PutU16(pid.value)] + PropertiesWrites(props) + [PutPayload(payload)])
    case Ack(_, pid, reason, props) =>
      Ok([PutU16(pid)] + if reason != 0 || Size(props) != 0 then [PutU8(reason)] + PropertiesWrites(props) else [])
    case ConnAck(present, reason, props) =>
      Ok([PutU8(Bit(present)), PutU8(reason)] + PropertiesWrites(props))
    case SubAck(_, pid, props, codes) =>
      Ok([PutU16(pid)] + PropertiesWrites(props) + seq(|codes|, i requires 0 <= i < |codes| => PutU8(codes[i])))
    case Disconnect(reason, props) =>
      Ok((if reason != 0 || Size(props) != 0 then [PutU8(reason)] else []) + PropertiesWrites(props))
    case Connect(name, level, _, keepAlive, props, clientId, will, username, password) =>
      Ok([PutSlice(name), PutU8(level), PutU8(ConnectFlags(p)), PutU16(keepAlive)] + PropertiesWrites(props)
         + [PutSlice(clientId)]
         + (if will.Some?
            then PropertiesWrites(will.value.props) + [PutSlice(will.value.topic), PutSlice(will.value.data)]
            else [])
         + OptionalSlice(username) + OptionalSlice(password))
  }

  function TypeAndFlags(p: Packet): byte {
    match p
    case Publish(dup, qos, retain, _, _, _, _) => 0x30 + Bit(dup) * 8 + qos.Code() * 2 + Bit(retain)
    case Ack(kind, _, _, _) => kind.TypeByte()
    case ConnAck(_, _, _) => 0x20
    case SubAck(answers, _, _, _) => answers.TypeByte()
    case Disconnect(_, _) => 0xE0
    case Connect(_, _, _, _, _, _, _, _, _) => 0x10
  }

  /** The packet as the standard lays it out: type and flags, remaining length, body. */
  function Frame(typeAndFlags: byte, body: Bytes): Bytes {
    [typeAndFlags] + EncodeVarint(|body|) + body
  }

  // ---- how encoding fails ----

  /** What a write that does not fit does: `write_u8`, and with it `write_varint`, index the buffer unchecked. */
  function MisfitError(w: Write): Error {
    if w.PutU8? || w.PutVarint? then Panic else BufferSize
  }

  /** The first write that does not fit into `room` bytes. */
  function FirstMisfit(ws: seq<Write>, room: nat): Option<Write> {
    if ws == [] then None
    else if |Emit(ws[0])| > room then Some(ws[0])
    else FirstMisfit(ws[1..], room - |Emit(ws[0])|)
  }

  lemma {:induction false} NoMisfitIff(ws: seq<Write>, room: nat)
    ensures FirstMisfit(ws, room).None? <==> |EmitAll(ws)| <= room
  {
    if ws != [] && |Emit(ws[0])| <= room { NoMisfitIff(ws[1..], room - |Emit(ws[0])|); }
  }

  lemma {:induction false} FirstMisfitOfConcat(a: seq<Write>, b: seq<Write>, room: nat)
    requires |EmitAll(a)| <= room
    ensures FirstMisfit(a + b, room) == FirstMisfit(b, room - |EmitAll(a)|)
  {
    if a == [] {
      assert a + b == b;
    } else {
      assert (a + b)[0] == a[0] && (a + b)[1..] == a[1..] + b;
      FirstMisfitOfConcat(a[1..], b, room - |Emit(a[0])|);
    }
  }

  /** The writes that are tried: a missing identifier is noticed after the topic. */
  function Attempted(p: Packet): seq<Write>
    requires WellTyped(p)
  {
    if Writes(p).Ok? then Writes(p).value else [PutSlice(p.topic)]
  }

  /** How `to_buffer` fails on a buffer of `cap` bytes, if it does. */
  function EncodeError(p: Packet, cap: nat): Option<Error>
    requires WellTyped(p)
  {
    if cap < MAX_HEADER then Some(Panic)
    else match FirstMisfit(Attempted(p), cap - MAX_HEADER)
      case Some(w) => Some(MisfitError(w))
      case None =>
        if Writes(p).Err? then Some(Writes(p).error)
        else if |EmitAll(Writes(p).value)| > MAX_VARINT then Some(Panic)
        else None
  }

  // ---- bodies as bytes ----

  lemma Emit1(a: Write)
    ensures EmitAll([a]) == Emit(a)
  {
    assert [a][1..] == [];
  }

  lemma Emit2(a: Write, b: Write)
    ensures EmitAll([a, b]) == Emit(a) + Emit(b)
  {
    assert [a, b][1..] == [b];
    Emit1(b);
  }

  lemma PropertyWritesEmit(p: Property)
    ensures EmitAll(PropertyWrites(p)) == PropertyBytes(p)
  {
    var ws := PropertyWrites(p);
    assert ws[0] == PutU8(Id(p));
    if p.UserProperty? {
      assert ws[1..] == [PutSlice(p.key), PutSlice(p.val)];
      Emit2(PutSlice(p.key), PutSlice(p.val));
    } else {
      assert ws[1..] == [ws[1]];
      Emit1(ws[1]);
    }
  }

  lemma {:induction false} ListWritesEmit(ps: seq<Property>)
    ensures EmitAll(ListWrites(ps)) == BlockBytes(ps)
  {
    if ps != [] {
      EmitAllConcat(PropertyWrites(ps[0]), ListWrites(ps[1..]));
      PropertyWritesEmit(ps[0]);
      ListWritesEmit(ps[1..]);
    }
  }

  lemma PropertiesWritesEmit(ps: Properties)
    requires AllTyped(ps)
    ensures EmitAll(PropertiesWrites(ps)) == WithLength(ps)
  {
    var ws := PropertiesWrites(ps);
    match ps
    case Slice(list) =>
      ListWritesEmit(list);
      assert ws[1..] == ListWrites(list);
    case DataBlock(block) =>
      assert ws[1..] == [PutSlice(block)];
      Emit1(PutSlice(block));
    case Correlated(c, list) =>
      EmitAllConcat(PropertyWrites(c), ListWrites(list));
      PropertyWritesEmit(c);
      ListWritesEmit(list);
      assert ([c] + list)[1..] == list;
      assert ws[1..] == PropertyWrites(c) + ListWrites(list);
  }

  lemma {:induction false} CodesEmit(codes: Bytes)
    ensures EmitAll(seq(|codes|, i requires 0 <= i < |codes| => PutU8(codes[i]))) == codes
  {
    if codes != [] {
      var ws := seq(|codes|, i requires 0 <= i < |codes| => PutU8(codes[i]));
      CodesEmit(codes[1..]);
      assert ws[1..] == seq(|codes[1..]|, i requires 0 <= i < |codes[1..]| => PutU8(codes[1..][i]));
    }
  }

  lemma EmitBefore(head: seq<Write>, ps: Properties)
    requires AllTyped(ps)
    ensures EmitAll(head + PropertiesWrites(ps)) == EmitAll(head) + WithLength(ps)
  {
    PropertiesWritesEmit(ps);
    EmitAllConcat(head, PropertiesWrites(ps));
  }

  /** Something, a property block, something. */
  lemma EmitAround(head: seq<Write>, ps: Properties, tail: seq<Write>)
    requires AllTyped(ps)
    ensures EmitAll(head + PropertiesWrites(ps) + tail) == EmitAll(head) + WithLength(ps) + EmitAll(tail)
  {
    EmitBefore(head, ps);
    EmitAllConcat(head + PropertiesWrites(ps), tail);
  }

  /** The body of a packet, field by field. */
  function Body(p: Packet): Bytes
    requires WellTyped(p) && !p.Connect?
  {
    match p
    case Publish(_, qos, _, pid, topic, props, payload) =>
      Prefixed(topic) + (if qos.AtMostOnce? || pid.None? then [] else U16Bytes(pid.value)) + WithLength(props) + payload
    case Ack(_, pid, reason, props) =>
      U16Bytes(pid) + if reason != 0 || Size(props) != 0 then [reason] + WithLength(props) else []
    case ConnAck(present, reason, props) => [Bit(present), reason] + WithLength(props)
    case SubAck(_, pid, props, codes) => U16Bytes(pid) + WithLength(props) + codes
    case Disconnect(reason, props) =>
      (if reason != 0 || Size(props) != 0 then [reason] else []) + WithLength(props)
  }

  lemma PublishWritesEmit(p: Packet)
    requires WellTyped(p) && p.Publish? && Writes(p).Ok?
    ensures EmitAll(Writes(p).value) == Body(p)
  {
    var head := if p.qos.AtMostOnce? then [PutSlice(p.topic)] else [PutSlice(p.topic), PutU16(p.pid.value)];
    EmitAround(head, p.props, [PutPayload(p.payload)]);
    Emit1(PutPayload(p.payload));
    Emit1(PutSlice(p.topic));
    if !p.qos.AtMostOnce? { Emit2(PutSlice(p.topic), PutU16(p.pid.value)); }
  }

  lemma AckWritesEmit(p: Packet)
    requires WellTyped(p) && p.Ack?
    ensures EmitAll(Writes(p).value) == Body(p)
  {
    Emit1(PutU16(p.ackPid));
    if p.reason != 0 || Size(p.props) != 0 {
      var tail := [PutU8(p.reason)] + PropertiesWrites(p.props);
      Emit1(PutU8(p.reason));
      EmitBefore([PutU8(p.reason)], p.props);
      EmitAllConcat([PutU16(p.ackPid)], tail);
    } else {
      assert Writes(p).value == [PutU16(p.ackPid)];
    }
  }

  lemma SubAckWritesEmit(p: Packet)
    requires WellTyped(p) && p.SubAck?
    ensures EmitAll(Writes(p).value) == Body(p)
  {
    Emit1(PutU16(p.ackPid));
    CodesEmit(p.codes);
    EmitAround([PutU16(p.ackPid)], p.props, seq(|p.codes|, i requires 0 <= i < |p.codes| => PutU8(p.codes[i])));
  }

  lemma ConnAckWritesEmit(p: Packet)
    requires WellTyped(p) && p.ConnAck?
    ensures EmitAll(Writes(p).value) == Body(p)
  {
    var a, b := PutU8(Bit(p.sessionPresent)), PutU8(p.reason);
    Emit2(a, b);
    EmitBefore([a, b], p.props);
  }

  lemma DisconnectWritesEmit(p: Packet)
    requires WellTyped(p) && p.Disconnect?
    ensures EmitAll(Writes(p).value) == Body(p)
  {
    var head := if p.reason != 0 || Size(p.props) != 0 then [PutU8(p.reason)] else [];
    Emit1(PutU8(p.reason));
    EmitBefore(head, p.props);
  }

  lemma WritesEmitBody(p: Packet)
    requires WellTyped(p) && !p.Connect? && Writes(p).Ok?
    ensures EmitAll(Writes(p).value) == Body(p)
  {
    match p
    case Publish(_, _, _, _, _, _, _) => PublishWritesEmit(p);
    case Ack(_, _, _, _) => AckWritesEmit(p);
    case SubAck(_, _, _, _) => SubAckWritesEmit(p);
    case ConnAck(_, _, _) => ConnAckWritesEmit(p);
    case Disconnect(_, _) => DisconnectWritesEmit(p);
  }

  // ---- announced sizes ----

  const MAX_HEADER := 5

  /** `max_packet_size` of each packet. */
  function MaxPacketSize(p: Packet): nat
    requires WellTyped(p) && Size(p.props) <= MAX_VARINT
    requires p.Connect? && p.will.Some? ==> Size(p.will.value.props) <= MAX_VARINT
  {
    match p
    case Publish(_, qos, _, _, topic, props, payload) =>
      2 + |topic| + (if qos.AtMostOnce? then 0 else 2) + MAX_HEADER + VarintLen(Size(props)) + |payload|
    case Ack(_, _, reason, props) =>
      2 + MAX_HEADER + if reason != 0 || Size(props) != 0 then 1 + VarintLen(Size(props)) else 0
    case ConnAck(_, _, props) => 2 + MAX_HEADER + VarintLen(Size(props))
    case SubAck(_, _, props, codes) => 2 + MAX_HEADER + |codes| + VarintLen(Size(props))
    case Disconnect(reason, props) =>
      (if reason != 0 || Size(props) != 0 then 1 else 0) + VarintLen(Size(props)) + Size(props) + MAX_HEADER
    case Connect(name, _, _, _, props, clientId, will, username, password) =>
      2 + |name| + 1 + 1 + 2 + VarintLen(Size(props)) + Size(props) + 2 + |clientId|
      + (if will.Some?
         then VarintLen(Size(will.value.props)) + Size(will.value.props)
              + 2 + |will.value.topic| + 2 + |will.value.data|
         else 0)
      + (if username.Some? then 2 + |username.value| else 0) + (if password.Some? then 2 + |password.value| else 0)
      + MAX_HEADER
  }

  /** A property list whose size the encoder gets right. */
  predicate Sound(ps: Properties) {
    !ps.DataBlock? && Measurable(Listed(ps)) && AllTyped(ps) && Size(ps) <= MAX_VARINT
  }

  predicate SoundPacket(p: Packet) {
    Sound(p.props) && (p.Connect? && p.will.Some? ==> Sound(p.will.value.props))
  }

  lemma SoundLength(ps: Properties)
    requires Sound(ps)
    ensures |WithLength(ps)| == VarintLen(Size(ps)) + Size(ps)
  {
    PropertyBlockRoundTrip(ps);
    EncodedLength(Size(ps));
  }

  /**
   The announced size is exactly the space the encoder needs at its peak, for
   DISCONNECT always, for the others precisely when there are no properties.
   */
  lemma AnnouncedSizeIsPeakIff(p: Packet)
    requires WellTyped(p) && !p.Connect? && Writes(p).Ok? && Sound(p.props)
    ensures MaxPacketSize(p) == MAX_HEADER + |EmitAll(Writes(p).value)| <==> p.Disconnect? || Size(p.props) == 0
  {
    WritesEmitBody(p);
    SoundLength(p.props);
  }

  // ---- CONNECT, part by part ----

  function ConnectHead(p: Packet): Bytes
    requires p.Connect?
  {
    Prefixed(p.name) + [p.level, ConnectFlags(p)] + U16Bytes(p.keepAlive)
  }

  function WillBytes(will: Option<LastWill>): Bytes
    requires will.Some? ==> AllTyped(will.value.props)
  {
    if will.None? then [] else WithLength(will.value.props) + (Prefixed(will.value.topic) + Prefixed(will.value.data))
  }

  function OptionalBytes(s: Option<Bytes>): Bytes {
    if s.Some? then Prefixed(s.value) else []
  }

  function ConnectBody(p: Packet): Bytes
    requires WellTyped(p) && p.Connect?
  {
    ConnectHead(p) + WithLength(p.props) + Prefixed(p.clientId) + WillBytes(p.will)
    + OptionalBytes(p.username) + OptionalBytes(p.password)
  }

  function HeadWrites(p: Packet): seq<Write>
    requires p.Connect?
  {
    [PutSlice(p.name), PutU8(p.level), PutU8(ConnectFlags(p)), PutU16(p.keepAlive)]
  }

  lemma HeadEmits(p: Packet)
    requires p.Connect?
    ensures EmitAll(HeadWrites(p)) == ConnectHead(p)
  {
    var head := HeadWrites(p);
    assert head == [head[0], head[1]] + [head[2], head[3]];
    EmitAllConcat([head[0], head[1]], [head[2], head[3]]);
    Emit2(head[0], head[1]);
    Emit2(head[2], head[3]);
  }

  function WillWrites(will: Option<LastWill>): seq<Write>
    requires will.Some? ==> AllTyped(will.value.props)
  {
    if will.Some?
    then PropertiesWrites(will.value.props) + [PutSlice(will.value.topic), PutSlice(will.value.data)]
    else []
  }

  lemma WillEmits(will: Option<LastWill>)
    requires will.Some? ==> AllTyped(will.value.props)
    ensures EmitAll(WillWrites(will)) == WillBytes(will)
  {
    if will.Some? {
      PropertiesWritesEmit(will.value.props);
      EmitAllConcat(PropertiesWrites(will.value.props), [PutSlice(will.value.topic), PutSlice(will.value.data)]);
      Emit2(PutSlice(will.value.topic), PutSlice(will.value.data));
    }
  }

  lemma OptionalEmits(s: Option<Bytes>)
    ensures EmitAll(OptionalSlice(s)) == OptionalBytes(s)
  {
    if s.Some? { Emit1(PutSlice(s.value)); }
  }

  lemma ConnectWritesEmit(p: Packet)
    requires WellTyped(p) && p.Connect?
    ensures EmitAll(Writes(p).value) == ConnectBody(p)
  {
    HeadEmits(p);
    Emit1(PutSlice(p.clientId));
    EmitAround(HeadWrites(p), p.props, [PutSlice(p.clientId)]);
    WillEmits(p.will);
    OptionalEmits(p.username);
    OptionalEmits(p.password);
    var upToId := HeadWrites(p) + PropertiesWrites(p.props) + [PutSlice(p.clientId)];
    EmitAllConcat(upToId, WillWrites(p.will));
    EmitAllConcat(upToId + WillWrites(p.will), OptionalSlice(p.username));
    EmitAllConcat(upToId + WillWrites(p.will) + OptionalSlice(p.username), OptionalSlice(p.password));
  }

  lemma ConnectSizeIsPeak(p: Packet)
    requires WellTyped(p) && p.Connect? && Sound(p.props) && (p.will.Some? ==> Sound(p.will.value.props))
    ensures MaxPacketSize(p) == MAX_HEADER + |EmitAll(Writes(p).value)|
  {
    ConnectWritesEmit(p);
    SoundLength(p.props);
    if p.will.Some? { SoundLength(p.will.value.props); }
  }

  /**
   The announced size is enough if and only if there are no properties, and always for CONNECT and
   DISCONNECT. For the others the shortfall is the whole property block.
   */
  lemma AnnouncedSizeSufficesIff(p: Packet)
    requires WellTyped(p) && Writes(p).Ok? && SoundPacket(p)
    ensures MAX_HEADER + |EmitAll(Writes(p).value)| <= MaxPacketSize(p)
            <==> p.Connect? || p.Disconnect? || Size(p.props) == 0
  {
    if p.Connect? {
      ConnectSizeIsPeak(p);
    } else {
      WritesEmitBody(p);
      SoundLength(p.props);
    }
  }
}
