/** Decoding: the fixed header, the cursor reads, and each packet's `from_decoder`. */
module Decoder {
  import opened Base
  import opened Wire
  import opened Varint
  import opened Properties
  import opened Packets

  datatype FixedHeader = FixedHeader(typ: byte, dup: bool, qos: QoS, retain: bool, remaining: nat, headerLen: nat) {
    function PacketLen(): nat {
      headerLen + remaining
    }
  }

  function QosOf(code: nat): Option<QoS> {
    if code == 0 then Some(AtMostOnce) else if code == 1 then Some(AtLeastOnce)
    else if code == 2 then Some(ExactlyOnce) else None
  }

  /** `MqttDecoder::try_new` */
  function TryNew(b: Bytes): Result<FixedHeader, Error> {
    if |b| < 2 then Err(InsufficientBytes)
    else if b[0] / 16 == 0 then Err(InvalidHeader)
    else match DecodeVarint(b[1..])
      case Short => Err(InsufficientBytes)
      case Malformed => Err(MalformedPacket)
      case Value(n, used) =>
        var qos := QosOf(b[0] / 2 % 4);
        if qos.None? then Err(WrongQos)
        else Ok(FixedHeader(b[0] / 16 * 16, b[0] / 8 % 2 == 1, qos.value, b[0] % 2 == 1, n, 1 + used))
  }

  // ---- cursor reads: the offset after a successful read is the length of what was read further on ----

  function U8At(b: Bytes, o: nat): Result<byte, Error>
    requires o <= |b|
  {
    if |b| - o < 1 then Err(InsufficientBytes) else Ok(b[o])
  }

  function U16At(b: Bytes, o: nat): Result<nat, Error>
    requires o <= |b|
  {
    if |b| - o < 2 then Err(InsufficientBytes) else Ok(Big(b[o], b[o + 1]))
  }

  function SliceAt(b: Bytes, o: nat): (r: Result<Bytes, Error>)
    requires o <= |b|
    ensures r.Ok? ==> o + 2 + |r.value| <= |b|
  {
    var len :- U16At(b, o);
    if |b| - (o + 2) < len then Err(InsufficientBytes) else Ok(b[o + 2..o + 2 + len])
  }

  function StrAt(b: Bytes, o: nat): (r: Result<Bytes, Error>)
    requires o <= |b|
    ensures r.Ok? ==> o + 2 + |r.value| <= |b|
  {
    var s :- SliceAt(b, o);
    if IsUtf8(s) then Ok(s) else Err(InvalidString)
  }

  datatype PropsRead = Props(block: Bytes, next: nat) | NoProps(error: Error)

  /** `read_properties`: the block is kept as bytes. */
  function PropsAt(b: Bytes, o: nat): (r: PropsRead)
    requires o <= |b|
    ensures r.Props? ==> o < r.next <= |b|
  {
    match DecodeVarint(b[o..])
    case Short => NoProps(InsufficientBytes)
    case Malformed => NoProps(MalformedPacket)
    case Value(n, used) =>
      DecodeIgnoresRest(b[o..], 0, 0, 1, 0);
      if |b| - (o + used) < n then NoProps(InsufficientBytes)
      else Props(b[o + used..o + used + n], o + used + n)
  }

  function PidAt(b: Bytes, o: nat): (r: Result<nat, Error>)
    requires o <= |b|
    ensures r.Ok? ==> o + 2 <= |b|
  {
    var n :- U16At(b, o);
    if n == 0 then Err(BadIdentifier) else Ok(n)
  }

  /** `read_payload`: what is left of the packet; the subtraction underflows when the cursor is past its end. */
  function PayloadAt(b: Bytes, o: nat, packetLen: nat): (r: Result<Bytes, Error>)
    requires o <= |b|
    ensures r.Ok? ==> o <= packetLen <= |b| && r.value == b[o..packetLen]
  {
    if packetLen < o then Err(Panic)
    else if |b| < packetLen then Err(InsufficientBytes)
    else Ok(b[o..packetLen])
  }

  // ---- packets ----

  function DecodeAck(kind: AckKind, b: Bytes, f: FixedHeader): Result<Packet, Error>
    requires f.headerLen <= |b|
  {
    var pid :- PidAt(b, f.headerLen);
    if f.remaining == 2 || f.remaining == 3 then Ok(Ack(kind, pid, 0, DataBlock([])))
    else
      var reason :- U8At(b, f.headerLen + 2);
      match PropsAt(b, f.headerLen + 3)
      case NoProps(e) => Err(e)
      case Props(block, _) => Ok(Ack(kind, pid, reason, DataBlock(block)))
  }

  function DecodeDisconnect(b: Bytes, f: FixedHeader): Result<Packet, Error>
    requires f.headerLen <= |b|
  {
    if f.remaining < 2 then Ok(Disconnect(0, Slice([])))
    else
      var reason :- U8At(b, f.headerLen);
      match PropsAt(b, f.headerLen + 1)
      case NoProps(e) => Err(e)
      case Props(block, _) => Ok(Disconnect(reason, DataBlock(block)))
  }

  function DecodeConnAck(b: Bytes, f: FixedHeader): Result<Packet, Error>
    requires f.headerLen <= |b|
  {
    var flags :- U8At(b, f.headerLen);
    if flags > 1 then Err(MalformedPacket)
    else
      var reason :- U8At(b, f.headerLen + 1);
      match PropsAt(b, f.headerLen + 2)
      case NoProps(e) => Err(e)
      case Props(block, _) => Ok(ConnAck(flags == 1, reason, DataBlock(block)))
  }

  function DecodeSubAck(answers: SubKind, b: Bytes, f: FixedHeader): Result<Packet, Error>
    requires f.headerLen <= |b|
  {
    var pid :- PidAt(b, f.headerLen);
    match PropsAt(b, f.headerLen + 2)
    case NoProps(e) => Err(e)
    case Props(block, next) =>
      var codes :- PayloadAt(b, next, f.PacketLen());
      if |codes| > MAX_SUB_TOPICS_PER_MSG then Err(Panic) else Ok(SubAck(answers, pid, DataBlock(block), codes))
  }

  /** The ranges a `Message` keeps into its frame; `props` includes the length prefix. */
  datatype Message = Message(fixed: FixedHeader, pid: Option<nat>,
                             topicStart: nat, topicEnd: nat, propsStart: nat, payloadStart: nat, payloadEnd: nat)

  /** `Message::try_new` after the fixed header. */
  function MessageFrom(b: Bytes, f: FixedHeader): (r: Result<Message, Error>)
    requires f.headerLen <= |b|
    ensures r.Ok? ==> var m := r.value;
      m.topicStart <= m.topicEnd <= m.propsStart <= m.payloadStart <= m.payloadEnd <= |b|
  {
    if |b| - f.headerLen < f.remaining then Err(InsufficientBytes)
    else
      var topic :- StrAt(b, f.headerLen);
      var o := f.headerLen + 2 + |topic|;
      if f.qos.AtMostOnce? then MessageTail(b, f, None, f.headerLen + 2, o, o)
      else
        var pid :- PidAt(b, o);
        MessageTail(b, f, Some(pid), f.headerLen + 2, o, o + 2)
  }

  function MessageTail(
      b: Bytes, f: FixedHeader, pid: Option<nat>, topicStart: nat, topicEnd: nat, o: nat): (r: Result<Message, Error>)
    requires topicStart <= topicEnd <= o <= |b|
    ensures r.Ok? ==> var m := r.value;
      m.topicStart <= m.topicEnd <= m.propsStart <= m.payloadStart <= m.payloadEnd <= |b|
  {
    match PropsAt(b, o)
    case NoProps(e) => Err(e)
    case Props(_, next) =>
      var payload :- PayloadAt(b, next, f.PacketLen());
      Ok(Message(f, pid, topicStart, topicEnd, o, next, f.PacketLen()))
  }

  lemma TryNewStaysInside(b: Bytes)
    ensures TryNew(b).Ok? ==> 2 <= TryNew(b).value.headerLen <= |b|
  {
    if TryNew(b).Ok? { DecodeIgnoresRest(b[1..], 0, 0, 1, 0); }
  }

  function DecodePublish(b: Bytes, f: FixedHeader): Result<Packet, Error>
    requires f.headerLen <= |b|
  {
    var m :- MessageFrom(b, f);
    match PropsAt(b, m.propsStart)
    case NoProps(e) => Err(e)
    case Props(block, _) =>
      Ok(Publish(f.dup, f.qos, f.retain, m.pid, b[m.topicStart..m.topicEnd], DataBlock(block),
                 b[m.payloadStart..m.payloadEnd]))
  }

  /** Dispatch on the packet type, for the packets that are decoded from one buffer. */
  function DecodeBody(b: Bytes, f: FixedHeader): Result<Packet, Error>
    requires f.headerLen <= |b|
  {
    if f.typ == 0x30 then DecodePublish(b, f)
    else if f.typ == 0xE0 then DecodeDisconnect(b, f)
    else if f.typ == 0x20 then DecodeConnAck(b, f)
    else if f.typ == 0x90 then DecodeSubAck(Subscribe, b, f)
    else if f.typ == 0xB0 then DecodeSubAck(Unsubscribe, b, f)
    else if f.typ == 0x40 then DecodeAck(PubAck, b, f)
    else if f.typ == 0x50 then DecodeAck(PubRec, b, f)
    else if f.typ == 0x60 then DecodeAck(PubRel, b, f)
    else if f.typ == 0x70 then DecodeAck(PubComp, b, f)
    else Err(InvalidHeader)
  }

  function Decode(b: Bytes): Result<Packet, Error> {
    var f :- TryNew(b);
    TryNewStaysInside(b);
    DecodeBody(b, f)
  }

  /** The decoder object: a cursor over an immutable buffer. */
  class MqttDecoder {
    const buf: Bytes
    const fixed: FixedHeader
    var offset: nat

    ghost predicate Valid()
      reads this
    {
      offset <= |buf|
    }

    constructor (buf: Bytes, fixed: FixedHeader)
      requires fixed.headerLen <= |buf|
      ensures Valid() && this.buf == buf && this.fixed == fixed && offset == fixed.headerLen
    {
      this.buf, this.fixed, offset := buf, fixed, fixed.headerLen;
    }

    method NextU8() returns (r: Result<byte, Error>)
      requires Valid()
      modifies this
      ensures Valid() && r == U8At(buf, old(offset)) && offset == old(offset) + if r.Ok? then 1 else 0
    {
      if |buf| - offset < 1 { return Err(InsufficientBytes); }
      r := Ok(buf[offset]);
      offset := offset + 1;
    }

    method NextU16() returns (r: Result<nat, Error>)
      requires Valid()
      modifies this
      ensures Valid() && r == U16At(buf, old(offset)) && offset == old(offset) + if r.Ok? then 2 else 0
    {
      if |buf| - offset < 2 { return Err(InsufficientBytes); }
      r := Ok(Big(buf[offset], buf[offset + 1]));
      offset := offset + 2;
    }

    method NextPid() returns (r: Result<nat, Error>)
      requires Valid()
      modifies this
      ensures Valid() && r == PidAt(buf, old(offset)) && (r.Ok? ==> offset == old(offset) + 2)
    {
      r := NextU16();
      if r.Ok? && r.value == 0 { return Err(BadIdentifier); }
    }

    method NextStr() returns (r: Result<Bytes, Error>)
      requires Valid()
      modifies this
      ensures Valid() && r == StrAt(buf, old(offset)) && (r.Ok? ==> offset == old(offset) + 2 + |r.value|)
    {
      var len := NextU16();
      if len.Err? { return Err(len.error); }
      if |buf| - offset < len.value { return Err(InsufficientBytes); }
      var s := buf[offset..offset + len.value];
      offset := offset + len.value;
      r := if IsUtf8(s) then Ok(s) else Err(InvalidString);
    }

    method NextProperties() returns (r: Result<Bytes, Error>)
      requires Valid()
      modifies this
      ensures Valid()
      ensures match PropsAt(buf, old(offset))
              case NoProps(e) => r == Err(e)
              case Props(block, next) => r == Ok(block) && offset == next
    {
      var v := ReadVarint(buf[offset..]);
      match v {
        case Short => return Err(InsufficientBytes);
        case Malformed => return Err(MalformedPacket);
        case Value(n, used) =>
          DecodeIgnoresRest(buf[offset..], 0, 0, 1, 0);
          offset := offset + used;
          if |buf| - offset < n { return Err(InsufficientBytes); }
          r := Ok(buf[offset..offset + n]);
          offset := offset + n;
      }
    }

    method NextPayload() returns (r: Result<Bytes, Error>)
      requires Valid()
      modifies this
      ensures Valid() && r == PayloadAt(buf, old(offset), fixed.PacketLen())
      ensures r.Ok? ==> offset == fixed.PacketLen()
    {
      if fixed.PacketLen() < offset { return Err(Panic); }
      var len := fixed.PacketLen() - offset;
      if |buf| - offset < len { return Err(InsufficientBytes); }
      r := Ok(buf[offset..offset + len]);
      offset := offset + len;
    }

    /** `PubAck::from_decoder` and its three siblings */
    method AckFromDecoder(kind: AckKind) returns (r: Result<Packet, Error>)
      requires Valid() && offset == fixed.headerLen
      modifies this
      ensures Valid() && r == DecodeAck(kind, buf, fixed)
    {
      var pid := NextPid();
      if pid.Err? { return Err(pid.error); }
      if fixed.remaining == 2 || fixed.remaining == 3 { return Ok(Ack(kind, pid.value, 0, DataBlock([]))); }
      var reason := NextU8();
      if reason.Err? { return Err(reason.error); }
      var block := NextProperties();
      if block.Err? { return Err(block.error); }
      r := Ok(Ack(kind, pid.value, reason.value, DataBlock(block.value)));
    }

    /** `Disconnect::from_decoder` */
    method DisconnectFromDecoder() returns (r: Result<Packet, Error>)
      requires Valid() && offset == fixed.headerLen
      modifies this
      ensures Valid() && r == DecodeDisconnect(buf, fixed)
    {
      if fixed.remaining < 2 { return Ok(Disconnect(0, Slice([]))); }
      var reason := NextU8();
      if reason.Err? { return Err(reason.error); }
      var block := NextProperties();
      r := if block.Ok? then Ok(Disconnect(reason.value, DataBlock(block.value))) else Err(block.error);
    }

    /** `ConnAck::from_decoder` */
    method ConnAckFromDecoder() returns (r: Result<Packet, Error>)
      requires Valid() && offset == fixed.headerLen
      modifies this
      ensures Valid() && r == DecodeConnAck(buf, fixed)
    {
      var flags := NextU8();
      if flags.Err? { return Err(flags.error); }
      if flags.value > 1 { return Err(MalformedPacket); }
      var reason := NextU8();
      if reason.Err? { return Err(reason.error); }
      var block := NextProperties();
      r := if block.Ok? then Ok(ConnAck(flags.value == 1, reason.value, DataBlock(block.value))) else Err(block.error);
    }

    /** `SubAck::from_decoder` and `UnsubAck::from_decoder` */
    method SubAckFromDecoder(answers: SubKind) returns (r: Result<Packet, Error>)
      requires Valid() && offset == fixed.headerLen
      modifies this
      ensures Valid() && r == DecodeSubAck(answers, buf, fixed)
    {
      var pid := NextPid();
      if pid.Err? { return Err(pid.error); }
      var block := NextProperties();
      if block.Err? { return Err(block.error); }
      var codes := NextPayload();
      if codes.Err? { return Err(codes.error); }
      if |codes.value| > MAX_SUB_TOPICS_PER_MSG { return Err(Panic); }
      r := Ok(SubAck(answers, pid.value, DataBlock(block.value), codes.value));
    }

    /** `Message::try_new` after the fixed header */
    method MessageFromDecoder() returns (r: Result<Message, Error>)
      requires Valid() && offset == fixed.headerLen
      modifies this
      ensures r == MessageFrom(buf, fixed)
    {
      if |buf| - offset < fixed.remaining { return Err(InsufficientBytes); }
      var topicStart := offset + 2;
      var topic := NextStr();
      if topic.Err? { return Err(topic.error); }
      var topicEnd, pid := offset, None;
      if !fixed.qos.AtMostOnce? {
        var n := NextPid();
        if n.Err? { return Err(n.error); }
        pid := Some(n.value);
      }
      var propsStart := offset;
      var block := NextProperties();
      if block.Err? { return Err(block.error); }
      var payloadStart := offset;
      var payload := NextPayload();
      if payload.Err? { return Err(payload.error); }
      r := Ok(Message(fixed, pid, topicStart, topicEnd, propsStart, payloadStart, offset));
    }
  }
}
