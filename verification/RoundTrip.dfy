/** Decoding undoes encoding. */
module RoundTrip {
  import opened Base
  import opened Wire
  import opened Varint
  import opened Properties
  import opened Packets
  import opened Decoder

  // ---- reading back what was written, on bytes ----

  lemma FrameHeader(tf: byte, body: Bytes)
    requires |body| <= MAX_VARINT && tf / 16 > 0 && tf / 2 % 4 < 3
    ensures var b, h := Frame(tf, body), 1 + VarintLen(|body|);
            && TryNew(b)
               == Ok(FixedHeader(tf / 16 * 16, tf / 8 % 2 == 1, QosOf(tf / 2 % 4).value, tf % 2 == 1, |body|, h))
            && |b| == h + |body| && At(b, h, body)
  {
    var b := Frame(tf, body);
    EncodedLength(|body|);
    VarintRoundTrip(|body|, body);
    assert b[1..] == EncodeVarint(|body|) + body;
  }

  lemma U16Back(b: Bytes, o: nat, n: nat)
    requires n < 0x1_0000 && At(b, o, U16Bytes(n))
    ensures U16At(b, o) == Ok(n)
  {
    AtByte(b, o, U16Bytes(n), 0);
    AtByte(b, o, U16Bytes(n), 1);
  }

  lemma SliceBack(b: Bytes, o: nat, s: Bytes)
    requires |s| < 0x1_0000 && At(b, o, Prefixed(s))
    ensures SliceAt(b, o) == Ok(s)
  {
    AtSplit(b, o, U16Bytes(|s|), s);
    U16Back(b, o, |s|);
  }

  lemma StrBack(b: Bytes, o: nat, s: Bytes)
    requires IsUtf8(s) && |s| < 0x1_0000 && At(b, o, Prefixed(s))
    ensures StrAt(b, o) == Ok(s)
  {
    SliceBack(b, o, s);
  }

  /** Wherever `wire` stands in a buffer, `read_properties` takes exactly it and keeps `block`. */
  ghost predicate Carries(wire: Bytes, block: Bytes) {
    |wire| > 0 && forall b: Bytes, o: nat :: At(b, o, wire) ==> PropsAt(b, o) == Props(block, o + |wire|)
  }

  lemma LengthPrefixedBlockBack(b: Bytes, o: nat, block: Bytes)
    requires |block| <= MAX_VARINT && At(b, o, EncodeVarint(|block|) + block)
    ensures PropsAt(b, o) == Props(block, o + |EncodeVarint(|block|)| + |block|)
  {
    EncodedLength(|block|);
    AtSplit(b, o, EncodeVarint(|block|), block);
    var rest := b[o + VarintLen(|block|)..];
    assert b[o..] == EncodeVarint(|block|) + rest;
    VarintRoundTrip(|block|, rest);
  }

  lemma PropertiesAreCarried(ps: Properties)
    requires Sound(ps)
    ensures Carries(WithLength(ps), Content(ps))
  {
    PropertyBlockRoundTrip(ps);
    EncodedLength(Size(ps));
    forall b: Bytes, o: nat | At(b, o, WithLength(ps))
      ensures PropsAt(b, o) == Props(Content(ps), o + |WithLength(ps)|)
    {
      LengthPrefixedBlockBack(b, o, Content(ps));
    }
  }

  // ---- bodies, in a buffer that holds them right after the fixed header ----

  ghost predicate Holds(b: Bytes, f: FixedHeader, body: Bytes) {
    f.remaining == |body| && f.headerLen + |body| == |b| && At(b, f.headerLen, body)
  }

  lemma AckAt(kind: AckKind, b: Bytes, f: FixedHeader, pid: nat, reason: byte, wire: Bytes, block: Bytes)
    requires 0 < pid < 0x1_0000 && Carries(wire, block) && Holds(b, f, U16Bytes(pid) + ([reason] + wire))
    ensures DecodeAck(kind, b, f) == Ok(Ack(kind, pid, reason, DataBlock(block)))
  {
    var h := f.headerLen;
    AtSplit(b, h, U16Bytes(pid), [reason] + wire);
    AtSplit(b, h + 2, [reason], wire);
    U16Back(b, h, pid);
    AtByte(b, h + 2, [reason], 0);
  }

  /** With two or three bytes remaining only the identifier is looked at. */
  lemma ShortAckAt(kind: AckKind, b: Bytes, f: FixedHeader, pid: nat, tail: Bytes)
    requires 0 < pid < 0x1_0000 && |tail| <= 1 && Holds(b, f, U16Bytes(pid) + tail)
    ensures DecodeAck(kind, b, f) == Ok(Ack(kind, pid, 0, DataBlock([])))
  {
    AtSplit(b, f.headerLen, U16Bytes(pid), tail);
    U16Back(b, f.headerLen, pid);
  }

  lemma DisconnectAt(b: Bytes, f: FixedHeader, reason: byte, wire: Bytes, block: Bytes)
    requires Carries(wire, block) && Holds(b, f, [reason] + wire)
    ensures DecodeDisconnect(b, f) == Ok(Disconnect(reason, DataBlock(block)))
  {
    AtSplit(b, f.headerLen, [reason], wire);
    AtByte(b, f.headerLen, [reason], 0);
  }

  lemma ConnAckAt(b: Bytes, f: FixedHeader, present: bool, reason: byte, wire: Bytes, block: Bytes)
    requires Carries(wire, block) && Holds(b, f, [Bit(present), reason] + wire)
    ensures DecodeConnAck(b, f) == Ok(ConnAck(present, reason, DataBlock(block)))
  {
    AtSplit(b, f.headerLen, [Bit(present), reason], wire);
    AtByte(b, f.headerLen, [Bit(present), reason], 0);
    AtByte(b, f.headerLen, [Bit(present), reason], 1);
  }

  lemma CodesAt(answers: SubKind, b: Bytes, f: FixedHeader, pid: nat, wire: Bytes, block: Bytes, codes: Bytes)
    requires 0 < pid < 0x1_0000 && Carries(wire, block) && Holds(b, f, U16Bytes(pid) + wire + codes)
    ensures DecodeSubAck(answers, b, f) ==
            if |codes| <= MAX_SUB_TOPICS_PER_MSG then Ok(SubAck(answers, pid, DataBlock(block), codes)) else Err(Panic)
  {
    CodesAfter(b, f.headerLen, U16Bytes(pid), wire, block, codes);
    U16Back(b, f.headerLen, pid);
  }

  lemma CodesAfter(b: Bytes, o: nat, pid: Bytes, wire: Bytes, block: Bytes, codes: Bytes)
    requires Carries(wire, block) && At(b, o, pid + wire + codes) && o + |pid + wire + codes| == |b|
    ensures At(b, o, pid) && PropsAt(b, o + |pid|) == Props(block, o + |pid| + |wire|)
    ensures PayloadAt(b, o + |pid| + |wire|, |b|) == Ok(codes)
  {
    AtSplit(b, o, pid + wire, codes);
    AtSplit(b, o, pid, wire);
  }

  function PidBytes(pid: Option<nat>): Bytes {
    if pid.None? then [] else U16Bytes(pid.value)
  }

  ghost predicate PidFits(pid: Option<nat>, qos: QoS) {
    (pid.Some? <==> !qos.AtMostOnce?) && (pid.Some? ==> 0 < pid.value < 0x1_0000)
  }

  lemma TailAt(b: Bytes, f: FixedHeader, pid: Option<nat>, start: nat, end: nat, o: nat, wire: Bytes, block: Bytes)
    requires start <= end <= o && Carries(wire, block) && At(b, o, wire) && f.headerLen + f.remaining == |b|
    ensures MessageTail(b, f, pid, start, end, o) == Ok(Message(f, pid, start, end, o, o + |wire|, |b|))
  {
  }

  /** The ranges of a message whose frame carries these parts. */
  function MessageOf(f: FixedHeader, pid: Option<nat>, topic: Bytes, wire: Bytes): Message {
    var o := f.headerLen + 2 + |topic|;
    Message(f, pid, f.headerLen + 2, o, o + |PidBytes(pid)|, o + |PidBytes(pid)| + |wire|, f.headerLen + f.remaining)
  }

  ghost predicate PidReads(b: Bytes, o: nat, qos: QoS, pid: Option<nat>)
    requires o <= |b|
  {
    if qos.AtMostOnce? then pid == None else pid.Some? && PidAt(b, o) == Ok(pid.value)
  }

  lemma PidBack(b: Bytes, o: nat, qos: QoS, pid: Option<nat>)
    requires PidFits(pid, qos) && At(b, o, PidBytes(pid))
    ensures PidReads(b, o, qos, pid)
  {
    if pid.Some? { U16Back(b, o, pid.value); }
  }

  lemma MessageUpToTail(b: Bytes, f: FixedHeader, pid: Option<nat>, topic: Bytes, o: nat)
    requires f.headerLen + f.remaining == |b| && StrAt(b, f.headerLen) == Ok(topic) && o == f.headerLen + 2 + |topic|
    requires PidReads(b, o, f.qos, pid)
    ensures MessageFrom(b, f) == MessageTail(b, f, pid, f.headerLen + 2, o, o + |PidBytes(pid)|)
  {
  }

  lemma TailOf(b: Bytes, f: FixedHeader, pid: Option<nat>, topic: Bytes, wire: Bytes, block: Bytes, o: nat)
    requires Carries(wire, block) && f.headerLen + f.remaining == |b| && o == f.headerLen + 2 + |topic|
    requires At(b, o + |PidBytes(pid)|, wire)
    ensures MessageTail(b, f, pid, f.headerLen + 2, o, o + |PidBytes(pid)|) == Ok(MessageOf(f, pid, topic, wire))
  {
    TailAt(b, f, pid, f.headerLen + 2, o, o + |PidBytes(pid)|, wire, block);
  }

  lemma MessageAt(b: Bytes, f: FixedHeader, pid: Option<nat>, topic: Bytes, o: nat, m: Message)
    requires f.headerLen + f.remaining == |b| && StrAt(b, f.headerLen) == Ok(topic) && o == f.headerLen + 2 + |topic|
    requires PidReads(b, o, f.qos, pid) && o + |PidBytes(pid)| <= |b|
    requires MessageTail(b, f, pid, f.headerLen + 2, o, o + |PidBytes(pid)|) == Ok(m)
    ensures MessageFrom(b, f) == Ok(m)
  {
    MessageUpToTail(b, f, pid, topic, o);
  }

  /** Where the parts of a PUBLISH body stand. */
  lemma PublishParts(b: Bytes, h: nat, topic: Bytes, pid: Bytes, wire: Bytes, payload: Bytes)
    requires |topic| < 0x1_0000 && h + |Prefixed(topic) + pid + wire + payload| == |b|
    requires At(b, h, Prefixed(topic) + pid + wire + payload)
    ensures var o := h + 2 + |topic|;
            && At(b, h, Prefixed(topic)) && At(b, h + 2, topic) && At(b, o, pid) && At(b, o + |pid|, wire)
            && o + |pid| + |wire| <= |b| && b[o + |pid| + |wire|..] == payload
  {
    AtSplit(b, h, Prefixed(topic) + pid + wire, payload);
    AtSplit(b, h, Prefixed(topic) + pid, wire);
    TopicParts(b, h, topic, pid);
  }

  lemma TopicParts(b: Bytes, h: nat, topic: Bytes, pid: Bytes)
    requires |topic| < 0x1_0000 && At(b, h, Prefixed(topic) + pid)
    ensures At(b, h, Prefixed(topic)) && At(b, h + 2, topic) && At(b, h + 2 + |topic|, pid)
  {
    ThreeParts(b, h, U16Bytes(|topic| % 0x1_0000), topic, pid);
  }

  lemma ThreeParts(b: Bytes, o: nat, x: Bytes, y: Bytes, z: Bytes)
    requires At(b, o, x + y + z)
    ensures At(b, o, x + y) && At(b, o + |x|, y) && At(b, o + |x| + |y|, z)
  {
    AtSplit(b, o, x + y, z);
    AtSplit(b, o, x, y);
  }

  lemma PublishAt(b: Bytes, f: FixedHeader, pid: Option<nat>, topic: Bytes, wire: Bytes, block: Bytes, payload: Bytes)
    requires IsUtf8(topic) && |topic| < 0x1_0000 && PidFits(pid, f.qos) && Carries(wire, block)
    requires Holds(b, f, Prefixed(topic) + PidBytes(pid) + wire + payload)
    ensures MessageFrom(b, f) == Ok(MessageOf(f, pid, topic, wire))
  {
    PublishParts(b, f.headerLen, topic, PidBytes(pid), wire, payload);
    var o := f.headerLen + 2 + |topic|;
    StrBack(b, f.headerLen, topic);
    PidBack(b, o, f.qos, pid);
    TailOf(b, f, pid, topic, wire, block, o);
    MessageAt(b, f, pid, topic, o, MessageOf(f, pid, topic, wire));
  }

  /** The ranges denote the published topic, property block and payload. */
  lemma RangesAt(
      b: Bytes, f: FixedHeader, pid: Option<nat>, topic: Bytes, wire: Bytes, block: Bytes, payload: Bytes, m: Message)
    requires |topic| < 0x1_0000 && Carries(wire, block) && m == MessageOf(f, pid, topic, wire)
    requires Holds(b, f, Prefixed(topic) + PidBytes(pid) + wire + payload)
    ensures m.topicStart <= m.topicEnd <= m.propsStart <= m.payloadStart <= m.payloadEnd <= |b|
    ensures b[m.topicStart..m.topicEnd] == topic && b[m.payloadStart..m.payloadEnd] == payload
    ensures b[m.propsStart..m.payloadStart] == wire && PropsAt(b, m.propsStart) == Props(block, m.payloadStart)
  {
    PublishParts(b, f.headerLen, topic, PidBytes(pid), wire, payload);
  }

  // ---- packets ----

  /** `p` with its properties replaced. */
  function WithProps(p: Packet, ps: Properties): Packet
    requires !p.Connect?
  {
    match p
    case Publish(dup, qos, retain, pid, topic, _, payload) => Publish(dup, qos, retain, pid, topic, ps, payload)
    case Ack(kind, pid, reason, _) => Ack(kind, pid, reason, ps)
    case ConnAck(present, reason, _) => ConnAck(present, reason, ps)
    case SubAck(answers, pid, _, codes) => SubAck(answers, pid, ps, codes)
    case Disconnect(reason, _) => Disconnect(reason, ps)
  }

  /** `PartialEq` on packets: property lists are compared by iterating them. */
  ghost predicate SamePacket(p: Packet, q: Packet) {
    && !p.Connect? && !p.props.Correlated? && !q.props.Correlated?
    && q == WithProps(p, q.props) && Iterated(q.props) == Iterated(p.props)
  }

  /** In-range lengths, a property list the encoder measures correctly, and a pid exactly where the QoS wants one. */
  ghost predicate RoundTrips(p: Packet) {
    && WellTyped(p) && !p.Connect? && p.props.Slice? && Sound(p.props)
    && |Body(p)| <= MAX_VARINT
    && (p.Publish? ==> |p.topic| < 0x1_0000 && (p.pid.Some? <==> !p.qos.AtMostOnce?))
  }

  lemma SameWithBlock(p: Packet)
    requires !p.Connect? && p.props.Slice? && Sound(p.props)
    ensures SamePacket(p, WithProps(p, DataBlock(Content(p.props))))
    ensures Size(p.props) == 0 ==> SamePacket(p, WithProps(p, DataBlock([]))) && SamePacket(p, WithProps(p, Slice([])))
  {
    PropertyBlockRoundTrip(p.props);
  }

  /** The fixed header the decoder finds in front of `p`. */
  function HeaderOf(p: Packet): FixedHeader
    requires WellTyped(p) && !p.Connect? && |Body(p)| <= MAX_VARINT
  {
    FixedHeader(TypeAndFlags(p) / 16 * 16,
                p.Publish? && p.dup, if p.Publish? then p.qos else AtMostOnce, p.Publish? && p.retain,
                |Body(p)|, 1 + VarintLen(|Body(p)|))
  }

  lemma HeaderBack(p: Packet)
    requires WellTyped(p) && !p.Connect? && |Body(p)| <= MAX_VARINT
    ensures TryNew(Frame(TypeAndFlags(p), Body(p))) == Ok(HeaderOf(p))
    ensures Holds(Frame(TypeAndFlags(p), Body(p)), HeaderOf(p), Body(p))
  {
    FlagsBack(p);
    FrameHolds(TypeAndFlags(p), Body(p), HeaderOf(p));
  }

  lemma FrameHolds(tf: byte, body: Bytes, f: FixedHeader)
    requires |body| <= MAX_VARINT && tf / 16 > 0 && QosOf(tf / 2 % 4) == Some(f.qos)
    requires f.typ == tf / 16 * 16 && (f.dup <==> tf / 8 % 2 == 1) && (f.retain <==> tf % 2 == 1)
    requires f.remaining == |body| && f.headerLen == 1 + VarintLen(|body|)
    ensures TryNew(Frame(tf, body)) == Ok(f) && Holds(Frame(tf, body), f, body)
  {
    FrameHeader(tf, body);
  }

  lemma FlagsBack(p: Packet)
    ensures var tf := TypeAndFlags(p);
            && tf / 16 > 0
            && QosOf(tf / 2 % 4) == Some(if p.Publish? then p.qos else AtMostOnce)
            && (tf / 8 % 2 == 1 <==> p.Publish? && p.dup) && (tf % 2 == 1 <==> p.Publish? && p.retain)
  {
    if p.Publish? {
      PublishFlagsBack(p.dup, p.qos, p.retain);
    } else {
      assert TypeAndFlags(p) in {0x10, 0x20, 0x40, 0x50, 0x60, 0x70, 0x90, 0xB0, 0xE0};
    }
  }

  lemma PublishFlagsBack(dup: bool, qos: QoS, retain: bool)
    ensures var tf := 0x30 + Bit(dup) * 8 + qos.Code() * 2 + Bit(retain);
            && tf / 16 > 0 && QosOf(tf / 2 % 4) == Some(qos)
            && (tf / 8 % 2 == 1 <==> dup) && (tf % 2 == 1 <==> retain)
  {
  }

  /** The message a subscriber receives shows the published topic, payload, pid and flags. */
  lemma MessageBack(p: Packet, b: Bytes, f: FixedHeader)
    requires RoundTrips(p) && p.Publish? && f == HeaderOf(p) && Holds(b, f, Body(p))
    ensures MessageFrom(b, f).Ok? && var m := MessageFrom(b, f).value;
            && m.fixed == f && f.dup == p.dup && f.qos == p.qos && f.retain == p.retain && m.pid == p.pid
            && b[m.topicStart..m.topicEnd] == p.topic && b[m.payloadStart..m.payloadEnd] == p.payload
            && b[m.propsStart..m.payloadStart] == WithLength(p.props)
            && PropsAt(b, m.propsStart) == Props(Content(p.props), m.payloadStart)
  {
    PropertiesAreCarried(p.props);
    assert Body(p) == Prefixed(p.topic) + PidBytes(p.pid) + WithLength(p.props) + p.payload;
    PublishAt(b, f, p.pid, p.topic, WithLength(p.props), Content(p.props), p.payload);
    RangesAt(b, f, p.pid, p.topic, WithLength(p.props), Content(p.props), p.payload, MessageFrom(b, f).value);
  }

  /**
   `Message::properties` hands out the range with its length prefix: iterating it never yields the
   properties that were published.
   */
  lemma MessagePropertiesAreShifted(p: Packet, b: Bytes, f: FixedHeader)
    requires RoundTrips(p) && p.Publish? && f == HeaderOf(p) && Holds(b, f, Body(p))
    ensures MessageFrom(b, f).Ok? && var m := MessageFrom(b, f).value;
            Iterated(DataBlock(b[m.propsStart..m.payloadStart])) != Iterated(p.props)
  {
    MessageBack(p, b, f);
    PrefixedBlockDiffers(p.props);
  }

  lemma PrefixedBlockDiffers(ps: Properties)
    requires Sound(ps) && ps.Slice?
    ensures Items(WithLength(ps), 0) != Oks(ps.list)
  {
    PropertyBlockRoundTrip(ps);
    EncodedLength(Size(ps));
    var d, g := WithLength(ps), |EncodeVarint(Size(ps))|;
    assert d[g..] == Content(ps) && At(d, g, Content(ps));
    ShiftedItemsDiffer(ps.list, d, 0, g);
  }

  /** Of a message published without properties it makes one invalid property. */
  lemma EmptyPropertiesReadAsError(ps: Properties)
    requires ps == Slice([])
    ensures Sound(ps) && Iterated(DataBlock(WithLength(ps))) == [Err(InvalidProperty(0))]
  {
    assert WithLength(ps) == [0];
    assert KindOf(0).None? && ItemAt([0], 0) == Err(InvalidProperty(0)) && ReadBody([0], 0).next == 1;
    assert Items([0], 1) == [];
  }

  lemma LongAckBack(kind: AckKind, b: Bytes, f: FixedHeader, pid: nat, reason: byte, ps: Properties)
    requires 0 < pid < 0x1_0000 && Sound(ps) && Holds(b, f, U16Bytes(pid) + ([reason] + WithLength(ps)))
    ensures DecodeAck(kind, b, f) == Ok(Ack(kind, pid, reason, DataBlock(Content(ps))))
  {
    PropertiesAreCarried(ps);
    AckAt(kind, b, f, pid, reason, WithLength(ps), Content(ps));
  }

  lemma AckBack(p: Packet, b: Bytes, f: FixedHeader)
    requires p.Ack? && WellTyped(p) && Sound(p.props) && Holds(b, f, Body(p))
    ensures DecodeAck(p.kind, b, f)
            == Ok(WithProps(p, DataBlock(if p.reason != 0 || Size(p.props) != 0 then Content(p.props) else [])))
  {
    if p.reason != 0 || Size(p.props) != 0 {
      LongAckBack(p.kind, b, f, p.ackPid, p.reason, p.props);
    } else {
      assert Body(p) == U16Bytes(p.ackPid) + [];
      ShortAckAt(p.kind, b, f, p.ackPid, []);
    }
  }

  lemma DisconnectBack(p: Packet, b: Bytes, f: FixedHeader)
    requires p.Disconnect? && WellTyped(p) && Sound(p.props) && Holds(b, f, Body(p))
    ensures DecodeDisconnect(b, f)
            == Ok(WithProps(p, if p.reason != 0 || Size(p.props) != 0 then DataBlock(Content(p.props)) else Slice([])))
  {
    if p.reason != 0 || Size(p.props) != 0 {
      PropertiesAreCarried(p.props);
      DisconnectAt(b, f, p.reason, WithLength(p.props), Content(p.props));
    } else {
      SoundLength(p.props);
    }
  }

  lemma ConnAckBack(p: Packet, b: Bytes, f: FixedHeader)
    requires p.ConnAck? && WellTyped(p) && Sound(p.props) && Holds(b, f, Body(p))
    ensures DecodeConnAck(b, f) == Ok(WithProps(p, DataBlock(Content(p.props))))
  {
    PropertiesAreCarried(p.props);
    ConnAckAt(b, f, p.sessionPresent, p.reason, WithLength(p.props), Content(p.props));
  }

  lemma SubAckBack(p: Packet, b: Bytes, f: FixedHeader)
    requires p.SubAck? && WellTyped(p) && Sound(p.props) && Holds(b, f, Body(p))
    ensures DecodeSubAck(p.answers, b, f) == Ok(WithProps(p, DataBlock(Content(p.props))))
  {
    PropertiesAreCarried(p.props);
    CodesAt(p.answers, b, f, p.ackPid, WithLength(p.props), Content(p.props), p.codes);
  }

  lemma PublishBack(p: Packet, b: Bytes, f: FixedHeader)
    requires RoundTrips(p) && p.Publish? && f == HeaderOf(p) && Holds(b, f, Body(p))
    ensures DecodePublish(b, f) == Ok(WithProps(p, DataBlock(Content(p.props))))
  {
    MessageBack(p, b, f);
  }

  /** The decoder the packet type selects. */
  function DecodeLike(p: Packet, b: Bytes, f: FixedHeader): Result<Packet, Error>
    requires !p.Connect? && f.headerLen <= |b|
  {
    match p
    case Publish(_, _, _, _, _, _, _) => DecodePublish(b, f)
    case Ack(kind, _, _, _) => DecodeAck(kind, b, f)
    case Disconnect(_, _) => DecodeDisconnect(b, f)
    case ConnAck(_, _, _) => DecodeConnAck(b, f)
    case SubAck(answers, _, _, _) => DecodeSubAck(answers, b, f)
  }

  lemma Dispatch(p: Packet, b: Bytes, f: FixedHeader)
    requires !p.Connect? && f.headerLen <= |b| && f.typ == TypeAndFlags(p) / 16 * 16
    ensures DecodeBody(b, f) == DecodeLike(p, b, f)
  {
    if p.Ack? { assert f.typ == p.kind.TypeByte(); }
    if p.SubAck? { assert f.typ == p.answers.TypeByte(); }
  }

  lemma BodyBack(p: Packet, b: Bytes, f: FixedHeader)
    requires RoundTrips(p) && f == HeaderOf(p) && Holds(b, f, Body(p))
    ensures DecodeLike(p, b, f).Ok? && SamePacket(p, DecodeLike(p, b, f).value)
  {
    SameWithBlock(p);
    match p
    case Publish(_, _, _, _, _, _, _) => PublishBack(p, b, f);
    case Ack(_, _, _, _) => AckBack(p, b, f);
    case Disconnect(_, _) => DisconnectBack(p, b, f);
    case ConnAck(_, _, _) => ConnAckBack(p, b, f);
    case SubAck(_, _, _, _) => SubAckBack(p, b, f);
  }

  /** Every packet whose lengths are in range comes back as the same packet. */
  lemma CodecRoundTrip(p: Packet)
    requires RoundTrips(p)
    ensures var r := Decode(Frame(TypeAndFlags(p), Body(p))); r.Ok? && SamePacket(p, r.value)
  {
    HeaderBack(p);
    Dispatch(p, Frame(TypeAndFlags(p), Body(p)), HeaderOf(p));
    BodyBack(p, Frame(TypeAndFlags(p), Body(p)), HeaderOf(p));
  }

  function AckHeader(kind: AckKind, len: nat): FixedHeader
    requires len <= MAX_VARINT
  {
    FixedHeader(kind.TypeByte(), false, AtMostOnce, false, len, 1 + VarintLen(len))
  }

  lemma AckFrame(kind: AckKind, body: Bytes)
    requires |body| <= MAX_VARINT
    ensures var b, f := Frame(kind.TypeByte(), body), AckHeader(kind, |body|);
            Holds(b, f, body) && Decode(b) == DecodeAck(kind, b, f)
  {
    FrameHeader(kind.TypeByte(), body);
  }

  /** An acknowledgement of remaining length 3 is well formed, but its reason is dropped and reads as success. */
  lemma ShortAckLosesReason(kind: AckKind, pid: nat, reason: byte)
    requires 0 < pid < 0x1_0000
    ensures Decode(Frame(kind.TypeByte(), U16Bytes(pid) + [reason])) == Ok(Ack(kind, pid, 0, DataBlock([])))
  {
    var body := U16Bytes(pid) + [reason];
    AckFrame(kind, body);
    ShortAckAt(kind, Frame(kind.TypeByte(), body), AckHeader(kind, |body|), pid, [reason]);
  }

  lemma FullAckKeepsReason(kind: AckKind, pid: nat, reason: byte, ps: Properties, body: Bytes)
    requires 0 < pid < 0x1_0000 && Sound(ps)
    requires body == U16Bytes(pid) + ([reason] + WithLength(ps)) && |body| <= MAX_VARINT
    ensures Decode(Frame(kind.TypeByte(), body)) == Ok(Ack(kind, pid, reason, DataBlock(Content(ps))))
  {
    AckFrame(kind, body);
    LongAckBack(kind, Frame(kind.TypeByte(), body), AckHeader(kind, |body|), pid, reason, ps);
  }

  /** The body of an acknowledgement with a reason and possibly properties (section 3.4.2 of MQTT 5.0). */
  function AckBody(pid: nat, reason: byte, props: Option<Properties>): Bytes
    requires props.Some? ==> AllTyped(props.value)
  {
    U16Bytes(pid) + ([reason] + if props.Some? then WithLength(props.value) else [])
  }

  /** In either form the reason arrives if and only if the remaining length is not 3 or the reason is 0. */
  lemma AckReasonArrivesIff(kind: AckKind, pid: nat, reason: byte, props: Option<Properties>)
    requires 0 < pid < 0x1_0000 && (props.Some? ==> Sound(props.value))
    requires |AckBody(pid, reason, props)| <= MAX_VARINT
    ensures var body := AckBody(pid, reason, props);
            var r := Decode(Frame(kind.TypeByte(), body));
            r.Ok? && r.value.Ack? && (r.value.reason == reason <==> |body| != 3 || reason == 0)
  {
    var body := AckBody(pid, reason, props);
    if props.Some? {
      FullAckKeepsReason(kind, pid, reason, props.value, body);
      SoundLength(props.value);
    } else {
      assert body == U16Bytes(pid) + [reason];
      ShortAckLosesReason(kind, pid, reason);
    }
  }

  // ---- what the decoders refuse ----

  lemma RefusedFlagsAt(b: Bytes, f: FixedHeader, flags: byte, rest: Bytes)
    requires flags > 1 && Holds(b, f, [flags] + rest)
    ensures DecodeConnAck(b, f) == Err(MalformedPacket)
  {
    AtByte(b, f.headerLen, [flags] + rest, 0);
  }

  lemma FlagsAt(b: Bytes, f: FixedHeader, flags: byte, reason: byte, wire: Bytes, block: Bytes)
    requires Carries(wire, block) && Holds(b, f, [flags, reason] + wire)
    ensures DecodeConnAck(b, f) ==
            if flags <= 1 then Ok(ConnAck(flags == 1, reason, DataBlock(block))) else Err(MalformedPacket)
  {
    if flags <= 1 {
      ConnAckAt(b, f, flags == 1, reason, wire, block);
    } else {
      assert [flags, reason] + wire == [flags] + ([reason] + wire);
      RefusedFlagsAt(b, f, flags, [reason] + wire);
    }
  }

  /** A CONNACK is accepted if and only if the reserved bits of its flags are 0 (section 3.2.2.1 of MQTT 5.0). */
  lemma ConnAckFlagsIff(b: Bytes, f: FixedHeader, flags: byte, reason: byte, ps: Properties)
    requires Sound(ps) && Holds(b, f, [flags, reason] + WithLength(ps))
    ensures DecodeConnAck(b, f) ==
            if flags <= 1 then Ok(ConnAck(flags == 1, reason, DataBlock(Content(ps)))) else Err(MalformedPacket)
  {
    PropertiesAreCarried(ps);
    FlagsAt(b, f, flags, reason, WithLength(ps), Content(ps));
  }

  /** An identifier of 0 is refused wherever one is read (section 2.2.1 of MQTT 5.0). */
  lemma ZeroPidIsRefused(b: Bytes, f: FixedHeader, kind: AckKind, answers: SubKind, rest: Bytes)
    requires Holds(b, f, U16Bytes(0) + rest)
    ensures DecodeAck(kind, b, f) == Err(BadIdentifier) && DecodeSubAck(answers, b, f) == Err(BadIdentifier)
  {
    AtSplit(b, f.headerLen, U16Bytes(0), rest);
    U16Back(b, f.headerLen, 0);
  }

  /** More codes than the list holds make the decoder panic, and no fewer do. */
  lemma TooManyCodesPanicIff(answers: SubKind, b: Bytes, f: FixedHeader, pid: nat, ps: Properties, codes: Bytes)
    requires 0 < pid < 0x1_0000 && Sound(ps) && Holds(b, f, U16Bytes(pid) + WithLength(ps) + codes)
    ensures DecodeSubAck(answers, b, f) ==
            if |codes| <= MAX_SUB_TOPICS_PER_MSG then Ok(SubAck(answers, pid, DataBlock(Content(ps)), codes))
            else Err(Panic)
  {
    PropertiesAreCarried(ps);
    CodesAt(answers, b, f, pid, WithLength(ps), Content(ps), codes);
  }

  /** In a buffer that holds no more than the packet the payload subtraction never underflows. */
  lemma PayloadNeverUnderflows(b: Bytes, f: FixedHeader)
    requires f.headerLen <= |b| <= f.PacketLen()
    ensures MessageFrom(b, f) != Err(Panic)
  {
  }
}
