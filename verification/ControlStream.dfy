/** The packets other than PUBLISH on the stream: whole, cut short, and mixed with messages. */
module ControlStream {
  import opened Base
  import opened Wire
  import opened Varint
  import opened Properties
  import opened Packets
  import opened Decoder
  import opened RoundTrip
  import opened Framing
  import opened PublishStream

  // ---- bodies cut short ----

  /** A prefix of `wire` is always told apart from the whole. */
  ghost predicate Tellable(wire: Bytes) {
    forall s: Bytes, o: nat, m: nat :: At(s, o, wire) && o <= m < o + |wire| ==>
      PropsAt(s[..m], o) == NoProps(InsufficientBytes)
  }

  lemma CutBlock(n: nat, block: Bytes, s: Bytes, o: nat, m: nat)
    requires n == |block| <= MAX_VARINT && At(s, o, EncodeVarint(n) + block) && o <= m < o + |EncodeVarint(n) + block|
    ensures PropsAt(s[..m], o) == NoProps(InsufficientBytes)
  {
    EncodedLength(n);
    AtSplit(s, o, EncodeVarint(n), block);
    if m < o + VarintLen(n) {
      CutInside(s, o, EncodeVarint(n), m);
      StrictPrefixIsShort(n, m - o);
    } else {
      CutBehind(s, o, EncodeVarint(n), m);
      VarintRoundTrip(n, s[o + VarintLen(n)..m]);
    }
  }

  lemma PropertiesAreTellable(ps: Properties)
    requires Sound(ps)
    ensures Tellable(WithLength(ps))
  {
    PropertyBlockRoundTrip(ps);
    forall s: Bytes, o: nat, m: nat | At(s, o, WithLength(ps)) && o <= m < o + |WithLength(ps)|
      ensures PropsAt(s[..m], o) == NoProps(InsufficientBytes)
    {
      CutBlock(Size(ps), Content(ps), s, o, m);
    }
  }

  lemma PidCut(s: Bytes, o: nat, pid: nat, m: nat)
    requires 0 < pid < 0x1_0000 && At(s, o, U16Bytes(pid)) && o <= m <= |s|
    ensures PidAt(s[..m], o) == if m < o + 2 then Err(InsufficientBytes) else Ok(pid)
  {
    if m >= o + 2 {
      AtPrefix(s, o, U16Bytes(pid), m);
      U16Back(s[..m], o, pid);
    }
  }

  /** `body` stands behind the header in `s`, and `m` lies inside it. */
  ghost predicate CutAt(s: Bytes, f: FixedHeader, body: Bytes, m: nat) {
    f.remaining == |body| && At(s, f.headerLen, body) && f.headerLen <= m < f.headerLen + |body|
  }

  lemma AckCut(kind: AckKind, s: Bytes, f: FixedHeader, pid: nat, reason: byte, wire: Bytes, m: nat)
    requires 0 < pid < 0x1_0000 && |wire| > 0 && Tellable(wire) && CutAt(s, f, U16Bytes(pid) + ([reason] + wire), m)
    ensures DecodeAck(kind, s[..m], f) == Err(InsufficientBytes)
  {
    var h := f.headerLen;
    AtSplit(s, h, U16Bytes(pid), [reason] + wire);
    AtSplit(s, h + 2, [reason], wire);
    PidCut(s, h, pid, m);
  }

  lemma ShortAckCut(kind: AckKind, s: Bytes, f: FixedHeader, pid: nat, m: nat)
    requires 0 < pid < 0x1_0000 && CutAt(s, f, U16Bytes(pid), m)
    ensures DecodeAck(kind, s[..m], f) == Err(InsufficientBytes)
  {
    PidCut(s, f.headerLen, pid, m);
  }

  lemma DisconnectCut(s: Bytes, f: FixedHeader, reason: byte, wire: Bytes, m: nat)
    requires |wire| > 0 && Tellable(wire) && CutAt(s, f, [reason] + wire, m)
    ensures DecodeDisconnect(s[..m], f) == Err(InsufficientBytes)
  {
    AtSplit(s, f.headerLen, [reason], wire);
  }

  lemma ConnAckCut(s: Bytes, f: FixedHeader, present: bool, reason: byte, wire: Bytes, m: nat)
    requires Tellable(wire) && CutAt(s, f, [Bit(present), reason] + wire, m)
    ensures DecodeConnAck(s[..m], f) == Err(InsufficientBytes)
  {
    AtSplit(s, f.headerLen, [Bit(present), reason], wire);
    AtByte(s, f.headerLen, [Bit(present), reason], 0);
  }

  lemma SubAckCut(
      answers: SubKind, s: Bytes, f: FixedHeader, pid: nat, wire: Bytes, block: Bytes, codes: Bytes, m: nat)
    requires 0 < pid < 0x1_0000 && Tellable(wire) && Carries(wire, block)
    requires CutAt(s, f, U16Bytes(pid) + wire + codes, m)
    ensures DecodeSubAck(answers, s[..m], f) == Err(InsufficientBytes)
  {
    var h := f.headerLen;
    AtSplit(s, h, U16Bytes(pid) + wire, codes);
    AtSplit(s, h, U16Bytes(pid), wire);
    PidCut(s, h, pid, m);
    if m >= h + 2 + |wire| { AtPrefix(s, h + 2, wire, m); }
  }

  /** The one body whose last byte nobody looks at. */
  predicate Bare(p: Packet)
    requires WellTyped(p)
  {
    p.Disconnect? && p.reason == 0 && Size(p.props) == 0
  }

  lemma LongAckBodyCut(p: Packet, s: Bytes, f: FixedHeader, m: nat)
    requires p.Ack? && WellTyped(p) && Sound(p.props) && CutAt(s, f, Body(p), m)
    ensures DecodeAck(p.kind, s[..m], f) == Err(InsufficientBytes)
  {
    if p.reason != 0 || Size(p.props) != 0 {
      PropertiesAreTellable(p.props);
      SoundLength(p.props);
      AckCut(p.kind, s, f, p.ackPid, p.reason, WithLength(p.props), m);
    } else {
      assert Body(p) == U16Bytes(p.ackPid);
      ShortAckCut(p.kind, s, f, p.ackPid, m);
    }
  }

  lemma DisconnectBodyCut(p: Packet, s: Bytes, f: FixedHeader, m: nat)
    requires p.Disconnect? && WellTyped(p) && Sound(p.props) && !Bare(p) && CutAt(s, f, Body(p), m)
    ensures DecodeDisconnect(s[..m], f) == Err(InsufficientBytes)
  {
    PropertiesAreTellable(p.props);
    SoundLength(p.props);
    DisconnectCut(s, f, p.reason, WithLength(p.props), m);
  }

  lemma ConnAckBodyCut(p: Packet, s: Bytes, f: FixedHeader, m: nat)
    requires p.ConnAck? && WellTyped(p) && Sound(p.props) && CutAt(s, f, Body(p), m)
    ensures DecodeConnAck(s[..m], f) == Err(InsufficientBytes)
  {
    PropertiesAreTellable(p.props);
    ConnAckCut(s, f, p.sessionPresent, p.reason, WithLength(p.props), m);
  }

  lemma SubAckBodyCut(p: Packet, s: Bytes, f: FixedHeader, m: nat)
    requires p.SubAck? && WellTyped(p) && Sound(p.props) && CutAt(s, f, Body(p), m)
    ensures DecodeSubAck(p.answers, s[..m], f) == Err(InsufficientBytes)
  {
    PropertiesAreTellable(p.props);
    PropertiesAreCarried(p.props);
    SubAckCut(p.answers, s, f, p.ackPid, WithLength(p.props), Content(p.props), p.codes, m);
  }

  /** A control packet cut short inside its body is reported as such, never decoded as something else. */
  lemma BodyCut(p: Packet, s: Bytes, f: FixedHeader, m: nat)
    requires RoundTrips(p) && !p.Publish? && !Bare(p) && CutAt(s, f, Body(p), m) && f.headerLen <= m <= |s|
    ensures DecodeLike(p, s[..m], f) == Err(InsufficientBytes)
  {
    match p
    case Ack(_, _, _, _) => LongAckBodyCut(p, s, f, m);
    case Disconnect(_, _) => DisconnectBodyCut(p, s, f, m);
    case ConnAck(_, _, _) => ConnAckBodyCut(p, s, f, m);
    case SubAck(_, _, _, _) => SubAckBodyCut(p, s, f, m);
  }

  // ---- headers ----

  /** A type and flags byte of a packet that is no PUBLISH. */
  predicate IsControl(tf: byte) {
    tf / 16 > 0 && tf / 16 != 3 && QosOf(tf / 2 % 4).Some?
  }

  lemma ControlParse(tf: byte, body: Bytes, s: Bytes, m: nat)
    requires IsControl(tf) && |body| <= MAX_VARINT && At(s, 0, Frame(tf, body)) && m <= |s|
    ensures ParseHeader(s[..m]) == if m < 1 + VarintLen(|body|) then Err(InsufficientBytes) else Ok(|Frame(tf, body)|)
  {
    EncodedLength(|body|);
    AtSplit(s, 0, [tf] + EncodeVarint(|body|), body);
    HeaderPrefix(s, tf, |body|, m);
  }

  /** `recv` reads the header byte by byte and then once, into the body and not beyond it. */
  lemma ControlGather(tf: byte, body: Bytes, s: Bytes, cap: nat, h: nat)
    requires IsControl(tf) && |body| <= MAX_VARINT && At(s, 0, Frame(tf, body)) && h == 1 + VarintLen(|body|) <= cap
    ensures |Frame(tf, body)| == h + |body| && HeaderEnd(s, 0, cap) == h && ParseHeader(s[..h]) == Ok(h + |body|)
  {
    EncodedLength(|body|);
    forall k | 0 <= k < h ensures ParseHeader(s[..k]) == Err(InsufficientBytes) { ControlParse(tf, body, s, k); }
    ControlParse(tf, body, s, h);
    HeaderEndIs(s, 0, h, cap);
  }

  lemma ControlBounds(tf: byte, body: Bytes, s: Bytes, cap: nat, h: nat, r: Received, taken: nat)
    requires IsControl(tf) && |body| <= MAX_VARINT && At(s, 0, Frame(tf, body)) && h == 1 + VarintLen(|body|) <= cap
    requires RecvSpec(s, cap, r, taken)
    ensures h <= taken <= Min(|Frame(tf, body)|, cap) && r == FromBuffer(s[..taken])
  {
    ControlGather(tf, body, s, cap, h);
  }

  /** Having taken the whole packet is one of the things that can happen. */
  lemma ControlWholeIsPossible(tf: byte, body: Bytes, s: Bytes, cap: nat, h: nat)
    requires IsControl(tf) && |body| <= MAX_VARINT && At(s, 0, Frame(tf, body)) && h == 1 + VarintLen(|body|)
    requires |Frame(tf, body)| <= cap && h <= cap
    ensures RecvResult(s, cap, |Frame(tf, body)|) == Some(FromBuffer(s[..|Frame(tf, body)|]))
    ensures ReadLimit(s, cap) == |Frame(tf, body)|
  {
    ControlGather(tf, body, s, cap, h);
  }

  // ---- control packets ----

  function WireOf(p: Packet): Bytes
    requires WellTyped(p) && !p.Connect?
  {
    Frame(TypeAndFlags(p), Body(p))
  }

  lemma ControlTypes(p: Packet)
    requires !p.Publish?
    ensures IsControl(TypeAndFlags(p))
  {
    FlagsBack(p);
    if p.Ack? { assert TypeAndFlags(p) == p.kind.TypeByte(); }
    if p.SubAck? { assert TypeAndFlags(p) == p.answers.TypeByte(); }
  }

  lemma FromBufferOfControl(p: Packet, b: Bytes, f: FixedHeader)
    requires !p.Publish? && !p.Connect? && TryNew(b) == Ok(f)
    requires f.typ == TypeAndFlags(p) / 16 * 16 && f.headerLen <= |b|
    ensures FromBuffer(b) == match DecodeLike(p, b, f)
                             case Ok(q) => Whole(q)
                             case Err(e) => Undecodable(e)
  {
    Dispatch(p, b, f);
    ControlTypes(p);
  }

  lemma WholeBack(p: Packet, b: Bytes)
    requires RoundTrips(p) && !p.Publish? && b == WireOf(p)
    ensures FromBuffer(b).Whole? && SamePacket(p, FromBuffer(b).packet)
  {
    HeaderBack(p);
    FromBufferOfControl(p, b, HeaderOf(p));
    BodyBack(p, b, HeaderOf(p));
  }

  lemma PartHeader(p: Packet, s: Bytes, m: nat)
    requires WellTyped(p) && !p.Connect? && |Body(p)| <= MAX_VARINT
    requires At(s, 0, WireOf(p)) && HeaderOf(p).headerLen <= m < |WireOf(p)|
    ensures TryNew(s[..m]) == Ok(HeaderOf(p)) && CutAt(s, HeaderOf(p), Body(p), m)
  {
    EncodedLength(|Body(p)|);
    AtSplit(s, 0, [TypeAndFlags(p)] + EncodeVarint(|Body(p)|), Body(p));
    FlagsBack(p);
    HeaderPrefix(s, TypeAndFlags(p), |Body(p)|, m);
  }

  lemma BarePart(p: Packet, b: Bytes, f: FixedHeader)
    requires RoundTrips(p) && Bare(p) && f == HeaderOf(p) && f.headerLen <= |b|
    ensures DecodeLike(p, b, f) == Ok(Disconnect(0, Slice([])))
  {
    SoundLength(p.props);
  }

  /** What is made of a control packet of which only the first `m` bytes have arrived. */
  lemma PartBack(p: Packet, s: Bytes, m: nat)
    requires RoundTrips(p) && !p.Publish? && At(s, 0, WireOf(p)) && HeaderOf(p).headerLen <= m < |WireOf(p)|
    ensures FromBuffer(s[..m]) == if Bare(p) then Whole(Disconnect(0, Slice([]))) else Undecodable(InsufficientBytes)
  {
    PartHeader(p, s, m);
    FromBufferOfControl(p, s[..m], HeaderOf(p));
    if Bare(p) { BarePart(p, s[..m], HeaderOf(p)); } else { BodyCut(p, s, HeaderOf(p), m); }
  }

  lemma BareIsSame(p: Packet)
    requires RoundTrips(p) && Bare(p)
    ensures SamePacket(p, Disconnect(0, Slice([])))
  {
    SameWithBlock(p);
  }

  /**
   On every stream and for every chunking: a control packet is received as itself if and only if the
   last read brought all of it (or it is a bare DISCONNECT), and otherwise it is undecodable. It can be
   received whole exactly when it fits the buffer; no byte behind it is ever taken.
   */
  lemma ControlReceivedIff(p: Packet, s: Bytes, cap: nat, r: Received, taken: nat)
    requires RoundTrips(p) && !p.Publish? && At(s, 0, WireOf(p)) && RecvSpec(s, cap, r, taken)
    requires HeaderOf(p).headerLen <= cap
    ensures taken <= |WireOf(p)| && taken <= cap
    ensures r.Whole? && SamePacket(p, r.packet) <==> taken == |WireOf(p)| || Bare(p)
    ensures !(taken == |WireOf(p)| || Bare(p)) ==> r == Undecodable(InsufficientBytes)
  {
    ControlTypes(p);
    ControlBounds(TypeAndFlags(p), Body(p), s, cap, HeaderOf(p).headerLen, r, taken);
    if taken == |WireOf(p)| {
      assert s[..taken] == s[0..taken] == WireOf(p);
      WholeBack(p, s[..taken]);
    } else {
      PartBack(p, s, taken);
      if Bare(p) { BareIsSame(p); }
    }
  }

  /** And it can be: reading all of a packet that fits the buffer is allowed, and is what an eager socket does. */
  lemma ControlCanBeReceived(p: Packet, s: Bytes, cap: nat)
    requires RoundTrips(p) && !p.Publish? && At(s, 0, WireOf(p)) && |WireOf(p)| <= cap
    ensures ReadLimit(s, cap) == |WireOf(p)|
    ensures var r := RecvResult(s, cap, |WireOf(p)|); r.Some? && r.value.Whole? && SamePacket(p, r.value.packet)
  {
    ControlTypes(p);
    EncodedLength(|Body(p)|);
    ControlWholeIsPossible(TypeAndFlags(p), Body(p), s, cap, HeaderOf(p).headerLen);
    assert s[..|WireOf(p)|] == s[0..|WireOf(p)|] == WireOf(p);
    WholeBack(p, s[..|WireOf(p)|]);
  }

  /** A PINGRESP has no body to wait for. */
  lemma PingRespIsReceived(s: Bytes, cap: nat, r: Received, taken: nat)
    requires At(s, 0, Frame(0xD0, [])) && cap >= 2 && RecvSpec(s, cap, r, taken)
    ensures |Frame(0xD0, [])| == 2 == taken && r == PingResp
  {
    ControlBounds(0xD0, [], s, cap, 2, r, taken);
    EncodedLength(0);
    AtSplit(s, 0, [0xD0] + EncodeVarint(0), []);
    HeaderPrefix(s, 0xD0, 0, 2);
  }

  /** The packet types a client can be sent, by the numbers of section 2.1.2 of MQTT 5.0. */
  predicate SentToClients(typ: nat) {
    2 <= typ <= 7 || typ == 9 || typ == 11 || typ == 13 || typ == 14
  }

  /** Any other type is refused, whatever follows. */
  lemma OtherTypesAreRefused(b: Bytes)
    requires |b| >= 2 && TryNew(b).Ok? && !SentToClients(b[0] / 16)
    ensures FromBuffer(b) == Undecodable(InvalidHeader)
  {
    TryNewStaysInside(b);
  }

  /** Type 0 is no packet at all. */
  lemma TypeZeroIsRefused(b: Bytes)
    requires |b| >= 2 && b[0] < 16
    ensures FromBuffer(b) == Undecodable(InvalidHeader)
  {
  }

  // ---- mixed streams ----

  datatype What = Msg(sent: Sent) | Control(packet: Packet) | Pong

  datatype Got = GotMessage(frame: Bytes) | GotPacket(packet: Packet) | GotPong

  /** What a broker puts on the stream, with its bytes, and what is to be received for it. */
  datatype Item = Item(what: What, wire: Bytes, due: Got)

  /**
   The bytes are its encoding, a reader with a buffer of `cap` bytes can take it, and what is due is
   the same message, the same control packet, or a pong.
   */
  ghost predicate Takable(x: Item, cap: nat) {
    match x.what
    case Msg(sent) => x.wire == sent.Wire() && sent.Fits() && sent.Deliverable(cap) && x.due == GotMessage(x.wire)
    case Control(p) =>
      && RoundTrips(p) && !p.Publish? && x.wire == WireOf(p) && |x.wire| <= cap
      && x.due.GotPacket? && SamePacket(p, x.due.packet) && FromBuffer(x.wire) == Whole(x.due.packet)
    case Pong => x.wire == Frame(0xD0, []) && cap >= 2 && x.due == GotPong
  }

  datatype Plan = Plan(xs: seq<Item>, cap: nat)

  /** Items that a reader with a buffer of `cap` bytes can take. */
  type Script = p: Plan |
    forall i {:trigger Takable(p.xs[i], p.cap)} :: 0 <= i < |p.xs| ==> Takable(p.xs[i], p.cap) witness Plan([], 0)

  /** What `recv` returns for the item at the front of the stream. */
  ghost predicate Outcome(x: Item, r: Received, taken: nat) {
    match x.what
    case Msg(_) =>
      && taken <= |x.wire| && r.Partial? && r.packetLen == |x.wire| && r.head == x.wire[..taken]
      && x.due == GotMessage(x.wire)
    case Control(p) => r.Whole? && x.due == GotPacket(r.packet) && taken == |x.wire|
    case Pong => r == PingResp && taken == |x.wire| && x.due == GotPong
  }

  lemma MsgOutcome(x: Item, s: Bytes, cap: nat, r: Received, taken: nat)
    requires Takable(x, cap) && x.what.Msg? && At(s, 0, x.wire) && RecvSpec(s, cap, r, taken)
    ensures Outcome(x, r, taken)
  {
    DeliverableIsDelivered(x.what.sent, s, cap, r, taken);
  }

  lemma WholeResult(p: Packet, s: Bytes, cap: nat, r: Received, taken: nat)
    requires RoundTrips(p) && !p.Publish? && At(s, 0, WireOf(p)) && RecvSpec(s, cap, r, taken)
    requires HeaderOf(p).headerLen <= cap && taken == |WireOf(p)|
    ensures r == FromBuffer(WireOf(p))
  {
    ControlTypes(p);
    ControlBounds(TypeAndFlags(p), Body(p), s, cap, HeaderOf(p).headerLen, r, taken);
    assert s[..taken] == s[0..taken] == WireOf(p);
  }

  lemma ControlOutcome(x: Item, s: Bytes, cap: nat, r: Received, taken: nat)
    requires Takable(x, cap) && x.what.Control? && At(s, 0, x.wire) && RecvSpec(s, cap, r, taken)
    requires r.Decoded() ==> taken == Min(ReadLimit(s, cap), |s|)
    ensures Outcome(x, r, taken)
  {
    var p := x.what.packet;
    EncodedLength(|Body(p)|);
    ControlReceivedIff(p, s, cap, r, taken);
    ControlCanBeReceived(p, s, cap);
    WholeResult(p, s, cap, r, taken);
  }

  lemma PongOutcome(x: Item, s: Bytes, cap: nat, r: Received, taken: nat)
    requires Takable(x, cap) && x.what.Pong? && At(s, 0, x.wire) && RecvSpec(s, cap, r, taken)
    ensures Outcome(x, r, taken)
  {
    PingRespIsReceived(s, cap, r, taken);
  }

  lemma ItemOutcome(p: Script, i: nat, s: Bytes, r: Received, taken: nat, eager: bool)
    requires i < |p.xs| && At(s, 0, p.xs[i].wire) && RecvSpec(s, p.cap, r, taken)
    requires p.xs[i].what.Control? ==> eager
    requires eager && r.Decoded() ==> taken == Min(ReadLimit(s, p.cap), |s|)
    ensures Outcome(p.xs[i], r, taken) && r.Decoded()
  {
    var x := p.xs[i];
    assert Takable(x, p.cap);
    match x.what
    case Msg(_) => MsgOutcome(x, s, p.cap, r, taken);
    case Control(_) => ControlOutcome(x, s, p.cap, r, taken);
    case Pong => PongOutcome(x, s, p.cap, r, taken);
  }

  /** `recv` when item `i` is at the front of the stream. */
  method RecvItem(reader: PacketReader, socket: Socket, ghost p: Script, ghost i: nat) returns (r: Received)
    requires reader.Aligned(socket) && i < |p.xs| && p.cap == reader.buf.Length
    requires reader.Start(socket) >= 0 && At(socket.data, reader.Start(socket), p.xs[i].wire)
    requires p.xs[i].what.Control? ==> socket.eager
    modifies reader, reader.buf, socket
    ensures reader.Valid() && socket.Valid() && reader.packetLen.Some? && socket.at >= old(reader.Start(socket))
    ensures Outcome(p.xs[i], r, socket.at - old(reader.Start(socket)))
  {
    ghost var start := reader.Start(socket);
    assert At(socket.data[start..], 0, p.xs[i].wire);
    r := reader.Recv(socket);
    ItemOutcome(p, i, socket.data[start..], r, socket.at - start, socket.eager);
  }

  method TakeMessage(r: Received, socket: Socket, ghost wire: Bytes) returns (g: Got)
    requires socket.Valid() && r.Partial? && r.packetLen == |wire| && |r.head| <= |wire|
    requires |wire| - |r.head| <= |socket.data| - socket.at
    requires r.head + socket.data[socket.at..socket.at + (|wire| - |r.head|)] == wire
    modifies socket
    ensures socket.Valid() && socket.at == old(socket.at) + (|wire| - |r.head|) && g == GotMessage(wire)
  {
    var publish := new PartialPublish(r.head, r.packetLen, socket);
    var dst := new byte[r.packetLen];
    var copied := publish.CopyAll(dst);
    g := GotMessage(dst[..r.packetLen]);
  }

  /** One `recv`, with `copy_all` for a message. */
  method ReceiveNext(reader: PacketReader, socket: Socket, ghost p: Script, ghost i: nat) returns (g: Got)
    requires reader.Aligned(socket) && i < |p.xs| && p.cap == reader.buf.Length
    requires reader.Start(socket) >= 0 && At(socket.data, reader.Start(socket), p.xs[i].wire)
    requires p.xs[i].what.Control? ==> socket.eager
    modifies reader, reader.buf, socket
    ensures reader.Valid() && socket.Valid() && reader.packetLen.Some?
    ensures socket.at == old(reader.Start(socket)) + |p.xs[i].wire|
    ensures g == p.xs[i].due
  {
    ghost var start := reader.Start(socket);
    var r := RecvItem(reader, socket, p, i);
    if r.Partial? {
      RestOfPacket(socket.data, start, p.xs[i].wire, socket.at - start);
      g := TakeMessage(r, socket, p.xs[i].wire);
    } else if r.Whole? {
      g := GotPacket(r.packet);
    } else {
      g := GotPong;
    }
  }

  /** The bytes of the first `n` items. */
  function Joined(xs: seq<Item>, n: nat): Bytes
    requires n <= |xs|
  {
    if n == 0 then [] else Joined(xs, n - 1) + xs[n - 1].wire
  }

  /** Each item stands where those before it end. */
  lemma {:induction false} JoinedAt(xs: seq<Item>, n: nat, data: Bytes, start: nat, i: nat)
    requires i < n <= |xs| && At(data, start, Joined(xs, n))
    ensures At(data, start + |Joined(xs, i)|, xs[i].wire)
    decreases n
  {
    AtSplit(data, start, Joined(xs, n - 1), xs[n - 1].wire);
    if i < n - 1 { JoinedAt(xs, n - 1, data, start, i); }
  }

  /** Everything due for the first items, and nothing else. */
  ghost predicate AnsweredUpTo(xs: seq<Item>, gs: seq<Got>) {
    |gs| <= |xs| && forall i :: 0 <= i < |gs| ==> gs[i] == xs[i].due
  }

  /** Between packets: the next item. */
  method ReceiveAfter(reader: PacketReader, socket: Socket, ghost p: Script, ghost i: nat, ghost start: nat)
    returns (g: Got)
    requires reader.Valid() && socket.Valid() && reader.packetLen.Some? && p.cap == reader.buf.Length && i < |p.xs|
    requires socket.at == start + |Joined(p.xs, i)| && At(socket.data, start, Joined(p.xs, |p.xs|))
    requires p.xs[i].what.Control? ==> socket.eager
    modifies reader, reader.buf, socket
    ensures reader.Valid() && socket.Valid() && reader.packetLen.Some?
    ensures socket.at == start + |Joined(p.xs, i + 1)| && g == p.xs[i].due
  {
    JoinedAt(p.xs, |p.xs|, socket.data, start, i);
    g := ReceiveNext(reader, socket, p, i);
  }

  method ReceiveRest(reader: PacketReader, socket: Socket, n: nat, first: Got, ghost p: Script, ghost start: nat)
    returns (gs: seq<Got>)
    requires reader.Valid() && socket.Valid() && reader.packetLen.Some? && p.cap == reader.buf.Length
    requires 0 < n == |p.xs| && first == p.xs[0].due
    requires socket.at == start + |Joined(p.xs, 1)| && At(socket.data, start, Joined(p.xs, n))
    requires socket.eager || forall i :: 0 <= i < |p.xs| ==> !p.xs[i].what.Control?
    modifies reader, reader.buf, socket
    ensures reader.Valid() && socket.Valid() && reader.packetLen.Some? && socket.at == start + |Joined(p.xs, n)|
    ensures |gs| == n && AnsweredUpTo(p.xs, gs)
  {
    gs := [first];
    while |gs| < n
      invariant reader.Valid() && socket.Valid() && reader.packetLen.Some? && |gs| <= n
      invariant socket.at == start + |Joined(p.xs, |gs|)| && AnsweredUpTo(p.xs, gs)
      decreases n - |gs|
    {
      var g := ReceiveAfter(reader, socket, p, |gs|, start);
      gs := gs + [g];
    }
  }

  /**
   Any stream of messages, control packets and PINGRESPs is received item by item, in order, each as
   what was sent. Messages may arrive in any chunks; control packets need a socket that hands out what
   is there.
   */
  method ReceiveMixed(reader: PacketReader, socket: Socket, n: nat, ghost p: Script) returns (gs: seq<Got>)
    requires reader.Aligned(socket) && n == |p.xs| && p.cap == reader.buf.Length
    requires reader.Start(socket) >= 0 && At(socket.data, reader.Start(socket), Joined(p.xs, n))
    requires socket.eager || forall i :: 0 <= i < |p.xs| ==> !p.xs[i].what.Control?
    modifies reader, reader.buf, socket
    ensures reader.Aligned(socket) && reader.Start(socket) == old(reader.Start(socket)) + |Joined(p.xs, n)|
    ensures |gs| == n && AnsweredUpTo(p.xs, gs)
  {
    gs := [];
    if n == 0 { return; }
    ghost var start := reader.Start(socket);
    JoinedAt(p.xs, n, socket.data, start, 0);
    var g := ReceiveNext(reader, socket, p, 0);
    gs := ReceiveRest(reader, socket, n, g, p, start);
  }
}
