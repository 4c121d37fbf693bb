/** A stream of PUBLISH packets is cut at exactly the packet boundaries, however it is chunked. */
module PublishStream {
  import opened Base
  import opened Wire
  import opened Varint
  import opened Properties
  import opened Packets
  import opened Decoder
  import opened RoundTrip
  import opened Framing

  /** A PUBLISH as the peer sends it: flags, topic, and everything after the topic. */
  datatype Sent = Sent(tf: byte, topic: Bytes, rest: Bytes) {
    ghost predicate Fits() {
      tf / 16 == 3 && |topic| < 0x1_0000 && |Body()| <= MAX_VARINT
    }

    function Body(): (r: Bytes)
      ensures |r| == 2 + |topic| + |rest|
    {
      Prefixed(topic) + rest
    }

    function Wire(): Bytes {
      Frame(tf, Body())
    }

    function HeaderLen(): nat
      requires |Body()| <= MAX_VARINT
    {
      1 + VarintLen(|Body()|)
    }

    /** The bytes `try_parse_header` waits for. */
    function Wanted(): nat
      requires |Body()| <= MAX_VARINT
    {
      HeaderLen() + 2 + |topic| + 2
    }

    function Qos(): Option<QoS> {
      QosOf(tf / 2 % 4)
    }

    function PidField(): nat
      requires |rest| >= 2
    {
      Big(rest[0], rest[1])
    }

    /** Exactly the packets a reader with a buffer of `cap` bytes delivers. */
    ghost predicate Deliverable(cap: nat)
      requires |Body()| <= MAX_VARINT
    {
      && Qos().Some? && IsUtf8(topic) && |rest| >= 2 && Wanted() <= cap
      && (Qos().value.AtMostOnce? || PidField() != 0)
    }
  }

  // ---- what a prefix of the packet looks like to the header parser ----

  function Header(tf: byte, len: nat): Result<FixedHeader, Error>
    requires len <= MAX_VARINT
  {
    if QosOf(tf / 2 % 4).None? then Err(WrongQos)
    else Ok(FixedHeader(tf / 16 * 16, tf / 8 % 2 == 1, QosOf(tf / 2 % 4).value, tf % 2 == 1, len, 1 + VarintLen(len)))
  }

  lemma CutInside(s: Bytes, i: nat, x: Bytes, m: nat)
    requires At(s, i, x) && i <= m <= i + |x|
    ensures s[..m][i..] == x[..m - i]
  {
    assert s[..m][i..] == s[i..i + |x|][..m - i];
  }

  lemma CutBehind(s: Bytes, i: nat, x: Bytes, m: nat)
    requires At(s, i, x) && i + |x| <= m <= |s|
    ensures s[..m][i..] == x + s[i + |x|..m]
  {
    assert s[..m][i..] == s[i..i + |x|] + s[i + |x|..m];
  }

  lemma HeaderPrefix(s: Bytes, tf: byte, len: nat, m: nat)
    requires tf / 16 > 0 && len <= MAX_VARINT && m <= |s| && At(s, 0, [tf] + EncodeVarint(len))
    ensures TryNew(s[..m]) == if m < 1 + VarintLen(len) then Err(InsufficientBytes) else Header(tf, len)
  {
    EncodedLength(len);
    AtSplit(s, 0, [tf], EncodeVarint(len));
    AtByte(s, 0, [tf], 0);
    if 2 <= m < 1 + VarintLen(len) {
      CutInside(s, 1, EncodeVarint(len), m);
      StrictPrefixIsShort(len, m - 1);
    } else if m >= 1 + VarintLen(len) {
      CutBehind(s, 1, EncodeVarint(len), m);
      VarintRoundTrip(len, s[1 + VarintLen(len)..m]);
    }
  }

  lemma AtPrefix(s: Bytes, i: nat, x: Bytes, m: nat)
    requires At(s, i, x) && i + |x| <= m <= |s|
    ensures At(s[..m], i, x)
  {
  }

  lemma TopicPrefix(s: Bytes, h: nat, topic: Bytes, m: nat)
    requires |topic| < 0x1_0000 && h <= m <= |s| && At(s, h, Prefixed(topic))
    ensures StrAt(s[..m], h) == if m < h + 2 + |topic| then Err(InsufficientBytes)
                                else if IsUtf8(topic) then Ok(topic) else Err(InvalidString)
  {
    AtSplit(s, h, U16Bytes(|topic|), topic);
    if m >= h + 2 + |topic| {
      AtPrefix(s, h, Prefixed(topic), m);
      SliceBack(s[..m], h, topic);
    } else if m >= h + 2 {
      AtPrefix(s, h, U16Bytes(|topic|), m);
      U16Back(s[..m], h, |topic|);
    }
  }

  /** What `try_parse_header` says once `m` bytes have arrived. */
  function Verdict(p: Sent, m: nat): Result<nat, Error>
    requires |p.Body()| <= MAX_VARINT
  {
    if m < p.HeaderLen() then Err(InsufficientBytes)
    else if p.Qos().None? then Err(WrongQos)
    else if m < p.HeaderLen() + 2 + |p.topic| then Err(InsufficientBytes)
    else if !IsUtf8(p.topic) then Err(InvalidString)
    else if m < p.Wanted() then Err(InsufficientBytes)
    else Ok(p.HeaderLen() + |p.Body()|)
  }

  lemma WireParts(p: Sent, s: Bytes)
    requires p.Fits() && At(s, 0, p.Wire())
    ensures |p.Wire()| == p.HeaderLen() + |p.Body()|
    ensures At(s, 0, [p.tf] + EncodeVarint(|p.Body()|))
    ensures At(s, p.HeaderLen(), Prefixed(p.topic)) && At(s, p.HeaderLen() + 2 + |p.topic|, p.rest)
  {
    EncodedLength(|p.Body()|);
    AtSplit(s, 0, [p.tf] + EncodeVarint(|p.Body()|), p.Body());
    AtSplit(s, p.HeaderLen(), Prefixed(p.topic), p.rest);
  }

  lemma ParsePrefix(p: Sent, s: Bytes, m: nat)
    requires p.Fits() && At(s, 0, p.Wire()) && m <= |s|
    ensures ParseHeader(s[..m]) == Verdict(p, m)
  {
    WireParts(p, s);
    HeaderPrefix(s, p.tf, |p.Body()|, m);
    if m >= p.HeaderLen() { TopicPrefix(s, p.HeaderLen(), p.topic, m); }
  }

  lemma {:induction false} HeaderEndIs(s: Bytes, j: nat, n: nat, cap: nat)
    requires j <= n <= |s| && n <= cap
    requires forall k :: j <= k < n ==> ParseHeader(s[..k]) == Err(InsufficientBytes)
    requires n == |s| || n == cap || ParseHeader(s[..n]) != Err(InsufficientBytes)
    ensures HeaderEnd(s, j, cap) == n
    decreases n - j
  {
    if j < n { HeaderEndIs(s, j + 1, n, cap); }
  }

  /** The number of bytes at which the parser stops asking for more. */
  function Decisive(p: Sent): nat
    requires |p.Body()| <= MAX_VARINT
  {
    if p.Qos().None? then p.HeaderLen()
    else if !IsUtf8(p.topic) then p.HeaderLen() + 2 + |p.topic|
    else p.Wanted()
  }

  lemma DecisiveEndsHeader(p: Sent, s: Bytes, cap: nat)
    requires p.Fits() && At(s, 0, p.Wire())
    ensures HeaderEnd(s, 0, cap) == Min(Decisive(p), Min(|s|, cap))
    ensures ParseHeader(s[..HeaderEnd(s, 0, cap)]) == Verdict(p, HeaderEnd(s, 0, cap))
  {
    var n := Min(Decisive(p), Min(|s|, cap));
    forall k | 0 <= k < n ensures ParseHeader(s[..k]) == Err(InsufficientBytes) { ParsePrefix(p, s, k); }
    ParsePrefix(p, s, n);
    HeaderEndIs(s, 0, n, cap);
  }

  /** What the decoder makes of the bytes gathered. */
  function Decoded(p: Sent, m: nat): Received
    requires p.Fits() && p.Qos().Some? && |p.rest| >= 2 && m <= |p.Wire()|
  {
    if p.Qos().value.AtMostOnce? then Partial(AtMostOnce, None, p.topic, p.Wire()[..m], |p.Wire()|)
    else if p.PidField() == 0 then Undecodable(BadIdentifier)
    else Partial(p.Qos().value, Some(p.PidField()), p.topic, p.Wire()[..m], |p.Wire()|)
  }

  lemma PidPrefix(s: Bytes, o: nat, rest: Bytes, m: nat)
    requires |rest| >= 2 && At(s, o, rest) && o + 2 <= m <= |s|
    ensures PidAt(s[..m], o) == if Big(rest[0], rest[1]) == 0 then Err(BadIdentifier) else Ok(Big(rest[0], rest[1]))
  {
    AtByte(s, o, rest, 0);
    AtByte(s, o, rest, 1);
  }

  lemma PartialOf(b: Bytes, f: FixedHeader, topic: Bytes, pid: Result<nat, Error>)
    requires f.headerLen <= |b| && StrAt(b, f.headerLen) == Ok(topic)
    requires PidAt(b, f.headerLen + 2 + |topic|) == pid
    ensures var head := b[..Min(f.PacketLen(), |b|)];
            PartialPublishFrom(b, f) ==
              if f.qos.AtMostOnce? then Partial(f.qos, None, topic, head, f.PacketLen())
              else match pid
                case Ok(n) => Partial(f.qos, Some(n), topic, head, f.PacketLen())
                case Err(e) => Undecodable(e)
  {
  }

  /** What the decoder finds in the bytes gathered. */
  lemma GatheredFields(p: Sent, s: Bytes, m: nat, b: Bytes)
    requires p.Fits() && At(s, 0, p.Wire()) && |p.rest| >= 2 && IsUtf8(p.topic) && p.Wanted() <= m <= |p.Wire()|
    requires b == s[..m]
    ensures b == p.Wire()[..m] && |p.Wire()| == p.HeaderLen() + |p.Body()|
    ensures StrAt(b, p.HeaderLen()) == Ok(p.topic)
    ensures PidAt(b, p.HeaderLen() + 2 + |p.topic|) ==
            if p.PidField() == 0 then Err(BadIdentifier) else Ok(p.PidField())
  {
    WireParts(p, s);
    TopicPrefix(s, p.HeaderLen(), p.topic, m);
    PidPrefix(s, p.HeaderLen() + 2 + |p.topic|, p.rest, m);
    assert s[..m] == s[0..|p.Wire()|][..m];
  }

  lemma PartialBack(p: Sent, s: Bytes, f: FixedHeader, m: nat)
    requires p.Fits() && At(s, 0, p.Wire()) && |p.rest| >= 2 && IsUtf8(p.topic) && p.Wanted() <= m <= |p.Wire()|
    requires Header(p.tf, |p.Body()|) == Ok(f)
    ensures PartialPublishFrom(s[..m], f) == Decoded(p, m)
  {
    GatheredFields(p, s, m, s[..m]);
    PartialOf(s[..m], f, p.topic, if p.PidField() == 0 then Err(BadIdentifier) else Ok(p.PidField()));
    assert s[..m][..m] == s[..m];
  }

  lemma DecodeGathered(p: Sent, s: Bytes, m: nat)
    requires p.Fits() && At(s, 0, p.Wire()) && |p.rest| >= 2 && IsUtf8(p.topic) && p.Wanted() <= m <= |p.Wire()|
    requires p.Qos().Some?
    ensures FromBuffer(s[..m]) == Decoded(p, m)
  {
    WireParts(p, s);
    HeaderPrefix(s, p.tf, |p.Body()|, m);
    PartialBack(p, s, Header(p.tf, |p.Body()|).value, m);
  }

  lemma GatherBounds(p: Sent, s: Bytes, cap: nat, r: Received, taken: nat)
    requires p.Fits() && At(s, 0, p.Wire()) && RecvSpec(s, cap, r, taken)
    requires p.Qos().Some? && IsUtf8(p.topic) && |p.rest| >= 2 && p.Wanted() <= cap
    ensures p.Wanted() <= taken <= |p.Wire()| && r == FromBuffer(s[..taken])
  {
    DecisiveEndsHeader(p, s, cap);
    WireParts(p, s);
  }

  /** A deliverable packet is delivered with its topic, QoS and identifier; the bytes gathered are its first ones. */
  lemma DeliverableIsDelivered(p: Sent, s: Bytes, cap: nat, r: Received, taken: nat)
    requires p.Fits() && At(s, 0, p.Wire()) && RecvSpec(s, cap, r, taken) && p.Deliverable(cap)
    ensures taken <= |p.Wire()| && r == Decoded(p, taken) && r.Partial?
  {
    GatherBounds(p, s, cap, r, taken);
    DecodeGathered(p, s, taken);
  }

  /** A packet the header parser rejects, or never gets to see whole, is not delivered. */
  lemma UnparsableIsNotDelivered(p: Sent, s: Bytes, cap: nat, r: Received, taken: nat)
    requires p.Fits() && At(s, 0, p.Wire()) && RecvSpec(s, cap, r, taken)
    requires !(p.Qos().Some? && IsUtf8(p.topic) && |p.rest| >= 2 && p.Wanted() <= cap)
    ensures !r.Partial?
    ensures r == Crash <==> p.Qos().Some? && IsUtf8(p.topic) && |p.rest| < 2 && p.Wanted() <= cap && p.Wanted() <= |s|
    ensures r == Spin <==> cap < Decisive(p) && cap <= |s|
  {
    DecisiveEndsHeader(p, s, cap);
    WireParts(p, s);
  }

  /** Which packets get through, and what becomes of the others, on every stream and for every chunking. */
  lemma DeliveredIff(p: Sent, s: Bytes, cap: nat, r: Received, taken: nat)
    requires p.Fits() && At(s, 0, p.Wire()) && RecvSpec(s, cap, r, taken)
    ensures r.Partial? <==> p.Deliverable(cap)
  {
    if p.Qos().Some? && IsUtf8(p.topic) && |p.rest| >= 2 && p.Wanted() <= cap {
      GatherBounds(p, s, cap, r, taken);
      DecodeGathered(p, s, taken);
    } else {
      UnparsableIsNotDelivered(p, s, cap, r, taken);
    }
  }

  /** The documented limit is enough: a reader built for topics of `maxTopicLen` bytes takes any such topic. */
  lemma TopicLimitSuffices(p: Sent, maxTopicLen: nat)
    requires p.Fits() && |p.topic| <= maxTopicLen
    ensures p.Wanted() <= MAX_HEADER + 2 + maxTopicLen + 2
  {
  }

  // ---- taking packets off the stream ----

  datatype CopyResult = Copied | BrokenPipe | OutOfBounds

  class PartialPublish {
    const buf: Bytes
    const packetLen: nat
    const reader: Socket

    constructor (buf: Bytes, packetLen: nat, reader: Socket)
      ensures this.buf == buf && this.packetLen == packetLen && this.reader == reader
    {
      this.buf, this.packetLen, this.reader := buf, packetLen, reader;
    }

    /** `copy_all`; both slice expressions panic on a buffer that is too short. */
    method CopyAll(dst: array<byte>) returns (r: CopyResult)
      requires reader.Valid()
      modifies dst, reader
      ensures reader.Valid()
      ensures r == if dst.Length < Max(|buf|, packetLen) then OutOfBounds
                   else if packetLen - |buf| > |reader.data| - old(reader.at) then BrokenPipe else Copied
      ensures r.Copied? ==> reader.at == old(reader.at) + Max(packetLen - |buf|, 0)
                            && dst[..Max(|buf|, packetLen)] == buf + reader.data[old(reader.at)..reader.at]
    {
      if dst.Length < |buf| { return OutOfBounds; }
      forall i | 0 <= i < |buf| { dst[i] := buf[i]; }
      assert dst[..|buf|] == buf;
      if |buf| < packetLen {
        if dst.Length < packetLen { return OutOfBounds; }
        var ok := reader.ReadExact(dst, |buf|, packetLen);
        if !ok { return BrokenPipe; }
        assert dst[..packetLen] == dst[..|buf|] + dst[|buf|..packetLen];
      }
      r := Copied;
    }

    /** `discard`: the same bytes leave the stream, 64 at a time. */
    method Discard() returns (ok: bool)
      requires reader.Valid()
      modifies reader
      ensures reader.Valid() && ok == (Max(packetLen - |buf|, 0) <= |reader.data| - old(reader.at))
      ensures ok ==> reader.at == old(reader.at) + Max(packetLen - |buf|, 0)
    {
      var scratch := new byte[64];
      var left := Max(packetLen - |buf|, 0);
      ghost var remaining := left;
      while left > 0
        invariant 0 <= left <= remaining && reader.Valid() && reader.at == old(reader.at) + (remaining - left)
      {
        var n := Min(left, scratch.Length);
        ok := reader.ReadExact(scratch, 0, n);
        if !ok { return; }
        left := left - n;
      }
      ok := true;
    }
  }

  ghost predicate AllDeliverable(ps: seq<Sent>, cap: nat) {
    forall i :: 0 <= i < |ps| ==> ps[i].Fits() && ps[i].Deliverable(cap)
  }

  /** `recv` when the next packet is `ps[0]`. */
  method RecvPublish(reader: PacketReader, socket: Socket, ghost ps: seq<Sent>) returns (publish: PartialPublish)
    requires reader.Aligned(socket) && ps != [] && AllDeliverable(ps, reader.buf.Length)
    requires reader.Start(socket) >= 0 && At(socket.data, reader.Start(socket), ps[0].Wire())
    modifies reader, reader.buf, socket
    ensures reader.Valid() && socket.Valid() && reader.packetLen.Some? && publish.reader == socket
    ensures publish.packetLen == |ps[0].Wire()|
    ensures |publish.buf| <= publish.packetLen && publish.buf == ps[0].Wire()[..|publish.buf|]
    ensures socket.at == old(reader.Start(socket)) + |publish.buf|
  {
    ghost var start := reader.Start(socket);
    assert At(socket.data[start..], 0, ps[0].Wire());
    var r := reader.Recv(socket);
    DeliverableIsDelivered(ps[0], socket.data[start..], reader.buf.Length, r, socket.at - start);
    publish := new PartialPublish(r.head, r.packetLen, socket);
  }

  lemma RestOfPacket(data: Bytes, start: nat, x: Bytes, n: nat)
    requires At(data, start, x) && n <= |x|
    ensures x[..n] + data[start + n..start + |x|] == x
  {
    assert data[start + n..start + |x|] == data[start..start + |x|][n..];
  }

  /** One `recv` followed by `copy_all` or `discard`. */
  method ReceiveOne(reader: PacketReader, socket: Socket, keep: bool, ghost ps: seq<Sent>) returns (bytes: Bytes)
    requires reader.Aligned(socket) && ps != [] && AllDeliverable(ps, reader.buf.Length)
    requires reader.Start(socket) >= 0 && At(socket.data, reader.Start(socket), ps[0].Wire())
    modifies reader, reader.buf, socket
    ensures reader.Valid() && socket.Valid() && reader.packetLen.Some?
    ensures socket.at == old(reader.Start(socket)) + |ps[0].Wire()|
    ensures keep ==> bytes == ps[0].Wire()
  {
    ghost var start := reader.Start(socket);
    var publish := RecvPublish(reader, socket, ps);
    RestOfPacket(socket.data, start, ps[0].Wire(), |publish.buf|);
    bytes := [];
    if keep {
      var dst := new byte[publish.packetLen];
      var copied := publish.CopyAll(dst);
      bytes := dst[..publish.packetLen];
    } else {
      var ok := publish.Discard();
    }
  }

  function StreamOf(ps: seq<Sent>): Bytes {
    if ps == [] then [] else ps[0].Wire() + StreamOf(ps[1..])
  }

  /** The packets kept, as they were sent, in the order they were sent. */
  function Kept(ps: seq<Sent>, keep: seq<bool>): seq<Bytes>
    requires |ps| == |keep|
  {
    if ps == [] then [] else (if keep[0] then [ps[0].Wire()] else []) + Kept(ps[1..], keep[1..])
  }

  lemma StreamStep(ps: seq<Sent>, data: Bytes, start: nat)
    requires ps != [] && At(data, start, StreamOf(ps))
    ensures |StreamOf(ps)| == |ps[0].Wire()| + |StreamOf(ps[1..])|
    ensures At(data, start, ps[0].Wire()) && At(data, start + |ps[0].Wire()|, StreamOf(ps[1..]))
  {
    AtSplit(data, start, ps[0].Wire(), StreamOf(ps[1..]));
  }

  /**
   Any run of deliverable packets, in chunks of any sizes, is received as exactly those packets in
   order, and discarding some of them consumes the same bytes.
   */
  method ReceiveAll(reader: PacketReader, socket: Socket, keep: seq<bool>, ghost ps: seq<Sent>)
    returns (out: seq<Bytes>)
    requires reader.Aligned(socket) && |keep| == |ps| && AllDeliverable(ps, reader.buf.Length)
    requires reader.Start(socket) >= 0 && At(socket.data, reader.Start(socket), StreamOf(ps))
    modifies reader, reader.buf, socket
    ensures reader.Aligned(socket) && reader.Start(socket) == old(reader.Start(socket)) + |StreamOf(ps)|
    ensures out == Kept(ps, keep)
  {
    out := [];
    if keep == [] { return; }
    ghost var start := reader.Start(socket);
    StreamStep(ps, socket.data, start);
    var bytes := ReceiveOne(reader, socket, keep[0], ps);
    var others := ReceiveAll(reader, socket, keep[1..], ps[1..]);
    out := (if keep[0] then [bytes] else []) + others;
  }

  // ---- which of our own packets a peer running this reader can take ----

  /** A published packet as the reader sees it. */
  function AsSent(p: Packet): Sent
    requires p.Publish? && AllTyped(p.props)
  {
    Sent(TypeAndFlags(p), p.topic, PidBytes(p.pid) + WithLength(p.props) + p.payload)
  }

  lemma BodyRegroups(a: Bytes, b: Bytes, c: Bytes, d: Bytes)
    ensures a + b + c + d == a + (b + c + d)
  {
  }

  lemma EncodedIsSent(p: Packet)
    requires RoundTrips(p) && p.Publish?
    ensures AsSent(p).Fits() && AsSent(p).Wire() == Frame(TypeAndFlags(p), Body(p))
  {
    BodyRegroups(Prefixed(p.topic), PidBytes(p.pid), WithLength(p.props), p.payload);
  }

  lemma LeadingPid(pid: nat, a: Bytes, b: Bytes)
    requires 0 < pid < 0x1_0000
    ensures var rest := U16Bytes(pid) + a + b; Big(rest[0], rest[1]) == pid
  {
  }

  lemma EncodedPidField(p: Packet)
    requires RoundTrips(p) && p.Publish? && p.pid.Some?
    ensures |AsSent(p).rest| >= 2 && AsSent(p).PidField() == p.pid.value
  {
    LeadingPid(p.pid.value, WithLength(p.props), p.payload);
  }

  lemma EncodedRest(p: Packet)
    requires RoundTrips(p) && p.Publish?
    ensures |AsSent(p).rest| == |PidBytes(p.pid)| + VarintLen(Size(p.props)) + Size(p.props) + |p.payload|
  {
    SoundLength(p.props);
  }

  /** Of the packets the encoder makes, only a QoS 0 message without properties and payload is not deliverable. */
  lemma EncodedDeliverableIff(p: Packet, cap: nat)
    requires RoundTrips(p) && p.Publish?
    ensures AsSent(p).Fits() && AsSent(p).Wire() == Frame(TypeAndFlags(p), Body(p))
    ensures AsSent(p).Deliverable(cap) <==>
              AsSent(p).Wanted() <= cap && !(p.qos.AtMostOnce? && Size(p.props) == 0 && p.payload == [])
  {
    EncodedIsSent(p);
    EncodedDeliverable(p, cap);
  }

  lemma EncodedDeliverable(p: Packet, cap: nat)
    requires RoundTrips(p) && p.Publish? && AsSent(p).Fits()
    ensures AsSent(p).Deliverable(cap) <==>
              AsSent(p).Wanted() <= cap && !(p.qos.AtMostOnce? && Size(p.props) == 0 && p.payload == [])
  {
    FlagsBack(p);
    EncodedRest(p);
    if p.pid.Some? { EncodedPidField(p); }
  }
}
