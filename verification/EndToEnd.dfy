/** Encoder, stream and decoder together. */
module EndToEnd {
  import opened Base
  import opened Properties
  import opened Packets
  import opened Encoder
  import opened Decoder
  import opened RoundTrip
  import opened Framing
  import opened PublishStream
  import opened ControlStream

  /** A packet the encoder and a reader for topics up to `maxTopicLen` can both take. */
  ghost predicate Sendable(p: Packet, maxTopicLen: nat) {
    && RoundTrips(p)
    && if p.Publish? then
         |p.topic| <= maxTopicLen && !(p.qos.AtMostOnce? && Size(p.props) == 0 && p.payload == [])
       else |WireOf(p)| <= MAX_HEADER + 2 + maxTopicLen + 2
  }

  ghost predicate AllSendable(ps: seq<Packet>, maxTopicLen: nat) {
    forall i :: 0 <= i < |ps| ==> Sendable(ps[i], maxTopicLen)
  }

  /** The item that carries `p`. */
  ghost predicate Carrying(p: Packet, x: Item, cap: nat) {
    && RoundTrips(p) && Takable(x, cap) && x.wire == WireOf(p)
    && if p.Publish? then x.what.Msg? else x.what == Control(p)
  }

  ghost predicate AllCarrying(ps: seq<Packet>, xs: seq<Item>, cap: nat) {
    |xs| <= |ps| && forall i :: 0 <= i < |xs| ==> Carrying(ps[i], xs[i], cap)
  }

  lemma CarryOne(ps: seq<Packet>, i: nat, maxTopicLen: nat) returns (x: Item)
    requires AllSendable(ps, maxTopicLen) && i < |ps|
    ensures Carrying(ps[i], x, MAX_HEADER + 2 + maxTopicLen + 2)
  {
    var p := ps[i];
    assert Sendable(p, maxTopicLen);
    if p.Publish? {
      EncodedDeliverableIff(p, MAX_HEADER + 2 + maxTopicLen + 2);
      TopicLimitSuffices(AsSent(p), maxTopicLen);
      x := Item(Msg(AsSent(p)), WireOf(p), GotMessage(WireOf(p)));
    } else {
      WholeBack(p, WireOf(p));
      x := Item(Control(p), WireOf(p), GotPacket(FromBuffer(WireOf(p)).packet));
    }
  }

  lemma CarryMore(ps: seq<Packet>, xs: seq<Item>, x: Item, cap: nat)
    requires AllCarrying(ps, xs, cap) && |xs| < |ps| && Carrying(ps[|xs|], x, cap)
    ensures AllCarrying(ps, xs + [x], cap)
  {
    forall i | 0 <= i < |xs| + 1 ensures Carrying(ps[i], (xs + [x])[i], cap) {
      if i < |xs| { assert (xs + [x])[i] == xs[i] && Carrying(ps[i], xs[i], cap); }
    }
  }

  lemma {:induction false} JoinedMore(xs: seq<Item>, x: Item, n: nat)
    requires n <= |xs|
    ensures Joined(xs + [x], n) == Joined(xs, n)
    decreases n
  {
    if n > 0 { JoinedMore(xs, x, n - 1); }
  }

  lemma CarryNext(ps: seq<Packet>, xs: seq<Item>, maxTopicLen: nat) returns (x: Item)
    requires AllSendable(ps, maxTopicLen) && |xs| < |ps| && AllCarrying(ps, xs, MAX_HEADER + 2 + maxTopicLen + 2)
    ensures AllCarrying(ps, xs + [x], MAX_HEADER + 2 + maxTopicLen + 2)
    ensures RoundTrips(ps[|xs|]) && Joined(xs + [x], |xs| + 1) == Joined(xs, |xs|) + WireOf(ps[|xs|])
  {
    x := CarryOne(ps, |xs|, maxTopicLen);
    CarryMore(ps, xs, x, MAX_HEADER + 2 + maxTopicLen + 2);
    JoinedMore(xs, x, |xs|);
    assert (xs + [x])[|xs|] == x;
  }

  lemma BodyIsEncoded(p: Packet)
    requires RoundTrips(p)
    ensures Writes(p).Ok? && EncodeError(p, MAX_HEADER + |Body(p)|).None? && EmitAll(Writes(p).value) == Body(p)
  {
    assert Writes(p).Ok?;
    WritesEmitBody(p);
    EncodesIff(p, MAX_HEADER + |Body(p)|);
  }

  /** One packet encoded in place. */
  method EncodeOne(p: Packet) returns (wire: Bytes)
    requires RoundTrips(p)
    ensures wire == WireOf(p)
  {
    BodyIsEncoded(p);
    var buf := new byte[MAX_HEADER + |Body(p)|];
    var encoder := new MqttEncoder(buf);
    var done := encoder.ToBuffer(p);
    wire := buf[..encoder.offset];
  }

  method EncodeNth(ps: seq<Packet>, i: nat, ghost maxTopicLen: nat) returns (wire: Bytes)
    requires AllSendable(ps, maxTopicLen) && i < |ps|
    ensures RoundTrips(ps[i]) && wire == WireOf(ps[i])
  {
    assert Sendable(ps[i], maxTopicLen);
    wire := EncodeOne(ps[i]);
  }

  method EncodeNext(ps: seq<Packet>, i: nat, ghost xs: seq<Item>, ghost maxTopicLen: nat)
    returns (next: Bytes, ghost x: Item)
    requires AllSendable(ps, maxTopicLen) && i == |xs| < |ps| && AllCarrying(ps, xs, MAX_HEADER + 2 + maxTopicLen + 2)
    ensures AllCarrying(ps, xs + [x], MAX_HEADER + 2 + maxTopicLen + 2)
    ensures Joined(xs + [x], |xs| + 1) == Joined(xs, |xs|) + next
  {
    next := EncodeNth(ps, i, maxTopicLen);
    x := CarryNext(ps, xs, maxTopicLen);
  }

  method EncodeEach(ps: seq<Packet>, ghost maxTopicLen: nat) returns (wire: Bytes, ghost xs: seq<Item>)
    requires AllSendable(ps, maxTopicLen)
    ensures |xs| == |ps| && wire == Joined(xs, |xs|) && AllCarrying(ps, xs, MAX_HEADER + 2 + maxTopicLen + 2)
  {
    wire, xs := [], [];
    for i := 0 to |ps|
      invariant |xs| == i && wire == Joined(xs, i) && AllCarrying(ps, xs, MAX_HEADER + 2 + maxTopicLen + 2)
    {
      var next;
      ghost var x;
      next, x := EncodeNext(ps, i, xs, maxTopicLen);
      wire, xs := wire + next, xs + [x];
    }
  }

  /** The message kept by a subscriber shows what was published. */
  ghost predicate Shows(b: Bytes, m: Message, p: Packet)
    requires p.Publish?
  {
    && m.topicStart <= m.topicEnd <= |b| && m.payloadStart <= m.payloadEnd <= |b|
    && b[m.topicStart..m.topicEnd] == p.topic && b[m.payloadStart..m.payloadEnd] == p.payload
    && m.pid == p.pid && m.fixed.dup == p.dup && m.fixed.qos == p.qos && m.fixed.retain == p.retain
  }

  datatype Arrival = Published(frame: Bytes, message: Message) | Answered(packet: Packet)

  /** `p` has arrived: a message that shows it, or the same control packet. */
  ghost predicate Arrived(p: Packet, a: Arrival) {
    if p.Publish? then a.Published? && Shows(a.frame, a.message, p)
    else a.Answered? && SamePacket(p, a.packet)
  }

  method ReadMessage(b: Bytes, ghost p: Packet) returns (m: Message)
    requires RoundTrips(p) && p.Publish? && b == WireOf(p)
    ensures Shows(b, m, p)
  {
    HeaderBack(p);
    MessageBack(p, b, HeaderOf(p));
    var header := TryNew(b);
    var decoder := new MqttDecoder(b, header.value);
    var message := decoder.MessageFromDecoder();
    m := message.value;
  }

  method ReadArrival(g: Got, ghost p: Packet, ghost x: Item, ghost cap: nat) returns (a: Arrival)
    requires Carrying(p, x, cap) && g == x.due
    ensures Arrived(p, a)
  {
    if g.GotMessage? {
      var m := ReadMessage(g.frame, p);
      a := Published(g.frame, m);
    } else {
      a := Answered(g.packet);
    }
  }

  ghost predicate AllArrived(ps: seq<Packet>, as_: seq<Arrival>, n: nat) {
    n <= |ps| && n <= |as_| && forall i :: 0 <= i < n ==> Arrived(ps[i], as_[i])
  }

  lemma OneMoreArrived(ps: seq<Packet>, as_: seq<Arrival>, a: Arrival)
    requires |as_| < |ps| && AllArrived(ps, as_, |as_|) && Arrived(ps[|as_|], a)
    ensures AllArrived(ps, as_ + [a], |as_| + 1)
  {
    forall i | 0 <= i < |as_| + 1 ensures Arrived(ps[i], (as_ + [a])[i]) {
      if i < |as_| { assert (as_ + [a])[i] == as_[i] && Arrived(ps[i], as_[i]); }
    }
  }

  /** The stream on a socket, followed by anything. */
  method ReceiveEach(wire: Bytes, after: Bytes, maxTopicLen: nat, eager: bool, n: nat, ghost p: Script)
    returns (gs: seq<Got>)
    requires n == |p.xs| && wire == Joined(p.xs, n) && p.cap == MAX_HEADER + 2 + maxTopicLen + 2
    requires eager || forall i :: 0 <= i < |p.xs| ==> !p.xs[i].what.Control?
    ensures |gs| == n && AnsweredUpTo(p.xs, gs)
  {
    var socket := new Socket(wire + after, eager);
    var reader := new PacketReader(maxTopicLen);
    assert reader.buf[..0] == [] && socket.data[0..0] == [] && socket.data[0..] == socket.data;
    assert (wire + after)[0..|wire|] == wire;
    gs := ReceiveMixed(reader, socket, n, p);
  }

  /**
   Packets encoded in place, sent one after the other in front of anything, cut into chunks, received
   and decoded: each message shows the topic, payload, identifier and flags published, each control
   packet is the one sent. The chunks are arbitrary for messages; with control packets among them the
   socket must hand out what is there.
   */
  method SendAndReceive(ps: seq<Packet>, after: Bytes, maxTopicLen: nat, eager: bool) returns (arrivals: seq<Arrival>)
    requires AllSendable(ps, maxTopicLen) && (eager || forall i :: 0 <= i < |ps| ==> ps[i].Publish?)
    ensures |arrivals| == |ps| && AllArrived(ps, arrivals, |ps|)
  {
    var wire;
    ghost var xs;
    wire, xs := EncodeEach(ps, maxTopicLen);
    ghost var cap := MAX_HEADER + 2 + maxTopicLen + 2;
    ghost var script := CarriedScript(ps, xs, cap);
    var gs := ReceiveEach(wire, after, maxTopicLen, eager, |ps|, script);
    arrivals := [];
    for i := 0 to |ps|
      invariant |arrivals| == i && AllArrived(ps, arrivals, i)
    {
      assert Carrying(ps[i], xs[i], cap) && gs[i] == xs[i].due;
      var a := ReadArrival(gs[i], ps[i], xs[i], cap);
      OneMoreArrived(ps, arrivals, a);
      arrivals := arrivals + [a];
    }
  }

  lemma CarriedScript(ps: seq<Packet>, xs: seq<Item>, cap: nat) returns (p: Script)
    requires AllCarrying(ps, xs, cap) && |xs| == |ps|
    ensures p == Plan(xs, cap)
    ensures (forall i :: 0 <= i < |ps| ==> ps[i].Publish?) ==> forall i :: 0 <= i < |xs| ==> !xs[i].what.Control?
  {
    forall i | 0 <= i < |xs| ensures Takable(xs[i], cap) && (ps[i].Publish? ==> !xs[i].what.Control?) {
      assert Carrying(ps[i], xs[i], cap);
    }
    p := Plan(xs, cap);
  }
}
