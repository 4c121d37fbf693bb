/** When a full collection makes the client panic. */
module SessionCapacity {
  import opened Base
  import opened PacketId
  import opened Packets
  import opened Session
  import opened SessionTheorems

  // ---- the capacity check of `send` and its use lie in different locked sections ----

  function Publishers(xs: seq<Sender>): nat {
    if xs == [] then 0 else (if xs[0].kind.Acknowledged() then 1 else 0) + Publishers(xs[1..])
  }

  lemma {:induction false} PublishersConcat(a: seq<Sender>, b: seq<Sender>)
    ensures Publishers(a + b) == Publishers(a) + Publishers(b)
  {
    if a == [] {
      assert a + b == b;
    } else {
      assert (a + b)[0] == a[0] && (a + b)[1..] == a[1..] + b;
      PublishersConcat(a[1..], b);
    }
  }

  lemma {:induction false} PublishersWithout(xs: seq<Sender>, i: nat)
    requires i < |xs|
    ensures Publishers(xs) == Publishers(Without(xs, i)) + if xs[i].kind.Acknowledged() then 1 else 0
  {
    assert xs == xs[..i] + ([xs[i]] + xs[i + 1..]);
    assert ([xs[i]] + xs[i + 1..])[1..] == xs[i + 1..];
    PublishersConcat(xs[..i], [xs[i]] + xs[i + 1..]);
    PublishersConcat(xs[..i], xs[i + 1..]);
  }

  /** There is room for everybody who has passed the check. */
  predicate Roomy(s: State) {
    |s.inflight| + Publishers(s.senders) <= s.maxInflight
  }

  /** A publisher passes the check on the room that others between their sections will take. */
  predicate Overbooks(s: State, e: Event) {
    && e.Reserve? && e.kind.Acknowledged() && |s.inflight| < s.maxInflight
    && |s.inflight| + Publishers(s.senders) == s.maxInflight
  }

  lemma ReserveKeepsRoomyIff(s: State, kind: Kind)
    requires Roomy(s)
    ensures Roomy(AfterReserve(s, kind)) <==> !Overbooks(s, Reserve(kind))
  {
    PublishersConcat(s.senders, [Sender(Add(s.lastPid, 1), kind)]);
  }

  lemma StepKeepsRoomyIff(s: State, e: Event)
    requires Roomy(s) && Enabled(s, e)
    ensures Roomy(Apply(s, e)) <==> !Overbooks(s, e)
  {
    match e
    case Reserve(kind) => ReserveKeepsRoomyIff(s, kind);
    case Enqueue(i) => PublishersWithout(s.senders, i);
    case Abandon(i, _) => PublishersWithout(s.senders, i);
    case _ => SubsetSize(Apply(s, e).inflight, s.inflight);
  }

  predicate NeverOverbooks(s: State, es: seq<Event>)
    requires Runs(s, es)
    decreases |es|
  {
    es == [] || (!Overbooks(s, es[0]) && NeverOverbooks(Apply(s, es[0]), es[1..]))
  }

  /** Unless a publisher passes the check while others hold the last places, the insertion of `send` never fails. */
  lemma {:induction false} SendNeverPanics(s: State, es: seq<Event>, i: nat)
    requires Roomy(s) && Runs(s, es) && NeverOverbooks(s, es) && i < |Exec(s, es).senders|
    ensures Roomy(Exec(s, es)) && !Panics(Exec(s, es), Enqueue(i))
    decreases |es|
  {
    if es != [] {
      StepKeepsRoomyIff(s, es[0]);
      SendNeverPanics(Apply(s, es[0]), es[1..], i);
    } else {
      PublishersWithout(s.senders, i);
    }
  }

  /** Two publishers that both see one free place: the second one's insertion fails, and is unwrapped. */
  lemma TwoSendersCanPanic()
    ensures exists es, s :: Reached(1, 1, es, s) && |s.senders| > 0 && Panics(s, Enqueue(0))
  {
    var q1 := Publishing(AtLeastOnce);
    var s0 := Init(1, 1);
    var s1 := Apply(s0, Reserve(q1));
    var s2 := Apply(s1, Reserve(q1));
    var s3 := Apply(s2, Enqueue(0));
    var s4 := Apply(s3, Transmit);
    assert s4.senders == [Sender(3, q1)] && s4.inflight == {2} && s4.outgoing == {};
    assert Runs(s0, []) && Exec(s0, []) == s0;
    RunsSnoc(s0, [], Reserve(q1));
    RunsSnoc(s0, [] + [Reserve(q1)], Reserve(q1));
    RunsSnoc(s0, [] + [Reserve(q1)] + [Reserve(q1)], Enqueue(0));
    RunsSnoc(s0, [] + [Reserve(q1)] + [Reserve(q1)] + [Enqueue(0)], Transmit);
    assert Reached(1, 1, [] + [Reserve(q1)] + [Reserve(q1)] + [Enqueue(0)] + [Transmit], s4);
  }

  // ---- released publishes count too ----

  /** There is room for all publishes that are unacknowledged, released or on their way, in one set. */
  predicate RoomForAll(s: State) {
    |s.inflight| + |s.rel| + Publishers(s.senders) <= s.maxInflight
  }

  /** A publisher passes the check, which looks at `inflight_pub` alone, when all places are spoken for. */
  predicate OverbooksAll(s: State, e: Event) {
    && e.Reserve? && e.kind.Acknowledged() && |s.inflight| < s.maxInflight
    && |s.inflight| + |s.rel| + Publishers(s.senders) == s.maxInflight
  }

  lemma EnqueueKeepsRoomForAll(s: State, i: nat)
    requires RoomForAll(s) && i < |s.senders|
    ensures RoomForAll(AfterEnqueue(s, i))
  {
    PublishersWithout(s.senders, i);
  }

  lemma ReserveKeepsRoomForAllIff(s: State, kind: Kind)
    requires RoomForAll(s)
    ensures RoomForAll(AfterReserve(s, kind)) <==> !OverbooksAll(s, Reserve(kind))
  {
    PublishersConcat(s.senders, [Sender(Add(s.lastPid, 1), kind)]);
  }

  lemma PubRecKeepsRoomForAll(s: State, pid: int)
    requires RoomForAll(s)
    ensures RoomForAll(AfterPubRec(s, pid))
  {
  }

  lemma ShrinkingKeepsRoomForAll(s: State, d: State)
    requires RoomForAll(s) && Shrinks(s, d) && Publishers(d.senders) <= Publishers(s.senders)
    ensures RoomForAll(d)
  {
    SubsetSize(d.inflight, s.inflight);
    SubsetSize(d.rel, s.rel);
  }

  lemma OtherStepsKeepSenders(s: State, e: Event)
    requires Enabled(s, e) && !e.Reserve? && !e.Enqueue?
    ensures Publishers(Apply(s, e).senders) <= Publishers(s.senders)
  {
    if e.Abandon? { PublishersWithout(s.senders, e.i); }
  }

  lemma StepKeepsRoomForAllIff(s: State, e: Event)
    requires RoomForAll(s) && Enabled(s, e)
    ensures RoomForAll(Apply(s, e)) <==> !OverbooksAll(s, e)
  {
    if e.Reserve? {
      ReserveKeepsRoomForAllIff(s, e.kind);
    } else if e.Enqueue? {
      EnqueueKeepsRoomForAll(s, e.i);
    } else if e.PubRecIn? {
      PubRecKeepsRoomForAll(s, e.pid);
    } else if !e.PublishIn? {
      OtherStepsShrink(s, e);
      OtherStepsKeepSenders(s, e);
      ShrinkingKeepsRoomForAll(s, Apply(s, e));
    }
  }

  predicate NeverOverbooksAll(s: State, es: seq<Event>)
    requires Runs(s, es)
    decreases |es|
  {
    es == [] || (!OverbooksAll(s, es[0]) && NeverOverbooksAll(Apply(s, es[0]), es[1..]))
  }

  lemma RoomPreventsPanic(s: State, e: Event)
    requires RoomForAll(s) && Enabled(s, e) && !e.PublishIn?
    ensures !Panics(s, e)
  {
    if e.Enqueue? { PublishersWithout(s.senders, e.i); }
  }

  /** Without such a check neither `send` nor the PUBREC handler ever unwraps a failed insertion. */
  lemma {:induction false} OutgoingNeverPanics(s: State, es: seq<Event>, e: Event)
    requires RoomForAll(s) && Runs(s, es) && NeverOverbooksAll(s, es)
    requires Enabled(Exec(s, es), e) && !e.PublishIn?
    ensures RoomForAll(Exec(s, es)) && !Panics(Exec(s, es), e)
    decreases |es|
  {
    if es != [] {
      StepKeepsRoomForAllIff(s, es[0]);
      OutgoingNeverPanics(Apply(s, es[0]), es[1..], e);
    } else {
      RoomPreventsPanic(s, e);
    }
  }

  /** One QoS 2 publish sent and answered by PUBREC, its PUBCOMP outstanding. */
  function OneReleased(): State {
    Init(1, 1).(lastPid := 2, rel := {2})
  }

  lemma ReachOneReleased(q2: Kind, es: seq<Event>)
    requires q2 == Publishing(ExactlyOnce) && es == [Reserve(q2)] + [Enqueue(0)] + [Transmit] + [PubRecIn(2)]
    ensures Reached(1, 1, es, OneReleased())
  {
    var s0 := Init(1, 1);
    var s1 := Apply(s0, Reserve(q2));
    var s2 := Apply(s1, Enqueue(0));
    var s3 := Apply(s2, Transmit);
    assert s1.senders == [Sender(2, q2)] && s2.tx == [2] && s3.outgoing == {} && s3.inflight == {2};
    assert Apply(s3, PubRecIn(2)) == OneReleased();
    assert Runs(s0, []) && Exec(s0, []) == s0 && [] + [Reserve(q2)] == [Reserve(q2)];
    RunsSnoc(s0, [], Reserve(q2));
    RunsSnoc(s0, [Reserve(q2)], Enqueue(0));
    RunsSnoc(s0, [Reserve(q2)] + [Enqueue(0)], Transmit);
    RunsSnoc(s0, [Reserve(q2)] + [Enqueue(0)] + [Transmit], PubRecIn(2));
  }

  /** A broker that withholds PUBCOMP: the next PUBREC finds `outgoing_rel` full, and the client panics. */
  lemma WithheldPubCompPanics()
    ensures exists es, s :: Reached(1, 1, es, s) && Enabled(s, PubRecIn(3)) && Panics(s, PubRecIn(3))
  {
    var q2 := Publishing(ExactlyOnce);
    var es := [Reserve(q2)] + [Enqueue(0)] + [Transmit] + [PubRecIn(2)];
    ReachOneReleased(q2, es);
    var s5 := Apply(OneReleased(), Reserve(q2));
    var s6 := Apply(s5, Enqueue(0));
    assert s5.senders == [Sender(3, q2)] && s6.inflight == {3} && s6.rel == {2};
    RunsSnoc(Init(1, 1), es, Reserve(q2));
    RunsSnoc(Init(1, 1), es + [Reserve(q2)], Enqueue(0));
    assert Reached(1, 1, es + [Reserve(q2)] + [Enqueue(0)], s6);
  }

  // ---- incoming QoS 2 messages ----

  function NextOpen(open: set<int>, e: Event): set<int> {
    match e
    case PublishIn(pid) => open + {pid}
    case PubRelIn(pid) => open - {pid}
    case Reset => {}
    case _ => open
  }

  /** The exchanges open since the last reset: QoS 2 messages buffered by the client and not yet released. */
  function OpenAfter(open: set<int>, es: seq<Event>): set<int>
    decreases |es|
  {
    if es == [] then open else OpenAfter(NextOpen(open, es[0]), es[1..])
  }

  /** `incoming_pub` holds exactly the open exchanges, over every run. */
  lemma {:induction false} IncomingIsOpen(s: State, es: seq<Event>)
    requires Runs(s, es)
    ensures Exec(s, es).incoming == OpenAfter(s.incoming, es)
    decreases |es|
  {
    if es != [] {
      assert Apply(s, es[0]).incoming == NextOpen(s.incoming, es[0]);
      IncomingIsOpen(Apply(s, es[0]), es[1..]);
    }
  }

  lemma FullIffTooMany(a: set<int>, x: int, cap: nat)
    requires |a| <= cap
    ensures FullFor(a, x, cap) <==> |a + {x}| > cap
  {
  }

  /**
   An incoming QoS 2 message meets a full `incoming_pub` if and only if, counting it, more than
   `maxInflight` messages are buffered and not yet released since the last reset. CONNECT announces no
   Receive Maximum, so the broker may go beyond (section 3.1.2.11.3 of MQTT 5.0).
   */
  lemma {:induction false} IncomingPanicsIff(
      maxInflight: nat, maxAcks: nat, es: seq<Event>, s: State, pid: int)
    requires Reached(maxInflight, maxAcks, es, s) && Enabled(s, PublishIn(pid))
    ensures Panics(s, PublishIn(pid)) <==> |OpenAfter({}, es) + {pid}| > maxInflight
  {
    ReachedIsValid(maxInflight, maxAcks, es, s);
    IncomingIsOpen(Init(maxInflight, maxAcks), es);
    FullIffTooMany(s.incoming, pid, maxInflight);
  }

  /** One place, two open exchanges. */
  lemma TwoOpenExchangesPanic()
    ensures exists es, s :: Reached(1, 1, es, s) && Enabled(s, PublishIn(6)) && Panics(s, PublishIn(6))
  {
    var s0 := Init(1, 1);
    assert Runs(s0, []) && Exec(s0, []) == s0;
    RunsSnoc(s0, [], PublishIn(5));
    var s1 := Apply(s0, PublishIn(5));
    assert s1.incoming == {5};
    assert Reached(1, 1, [] + [PublishIn(5)], s1);
  }
}
