/** The properties of the channel as statements about whole runs from a fresh channel. */
module ChannelTheorems {
  import opened Base
  import opened Ring
  import opened Channel
  import opened ChannelSafety
  import opened ChannelReads

  /** `c` is where the run `es` leads from a fresh channel. */
  ghost predicate Reached(init: Chan, es: seq<Event>, c: Chan) {
    init == Init(|init.buf|, init.slots, init.maxSubs) && c == Exec(init, es)
  }

  lemma ReachedIsSafe(init: Chan, es: seq<Event>, c: Chan)
    requires Reached(init, es, c)
    ensures Safe(c)
    ensures |c.buf| == |init.buf| && c.slots == init.slots && c.maxSubs == init.maxSubs
  {
    InitIsSafe(|init.buf|, init.slots, init.maxSubs);
    RunKeepsSafe(init, es);
  }

  /** Queued frames and the outstanding write grant lie in the buffer and never overlap. */
  lemma RingGeometry(init: Chan, es: seq<Event>, c: Chan)
    requires Reached(init, es, c)
    ensures forall i :: 0 <= i < |c.msgs| ==> c.msgs[i].at.End() <= |c.buf|
    ensures forall i, j :: 0 <= i < j < |c.msgs| ==> Disjoint(c.msgs[i].at, c.msgs[j].at)
    ensures c.write.Some? ==> c.write.value.End() <= |c.buf|
    ensures c.write.Some? ==> forall i :: 0 <= i < |c.msgs| ==> Disjoint(c.msgs[i].at, c.write.value)
  {
    ReachedIsSafe(init, es, c);
    var rs := Regions(c);
    assert forall i :: 0 <= i < |c.msgs| ==> rs[i] == c.msgs[i].at;
    assert c.write.Some? ==> rs[|c.msgs|] == c.write.value;
    forall i, j | 0 <= i < j < |rs| ensures Disjoint(rs[i], rs[j]) {
      RingOrderedIsDisjoint(|c.buf|, rs, i, j);
    }
    forall i, j | 0 <= i < j < |c.msgs| ensures Disjoint(c.msgs[i].at, c.msgs[j].at) {
      assert Disjoint(rs[i], rs[j]);
    }
    forall i | c.write.Some? && 0 <= i < |c.msgs| ensures Disjoint(c.msgs[i].at, c.write.value) {
      assert Disjoint(rs[i], rs[|c.msgs|]);
    }
  }

  /** Queued ids are the contiguous range below `next_message_id`, and no commit is refused a slot. */
  lemma IdsAreContiguous(init: Chan, es: seq<Event>, c: Chan, used: nat, pid: nat)
    requires Reached(init, es, c)
    ensures 0 <= StartId(c) && forall i :: 0 <= i < |c.msgs| ==> c.msgs[i].id == c.nextId - |c.msgs| + i
    ensures c.write.Some? && |c.cursors| > 0 ==>
      AfterCommit(c, used, pid).msgs == c.msgs + [CommittedHeader(c, used, pid)]
  {
    ReachedIsSafe(init, es, c);
  }

  /** Counters never go below the readers still to come, so no decrement underflows the `u8`. */
  lemma CountersNeverUnderflow(init: Chan, es: seq<Event>, c: Chan)
    requires Reached(init, es, c) && init.maxSubs < 256
    ensures |c.cursors| < 256
    ensures forall i :: 0 <= i < |c.msgs| ==>
      0 <= |Owing(c.cursors, c.msgs[i].id)| <= c.msgs[i].owed < 256
    ensures forall s :: s in c.cursors && ReadOutcome(c, s).Ok? ==> c.msgs[ReadOutcome(c, s).value].owed >= 1
    ensures forall s, i :: s in c.cursors && 0 <= i < |c.msgs| && c.cursors[s] - StartId(c) <= i ==> c.msgs[i].owed >= 1
  {
    ReachedIsSafe(init, es, c);
    forall s, i | s in c.cursors && 0 <= i < |c.msgs| && c.cursors[s] - StartId(c) <= i
      ensures c.msgs[i].owed >= 1
    {
      assert s in Owing(c.cursors, c.msgs[i].id);
    }
    forall s | s in c.cursors && ReadOutcome(c, s).Ok?
      ensures c.msgs[ReadOutcome(c, s).value].owed >= 1
    {
      assert c.cursors[s] - StartId(c) <= ReadOutcome(c, s).value;
    }
  }

  /** Without lagged departures the counters are exact, and nondecreasing along the queue. */
  lemma CountersAreExact(init: Chan, es: seq<Event>, c: Chan)
    requires Reached(init, es, c) && Along(NoLaggedLeave, init, es)
    ensures forall i :: 0 <= i < |c.msgs| ==> c.msgs[i].owed == |Owing(c.cursors, c.msgs[i].id)|
    ensures forall i, j :: 0 <= i <= j < |c.msgs| ==> c.msgs[i].owed <= c.msgs[j].owed
  {
    ReachedIsSafe(init, es, c);
    InitIsSafe(|init.buf|, init.slots, init.maxSubs);
    RunKeepsExact(init, es);
    forall i, j | 0 <= i <= j < |c.msgs| ensures c.msgs[i].owed <= c.msgs[j].owed {
      OwingGrows(c.cursors, c.msgs[i].id, c.msgs[j].id);
    }
  }

  /** A frame under read stays queued, marked and clear of the writer. */
  lemma ReadGrantsAreStable(init: Chan, es: seq<Event>, c: Chan, id: int)
    requires Reached(init, es, c) && Along(GentleToReaders, init, es) && id in c.held
    ensures exists i :: 0 <= i < |c.msgs| && c.msgs[i].id == id && c.msgs[i].reading && c.msgs[i].at == c.held[id].at
    ensures c.write.Some? ==> Disjoint(c.held[id].at, c.write.value)
  {
    ReachedIsSafe(init, es, c);
    InitIsSafe(|init.buf|, init.slots, init.maxSubs);
    RunKeepsStable(init, es);
    StableGrantIsUntouched(c, id);
  }

  /** Every queued frame is wanted or being read; when nothing is, the channel is empty and whole. */
  lemma Reclamation(init: Chan, es: seq<Event>, c: Chan)
    requires Reached(init, es, c) && Along(Orderly, init, es)
    ensures forall i :: 0 <= i < |c.msgs| ==>
      c.msgs[i].id in c.held || exists s :: s in c.cursors && c.cursors[s] <= c.msgs[i].id
    ensures c.held == map[] && (forall s :: s in c.cursors ==> c.cursors[s] == c.nextId) ==>
      c.msgs == [] && FreeSpace(|c.buf|, Spans(c.msgs)) == |init.buf|
  {
    ReachedIsSafe(init, es, c);
    InitIsSafe(|init.buf|, init.slots, init.maxSubs);
    RunKeepsTidy(init, es);
    forall i | 0 <= i < |c.msgs|
      ensures c.msgs[i].id in c.held || exists s :: s in c.cursors && c.cursors[s] <= c.msgs[i].id
    {
      QueuedMeansWanted(c, i);
    }
    if c.held == map[] && forall s :: s in c.cursors ==> c.cursors[s] == c.nextId {
      TidyChannelDrains(c);
    }
  }

  // ---- forced eviction ----

  /** What the eviction loop waits for: enough contiguous bytes and a free slot. */
  predicate Roomy(capacity: nat, slots: nat, msgs: seq<Header>, size: nat) {
    size <= FreeSpace(capacity, Spans(msgs)) && |msgs| != slots
  }

  /** Whatever is evicted was in the way: room was still short before it went, and nobody was reading it. */
  lemma {:induction false} EvictsOnlyWhenShort(capacity: nat, slots: nat, msgs: seq<Header>, size: nat, j: nat)
    requires j < EvictCount(capacity, slots, msgs, size)
    ensures !Roomy(capacity, slots, msgs[j..], size) && !msgs[j].reading
    decreases j
  {
    if j == 0 {
      assert msgs[0..] == msgs;
    } else {
      EvictsOnlyWhenShort(capacity, slots, msgs[1..], size, j - 1);
      assert msgs[1..][j - 1..] == msgs[j..];
    }
  }

  /** Eviction ends with enough room, at a frame under read, or with an empty queue. */
  lemma {:induction false} EvictionStops(capacity: nat, slots: nat, msgs: seq<Header>, size: nat, k: nat)
    requires k == EvictCount(capacity, slots, msgs, size)
    ensures k == |msgs| || Roomy(capacity, slots, msgs[k..], size) || msgs[k].reading
    decreases |msgs|
  {
    if k == 0 {
      assert msgs[0..] == msgs;
    } else {
      var rest := msgs[1..];
      EvictionStops(capacity, slots, rest, size, k - 1);
      assert rest[k - 1..] == msgs[k..];
    }
  }

  lemma QueueNeverOverstatesSpace(c: Chan)
    requires Safe(c)
    ensures FreeSpace(|c.buf|, Spans(c.msgs)) <= |c.buf|
  {
    if c.msgs != [] {
      assert Regions(c)[0] == c.msgs[0].at;
    }
  }

  /**
   `grant_immediate` evicts the same prefix whether or not it can succeed. With a write pending it
   always fails. Otherwise, for a size the buffer can hold it succeeds unless it met a frame under
   read while still short of room; for a larger size it has emptied the queue up to the first frame
   under read and fails all the same.
   */
  lemma GrantImmediateOutcome(c: Chan, size: nat)
    requires Safe(c) && c.slots > 0
    ensures var d := AfterEvict(c, size);
            && d == c.(msgs := c.msgs[EvictCount(|c.buf|, c.slots, c.msgs, size)..])
            && (c.write.Some? ==> GrantOutcome(d, size) == Err(GrantInProgress))
            && (c.write.None? ==> (GrantOutcome(d, size).Ok? <==> Roomy(|c.buf|, c.slots, d.msgs, size)))
            && (c.write.None? && size <= |c.buf| ==>
                  GrantOutcome(d, size).Ok? || (d.msgs != [] && d.msgs[0].reading))
            && (size > |c.buf| ==> GrantOutcome(d, size).Err? && (d.msgs == [] || d.msgs[0].reading))
  {
    var d, k := AfterEvict(c, size), EvictCount(|c.buf|, c.slots, c.msgs, size);
    EvictionStops(|c.buf|, c.slots, c.msgs, size, k);
    DropFrontKeepsSafe(c, k);
    QueueNeverOverstatesSpace(d);
  }

  // ---- what happens outside the disciplines ----

  lemma {:induction false} ExecSnoc(c: Chan, es: seq<Event>, e: Event)
    ensures Exec(c, es + [e]) == Apply(Exec(c, es), e)
    decreases |es|
  {
    if es == [] {
      assert es + [e] == [e];
    } else {
      ExecSnoc(Apply(c, es[0]), es[1..], e);
      assert (es + [e])[1..] == es[1..] + [e];
    }
  }

  /** Two subscribers, one published frame of four bytes in a channel of eight, read by the first. */
  function TwoReadersOneFrame(): Chan {
    Chan(seq(8, _ => 0), [Header(Region(0, 4), 0, 1, true, 0)], None, 1, map[0 := 1, 1 := 0],
         map[0 := ReadGrant(Region(0, 4), 0)], true, 2, 4, 4)
  }

  lemma {:induction false} ReachTwoReadersOneFrame(init: Chan, es: seq<Event>)
    requires init == Init(8, 4, 4)
    requires es == [Join, Join, TakePublisher, Grant(4), Commit(4, 0), Read(0)]
    ensures Exec(init, es) == TwoReadersOneFrame()
  {
    var r1 := [Join];
    var r2 := r1 + [Join];
    var r3 := r2 + [TakePublisher];
    var r4 := r3 + [Grant(4)];
    var r5 := r4 + [Commit(4, 0)];
    assert es == r5 + [Read(0)];
    var c1 := Apply(init, Join);
    assert Exec(init, r1) == c1 by { assert r1[1..] == []; }
    assert c1.cursors == map[0 := 0];
    ExecSnoc(init, r1, Join);
    var c2 := Apply(c1, Join);
    assert c2.cursors == map[0 := 0, 1 := 0] && |c2.cursors| == 2;
    ExecSnoc(init, r2, TakePublisher);
    var c3 := Apply(c2, TakePublisher);
    assert c3.buf == TwoReadersOneFrame().buf;
    ExecSnoc(init, r3, Grant(4));
    var c4 := Apply(c3, Grant(4));
    assert c4.write == Some(Region(0, 4));
    ExecSnoc(init, r4, Commit(4, 0));
    var c5 := Apply(c4, Commit(4, 0));
    assert c5.msgs == [Header(Region(0, 4), 0, 2, false, 0)];
    ExecSnoc(init, r5, Read(0));
    var c6 := Apply(c5, Read(0));
    assert c6.msgs == [Header(Region(0, 4), 0, 1, true, 0)];
    assert c6 == TwoReadersOneFrame();
  }

  /** Leaving while another is reading takes the frame away, and the next write grant overlaps the reader. */
  lemma {:induction false} CarelessLeaveOverlapsReader(init: Chan, es: seq<Event>)
    requires init == Init(8, 4, 4)
    requires es == [Join, Join, TakePublisher, Grant(4), Commit(4, 0), Read(0)]
    ensures var d := Exec(init, es + [Leave(1)] + [Grant(8)]);
            0 in d.held && d.write.Some? && !Disjoint(d.held[0].at, d.write.value)
  {
    ReachTwoReadersOneFrame(init, es);
    ExecSnoc(init, es, Leave(1));
    ExecSnoc(init, es + [Leave(1)], Grant(8));
    var c := TwoReadersOneFrame();
    var settled := Settle(c.msgs, 0);
    assert settled == [Header(Region(0, 4), 0, 0, true, 0)];
    assert PaidCount(settled) == 1;
    var d := Apply(c, Leave(1));
    assert d.msgs == [];
    assert Apply(d, Grant(8)).write == Some(Region(0, 8));
  }

  // ---- frames that are never reclaimed ----

  /** Nobody holds a grant and nobody has anything left to read, yet a frame is queued. */
  predicate Stuck(c: Chan) {
    c.held == map[] && (forall s :: s in c.cursors ==> c.cursors[s] == c.nextId) && c.msgs != []
  }

  /** One subscriber with both of its two frames under read. */
  function TwoFramesUnderRead(): Chan {
    Chan(seq(8, _ => 0), [Header(Region(0, 1), 0, 0, true, 0), Header(Region(1, 1), 1, 0, true, 0)], None, 2,
         map[0 := 2], map[0 := ReadGrant(Region(0, 1), 0), 1 := ReadGrant(Region(1, 1), 0)], true, 1, 4, 1)
  }

  /** One subscriber with two frames to read. */
  function TwoFramesQueued(): Chan {
    Chan(seq(8, _ => 0), [Header(Region(0, 1), 0, 1, false, 0), Header(Region(1, 1), 1, 1, false, 0)], None, 2,
         map[0 := 0], map[], true, 1, 4, 1)
  }

  lemma {:induction false} ReachTwoFramesQueued(init: Chan, es: seq<Event>)
    requires init == Init(8, 4, 1)
    requires es == [Join] + [TakePublisher] + [Grant(1)] + [Commit(1, 0)] + [Grant(1)] + [Commit(1, 0)]
    ensures Exec(init, es) == TwoFramesQueued()
  {
    var r1 := [Join];
    var r2 := r1 + [TakePublisher];
    var r3 := r2 + [Grant(1)];
    var r4 := r3 + [Commit(1, 0)];
    var r5 := r4 + [Grant(1)];
    var c1 := Apply(init, Join);
    assert Exec(init, r1) == c1 by { assert r1[1..] == []; }
    assert c1.cursors == map[0 := 0] && |c1.cursors| == 1;
    ExecSnoc(init, r1, TakePublisher);
    var c2 := Apply(c1, TakePublisher);
    ExecSnoc(init, r2, Grant(1));
    var c3 := Apply(c2, Grant(1));
    assert c3.write == Some(Region(0, 1));
    ExecSnoc(init, r3, Commit(1, 0));
    var c4 := Apply(c3, Commit(1, 0));
    assert c4.msgs == [Header(Region(0, 1), 0, 1, false, 0)];
    ExecSnoc(init, r4, Grant(1));
    var c5 := Apply(c4, Grant(1));
    assert c5.write == Some(Region(1, 1));
    ExecSnoc(init, r5, Commit(1, 0));
    assert Apply(c5, Commit(1, 0)).msgs == TwoFramesQueued().msgs;
    assert c5.buf == TwoFramesQueued().buf;
  }

  /** The first of them read. */
  function OneFrameUnderRead(): Chan {
    Chan(seq(8, _ => 0), [Header(Region(0, 1), 0, 0, true, 0), Header(Region(1, 1), 1, 1, false, 0)], None, 2,
         map[0 := 1], map[0 := ReadGrant(Region(0, 1), 0)], true, 1, 4, 1)
  }

  lemma ReadFirst()
    ensures Apply(TwoFramesQueued(), Read(0)) == OneFrameUnderRead()
  {
    assert Apply(TwoFramesQueued(), Read(0)).msgs == OneFrameUnderRead().msgs;
  }

  lemma ReadSecond()
    ensures Apply(OneFrameUnderRead(), Read(0)) == TwoFramesUnderRead()
  {
    var c, d := OneFrameUnderRead(), TwoFramesUnderRead();
    assert StartId(c) == 0 && CaughtUp(c, 0) == 1 && ReadOutcome(c, 0) == Ok(1);
    assert c.msgs[1 := c.msgs[1].(owed := 0, reading := true)] == d.msgs;
    assert c.held[1 := ReadGrant(Region(1, 1), 0)] == d.held;
    assert c.cursors[0 := 2] == d.cursors;
  }

  lemma {:induction false} ReachTwoFramesUnderRead(init: Chan, es: seq<Event>)
    requires Exec(init, es) == TwoFramesQueued()
    ensures Exec(init, es + [Read(0)] + [Read(0)]) == TwoFramesUnderRead()
  {
    ReadFirst();
    ReadSecond();
    ExecSnoc(init, es, Read(0));
    ExecSnoc(init, es + [Read(0)], Read(0));
  }

  lemma {:induction false} OutOfOrderReleases(init: Chan, es: seq<Event>)
    requires Exec(init, es) == TwoFramesUnderRead()
    ensures Stuck(Exec(init, es + [Release(1)] + [Release(0)]))
  {
    var c := TwoFramesUnderRead();
    assert Find(c.msgs, 1) == 1;
    var c1 := Apply(c, Release(1));
    assert c1.msgs == [c.msgs[0], Header(Region(1, 1), 1, 0, false, 0)] && c1.held == map[0 := c.held[0]];
    var c2 := Apply(c1, Release(0));
    assert c2.msgs == c1.msgs[1..] && c2.held == map[] && c2.cursors == map[0 := 2];
    ExecSnoc(init, es, Release(1));
    ExecSnoc(init, es + [Release(1)], Release(0));
  }

  /** Two grants at once, the later frame released first: it is paid up but never popped. */
  lemma {:induction false} ReleaseBehindFrontStrands(init: Chan, es: seq<Event>)
    requires init == Init(8, 4, 1)
    requires es == [Join] + [TakePublisher] + [Grant(1)] + [Commit(1, 0)] + [Grant(1)] + [Commit(1, 0)]
    ensures Stuck(Exec(init, es + [Read(0)] + [Read(0)] + [Release(1)] + [Release(0)]))
  {
    ReachTwoFramesQueued(init, es);
    ReachTwoFramesUnderRead(init, es);
    OutOfOrderReleases(init, es + [Read(0)] + [Read(0)]);
  }

  /** Two subscribers that have missed an evicted frame, with another one queued. */
  function BothLagging(): Chan {
    Chan(seq(8, _ => 0), [Header(Region(0, 8), 1, 2, false, 0)], None, 2, map[0 := 0, 1 := 0], map[], true, 2, 4, 2)
  }

  /** The same before the eviction. */
  function FullForTwo(): Chan {
    BothLagging().(msgs := [Header(Region(0, 8), 0, 2, false, 0)], nextId := 1)
  }

  lemma {:induction false} ReachFullForTwo(init: Chan, es: seq<Event>)
    requires init == Init(8, 4, 2) && es == [Join] + [Join] + [TakePublisher] + [Grant(8)] + [Commit(8, 0)]
    ensures Exec(init, es) == FullForTwo()
  {
    var r1 := [Join];
    var r2 := r1 + [Join];
    var r3 := r2 + [TakePublisher];
    var c1 := Apply(init, Join);
    assert Exec(init, r1) == c1 by { assert r1[1..] == []; }
    ExecSnoc(init, r1, Join);
    var c2 := Apply(c1, Join);
    assert c2.cursors == map[0 := 0, 1 := 0] && |c2.cursors| == 2;
    ExecSnoc(init, r2, TakePublisher);
    ExecSnoc(init, r3, Grant(8));
    var c4 := Apply(Apply(c2, TakePublisher), Grant(8));
    assert c4.write == Some(Region(0, 8)) && c4.buf == FullForTwo().buf;
    ExecSnoc(init, r3 + [Grant(8)], Commit(8, 0));
    assert Apply(c4, Commit(8, 0)).msgs == FullForTwo().msgs;
  }

  lemma {:induction false} ReachBothLagging(init: Chan, es: seq<Event>)
    requires Exec(init, es) == FullForTwo()
    ensures Exec(init, es + [Evict(8)] + [Grant(8)] + [Commit(8, 0)]) == BothLagging()
  {
    var c := FullForTwo();
    assert |c.cursors| == 2;
    assert FreeSpace(8, Spans(c.msgs)) == 0 && Spans(c.msgs[1..]) == [];
    assert EvictCount(8, 4, c.msgs[1..], 8) == 0 && EvictCount(8, 4, c.msgs, 8) == 1;
    var c1 := Apply(c, Evict(8));
    assert c1.msgs == [];
    var c2 := Apply(c1, Grant(8));
    assert c2.write == Some(Region(0, 8));
    assert Apply(c2, Commit(8, 0)).msgs == BothLagging().msgs;
    ExecSnoc(init, es, Evict(8));
    ExecSnoc(init, es + [Evict(8)], Grant(8));
    ExecSnoc(init, es + [Evict(8)] + [Grant(8)], Commit(8, 0));
  }

  lemma {:induction false} LaggedDeparture(init: Chan, es: seq<Event>)
    requires Exec(init, es) == BothLagging()
    ensures Stuck(Exec(init, es + [Read(1)] + [Release(1)] + [Leave(0)]))
  {
    var c := BothLagging();
    var c1 := Apply(c, Read(1));
    assert c1.msgs == [Header(Region(0, 8), 1, 1, true, 0)] && c1.cursors == map[0 := 0, 1 := 2];
    var c2 := Apply(c1, Release(1));
    assert c2.msgs == [Header(Region(0, 8), 1, 1, false, 0)] && c2.held == map[];
    var c3 := Apply(c2, Leave(0));
    assert c3.msgs == c2.msgs && c3.cursors == map[1 := 2];
    ExecSnoc(init, es, Read(1));
    ExecSnoc(init, es + [Read(1)], Release(1));
    ExecSnoc(init, es + [Read(1)] + [Release(1)], Leave(0));
  }

  /** A lagged subscriber is dropped: the frame it still counted for is wanted by nobody and stays. */
  lemma {:induction false} LaggedLeaveStrands(init: Chan, es: seq<Event>)
    requires init == Init(8, 4, 2) && es == [Join] + [Join] + [TakePublisher] + [Grant(8)] + [Commit(8, 0)]
    ensures Stuck(Exec(init, es + [Evict(8)] + [Grant(8)] + [Commit(8, 0)] + [Read(1)] + [Release(1)] + [Leave(0)]))
  {
    ReachFullForTwo(init, es);
    ReachBothLagging(init, es);
    LaggedDeparture(init, es + [Evict(8)] + [Grant(8)] + [Commit(8, 0)]);
  }
}
