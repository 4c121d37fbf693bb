/**
 Properties of the channel that need a discipline on the run.  Each discipline
 is a predicate on a single step; where it is exact, the step lemma says so.
 */
module ChannelReads {
  import opened Base
  import opened Ring
  import opened Channel
  import opened ChannelSafety

  // ---- exact counting ----

  ghost predicate Exact(c: Chan) {
    forall i :: 0 <= i < |c.msgs| ==> c.msgs[i].owed == |Owing(c.cursors, c.msgs[i].id)|
  }

  predicate NoLaggedLeave(c: Chan, e: Event) {
    e.Leave? && e.sub in c.cursors ==> StartId(c) <= c.cursors[e.sub]
  }

  /** A departure keeps the counts exact unless the subscriber was lagged and frames are queued. */
  lemma LeaveKeepsExactIff(c: Chan, s: SubId)
    requires Safe(c) && Exact(c) && s in c.cursors
    ensures Exact(AfterLeave(c, s)) <==> StartId(c) <= c.cursors[s] || c.msgs == []
  {
    var d := Settled(c, s);
    forall i | 0 <= i < |c.msgs|
      ensures |Owing(d.cursors, c.msgs[i].id)| == c.msgs[i].owed - if c.cursors[s] <= c.msgs[i].id then 1 else 0
    {
      OwingLeft(c.cursors, s, c.msgs[i].id);
    }
    if c.cursors[s] < StartId(c) && c.msgs != [] {
      assert AfterLeave(c, s).msgs[0] == c.msgs[0];
    }
  }

  lemma JoinKeepsExact(c: Chan)
    requires Ids(c) && Cursors(c) && Exact(c)
    ensures Exact(AfterJoin(c))
  {
    forall i | 0 <= i < |c.msgs|
      ensures Owing(c.cursors[c.nextSub := c.nextId], c.msgs[i].id) == Owing(c.cursors, c.msgs[i].id)
    {
      OwingJoined(c.cursors, c.nextSub, c.nextId, c.msgs[i].id);
    }
  }

  lemma CommitKeepsExact(c: Chan, used: nat, pid: nat)
    requires Cursors(c) && Exact(c) && c.write.Some?
    ensures Exact(AfterCommit(c, used, pid))
  {
    OwingAll(c.cursors, c.nextId);
  }

  lemma OthersKeepExact(c: Chan, e: Event)
    requires Exact(c) && Enabled(c, e) && !e.Join? && !e.Commit? && !e.Read? && !e.Leave?
    ensures Exact(Apply(c, e))
  {
  }

  lemma StepKeepsExact(c: Chan, e: Event)
    requires Safe(c) && Exact(c) && NoLaggedLeave(c, e)
    ensures Exact(Apply(c, e))
  {
    if Enabled(c, e) {
      match e
      case Join => JoinKeepsExact(c);
      case Commit(used, pid) => CommitKeepsExact(c, used, pid);
      case Read(s) => ReadKeepsExact(c, s);
      case Leave(s) => LeaveKeepsExactIff(c, s);
      case _ => OthersKeepExact(c, e);
    }
  }

  lemma ReadKeepsExact(c: Chan, s: SubId)
    requires Safe(c) && Exact(c) && s in c.cursors
    ensures Exact(AfterRead(c, s))
  {
    var d := AfterRead(c, s);
    forall i | 0 <= i < |c.msgs|
      ensures d.msgs[i].owed == |Owing(d.cursors, d.msgs[i].id)|
    {
      OwingMoved(c.cursors, s, d.cursors[s], c.msgs[i].id);
    }
  }

  lemma {:induction false} RunKeepsExact(c: Chan, es: seq<Event>)
    requires Safe(c) && Exact(c) && Along(NoLaggedLeave, c, es)
    ensures Exact(Exec(c, es))
    decreases |es|
  {
    if es != [] {
      StepKeepsSafe(c, es[0]);
      StepKeepsExact(c, es[0]);
      RunKeepsExact(Apply(c, es[0]), es[1..]);
    }
  }

  // ---- frames being read stay put ----

  /** Every frame with a live read grant is still queued. */
  ghost predicate Stable(c: Chan) {
    forall id :: id in c.held ==> StartId(c) <= id
  }

  /** Somebody other than `s` has still to read message `id`. */
  predicate OwedByOther(c: Chan, s: SubId, id: int) {
    exists t :: t in c.cursors && t != s && c.cursors[t] <= id
  }

  /** No departure that leaves a frame under read to nobody, and no `clear` during a read. */
  predicate GentleToReaders(c: Chan, e: Event) {
    match e
    case Leave(s) => s in c.cursors && StartId(c) <= c.cursors[s] ==>
        forall id :: id in c.held ==> OwedByOther(c, s, id)
    case Clear => c.held == map[]
    case _ => true
  }

  lemma LeaveKeepsStable(c: Chan, s: SubId)
    requires Safe(c) && Stable(c) && s in c.cursors && GentleToReaders(c, Leave(s))
    ensures Stable(AfterLeave(c, s))
  {
    if StartId(c) <= c.cursors[s] {
      SettleKeepsSafe(c, s);
      var d := Settled(c, s);
      forall id | id in c.held ensures StartId(AfterLeave(c, s)) <= id {
        assert OwedByOther(c, s, id);
        var t :| t in c.cursors && t != s && c.cursors[t] <= id;
        var i := id - StartId(c);
        assert d.msgs[i].id == id && t in Owing(d.cursors, id);
        assert d.msgs[i].owed > 0;
      }
    }
  }

  /** With exact counts the discipline is also necessary: the drop takes the frame away otherwise. */
  lemma LeaveKeepsStableIff(c: Chan, s: SubId)
    requires Safe(c) && Exact(c) && Stable(c) && s in c.cursors
    ensures Stable(AfterLeave(c, s)) <==> GentleToReaders(c, Leave(s))
  {
    if GentleToReaders(c, Leave(s)) {
      LeaveKeepsStable(c, s);
    } else {
      var id :| id in c.held && !OwedByOther(c, s, id);
      LeaveKeepsExactIff(c, s);
      SettleKeepsSafe(c, s);
      var d, i := Settled(c, s), id - StartId(c);
      assert d.msgs[i].id == id;
      forall j | 0 <= j <= i ensures d.msgs[j].owed == 0 {
        OwingLeft(c.cursors, s, c.msgs[j].id);
        assert Owing(d.cursors, d.msgs[j].id) == {};
      }
      assert PaidCount(d.msgs) > i;
    }
  }

  /** `grant_immediate` never evicts a frame under read. */
  lemma {:induction false} EvictedAreIdle(capacity: nat, slots: nat, msgs: seq<Header>, size: nat)
    ensures forall i :: 0 <= i < EvictCount(capacity, slots, msgs, size) ==> !msgs[i].reading
    decreases |msgs|
  {
    var k := EvictCount(capacity, slots, msgs, size);
    if k > 0 {
      EvictedAreIdle(capacity, slots, msgs[1..], size);
      forall i | 0 <= i < k ensures !msgs[i].reading {
        if i > 0 { assert msgs[i] == msgs[1..][i - 1]; }
      }
    }
  }

  lemma ReadKeepsStable(c: Chan, s: SubId)
    requires Safe(c) && Stable(c) && s in c.cursors
    ensures Stable(AfterRead(c, s))
  {
  }

  lemma ReleaseKeepsStable(c: Chan, id: int)
    requires Safe(c) && Stable(c) && id in c.held
    ensures Stable(AfterRelease(c, id))
  {
    var d := AfterRelease(c, id);
    forall other | other in d.held ensures StartId(d) <= other {
      if |d.msgs| < |c.msgs| {
        assert c.msgs[0].id == id == StartId(c);
      }
    }
  }

  lemma StepKeepsStable(c: Chan, e: Event)
    requires Safe(c) && Stable(c) && GentleToReaders(c, e)
    ensures Stable(Apply(c, e))
  {
    if Enabled(c, e) {
      match e
      case Evict(n) =>
        EvictedAreIdle(|c.buf|, c.slots, c.msgs, n);
        var k := EvictCount(|c.buf|, c.slots, c.msgs, n);
        forall id | id in c.held ensures StartId(c) + k <= id {
          assert c.msgs[id - StartId(c)].id == id;
        }
      case Read(s) => ReadKeepsStable(c, s);
      case Release(id) => ReleaseKeepsStable(c, id);
      case Leave(s) => LeaveKeepsStable(c, s);
      case _ =>
    }
  }

  /** A stable grant denotes a queued, marked frame, and no write grant overlaps it. */
  lemma StableGrantIsUntouched(c: Chan, id: int)
    requires Safe(c) && Stable(c) && id in c.held
    ensures 0 <= id - StartId(c) < |c.msgs|
    ensures var h := c.msgs[id - StartId(c)]; h.id == id && h.reading && h.at == c.held[id].at
    ensures c.held[id].at.End() <= |c.buf|
    ensures c.write.Some? ==> Disjoint(c.held[id].at, c.write.value)
  {
    var i := id - StartId(c);
    assert c.msgs[i].id == id;
    assert Regions(c)[i] == c.msgs[i].at;
    if c.write.Some? {
      assert Regions(c)[|c.msgs|] == c.write.value;
      RingOrderedIsDisjoint(|c.buf|, Regions(c), i, |c.msgs|);
    }
  }

  lemma {:induction false} RunKeepsStable(c: Chan, es: seq<Event>)
    requires Safe(c) && Stable(c) && Along(GentleToReaders, c, es)
    ensures Stable(Exec(c, es))
    decreases |es|
  {
    if es != [] {
      StepKeepsSafe(c, es[0]);
      StepKeepsStable(c, es[0]);
      RunKeepsStable(Apply(c, es[0]), es[1..]);
    }
  }

  // ---- reclamation ----

  /** While a grant on a queued frame is held, its live holder has read nothing further. */
  ghost predicate HoldersWait(c: Chan) {
    forall id :: id in c.held ==>
      && c.held[id].holder < c.nextSub
      && (StartId(c) <= id && c.held[id].holder in c.cursors ==> c.cursors[c.held[id].holder] == id + 1)
  }

  /** A frame nobody owes is being read by a live subscriber. */
  ghost predicate NoneStranded(c: Chan) {
    forall i :: 0 <= i < |c.msgs| && c.msgs[i].owed == 0 ==>
      c.msgs[i].id in c.held && c.held[c.msgs[i].id].holder in c.cursors
  }

  ghost predicate Tidy(c: Chan) {
    Exact(c) && HoldersWait(c) && NoneStranded(c)
  }

  predicate HoldsNothing(c: Chan, s: SubId) {
    forall id :: id in c.held ==> c.held[id].holder != s
  }

  /** One read grant per subscriber at a time, grants are released, no lagged departures. */
  predicate Orderly(c: Chan, e: Event) {
    && NoLaggedLeave(c, e)
    && !e.Leak?
    && (e.Read? ==> HoldsNothing(c, e.sub))
  }

  /** Whoever reads the front has not passed the frames behind it, so only the front can be paid up. */
  lemma FramesBehindFrontAreOwed(c: Chan, i: nat)
    requires Safe(c) && Tidy(c) && 0 < i < |c.msgs|
    ensures c.msgs[i].owed > 0
  {
    if c.msgs[0].owed == 0 {
      assert c.held[c.msgs[0].id].holder in Owing(c.cursors, c.msgs[i].id);
    } else {
      OwingGrows(c.cursors, c.msgs[0].id, c.msgs[i].id);
    }
  }

  lemma ReleaseKeepsTidy(c: Chan, id: int)
    requires Safe(c) && Tidy(c) && id in c.held
    ensures Tidy(AfterRelease(c, id))
  {
    var d := AfterRelease(c, id);
    if 0 < Find(c.msgs, id) < |c.msgs| {
      FramesBehindFrontAreOwed(c, Find(c.msgs, id));
    }
    assert StartId(c) <= StartId(d);
    forall j | 0 <= j < |d.msgs| && d.msgs[j].owed == 0
      ensures d.msgs[j].id in d.held && d.held[d.msgs[j].id].holder in d.cursors
    {
      assert d.msgs[j].id != id;
    }
  }

  /**
   Where one subscriber may hold several grants, this is exactly what goes
   wrong: a paid-up frame released behind the front is neither popped nor read.
   */
  lemma ReleaseStrandsIff(c: Chan, id: int)
    requires Safe(c) && NoneStranded(c) && id in c.held
    ensures NoneStranded(AfterRelease(c, id)) <==>
            !(0 < Find(c.msgs, id) < |c.msgs| && c.msgs[Find(c.msgs, id)].owed == 0)
  {
    var d, i := AfterRelease(c, id), Find(c.msgs, id);
    if 0 < i < |c.msgs| && c.msgs[i].owed == 0 {
      assert d.msgs[i].id == id && d.msgs[i].owed == 0;
    } else {
      assert forall j :: 0 <= j < |d.msgs| && d.msgs[j].owed == 0 ==> d.msgs[j].id != id;
    }
  }

  lemma ReadKeepsTidy(c: Chan, s: SubId)
    requires Safe(c) && Tidy(c) && s in c.cursors && HoldsNothing(c, s)
    ensures Tidy(AfterRead(c, s))
  {
    ReadKeepsExact(c, s);
    var d := AfterRead(c, s);
    forall i | 0 <= i < |d.msgs| && d.msgs[i].owed == 0
      ensures d.msgs[i].id in d.held && d.held[d.msgs[i].id].holder in d.cursors
    {
      if c.msgs[i].owed == 0 { assert c.msgs[i].id in c.held; }
    }
  }

  lemma LeaveKeepsTidy(c: Chan, s: SubId)
    requires Safe(c) && Tidy(c) && s in c.cursors && StartId(c) <= c.cursors[s]
    ensures Tidy(AfterLeave(c, s))
  {
    LeaveKeepsExactIff(c, s);
    LeaveKeepsSafe(c, s);
    var d := AfterLeave(c, s);
    var settled := Settled(c, s).msgs;
    forall i | 0 <= i < |d.msgs| ensures d.msgs[i].owed > 0 {
      assert d.msgs[0] == settled[PaidCount(settled)];
      OwingGrows(d.cursors, d.msgs[0].id, d.msgs[i].id);
    }
  }

  lemma DropFrontKeepsTidy(c: Chan, n: nat)
    requires Tidy(c) && n <= |c.msgs|
    ensures Tidy(c.(msgs := c.msgs[n..]))
  {
    assert forall i :: 0 <= i < |c.msgs| - n ==> c.msgs[n..][i] == c.msgs[n + i];
  }

  lemma StepKeepsTidy(c: Chan, e: Event)
    requires Safe(c) && Tidy(c) && Orderly(c, e)
    ensures Tidy(Apply(c, e))
  {
    if Enabled(c, e) {
      match e
      case Read(s) => ReadKeepsTidy(c, s);
      case Release(id) => ReleaseKeepsTidy(c, id);
      case Leave(s) => LeaveKeepsTidy(c, s);
      case Evict(n) => DropFrontKeepsTidy(c, EvictCount(|c.buf|, c.slots, c.msgs, n));
      case Clear => DropFrontKeepsTidy(c, |c.msgs|); assert c.msgs[|c.msgs|..] == [];
      case Commit(used, pid) => StepKeepsExact(c, e); CommitKeepsTidy(c, used, pid);
      case Join => StepKeepsExact(c, e);
      case _ =>
    }
  }

  lemma CommitKeepsTidy(c: Chan, used: nat, pid: nat)
    requires Safe(c) && Tidy(c) && c.write.Some? && Exact(AfterCommit(c, used, pid))
    ensures Tidy(AfterCommit(c, used, pid))
  {
    CommitKeepsSafe(c, used, pid);
    var d := AfterCommit(c, used, pid);
    assert StartId(d) == StartId(c);
  }

  lemma {:induction false} RunKeepsTidy(c: Chan, es: seq<Event>)
    requires Safe(c) && Tidy(c) && Along(Orderly, c, es)
    ensures Tidy(Exec(c, es))
    decreases |es|
  {
    if es != [] {
      StepKeepsSafe(c, es[0]);
      StepKeepsTidy(c, es[0]);
      RunKeepsTidy(Apply(c, es[0]), es[1..]);
    }
  }

  /** In a tidy channel every queued frame is wanted by a live subscriber or being read. */
  lemma QueuedMeansWanted(c: Chan, i: nat)
    requires Safe(c) && Tidy(c) && i < |c.msgs|
    ensures c.msgs[i].id in c.held || exists s :: s in c.cursors && c.cursors[s] <= c.msgs[i].id
  {
    if c.msgs[i].owed > 0 {
      var s :| s in Owing(c.cursors, c.msgs[i].id);
    }
  }

  /** Once everybody has caught up and given back what it held, the whole buffer is free again. */
  lemma TidyChannelDrains(c: Chan)
    requires Safe(c) && Tidy(c)
    requires c.held == map[] && forall s :: s in c.cursors ==> c.cursors[s] == c.nextId
    ensures c.msgs == [] && FreeSpace(|c.buf|, Spans(c.msgs)) == |c.buf|
  {
    if c.msgs != [] {
      QueuedMeansWanted(c, 0);
    }
  }

  // ---- a read ends with its release ----

  /** Every frame marked as being read has a live read grant. */
  ghost predicate MarkedAreHeld(c: Chan) {
    forall i :: 0 <= i < |c.msgs| && c.msgs[i].reading ==> c.msgs[i].id in c.held
  }

  /** No grant is dropped with `auto_release(false)`. */
  predicate NoLeak(c: Chan, e: Event) {
    !e.Leak?
  }

  lemma ReleaseClearsMark(c: Chan, id: int)
    requires Safe(c) && MarkedAreHeld(c) && id in c.held
    ensures MarkedAreHeld(AfterRelease(c, id))
  {
    var d, k := AfterRelease(c, id), Find(c.msgs, id);
    forall i | 0 <= i < |d.msgs| && d.msgs[i].reading ensures d.msgs[i].id in d.held {
      var j := if |d.msgs| < |c.msgs| then i + 1 else i;
      assert d.msgs[i].id == c.msgs[j].id && c.msgs[j].reading;
      assert c.msgs[j].id == id ==> k == j;
    }
  }

  lemma DropKeepsMarkedHeld(c: Chan, n: nat)
    requires MarkedAreHeld(c) && n <= |c.msgs|
    ensures MarkedAreHeld(c.(msgs := c.msgs[n..]))
  {
  }

  lemma SettleKeepsMarkedHeld(c: Chan, from: int)
    requires MarkedAreHeld(c)
    ensures MarkedAreHeld(c.(msgs := Settle(c.msgs, from)))
  {
  }

  lemma StepKeepsMarkedHeld(c: Chan, e: Event)
    requires Safe(c) && MarkedAreHeld(c) && NoLeak(c, e)
    ensures MarkedAreHeld(Apply(c, e))
  {
    if Enabled(c, e) {
      match e
      case Release(id) => ReleaseClearsMark(c, id);
      case Leave(s) => LeaveKeepsMarkedHeld(c, s);
      case Evict(n) => DropKeepsMarkedHeld(c, EvictCount(|c.buf|, c.slots, c.msgs, n));
      case _ =>
    }
  }

  lemma LeaveKeepsMarkedHeld(c: Chan, s: SubId)
    requires MarkedAreHeld(c) && s in c.cursors
    ensures MarkedAreHeld(AfterLeave(c, s))
  {
    if StartId(c) <= c.cursors[s] {
      var settled := Settle(c.msgs, c.cursors[s] - StartId(c));
      SettleKeepsMarkedHeld(c, c.cursors[s] - StartId(c));
      DropKeepsMarkedHeld(c.(msgs := settled), PaidCount(settled));
    }
  }

  lemma {:induction false} RunKeepsMarkedHeld(c: Chan, es: seq<Event>)
    requires Safe(c) && MarkedAreHeld(c) && Along(NoLeak, c, es)
    ensures MarkedAreHeld(Exec(c, es))
    decreases |es|
  {
    if es != [] {
      StepKeepsSafe(c, es[0]);
      StepKeepsMarkedHeld(c, es[0]);
      RunKeepsMarkedHeld(Apply(c, es[0]), es[1..]);
    }
  }

  /** The frame a subscriber is to read next, if it is queued. */
  function NextIndex(c: Chan, s: SubId): int
    requires s in c.cursors
  {
    Max(c.cursors[s], StartId(c)) - StartId(c)
  }

  /** A read is refused only for want of a frame or because somebody is holding that very frame. */
  lemma ReadOutcomeIff(c: Chan, s: SubId)
    requires Safe(c) && MarkedAreHeld(c) && s in c.cursors
    ensures var i := NextIndex(c, s);
            if i >= |c.msgs| then ReadOutcome(c, s) == Err(InsufficientSize)
            else if c.msgs[i].id in c.held then ReadOutcome(c, s) == Err(GrantInProgress)
            else ReadOutcome(c, s) == Ok(i)
  {
    var i := NextIndex(c, s);
    if i < |c.msgs| && c.msgs[i].id in c.held { assert c.msgs[i].reading; }
  }
}
