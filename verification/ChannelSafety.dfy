/** What every step of the channel keeps, and therefore every run, with no restriction on the run. */
module ChannelSafety {
  import opened Base
  import opened Ring
  import opened Channel

  /** The queue followed by the outstanding write grant. */
  function Regions(c: Chan): seq<Region> {
    Spans(c.msgs) + if c.write.Some? then [c.write.value] else []
  }

  ghost predicate Geometry(c: Chan) {
    RingOrdered(|c.buf|, Regions(c))
  }

  /** Ids are the contiguous range that ends at `next_message_id - 1`, and a commit finds a free slot. */
  ghost predicate Ids(c: Chan) {
    && |c.msgs| <= c.slots
    && (c.write.Some? ==> |c.msgs| < c.slots)
    && |c.msgs| <= c.nextId
    && forall i :: 0 <= i < |c.msgs| ==> c.msgs[i].id == StartId(c) + i
  }

  /** The live subscribers that have not yet passed message `id`. */
  function Owing(cursors: map<SubId, int>, id: int): set<SubId> {
    set s | s in cursors && cursors[s] <= id
  }

  ghost predicate Cursors(c: Chan) {
    && |c.cursors| <= c.maxSubs
    && (forall s :: s in c.cursors ==> s < c.nextSub && 0 <= c.cursors[s] <= c.nextId)
  }

  /** A header never undercounts, so decrementing it once per owing subscriber cannot underflow. */
  ghost predicate Counts(c: Chan) {
    forall i :: 0 <= i < |c.msgs| ==>
      |Owing(c.cursors, c.msgs[i].id)| <= c.msgs[i].owed <= c.maxSubs
  }

  /** A live read grant on a queued frame covers exactly that frame and is the only one on it. */
  ghost predicate Marks(c: Chan) {
    && (forall id :: id in c.held ==> id < c.nextId)
    && (forall i :: 0 <= i < |c.msgs| && c.msgs[i].id in c.held ==>
          c.msgs[i].reading && c.held[c.msgs[i].id].at == c.msgs[i].at)
  }

  ghost predicate Safe(c: Chan) {
    Geometry(c) && Ids(c) && Cursors(c) && Counts(c) && Marks(c)
  }

  // ---- counting subscribers ----

  lemma OwingGrows(cursors: map<SubId, int>, a: int, b: int)
    requires a <= b
    ensures Owing(cursors, a) <= Owing(cursors, b)
    ensures |Owing(cursors, a)| <= |Owing(cursors, b)|
  {
    SubsetSize(Owing(cursors, a), Owing(cursors, b));
  }

  lemma OwingAll(cursors: map<SubId, int>, id: int)
    requires forall s :: s in cursors ==> cursors[s] <= id
    ensures |Owing(cursors, id)| == |cursors|
  {
    assert Owing(cursors, id) == cursors.Keys;
  }

  lemma OwingMoved(cursors: map<SubId, int>, s: SubId, at: int, id: int)
    requires s in cursors && cursors[s] <= at
    ensures |Owing(cursors[s := at], id)| == |Owing(cursors, id)| - if cursors[s] <= id < at then 1 else 0
  {
    if cursors[s] <= id < at {
      assert Owing(cursors[s := at], id) == Owing(cursors, id) - {s};
    } else {
      assert Owing(cursors[s := at], id) == Owing(cursors, id);
    }
  }

  lemma OwingJoined(cursors: map<SubId, int>, s: SubId, at: int, id: int)
    requires s !in cursors && id < at
    ensures Owing(cursors[s := at], id) == Owing(cursors, id)
  {
  }

  lemma OwingLeft(cursors: map<SubId, int>, s: SubId, id: int)
    requires s in cursors
    ensures |Owing(cursors - {s}, id)| == |Owing(cursors, id)| - if cursors[s] <= id then 1 else 0
  {
    if cursors[s] <= id {
      assert Owing(cursors - {s}, id) == Owing(cursors, id) - {s};
    } else {
      assert Owing(cursors - {s}, id) == Owing(cursors, id);
    }
  }

  // ---- steps ----

  /** Any step that only removes frames at the front. */
  lemma DropFrontKeepsSafe(c: Chan, n: nat)
    requires Safe(c) && n <= |c.msgs|
    ensures Safe(c.(msgs := c.msgs[n..]))
  {
    var d := c.(msgs := c.msgs[n..]);
    assert Regions(d) == Regions(c)[n..];
    DropFrontKeepsOrder(|c.buf|, Regions(c), n);
    assert forall i :: 0 <= i < |d.msgs| ==> d.msgs[i] == c.msgs[n + i];
  }

  /** Any step that moves no frame: only counters, marks, cursors and held grants change. */
  lemma RelabelKeepsSafe(c: Chan, d: Chan)
    requires Geometry(c) && Ids(c)
    requires |d.buf| == |c.buf| && d.write == c.write && d.nextId == c.nextId && d.slots == c.slots
    requires |d.msgs| == |c.msgs|
    requires forall i :: 0 <= i < |c.msgs| ==> d.msgs[i].at == c.msgs[i].at && d.msgs[i].id == c.msgs[i].id
    ensures Geometry(d) && Ids(d)
  {
    assert Regions(d) == Regions(c);
  }

  lemma GrantKeepsSafe(c: Chan, size: nat)
    requires Safe(c)
    ensures Safe(AfterGrant(c, size))
  {
    if GrantOutcome(c, size).Ok? {
      assert Regions(c) == Spans(c.msgs);
      GrantKeepsOrder(|c.buf|, Spans(c.msgs), size);
    }
  }

  lemma CommitKeepsSafe(c: Chan, used: nat, pid: nat)
    requires Safe(c) && c.write.Some?
    ensures Safe(AfterCommit(c, used, pid))
    ensures |c.cursors| > 0 ==> AfterCommit(c, used, pid).msgs == c.msgs + [CommittedHeader(c, used, pid)]
  {
    var d := AfterCommit(c, used, pid);
    assert Regions(c) == Spans(c.msgs) + [c.write.value];
    if |c.cursors| == 0 {
      DropBackKeepsOrder(|c.buf|, Spans(c.msgs), c.write.value);
      assert Regions(d) == Spans(c.msgs);
    } else {
      var h := CommittedHeader(c, used, pid);
      ShrinkBackKeepsOrder(|c.buf|, Spans(c.msgs), c.write.value, h.at.len);
      assert Regions(d) == Spans(c.msgs) + [h.at];
      OwingAll(c.cursors, c.nextId);
    }
  }

  lemma JoinKeepsSafe(c: Chan)
    requires Safe(c)
    ensures Safe(AfterJoin(c))
  {
    var d := AfterJoin(c);
    RelabelKeepsSafe(c, d);
    JoinKeepsCursors(c);
    JoinKeepsCounts(c);
  }

  lemma JoinKeepsCursors(c: Chan)
    requires Ids(c) && Cursors(c)
    ensures Cursors(AfterJoin(c))
  {
    if |c.cursors| < c.maxSubs { assert AfterJoin(c).cursors.Keys == c.cursors.Keys + {c.nextSub}; }
  }

  lemma JoinKeepsCounts(c: Chan)
    requires Ids(c) && Cursors(c) && Counts(c)
    ensures Counts(AfterJoin(c))
  {
    forall i | 0 <= i < |c.msgs| && |c.cursors| < c.maxSubs
      ensures Owing(AfterJoin(c).cursors, c.msgs[i].id) == Owing(c.cursors, c.msgs[i].id)
    {
      OwingJoined(c.cursors, c.nextSub, c.nextId, c.msgs[i].id);
    }
  }

  lemma ReadKeepsCounts(c: Chan, s: SubId)
    requires Ids(c) && Cursors(c) && Counts(c) && s in c.cursors
    ensures Cursors(AfterRead(c, s)) && Counts(AfterRead(c, s))
  {
    var d := AfterRead(c, s);
    assert d.cursors.Keys == c.cursors.Keys;
    forall i | 0 <= i < |c.msgs|
      ensures |Owing(d.cursors, d.msgs[i].id)| <= d.msgs[i].owed <= d.maxSubs
    {
      OwingMoved(c.cursors, s, d.cursors[s], c.msgs[i].id);
    }
  }

  lemma ReadKeepsMarks(c: Chan, s: SubId)
    requires Ids(c) && Marks(c) && s in c.cursors
    ensures Marks(AfterRead(c, s))
  {
  }

  lemma ReadKeepsSafe(c: Chan, s: SubId)
    requires Safe(c) && s in c.cursors
    ensures Safe(AfterRead(c, s))
  {
    RelabelKeepsSafe(c, AfterRead(c, s));
    ReadKeepsCounts(c, s);
    ReadKeepsMarks(c, s);
  }

  /** The state of `FrameSubscriber::drop` before its pop loop. */
  function Settled(c: Chan, s: SubId): Chan
    requires s in c.cursors
  {
    var rest := c.cursors - {s};
    if c.cursors[s] < StartId(c) then c.(cursors := rest)
    else c.(cursors := rest, msgs := Settle(c.msgs, c.cursors[s] - StartId(c)))
  }

  lemma SettleKeepsSafe(c: Chan, s: SubId)
    requires Safe(c) && s in c.cursors
    ensures Safe(Settled(c, s))
  {
    var d := Settled(c, s);
    RelabelKeepsSafe(c, d);
    assert d.cursors.Keys == c.cursors.Keys - {s};
    forall i | 0 <= i < |c.msgs|
      ensures |Owing(d.cursors, d.msgs[i].id)| <= d.msgs[i].owed <= d.maxSubs
    {
      OwingLeft(c.cursors, s, c.msgs[i].id);
    }
  }

  lemma LeaveKeepsSafe(c: Chan, s: SubId)
    requires Safe(c) && s in c.cursors
    ensures Safe(AfterLeave(c, s))
  {
    SettleKeepsSafe(c, s);
    var d := Settled(c, s);
    if StartId(c) <= c.cursors[s] {
      assert AfterLeave(c, s) == d.(msgs := d.msgs[PaidCount(d.msgs)..]);
      DropFrontKeepsSafe(d, PaidCount(d.msgs));
    }
  }

  lemma LeakKeepsSafe(c: Chan, id: int)
    requires Safe(c)
    ensures Safe(AfterLeak(c, id))
  {
    RelabelKeepsSafe(c, AfterLeak(c, id));
  }

  lemma ReleaseKeepsMarks(c: Chan, id: int)
    requires Ids(c) && Marks(c) && |AfterRelease(c, id).msgs| == |c.msgs|
    ensures Marks(AfterRelease(c, id))
  {
    var d := AfterRelease(c, id);
    assert forall i :: 0 <= i < |d.msgs| && d.msgs[i].id != id ==> d.msgs[i] == c.msgs[i];
  }

  lemma ReleaseKeepsSafe(c: Chan, id: int)
    requires Safe(c)
    ensures Safe(AfterRelease(c, id))
  {
    var b, d := AfterLeak(c, id), AfterRelease(c, id);
    if |d.msgs| < |c.msgs| {
      LeakKeepsSafe(c, id);
      assert d == b.(msgs := b.msgs[1..]);
      DropFrontKeepsSafe(b, 1);
    } else {
      RelabelKeepsSafe(c, d);
      ReleaseKeepsMarks(c, id);
    }
  }

  /** Steps that touch neither the queue nor the cursors. */
  lemma BufferStepKeepsSafe(c: Chan, e: Event)
    requires Safe(c) && Enabled(c, e) && (e.TakePublisher? || e.DropPublisher? || e.Fill?)
    ensures Safe(Apply(c, e))
  {
    RelabelKeepsSafe(c, Apply(c, e));
  }

  lemma StepKeepsSafe(c: Chan, e: Event)
    requires Safe(c)
    ensures Safe(Apply(c, e))
  {
    if Enabled(c, e) {
      match e
      case Join => JoinKeepsSafe(c);
      case Evict(n) => DropFrontKeepsSafe(c, EvictCount(|c.buf|, c.slots, c.msgs, n));
      case Grant(n) => GrantKeepsSafe(c, n);
      case Commit(used, pid) => CommitKeepsSafe(c, used, pid);
      case Read(s) => ReadKeepsSafe(c, s);
      case Release(id) => ReleaseKeepsSafe(c, id);
      case Leave(s) => LeaveKeepsSafe(c, s);
      case Clear => DropFrontKeepsSafe(c, |c.msgs|); assert c.msgs[|c.msgs|..] == [];
      case Leak(id) => LeakKeepsSafe(c, id);
      case _ => BufferStepKeepsSafe(c, e);
    }
  }

  lemma StepKeepsSizes(c: Chan, e: Event)
    ensures Apply(c, e).slots == c.slots && Apply(c, e).maxSubs == c.maxSubs && |Apply(c, e).buf| == |c.buf|
  {
  }

  lemma InitIsSafe(capacity: nat, slots: nat, maxSubs: nat)
    ensures Safe(Init(capacity, slots, maxSubs))
  {
    assert SplitsAt(Regions(Init(capacity, slots, maxSubs)), 0);
  }

  lemma {:induction false} RunKeepsSafe(c: Chan, es: seq<Event>)
    requires Safe(c)
    ensures Safe(Exec(c, es))
    ensures Exec(c, es).slots == c.slots && Exec(c, es).maxSubs == c.maxSubs && |Exec(c, es).buf| == |c.buf|
    decreases |es|
  {
    if es != [] {
      StepKeepsSafe(c, es[0]);
      StepKeepsSizes(c, es[0]);
      RunKeepsSafe(Apply(c, es[0]), es[1..]);
    }
  }
}
