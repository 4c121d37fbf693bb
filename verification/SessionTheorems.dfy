/** What holds over every run of the session. */
module SessionTheorems {
  import opened Base
  import opened PacketId
  import opened Packets
  import opened Session

  // ---- the invariant of the shared state ----

  /** No collection holds more than it has room for, so a size equal to the capacity does mean full. */
  predicate WithinCapacity(s: State) {
    && |s.inflight| <= s.maxInflight && |s.rel| <= s.maxInflight
    && |s.outgoing| <= s.maxInflight && |s.incoming| <= s.maxInflight
    && |s.acks| <= s.maxAcks
  }

  /** While a connection attempt is under way the state says disconnected. */
  predicate Settled(s: State) {
    s.cleanCount < 256 && (s.stack.Connecting? ==> s.connected.None?)
  }

  predicate Valid(s: State) {
    WithinCapacity(s) && Settled(s) && 0 !in s.outgoing
  }

  lemma PutSize(m: map<int, AckStatus>, k: int, v: AckStatus)
    ensures |m[k := v]| == |m| + if k in m then 0 else 1
  {
    assert m[k := v].Keys == m.Keys + {k};
    assert |m[k := v].Keys| == |m[k := v]| && |m.Keys| == |m|;
  }

  lemma RemoveSize(m: map<int, AckStatus>, k: int)
    ensures |m - {k}| <= |m|
  {
    SubsetSize((m - {k}).Keys, m.Keys);
    assert |(m - {k}).Keys| == |m - {k}| && |m.Keys| == |m|;
  }

  lemma EnqueueKeepsCapacity(s: State, i: nat)
    requires WithinCapacity(s) && i < |s.senders| && !Panics(s, Enqueue(i))
    ensures WithinCapacity(AfterEnqueue(s, i))
  {
    var x := s.senders[i];
    var status := if x.kind.Subscribing? then AwaitingSubAck else AwaitingUnsubAck(true);
    PutSize(s.acks, x.pid, status);
  }

  lemma AcksKeepCapacity(s: State, e: Event)
    requires |s.acks| <= s.maxAcks && Enabled(s, e) && !e.Enqueue?
    ensures |Apply(s, e).acks| <= s.maxAcks
  {
    match e
    case SubAckIn(pid, codes) => PutSize(s.acks, pid, Acked(codes));
    case UnsubAckIn(pid, codes) => PutSize(s.acks, pid, Acked(codes)); RemoveSize(s.acks, pid);
    case TakeAck(pid) => RemoveSize(s.acks, pid);
    case CancelSubscribe(pid) => RemoveSize(s.acks, pid);
    case DropSubscription(locked, _, _) =>
      PutSize(s.acks, if locked then Add(s.lastPid, 1) else 1, AwaitingUnsubAck(false));
    case _ =>
  }

  /** `d` differs from `s` at most by elements gone from its sets. */
  predicate Shrinks(s: State, d: State) {
    && d.inflight <= s.inflight && d.rel <= s.rel && d.outgoing <= s.outgoing && d.incoming <= s.incoming
    && d.maxInflight == s.maxInflight && d.maxAcks == s.maxAcks
  }

  lemma OtherStepsShrink(s: State, e: Event)
    requires Enabled(s, e) && !e.Enqueue? && !e.PubRecIn? && !e.PublishIn?
    ensures Shrinks(s, Apply(s, e))
  {
  }

  lemma ShrinkingKeepsCapacity(s: State, d: State)
    requires WithinCapacity(s) && Shrinks(s, d) && |d.acks| <= s.maxAcks
    ensures WithinCapacity(d)
  {
    SubsetSize(d.inflight, s.inflight);
    SubsetSize(d.rel, s.rel);
    SubsetSize(d.outgoing, s.outgoing);
    SubsetSize(d.incoming, s.incoming);
  }

  lemma InsertionsKeepCapacity(s: State, e: Event)
    requires WithinCapacity(s) && Enabled(s, e) && !Panics(s, e) && (e.PubRecIn? || e.PublishIn?)
    ensures WithinCapacity(Apply(s, e))
  {
  }

  /** A step that does not panic keeps every collection within its capacity. */
  lemma StepKeepsCapacity(s: State, e: Event)
    requires WithinCapacity(s) && Enabled(s, e) && !Panics(s, e)
    ensures WithinCapacity(Apply(s, e))
  {
    if e.Enqueue? {
      EnqueueKeepsCapacity(s, e.i);
    } else if e.PubRecIn? || e.PublishIn? {
      InsertionsKeepCapacity(s, e);
    } else {
      AcksKeepCapacity(s, e);
      OtherStepsShrink(s, e);
      ShrinkingKeepsCapacity(s, Apply(s, e));
    }
  }

  lemma StepCountsCleanSessions(s: State, e: Event)
    requires Settled(s) && Enabled(s, e)
    ensures Settled(Apply(s, e))
    ensures Apply(s, e).cleanCount == if e == Connected(false) then (s.cleanCount + 1) % 256 else s.cleanCount
  {
  }

  lemma StepKeepsValid(s: State, e: Event)
    requires Valid(s) && Enabled(s, e) && !Panics(s, e)
    ensures Valid(Apply(s, e))
  {
    StepKeepsCapacity(s, e);
    StepCountsCleanSessions(s, e);
    StepKeepsNonzero(s, e);
  }

  lemma StepKeepsNonzero(s: State, e: Event)
    requires 0 !in s.outgoing && Enabled(s, e)
    ensures 0 !in Apply(s, e).outgoing
  {
  }

  lemma {:induction false} RunKeepsValid(s: State, es: seq<Event>)
    requires Valid(s) && Runs(s, es)
    ensures Valid(Exec(s, es))
    decreases |es|
  {
    if es != [] {
      StepKeepsValid(s, es[0]);
      RunKeepsValid(Apply(s, es[0]), es[1..]);
    }
  }

  /** `s` is where the run `es` leads from a fresh client. */
  predicate Reached(maxInflight: nat, maxAcks: nat, es: seq<Event>, s: State) {
    Runs(Init(maxInflight, maxAcks), es) && s == Exec(Init(maxInflight, maxAcks), es)
  }

  /** In every reachable state the collections respect their capacity. */
  lemma ReachedIsValid(maxInflight: nat, maxAcks: nat, es: seq<Event>, s: State)
    requires Reached(maxInflight, maxAcks, es, s)
    ensures Valid(s) && s.maxInflight == maxInflight && s.maxAcks == maxAcks
  {
    RunKeepsValid(Init(maxInflight, maxAcks), es);
    RunKeepsSizes(Init(maxInflight, maxAcks), es);
  }

  lemma {:induction false} RunKeepsSizes(s: State, es: seq<Event>)
    requires Runs(s, es)
    ensures Exec(s, es).maxInflight == s.maxInflight && Exec(s, es).maxAcks == s.maxAcks
    decreases |es|
  {
    if es != [] { RunKeepsSizes(Apply(s, es[0]), es[1..]); }
  }

  // ---- the connection ----

  function NextConnection(c: Option<bool>, e: Event): Option<bool> {
    match e
    case Connected(present) => Some(present)
    case BeginConnect => None
    case Reset => None
    case _ => c
  }

  function LatestConnection(c: Option<bool>, es: seq<Event>): Option<bool>
    decreases |es|
  {
    if es == [] then c else LatestConnection(NextConnection(c, es[0]), es[1..])
  }

  /** What `wait_connected` sees: connected, and with which session, as the last event of the connection says. */
  lemma {:induction false} ConnectionIsLatest(s: State, es: seq<Event>)
    requires Runs(s, es)
    ensures Exec(s, es).connected == LatestConnection(s.connected, es)
    decreases |es|
  {
    if es != [] {
      assert Apply(s, es[0]).connected == NextConnection(s.connected, es[0]);
      ConnectionIsLatest(Apply(s, es[0]), es[1..]);
    }
  }

  // ---- session loss ----

  function CleanConnects(es: seq<Event>): nat {
    if es == [] then 0 else (if es[0] == Connected(false) then 1 else 0) + CleanConnects(es[1..])
  }

  /** The counter is the number of connects that found no session, modulo 256. */
  lemma {:induction false} CountsCleanSessions(s: State, es: seq<Event>)
    requires Settled(s) && Runs(s, es)
    ensures Exec(s, es).cleanCount == (s.cleanCount + CleanConnects(es)) % 256
    decreases |es|
  {
    if es != [] {
      StepCountsCleanSessions(s, es[0]);
      CountsCleanSessions(Apply(s, es[0]), es[1..]);
    }
  }

  /** `poll_next` ends the stream when the counter differs from the snapshot. */
  predicate PollEnds(count: nat, snapshot: nat) {
    count != snapshot
  }

  lemma ShiftedCount(c: nat, n: nat)
    requires c < 256
    ensures PollEnds((c + n) % 256, c) <==> n % 256 != 0
    ensures n < 256 ==> (PollEnds((c + n) % 256, c) <==> n > 0)
  {
  }

  /**
   A subscription taken in any reachable state ends exactly when its session was lost, unless that
   happened a multiple of 256 times.
   */
  lemma {:induction false} PollDetectsSessionLossIff(
      maxInflight: nat, maxAcks: nat, before: seq<Event>, s: State, es: seq<Event>)
    requires Reached(maxInflight, maxAcks, before, s) && Runs(s, es)
    ensures PollEnds(Exec(s, es).cleanCount, s.cleanCount) <==> CleanConnects(es) % 256 != 0
    ensures CleanConnects(es) < 256 ==>
              (PollEnds(Exec(s, es).cleanCount, s.cleanCount) <==> CleanConnects(es) > 0)
  {
    ReachedIsValid(maxInflight, maxAcks, before, s);
    CountsCleanSessions(s, es);
    ShiftedCount(s.cleanCount, CleanConnects(es));
  }

  // ---- transmit accounting ----

  /** Every identifier somebody may wait for is carried by a queued frame. */
  predicate Accounted(s: State) {
    0 !in s.outgoing && forall pid :: pid in s.outgoing ==> pid in s.tx
  }

  /** The second section of `send` gives up after it has recorded the identifier. */
  predicate Overflows(s: State, e: Event)
    requires Enabled(s, e)
  {
    && e.Enqueue?
    && var x := s.senders[e.i];
       && !x.kind.Publishing? && AcksFullFor(s, x.pid)
       && !FullFor(s.outgoing, x.pid, s.maxInflight) && x.pid !in s.tx
  }

  /** The last frame that carries an awaited identifier goes without the identifier being removed. */
  predicate Loses(s: State, e: Event)
    requires Enabled(s, e)
  {
    e.LoseFrame? && s.tx[0] in s.outgoing && s.tx[0] !in s.tx[1..]
  }

  lemma EnqueueKeepsAccountedIff(s: State, i: nat)
    requires Accounted(s) && i < |s.senders|
    ensures Accounted(AfterEnqueue(s, i)) <==> !Overflows(s, Enqueue(i))
  {
    var x, s' := s.senders[i], AfterEnqueue(s, i);
    if Overflows(s, Enqueue(i)) {
      assert x.pid in s'.outgoing && x.pid !in s'.tx;
    }
  }

  lemma PopKeepsAccountedIff(s: State, e: Event)
    requires Accounted(s) && Enabled(s, e) && (e.Transmit? || e.LoseFrame?)
    ensures Accounted(Apply(s, e)) <==> !Loses(s, e)
  {
    var s' := Apply(s, e);
    assert s'.tx == s.tx[1..];
    forall pid | pid in s'.outgoing && !(e.LoseFrame? && pid == s.tx[0]) ensures pid in s'.tx {
      assert pid in s.tx && s.tx[0] != pid;
    }
    if Loses(s, e) {
      var pid := s.tx[0];
      assert pid in s'.outgoing && pid !in s'.tx;
    }
  }

  /** Exactly two kinds of step leave an identifier without its frame. */
  lemma StepKeepsAccountedIff(s: State, e: Event)
    requires Accounted(s) && Enabled(s, e)
    ensures Accounted(Apply(s, e)) <==> !Overflows(s, e) && !Loses(s, e)
  {
    if e.Enqueue? {
      EnqueueKeepsAccountedIff(s, e.i);
    } else if e.Transmit? || e.LoseFrame? {
      PopKeepsAccountedIff(s, e);
    }
  }

  /** Neither kind of step has happened since the accounts were last known to be good, a reset restoring them. */
  predicate StaysAccounted(good: bool, s: State, es: seq<Event>)
    requires Runs(s, es)
    decreases |es|
  {
    if es == [] then good
    else
      var good' := es[0].Reset? || (good && !Overflows(s, es[0]) && !Loses(s, es[0]));
      StaysAccounted(good', Apply(s, es[0]), es[1..])
  }

  lemma {:induction false} RunKeepsAccounted(good: bool, s: State, es: seq<Event>)
    requires (good ==> Accounted(s)) && Runs(s, es) && StaysAccounted(good, s, es)
    ensures Accounted(Exec(s, es))
    decreases |es|
  {
    if es != [] {
      var good' := es[0].Reset? || (good && !Overflows(s, es[0]) && !Loses(s, es[0]));
      if good' && !es[0].Reset? { StepKeepsAccountedIff(s, es[0]); }
      RunKeepsAccounted(good', Apply(s, es[0]), es[1..]);
    }
  }

  /** In every reachable state since whose last reset neither kind of step happened, each identifier has its frame. */
  lemma ReachedIsAccounted(maxInflight: nat, maxAcks: nat, es: seq<Event>, s: State)
    requires Reached(maxInflight, maxAcks, es, s) && StaysAccounted(true, Init(maxInflight, maxAcks), es)
    ensures Accounted(s)
  {
    RunKeepsAccounted(true, Init(maxInflight, maxAcks), es);
  }

  predicate Enqueues(s: State, e: Event, pid: int)
    requires Enabled(s, e)
  {
    e.Enqueue? && s.senders[e.i].pid == pid
  }

  /** Along the run nobody sends under this identifier again. */
  predicate NeverReused(s: State, es: seq<Event>, pid: int)
    requires Runs(s, es)
    decreases |es|
  {
    es == [] || (!Enqueues(s, es[0], pid) && NeverReused(Apply(s, es[0]), es[1..], pid))
  }

  /** Along the run no frame of this identifier is the lost one. */
  predicate NeverLost(s: State, es: seq<Event>, pid: int)
    requires Runs(s, es)
    decreases |es|
  {
    es == [] || (!(Loses(s, es[0]) && s.tx[0] == pid) && NeverLost(Apply(s, es[0]), es[1..], pid))
  }

  /** Frames taken off the queue, written or lost. */
  function Pops(es: seq<Event>): nat {
    if es == [] then 0 else (if es[0].Transmit? || es[0].LoseFrame? then 1 else 0) + Pops(es[1..])
  }

  lemma StepQueue(s: State, e: Event, pid: int)
    requires Enabled(s, e) && !Enqueues(s, e, pid) && pid != 0
    ensures var s' := Apply(s, e);
            && (e.Transmit? || e.LoseFrame? ==> s'.tx == s.tx[1..])
            && (!e.Transmit? && !e.LoseFrame? ==> s.tx <= s'.tx && pid !in s'.tx[|s.tx|..])
            && (pid in s'.outgoing ==> pid in s.outgoing)
            && (e.Transmit? && s.tx[0] == pid ==> pid !in s'.outgoing)
  {
  }

  /** The waiter of `pid` is released, or all the frames that can release it are among the first `m`. */
  predicate DueWithin(s: State, pid: int, m: nat) {
    pid in s.outgoing ==> m <= |s.tx| && pid in s.tx && pid !in s.tx[m..]
  }

  lemma StepKeepsDue(s: State, e: Event, pid: int, m: nat)
    requires Enabled(s, e) && !Enqueues(s, e, pid) && pid != 0 && DueWithin(s, pid, m)
    requires !(Loses(s, e) && s.tx[0] == pid)
    ensures DueWithin(Apply(s, e), pid, if (e.Transmit? || e.LoseFrame?) && m > 0 then m - 1 else m)
  {
    StepQueue(s, e, pid);
    var s' := Apply(s, e);
    if pid in s'.outgoing {
      if e.Transmit? || e.LoseFrame? {
        assert s.tx[0..] == s.tx;
        assert s.tx[1..][m - 1..] == s.tx[m..];
        if s.tx[0] != pid { assert pid in s.tx[1..]; }
      } else {
        assert s'.tx[m..] == s.tx[m..] + s'.tx[|s.tx|..];
      }
    }
  }

  /**
   When the frames of an identifier are among the first `m` and none of them is lost, taking `m`
   frames off the queue releases its waiter, whatever else happens in between.
   */
  lemma {:induction false} FramesReleaseWaiter(s: State, es: seq<Event>, pid: int, m: nat)
    requires Runs(s, es) && NeverReused(s, es, pid) && NeverLost(s, es, pid) && pid != 0
    requires DueWithin(s, pid, m) && Pops(es) >= m
    ensures pid !in Exec(s, es).outgoing
    decreases |es|
  {
    if es == [] {
      assert s.tx[0..] == s.tx;
    } else {
      StepKeepsDue(s, es[0], pid, m);
      var popped := es[0].Transmit? || es[0].LoseFrame?;
      FramesReleaseWaiter(Apply(s, es[0]), es[1..], pid, if popped && m > 0 then m - 1 else m);
    }
  }

  /** Taking off what is queued now releases every `wait_tx` of now. */
  lemma {:induction false} QueuePrefixReleasesWaiters(s: State, es: seq<Event>, pid: int)
    requires Accounted(s) && Runs(s, es) && NeverReused(s, es, pid) && NeverLost(s, es, pid)
    requires pid != 0 && Pops(es) >= |s.tx|
    ensures pid !in Exec(s, es).outgoing
  {
    assert s.tx[|s.tx|..] == [];
    FramesReleaseWaiter(s, es, pid, |s.tx|);
  }

  /** Nothing that would clear the identifier by hand: no reset and no cancellation of its future. */
  predicate NotGivenUp(es: seq<Event>, pid: int) {
    forall i :: 0 <= i < |es| ==> !es[i].Reset? && es[i] != CancelPublish(pid) && es[i] != CancelSubscribe(pid)
  }

  /** Along the run some frame of this identifier is written to the socket and the writing noted. */
  predicate Written(s: State, es: seq<Event>, pid: int)
    requires Runs(s, es)
    decreases |es|
  {
    es != [] && ((es[0].Transmit? && s.tx[0] == pid) || Written(Apply(s, es[0]), es[1..], pid))
  }

  /** `wait_tx` is pending exactly until a frame of its identifier is written. */
  lemma {:induction false} PendingIffNotWritten(s: State, es: seq<Event>, pid: int)
    requires Runs(s, es) && NeverReused(s, es, pid) && NotGivenUp(es, pid) && pid != 0
    ensures pid in Exec(s, es).outgoing <==> pid in s.outgoing && !Written(s, es, pid)
    decreases |es|
  {
    if es != [] {
      var s' := Apply(s, es[0]);
      assert es[0] in es && forall i :: 0 <= i < |es[1..]| ==> es[1..][i] == es[i + 1];
      assert pid in s'.outgoing <==> pid in s.outgoing && !(es[0].Transmit? && s.tx[0] == pid);
      PendingIffNotWritten(s', es[1..], pid);
    }
  }

  /** What holds of a run holds of its beginning. */
  lemma {:induction false} Beginning(s: State, a: seq<Event>, b: seq<Event>, pid: int)
    requires Runs(s, a + b) && NeverReused(s, a + b, pid)
    ensures Runs(s, a) && NeverReused(s, a, pid)
    decreases |a|
  {
    if a != [] {
      assert (a + b)[0] == a[0] && (a + b)[1..] == a[1..] + b;
      Beginning(Apply(s, a[0]), a[1..], b, pid);
    }
  }

  /** A waiter that has lost its frame waits for ever, unless it is cancelled or the session reset. */
  lemma {:induction false} LostWaiterIsStranded(s: State, es: seq<Event>, pid: int)
    requires Runs(s, es) && NeverReused(s, es, pid) && NotGivenUp(es, pid)
    requires pid != 0 && pid in s.outgoing && pid !in s.tx
    ensures pid in Exec(s, es).outgoing
    decreases |es|
  {
    if es != [] {
      StaysOffQueue(s, es[0], pid);
      var s' := Apply(s, es[0]);
      assert forall i :: 0 <= i < |es[1..]| ==> es[1..][i] == es[i + 1];
      LostWaiterIsStranded(s', es[1..], pid);
    }
  }

  /** `run` dropped while it writes the only frame of a publish: the frame is gone, the identifier is not. */
  lemma DroppedTransmissionStrands()
    ensures exists es, s :: Reached(1, 1, es, s) && 2 in s.outgoing && s.tx == [] && Clogged(s)
  {
    var q1 := Publishing(AtLeastOnce);
    var s0 := Init(1, 1);
    var s1 := Apply(s0, Reserve(q1));
    var s2 := Apply(s1, Enqueue(0));
    var s3 := Apply(s2, LoseFrame(false));
    assert s1.senders == [Sender(2, q1)] && s2.tx == [2] && s3.tx == [];
    assert Runs(s0, []) && Exec(s0, []) == s0;
    RunsSnoc(s0, [], Reserve(q1));
    RunsSnoc(s0, [] + [Reserve(q1)], Enqueue(0));
    RunsSnoc(s0, [] + [Reserve(q1)] + [Enqueue(0)], LoseFrame(false));
    assert Reached(1, 1, [] + [Reserve(q1)] + [Enqueue(0)] + [LoseFrame(false)], s3);
  }

  // ---- the transmit queue is first in, first out ----

  /** What an event appends to the transmit channel: the identifier of a committed frame, 0 for any other frame. */
  function Appended(s: State, e: Event): seq<int>
    requires Enabled(s, e)
  {
    match e
    case Enqueue(i) => [if Commits(s, s.senders[i]) then s.senders[i].pid else 0]
    case Abandon(_, granted) => if granted then [0] else []
    case DropSubscription(_, granted, _) => if granted then [0] else []
    case _ => []
  }

  function AllAppended(s: State, es: seq<Event>): seq<int>
    requires Runs(s, es)
    decreases |es|
  {
    if es == [] then [] else Appended(s, es[0]) + AllAppended(Apply(s, es[0]), es[1..])
  }

  /** Over every run the queue is what was there and was appended, less as many as were taken off, from the front. */
  lemma {:induction false} QueueIsFifo(s: State, es: seq<Event>)
    requires Runs(s, es)
    ensures Pops(es) <= |s.tx + AllAppended(s, es)|
    ensures Exec(s, es).tx == (s.tx + AllAppended(s, es))[Pops(es)..]
    decreases |es|
  {
    if es == [] {
      assert s.tx + [] == s.tx;
    } else {
      var s', more := Apply(s, es[0]), AllAppended(Apply(s, es[0]), es[1..]);
      QueueIsFifo(s', es[1..]);
      var n := if es[0].Transmit? || es[0].LoseFrame? then 1 else 0;
      StepIsFifo(s, es[0], n);
      Shift(s.tx, Appended(s, es[0]), more, n, Pops(es[1..]));
    }
  }

  lemma StepIsFifo(s: State, e: Event, n: nat)
    requires Enabled(s, e) && n == if e.Transmit? || e.LoseFrame? then 1 else 0
    ensures n <= |s.tx + Appended(s, e)| && Apply(s, e).tx == (s.tx + Appended(s, e))[n..]
  {
  }

  lemma Shift(a: seq<int>, b: seq<int>, c: seq<int>, n: nat, m: nat)
    requires n <= |a + b| && m <= |(a + b)[n..] + c|
    ensures ((a + b)[n..] + c)[m..] == (a + (b + c))[n + m..]
  {
    assert (a + b)[n..] + c == (a + (b + c))[n..];
  }

  // ---- identifiers that nobody will remove ----

  /** Every place in `outgoing_pid` is taken by an identifier that no queued frame carries. */
  predicate Clogged(s: State) {
    |s.outgoing| == s.maxInflight && 0 !in s.outgoing && forall pid :: pid in s.outgoing ==> pid !in s.tx
  }

  /** No reset, no drop guard for one of these identifiers, and none of them sent under again. */
  predicate LeavesAlone(s: State, e: Event, pids: set<int>)
    requires Enabled(s, e)
  {
    && !e.Reset?
    && ((e.CancelPublish? || e.CancelSubscribe?) ==> e.pid !in pids)
    && (e.Enqueue? ==> s.senders[e.i].pid !in pids)
  }

  predicate AllLeaveAlone(s: State, es: seq<Event>, pids: set<int>)
    requires Runs(s, es)
    decreases |es|
  {
    es == [] || (LeavesAlone(s, es[0], pids) && AllLeaveAlone(Apply(s, es[0]), es[1..], pids))
  }

  lemma FullOutgoingRefuses(s: State, i: nat)
    requires |s.outgoing| == s.maxInflight && i < |s.senders| && s.senders[i].pid !in s.outgoing
    ensures AfterEnqueue(s, i).outgoing == s.outgoing && !Commits(s, s.senders[i])
  {
  }

  lemma OthersKeepOutgoing(s: State, e: Event)
    requires Enabled(s, e) && LeavesAlone(s, e, s.outgoing) && !e.Enqueue?
    requires 0 !in s.outgoing && forall pid :: pid in s.outgoing ==> pid !in s.tx
    ensures Apply(s, e).outgoing == s.outgoing
  {
  }

  lemma StepKeepsClogged(s: State, e: Event)
    requires Clogged(s) && Enabled(s, e) && LeavesAlone(s, e, s.outgoing)
    ensures Clogged(Apply(s, e)) && Apply(s, e).outgoing == s.outgoing
  {
    if e.Enqueue? { FullOutgoingRefuses(s, e.i); } else { OthersKeepOutgoing(s, e); }
    forall pid | pid in s.outgoing ensures pid !in Apply(s, e).tx { StaysOffQueue(s, e, pid); }
  }

  lemma StaysOffQueue(s: State, e: Event, pid: int)
    requires Enabled(s, e) && !Enqueues(s, e, pid) && pid != 0 && pid !in s.tx
    ensures pid !in Apply(s, e).tx
  {
    StepQueue(s, e, pid);
    var s' := Apply(s, e);
    if !e.Transmit? && !e.LoseFrame? { assert s'.tx == s.tx + s'.tx[|s.tx|..]; }
  }

  /** From then on every `send`, of whatever kind, is refused until a reset or a cancellation. */
  lemma {:induction false} CloggedRefusesSends(s: State, es: seq<Event>, i: nat)
    requires Clogged(s) && Runs(s, es) && AllLeaveAlone(s, es, s.outgoing) && i < |Exec(s, es).senders|
    ensures Clogged(Exec(s, es)) && Exec(s, es).outgoing == s.outgoing
    ensures Exec(s, es).senders[i].pid !in s.outgoing ==> !Commits(Exec(s, es), Exec(s, es).senders[i])
    decreases |es|
  {
    if es != [] {
      StepKeepsClogged(s, es[0]);
      CloggedRefusesSends(Apply(s, es[0]), es[1..], i);
    }
  }

  /** One subscribe written but not answered. */
  function OneSubscribed(): State {
    Init(1, 1).(lastPid := 2, acks := map[2 := AwaitingSubAck])
  }

  lemma ReachOneSubscribed(es: seq<Event>)
    requires es == [Reserve(Subscribing)] + [Enqueue(0)] + [Transmit]
    ensures Reached(1, 1, es, OneSubscribed())
  {
    var s0 := Init(1, 1);
    var s1 := Apply(s0, Reserve(Subscribing));
    var s2 := Apply(s1, Enqueue(0));
    assert s1.senders == [Sender(2, Subscribing)] && s2.tx == [2] && s2.outgoing == {2} && s2.senders == [];
    assert Apply(s2, Transmit) == OneSubscribed();
    assert Runs(s0, []) && Exec(s0, []) == s0 && [] + [Reserve(Subscribing)] == [Reserve(Subscribing)];
    RunsSnoc(s0, [], Reserve(Subscribing));
    RunsSnoc(s0, [Reserve(Subscribing)], Enqueue(0));
    RunsSnoc(s0, [Reserve(Subscribing)] + [Enqueue(0)], Transmit);
  }

  /** A second subscribe finds no room for its acknowledgement: it is refused, but its identifier keeps a place. */
  lemma RefusedSubscribeClogs()
    ensures exists es, s :: Reached(1, 1, es, s) && s.senders == [] && Clogged(s)
  {
    var es := [Reserve(Subscribing)] + [Enqueue(0)] + [Transmit];
    ReachOneSubscribed(es);
    var s4 := Apply(OneSubscribed(), Reserve(Subscribing));
    var s5 := Apply(s4, Enqueue(0));
    assert s4.senders == [Sender(3, Subscribing)] && AcksFullFor(s4, 3);
    assert s5.outgoing == {3} && s5.tx == [0] && s5.senders == [];
    RunsSnoc(Init(1, 1), es, Reserve(Subscribing));
    RunsSnoc(Init(1, 1), es + [Reserve(Subscribing)], Enqueue(0));
    assert Reached(1, 1, es + [Reserve(Subscribing)] + [Enqueue(0)], s5);
  }
}
