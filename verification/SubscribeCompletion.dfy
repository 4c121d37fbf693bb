/** When a waiting subscribe or unsubscribe is answered. */
module SubscribeCompletion {
  import opened Base
  import opened PacketId
  import opened Session
  import opened SessionTheorems

  /** The dropping of a subscription that is recorded under this identifier. */
  predicate DropsUnder(s: State, e: Event, pid: int) {
    e.DropSubscription? && e.granted && e.recorded && pid == if e.locked then Add(s.lastPid, 1) else 1
  }

  /** The step leaves the entry of `pid` to its answer. */
  predicate LeavesEntry(s: State, e: Event, pid: int)
    requires Enabled(s, e)
  {
    !e.Reset? && e != TakeAck(pid) && e != CancelSubscribe(pid) && !Enqueues(s, e, pid) && !DropsUnder(s, e, pid)
  }

  predicate EntryLeft(s: State, es: seq<Event>, pid: int)
    requires Runs(s, es)
    decreases |es|
  {
    es == [] || (LeavesEntry(s, es[0], pid) && EntryLeft(Apply(s, es[0]), es[1..], pid))
  }

  /** The codes of the first SUBACK for `pid`. */
  function FirstSubAck(es: seq<Event>, pid: int): Option<Bytes>
    decreases |es|
  {
    if es == [] then None
    else if es[0].SubAckIn? && es[0].pid == pid then Some(es[0].codes)
    else FirstSubAck(es[1..], pid)
  }

  function FirstUnsubAck(es: seq<Event>, pid: int): Option<Bytes>
    decreases |es|
  {
    if es == [] then None
    else if es[0].UnsubAckIn? && es[0].pid == pid then Some(es[0].codes)
    else FirstUnsubAck(es[1..], pid)
  }

  predicate Has(s: State, pid: int, status: AckStatus) {
    pid in s.acks && s.acks[pid] == status
  }

  lemma AckedStays(s: State, e: Event, pid: int, codes: Bytes)
    requires Enabled(s, e) && Has(s, pid, Acked(codes)) && LeavesEntry(s, e, pid)
    ensures Has(Apply(s, e), pid, Acked(codes))
  {
  }

  lemma {:induction false} AckedRemains(s: State, es: seq<Event>, pid: int, codes: Bytes)
    requires Runs(s, es) && Has(s, pid, Acked(codes)) && EntryLeft(s, es, pid)
    ensures Has(Exec(s, es), pid, Acked(codes))
    decreases |es|
  {
    if es != [] {
      AckedStays(s, es[0], pid, codes);
      AckedRemains(Apply(s, es[0]), es[1..], pid, codes);
    }
  }

  lemma SubscribeStep(s: State, e: Event, pid: int)
    requires Enabled(s, e) && Has(s, pid, AwaitingSubAck) && LeavesEntry(s, e, pid)
    ensures Has(Apply(s, e), pid, if e.SubAckIn? && e.pid == pid then Acked(e.codes) else AwaitingSubAck)
  {
  }

  lemma UnsubscribeStep(s: State, e: Event, pid: int)
    requires Enabled(s, e) && Has(s, pid, AwaitingUnsubAck(true)) && LeavesEntry(s, e, pid)
    ensures Has(Apply(s, e), pid, if e.UnsubAckIn? && e.pid == pid then Acked(e.codes) else AwaitingUnsubAck(true))
  {
  }

  /** A waiting subscribe is answered if and only if its SUBACK came, with the codes of the first one. */
  lemma {:induction false} SubscribeAnsweredIff(s: State, es: seq<Event>, pid: int)
    requires Runs(s, es) && Has(s, pid, AwaitingSubAck) && EntryLeft(s, es, pid)
    ensures Has(Exec(s, es), pid, match FirstSubAck(es, pid)
                                  case None => AwaitingSubAck
                                  case Some(codes) => Acked(codes))
    ensures Enabled(Exec(s, es), TakeAck(pid)) <==> FirstSubAck(es, pid).Some?
    decreases |es|
  {
    if es != [] {
      SubscribeStep(s, es[0], pid);
      if es[0].SubAckIn? && es[0].pid == pid {
        AckedRemains(Apply(s, es[0]), es[1..], pid, es[0].codes);
      } else {
        SubscribeAnsweredIff(Apply(s, es[0]), es[1..], pid);
      }
    }
  }

  /** And a waiting unsubscribe by its UNSUBACK. */
  lemma {:induction false} UnsubscribeAnsweredIff(s: State, es: seq<Event>, pid: int)
    requires Runs(s, es) && Has(s, pid, AwaitingUnsubAck(true)) && EntryLeft(s, es, pid)
    ensures Has(Exec(s, es), pid, match FirstUnsubAck(es, pid)
                                  case None => AwaitingUnsubAck(true)
                                  case Some(codes) => Acked(codes))
    ensures Enabled(Exec(s, es), TakeAck(pid)) <==> FirstUnsubAck(es, pid).Some?
    decreases |es|
  {
    if es != [] {
      UnsubscribeStep(s, es[0], pid);
      if es[0].UnsubAckIn? && es[0].pid == pid {
        AckedRemains(Apply(s, es[0]), es[1..], pid, es[0].codes);
      } else {
        UnsubscribeAnsweredIff(Apply(s, es[0]), es[1..], pid);
      }
    }
  }

  /** A committed subscribe or unsubscribe waits for its own kind of answer, on a queued frame. */
  lemma EnqueueStartsWaiting(s: State, i: nat)
    requires i < |s.senders| && Commits(s, s.senders[i]) && !s.senders[i].kind.Publishing?
    ensures var x, t := s.senders[i], AfterEnqueue(s, i);
            && Has(t, x.pid, if x.kind.Subscribing? then AwaitingSubAck else AwaitingUnsubAck(true))
            && x.pid in t.outgoing && x.pid in t.tx && t.inflight == s.inflight
  {
    assert AfterEnqueue(s, i).tx[|s.tx|] == s.senders[i].pid;
  }

  // ---- no answer without a question ----

  /** No entry somebody waits for: none at all, or that of a dropped subscription. */
  predicate Unasked(s: State, pid: int) {
    pid in s.acks ==> s.acks[pid] == AwaitingUnsubAck(false)
  }

  /** Nobody subscribing under it, nothing to take. */
  lemma {:induction false} NotAskedNotAnswered(s: State, es: seq<Event>, pid: int)
    requires Runs(s, es) && Unasked(s, pid) && NeverReused(s, es, pid)
    ensures Unasked(Exec(s, es), pid) && !Enabled(Exec(s, es), TakeAck(pid))
    decreases |es|
  {
    if es != [] {
      assert Unasked(Apply(s, es[0]), pid);
      NotAskedNotAnswered(Apply(s, es[0]), es[1..], pid);
    }
  }

  predicate Unanswered(es: seq<Event>, pid: int) {
    forall i :: 0 <= i < |es| ==> !((es[i].SubAckIn? || es[i].UnsubAckIn?) && es[i].pid == pid)
  }

  /** Nor without an answer. */
  lemma {:induction false} NotAnsweredNotTaken(s: State, es: seq<Event>, pid: int)
    requires Runs(s, es) && Unanswered(es, pid) && !Enabled(s, TakeAck(pid))
    ensures !Enabled(Exec(s, es), TakeAck(pid))
    decreases |es|
  {
    if es != [] {
      assert !((es[0].SubAckIn? || es[0].UnsubAckIn?) && es[0].pid == pid);
      assert forall i :: 0 <= i < |es[1..]| ==> es[1..][i] == es[i + 1];
      NotAnsweredNotTaken(Apply(s, es[0]), es[1..], pid);
    }
  }

  /** After a reset a waiter takes nothing before a subscribe or unsubscribe is enqueued anew and answered. */
  lemma {:induction false} ResetForgetsAnswers(s: State, es: seq<Event>, pid: int)
    requires Enabled(s, Reset) && Runs(Apply(s, Reset), es)
    requires NeverReused(Apply(s, Reset), es, pid) || Unanswered(es, pid)
    ensures !Enabled(Exec(Apply(s, Reset), es), TakeAck(pid))
  {
    var t := Apply(s, Reset);
    if NeverReused(t, es, pid) { NotAskedNotAnswered(t, es, pid); } else { NotAnsweredNotTaken(t, es, pid); }
  }

  /** The entry of a dropped subscription goes with the UNSUBACK. */
  lemma DroppedSubscriptionIsForgotten(s: State, pid: int, codes: Bytes)
    requires Has(s, pid, AwaitingUnsubAck(false)) && Enabled(s, UnsubAckIn(pid, codes))
    ensures pid !in Apply(s, UnsubAckIn(pid, codes)).acks
  {
  }

  /** Dropping a subscription records its UNSUBSCRIBE if its locks and grant succeed and there is room. */
  lemma DropRecordsIff(s: State, locked: bool, granted: bool, recorded: bool)
    ensures var pid, t := if locked then Add(s.lastPid, 1) else 1, AfterDropSubscription(s, locked, granted, recorded);
            Has(t, pid, AwaitingUnsubAck(false)) <==>
              Has(s, pid, AwaitingUnsubAck(false)) || (granted && recorded && !AcksFullFor(s, pid))
  {
  }

  lemma {:induction false} StaysUnawaited(s: State, es: seq<Event>, pid: int)
    requires Runs(s, es) && NeverReused(s, es, pid) && pid !in s.outgoing && pid != 0
    ensures pid !in Exec(s, es).outgoing
    decreases |es|
  {
    if es != [] {
      StepQueue(s, es[0], pid);
      StaysUnawaited(Apply(s, es[0]), es[1..], pid);
    }
  }

  /** A cancelled subscribe is awaited by nobody and answered to nobody from then on. */
  lemma {:induction false} CancelledSubscribeIsForgotten(s: State, es: seq<Event>, pid: int)
    requires Runs(AfterCancelSubscribe(s, pid), es) && NeverReused(AfterCancelSubscribe(s, pid), es, pid) && pid != 0
    ensures var t := Exec(AfterCancelSubscribe(s, pid), es); pid !in t.outgoing && !Enabled(t, TakeAck(pid))
  {
    NotAskedNotAnswered(AfterCancelSubscribe(s, pid), es, pid);
    StaysUnawaited(AfterCancelSubscribe(s, pid), es, pid);
  }
}
