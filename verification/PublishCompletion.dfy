/** When a waiting publisher is released. */
module PublishCompletion {
  import opened Base
  import opened PacketId
  import opened Packets
  import opened Session
  import opened SessionTheorems

  // ---- leaving `inflight_pub` ----

  /** The events that take an identifier out of `inflight_pub`. */
  predicate Settles(e: Event, pid: int) {
    e.Reset? || e == PubAckIn(pid) || e == PubRecIn(pid) || e == CancelPublish(pid)
  }

  predicate NeverSettled(es: seq<Event>, pid: int) {
    forall i :: 0 <= i < |es| ==> !Settles(es[i], pid)
  }

  lemma StepInflight(s: State, e: Event, pid: int)
    requires Enabled(s, e) && !Enqueues(s, e, pid)
    ensures pid in Apply(s, e).inflight <==> pid in s.inflight && !Settles(e, pid)
  {
  }

  lemma {:induction false} StaysSettled(s: State, es: seq<Event>, pid: int)
    requires Runs(s, es) && NeverReused(s, es, pid) && pid !in s.inflight
    ensures pid !in Exec(s, es).inflight
    decreases |es|
  {
    if es != [] {
      StepInflight(s, es[0], pid);
      StaysSettled(Apply(s, es[0]), es[1..], pid);
    }
  }

  /** The first poll of a publisher is pending exactly until something settles its identifier. */
  lemma {:induction false} PendingIffNeverSettled(s: State, es: seq<Event>, pid: int)
    requires Runs(s, es) && NeverReused(s, es, pid) && pid in s.inflight
    ensures pid in Exec(s, es).inflight <==> NeverSettled(es, pid)
    decreases |es|
  {
    if es != [] {
      StepInflight(s, es[0], pid);
      if Settles(es[0], pid) {
        StaysSettled(Apply(s, es[0]), es[1..], pid);
      } else {
        PendingIffNeverSettled(Apply(s, es[0]), es[1..], pid);
        assert NeverSettled(es[1..], pid) ==> NeverSettled([es[0]] + es[1..], pid);
        assert es == [es[0]] + es[1..];
      }
    }
  }

  // ---- within one connection ----

  /** No reset and no cancellation of this publish. */
  predicate Undisturbed(es: seq<Event>, pid: int) {
    forall i :: 0 <= i < |es| ==> !es[i].Reset? && es[i] != CancelPublish(pid)
  }

  lemma {:induction false} SettledByPubAckIff(s: State, es: seq<Event>, pid: int)
    requires Runs(s, es) && NeverReused(s, es, pid) && pid in s.inflight
    requires Undisturbed(es, pid) && PubRecIn(pid) !in es
    ensures pid !in Exec(s, es).inflight <==> PubAckIn(pid) in es
  {
    PendingIffNeverSettled(s, es, pid);
    if PubAckIn(pid) in es {
      var i :| 0 <= i < |es| && es[i] == PubAckIn(pid);
      assert Settles(es[i], pid);
    }
  }

  /** A publish that has been committed and is neither written nor answered. */
  predicate JustSent(s: State, pid: int) {
    pid != 0 && pid in s.outgoing && pid in s.inflight && pid !in s.rel
  }

  /** No reset, and no drop guard run for this identifier. */
  lemma PartsNotGivenUp(a: seq<Event>, b: seq<Event>, pid: int)
    requires NotGivenUp(a + b, pid)
    ensures NotGivenUp(a, pid) && Undisturbed(a, pid) && Undisturbed(a + b, pid)
  {
    assert forall i :: 0 <= i < |a| ==> a[i] == (a + b)[i];
  }

  /**
   `wait_publish_tx` for QoS 1, its two polls after `a` and after `b` more: within a connection it
   finishes if and only if its frame was written by the first poll and its PUBACK came by the second
   (section 4.3.2 of MQTT 5.0).
   */
  lemma {:induction false} AtLeastOnceWaiterIff(s: State, a: seq<Event>, b: seq<Event>, pid: int)
    requires Runs(s, a + b) && NeverReused(s, a + b, pid) && NotGivenUp(a + b, pid) && PubRecIn(pid) !in a + b
    requires JustSent(s, pid) && Runs(s, a)
    ensures pid !in Exec(s, a).outgoing && pid !in Exec(s, a + b).inflight
            <==> Written(s, a, pid) && PubAckIn(pid) in a + b
  {
    Beginning(s, a, b, pid);
    PartsNotGivenUp(a, b, pid);
    PendingIffNotWritten(s, a, pid);
    SettledByPubAckIff(s, a + b, pid);
  }

  /** The exchange of section 4.3.3 of MQTT 5.0. */
  datatype Phase = AwaitingRec | AwaitingComp | Complete

  function NextPhase(ph: Phase, e: Event, pid: int): Phase {
    if ph.AwaitingRec? && e == PubRecIn(pid) then AwaitingComp
    else if ph.AwaitingComp? && e == PubCompIn(pid) then Complete
    else ph
  }

  function PhaseAfter(ph: Phase, es: seq<Event>, pid: int): Phase
    decreases |es|
  {
    if es == [] then ph else PhaseAfter(NextPhase(ph, es[0], pid), es[1..], pid)
  }

  /** The identifier is in `inflight_pub`, then in `outgoing_rel`, then in neither. */
  predicate InPhase(s: State, pid: int, ph: Phase) {
    (pid in s.inflight <==> ph.AwaitingRec?) && (pid in s.rel <==> ph.AwaitingComp?)
  }

  lemma EnqueueStartsExchange(s: State, i: nat)
    requires i < |s.senders| && Commits(s, s.senders[i])
    requires s.senders[i].kind.Acknowledged() && s.senders[i].pid !in s.rel
    ensures var pid, t := s.senders[i].pid, AfterEnqueue(s, i);
            JustSent(t, pid) && pid in t.tx && InPhase(t, pid, AwaitingRec)
  {
    assert AfterEnqueue(s, i).tx[|s.tx|] == s.senders[i].pid;
  }

  lemma StepFollowsPhase(s: State, e: Event, pid: int, ph: Phase)
    requires Enabled(s, e) && InPhase(s, pid, ph) && !Enqueues(s, e, pid)
    requires !e.Reset? && e != CancelPublish(pid) && e != PubAckIn(pid)
    ensures InPhase(Apply(s, e), pid, NextPhase(ph, e, pid))
  {
    StepInflight(s, e, pid);
  }

  /** From send to PUBCOMP the identifier is in exactly one of the two sets. */
  lemma {:induction false} ExchangeFollowsPhases(s: State, es: seq<Event>, pid: int, ph: Phase)
    requires Runs(s, es) && NeverReused(s, es, pid) && Undisturbed(es, pid) && PubAckIn(pid) !in es
    requires InPhase(s, pid, ph)
    ensures InPhase(Exec(s, es), pid, PhaseAfter(ph, es, pid))
    decreases |es|
  {
    if es != [] {
      StepFollowsPhase(s, es[0], pid, ph);
      ExchangeFollowsPhases(Apply(s, es[0]), es[1..], pid, NextPhase(ph, es[0], pid));
    }
  }

  lemma {:induction false} CompleteIsForEver(es: seq<Event>, pid: int)
    ensures PhaseAfter(Complete, es, pid) == Complete
  {
    if es != [] { CompleteIsForEver(es[1..], pid); }
  }

  lemma {:induction false} CompletedByComp(es: seq<Event>, pid: int)
    ensures PhaseAfter(AwaitingComp, es, pid) == if PubCompIn(pid) in es then Complete else AwaitingComp
  {
    if es != [] {
      if es[0] == PubCompIn(pid) { CompleteIsForEver(es[1..], pid); } else { CompletedByComp(es[1..], pid); }
    }
  }

  /** The events after the first PUBREC for `pid`. */
  function SinceRec(es: seq<Event>, pid: int): seq<Event> {
    if es == [] then [] else if es[0] == PubRecIn(pid) then es[1..] else SinceRec(es[1..], pid)
  }

  lemma {:induction false} PhaseMeaning(es: seq<Event>, pid: int)
    ensures PhaseAfter(AwaitingRec, es, pid) ==
            if PubRecIn(pid) !in es then AwaitingRec
            else if PubCompIn(pid) in SinceRec(es, pid) then Complete else AwaitingComp
  {
    if es != [] {
      if es[0] == PubRecIn(pid) { CompletedByComp(es[1..], pid); } else { PhaseMeaning(es[1..], pid); }
    }
  }

  lemma {:induction false} ReleasedByPhaseIff(s: State, a: seq<Event>, b: seq<Event>, pid: int)
    requires Runs(s, a + b) && NeverReused(s, a + b, pid) && Undisturbed(a + b, pid) && PubAckIn(pid) !in a + b
    requires InPhase(s, pid, AwaitingRec) && Runs(s, a)
    ensures pid !in Exec(s, a).inflight <==> PubRecIn(pid) in a
    ensures PubRecIn(pid) in a ==> (pid !in Exec(s, a + b).rel <==> PubCompIn(pid) in SinceRec(a + b, pid))
  {
    Beginning(s, a, b, pid);
    assert forall i :: 0 <= i < |a| ==> a[i] == (a + b)[i];
    ExchangeFollowsPhases(s, a, pid, AwaitingRec);
    ExchangeFollowsPhases(s, a + b, pid, AwaitingRec);
    PhaseMeaning(a, pid);
    PhaseMeaning(a + b, pid);
  }

  /** The three polls of a QoS 2 publisher: written, in flight no more, released no more. */
  predicate ThreeStagesDone(first: State, second: State, third: State, pid: int) {
    pid !in first.outgoing && pid !in second.inflight && pid !in third.rel
  }

  /**
   `wait_publish_tx` for QoS 2, its three polls after `a`, after `b` more and after `c` more: within a
   connection it finishes if and only if its frame was written by the first, a PUBREC came by the
   second, and a PUBCOMP after that PUBREC by the third (section 4.3.3 of MQTT 5.0).
   */
  lemma {:induction false} ExactlyOnceWaiterIff(
      s: State, a: seq<Event>, b: seq<Event>, c: seq<Event>, pid: int)
    requires Runs(s, a + b + c) && NeverReused(s, a + b + c, pid) && NotGivenUp(a + b + c, pid)
    requires PubAckIn(pid) !in a + b + c && JustSent(s, pid) && Runs(s, a) && Runs(s, a + b)
    ensures ThreeStagesDone(Exec(s, a), Exec(s, a + b), Exec(s, a + b + c), pid)
            <==> Written(s, a, pid) && PubRecIn(pid) in a + b && PubCompIn(pid) in SinceRec(a + b + c, pid)
  {
    Beginning(s, a + b, c, pid);
    PartsNotGivenUp(a + b, c, pid);
    Beginning(s, a, b, pid);
    PartsNotGivenUp(a, b, pid);
    PendingIffNotWritten(s, a, pid);
    ReleasedByPhaseIff(s, a + b, c, pid);
  }

  /** `run` dropped after the bytes went out but before that was noted: the PUBACK is there, the publisher waits on. */
  lemma AcknowledgedPublisherStillWaits()
    ensures exists es, s :: Reached(1, 1, es, s) && PubAckIn(2) in es && NotGivenUp(es, 2)
                            && 2 !in s.inflight && 2 in s.outgoing && 2 !in s.tx
  {
    var q1 := Publishing(AtLeastOnce);
    var s0 := Init(1, 1);
    var s1 := Apply(s0, Reserve(q1));
    var s2 := Apply(s1, Enqueue(0));
    var s3 := Apply(s2, LoseFrame(false));
    var s4 := Apply(s3, PubAckIn(2));
    assert s1.senders == [Sender(2, q1)] && s2.tx == [2] && s3.tx == [] && s4.inflight == {};
    var r1 := [Reserve(q1)];
    var r2 := r1 + [Enqueue(0)];
    var r3 := r2 + [LoseFrame(false)];
    var es := r3 + [PubAckIn(2)];
    assert Runs(s0, []) && Exec(s0, []) == s0 && [] + [Reserve(q1)] == r1;
    RunsSnoc(s0, [], Reserve(q1));
    RunsSnoc(s0, r1, Enqueue(0));
    RunsSnoc(s0, r2, LoseFrame(false));
    RunsSnoc(s0, r3, PubAckIn(2));
    assert es[3] == PubAckIn(2) && Reached(1, 1, es, s4);
  }

  // ---- cancelled publishes ----

  lemma {:induction false} StaysForgotten(s: State, es: seq<Event>, pid: int)
    requires Runs(s, es) && NeverReused(s, es, pid) && pid !in s.inflight && pid !in s.rel
    ensures pid !in Exec(s, es).inflight && pid !in Exec(s, es).rel
    decreases |es|
  {
    if es != [] {
      StepInflight(s, es[0], pid);
      assert pid !in Apply(s, es[0]).rel;
      StaysForgotten(Apply(s, es[0]), es[1..], pid);
    }
  }

  /**
   A cancelled publish is in neither set of the exchange any more. It is still awaited exactly when it
   was in flight and not written, which a queued frame then accounts for; once what is queued has been
   written it is in no set at all.
   */
  lemma {:induction false} CancelledIsForgotten(s: State, es: seq<Event>, pid: int)
    requires Accounted(s) && pid != 0 && Runs(AfterCancelPublish(s, pid), es)
    requires NeverReused(AfterCancelPublish(s, pid), es, pid) && NeverLost(AfterCancelPublish(s, pid), es, pid)
    ensures var t := AfterCancelPublish(s, pid);
            && (pid in t.outgoing <==> pid in s.inflight && pid in s.outgoing) && (pid in t.outgoing ==> pid in t.tx)
            && var u := Exec(t, es);
               && pid !in u.inflight && pid !in u.rel
               && (Pops(es) >= |s.tx| ==> pid !in u.outgoing)
  {
    var t := AfterCancelPublish(s, pid);
    StaysForgotten(t, es, pid);
    assert Accounted(t);
    if Pops(es) >= |s.tx| { QueuePrefixReleasesWaiters(t, es, pid); }
  }

  // ---- errors of the stack ----

  /** The steps `run` takes itself, as opposed to the client's futures. */
  predicate ByStack(e: Event) {
    !(e.Reserve? || e.Enqueue? || e.Abandon? || e.TakeAck? || e.CancelPublish? || e.CancelSubscribe?
      || e.DropSubscription?)
  }

  /** After an error `run` handles no packet before it has reset the state, unless it is dropped. */
  lemma {:induction false} FailingUntilReset(s: State, es: seq<Event>)
    requires Runs(s, es) && s.stack.Failing?
    requires forall i :: 0 <= i < |es| ==> !es[i].Reset? && !es[i].DropRun?
    ensures Exec(s, es).stack.Failing? && forall i :: 0 <= i < |es| ==> !ByStack(es[i])
    decreases |es|
  {
    if es != [] {
      assert forall i :: 0 <= i < |es[1..]| ==> es[1..][i] == es[i + 1];
      FailingUntilReset(Apply(s, es[0]), es[1..]);
      forall i | 0 <= i < |es| ensures !ByStack(es[i]) {
        if i > 0 { assert es[i] == es[1..][i - 1]; }
      }
    }
  }

  /** The stack is on its way to a reset exactly after an error: its own, a failed write, an unsolicited packet. */
  lemma FailsIff(s: State, e: Event)
    requires Enabled(s, e)
    ensures Apply(s, e).stack.Failing? <==>
              || e.Fail? || e == LoseFrame(true)
              || (e.PubRecIn? && e.pid !in s.inflight) || (e.PubRelIn? && e.pid !in s.incoming)
              || (s.stack.Failing? && !ByStack(e))
  {
  }

  /**
   An unsolicited PUBREC for one identifier ends in a reset that releases every publisher, whatever
   the broker has received of theirs.
   */
  lemma {:induction false} UnsolicitedPubRecReleasesAll(s: State, q: int, es: seq<Event>, t: State)
    requires Enabled(s, PubRecIn(q)) && q !in s.inflight
    requires Runs(Apply(s, PubRecIn(q)), es) && t == Exec(Apply(s, PubRecIn(q)), es)
    requires forall i :: 0 <= i < |es| ==> !es[i].Reset? && !es[i].DropRun?
    ensures forall e :: Enabled(t, e) && ByStack(e) ==> e.Reset? || e.DropRun?
    ensures Enabled(t, Reset)
    ensures var u := Apply(t, Reset);
            && u.inflight == {} && u.rel == {} && u.outgoing == {} && u.incoming == {} && u.acks == map[]
            && u.connected == None && u.stack.Selecting?
  {
    FailingUntilReset(Apply(s, PubRecIn(q)), es);
  }

  // ---- identifiers are not reused while few are issued ----

  function Issues(es: seq<Event>): nat {
    if es == [] then 0
    else (if es[0].Reserve? || (es[0].DropSubscription? && es[0].locked) then 1 else 0) + Issues(es[1..])
  }

  /** `pid` was issued `k` identifiers ago and nobody else is about to send under it. */
  predicate IssuedAgo(s: State, pid: Pid, k: u16) {
    s.lastPid == Add(pid, k) && forall i :: 0 <= i < |s.senders| ==> s.senders[i].pid != pid
  }

  lemma AddOneMore(pid: Pid, k: u16)
    requires k < 65534
    ensures Add(Add(pid, k), 1) == Add(pid, k + 1) && Add(pid, k + 1) != pid
  {
  }

  lemma StepKeepsIssuedAgo(s: State, e: Event, pid: Pid, k: u16)
    requires Enabled(s, e) && IssuedAgo(s, pid, k) && k + Issues([e]) < 65535
    ensures !Enqueues(s, e, pid)
    ensures IssuedAgo(Apply(s, e), pid, k) || (Issues([e]) == 1 && IssuedAgo(Apply(s, e), pid, k + 1))
  {
    assert Issues([e]) == if e.Reserve? || (e.DropSubscription? && e.locked) then 1 else 0;
    if Issues([e]) == 1 { AddOneMore(pid, k); }
  }

  lemma {:induction false} FreshIdentifierIsNotReused(s: State, es: seq<Event>, pid: Pid, k: u16)
    requires Runs(s, es) && IssuedAgo(s, pid, k) && k + Issues(es) < 65535
    ensures NeverReused(s, es, pid)
    decreases |es|
  {
    if es != [] {
      assert Issues([es[0]]) == Issues(es) - Issues(es[1..]);
      StepKeepsIssuedAgo(s, es[0], pid, k);
      var s' := Apply(s, es[0]);
      if IssuedAgo(s', pid, k) {
        FreshIdentifierIsNotReused(s', es[1..], pid, k);
      } else {
        FreshIdentifierIsNotReused(s', es[1..], pid, k + 1);
      }
    }
  }

  // ---- from a fresh client ----

  /** Identifiers have not wrapped: those about to be used are new, and distinct from one another. */
  predicate Young(s: State) {
    && (forall i :: 0 <= i < |s.senders| ==> 1 < s.senders[i].pid <= s.lastPid)
    && (forall i, j :: 0 <= i < j < |s.senders| ==> s.senders[i].pid != s.senders[j].pid)
    && (forall p :: p in s.inflight + s.rel ==> p <= s.lastPid)
    && (forall i :: 0 <= i < |s.senders| ==> s.senders[i].pid !in s.inflight && s.senders[i].pid !in s.rel)
  }

  lemma WithoutKeepsYoung(s: State, i: nat, d: State)
    requires Young(s) && i < |s.senders| && d.lastPid == s.lastPid && d.senders == Without(s.senders, i)
    requires d.inflight + d.rel <= s.inflight + s.rel + {s.senders[i].pid}
    ensures Young(d)
  {
    forall j | 0 <= j < |d.senders| ensures d.senders[j] == s.senders[if j < i then j else j + 1] {}
  }

  lemma OthersKeepYoung(s: State, d: State)
    requires Young(s) && d.lastPid >= s.lastPid && d.senders == s.senders && d.inflight + d.rel <= s.inflight + s.rel
    ensures Young(d)
  {
    forall i | 0 <= i < |s.senders| ensures s.senders[i].pid !in d.inflight + d.rel {}
  }

  lemma ReserveKeepsYoung(s: State, kind: Kind)
    requires Young(s) && s.lastPid < 65535
    ensures Young(AfterReserve(s, kind))
  {
  }

  lemma StepKeepsYoung(s: State, e: Event)
    requires Enabled(s, e) && Young(s) && s.lastPid + Issues([e]) <= 65535
    ensures Young(Apply(s, e)) && Apply(s, e).lastPid <= s.lastPid + Issues([e])
  {
    assert Issues([e]) == if e.Reserve? || (e.DropSubscription? && e.locked) then 1 else 0;
    match e
    case Reserve(kind) => ReserveKeepsYoung(s, kind);
    case Enqueue(i) => WithoutKeepsYoung(s, i, Apply(s, e));
    case Abandon(i, _) => WithoutKeepsYoung(s, i, Apply(s, e));
    case _ => OthersKeepYoung(s, Apply(s, e));
  }

  lemma {:induction false} RunKeepsYoung(s: State, es: seq<Event>)
    requires Runs(s, es) && Young(s) && s.lastPid + Issues(es) <= 65535
    ensures Young(Exec(s, es)) && Exec(s, es).lastPid <= s.lastPid + Issues(es)
    decreases |es|
  {
    if es != [] {
      assert Issues([es[0]]) == Issues(es) - Issues(es[1..]);
      StepKeepsYoung(s, es[0]);
      RunKeepsYoung(Apply(s, es[0]), es[1..]);
    }
  }

  lemma YoungSenderIsFresh(s: State, i: nat)
    requires Young(s) && i < |s.senders|
    ensures IssuedAgo(AfterEnqueue(s, i), s.senders[i].pid, s.lastPid - s.senders[i].pid)
    ensures s.senders[i].pid !in s.rel
  {
  }

  /**
   From the second section of `send` to PUBCOMP, in any run of a fresh client that issues fewer than
   65535 identifiers: a QoS 2 publish is in `inflight_pub` until its PUBREC, in `outgoing_rel` from
   then until the next PUBCOMP, and in neither set afterwards.
   */
  lemma {:induction false} ExactlyOnceExchange(
      maxInflight: nat, maxAcks: nat, before: seq<Event>, s: State, i: nat, es: seq<Event>, t: State)
    requires Reached(maxInflight, maxAcks, before, s) && i < |s.senders|
    requires s.senders[i].kind == Publishing(ExactlyOnce) && Commits(s, s.senders[i])
    requires Runs(AfterEnqueue(s, i), es) && t == Exec(AfterEnqueue(s, i), es)
    requires Undisturbed(es, s.senders[i].pid) && PubAckIn(s.senders[i].pid) !in es
    requires Issues(before) + Issues(es) < 65535
    ensures var pid := s.senders[i].pid;
            && (pid in t.inflight <==> PubRecIn(pid) !in es)
            && (pid in t.rel <==> PubRecIn(pid) in es && PubCompIn(pid) !in SinceRec(es, pid))
  {
    var pid := s.senders[i].pid;
    RunKeepsYoung(Init(maxInflight, maxAcks), before);
    YoungSenderIsFresh(s, i);
    EnqueueStartsExchange(s, i);
    FreshIdentifierIsNotReused(AfterEnqueue(s, i), es, pid, s.lastPid - pid);
    ExchangeFollowsPhases(AfterEnqueue(s, i), es, pid, AwaitingRec);
    PhaseMeaning(es, pid);
  }

  /** In such a run a committed publish is sent under an identifier that is its own. */
  lemma {:induction false} FreshPublish(
      maxInflight: nat, maxAcks: nat, before: seq<Event>, s: State, i: nat, es: seq<Event>)
    requires Reached(maxInflight, maxAcks, before, s) && i < |s.senders|
    requires s.senders[i].kind.Acknowledged() && Commits(s, s.senders[i])
    requires Runs(AfterEnqueue(s, i), es) && Issues(before) + Issues(es) < 65535
    ensures JustSent(AfterEnqueue(s, i), s.senders[i].pid) && NeverReused(AfterEnqueue(s, i), es, s.senders[i].pid)
  {
    RunKeepsYoung(Init(maxInflight, maxAcks), before);
    YoungSenderIsFresh(s, i);
    EnqueueStartsExchange(s, i);
    FreshIdentifierIsNotReused(AfterEnqueue(s, i), es, s.senders[i].pid, s.lastPid - s.senders[i].pid);
  }

  /** The QoS 2 waiter from `send` to its end, in any run of a fresh client that issues fewer than 65535 identifiers. */
  lemma {:induction false} ExactlyOncePublish(
      maxInflight: nat, maxAcks: nat, before: seq<Event>, s: State, i: nat,
      a: seq<Event>, b: seq<Event>, c: seq<Event>, t: State)
    requires Reached(maxInflight, maxAcks, before, s) && i < |s.senders| && t == AfterEnqueue(s, i)
    requires s.senders[i].kind == Publishing(ExactlyOnce) && Commits(s, s.senders[i])
    requires Runs(t, a) && Runs(t, a + b) && Runs(t, a + b + c) && Issues(before) + Issues(a + b + c) < 65535
    requires NotGivenUp(a + b + c, s.senders[i].pid) && PubAckIn(s.senders[i].pid) !in a + b + c
    ensures var pid := s.senders[i].pid;
            ThreeStagesDone(Exec(t, a), Exec(t, a + b), Exec(t, a + b + c), pid)
            <==> Written(t, a, pid) && PubRecIn(pid) in a + b && PubCompIn(pid) in SinceRec(a + b + c, pid)
  {
    FreshPublish(maxInflight, maxAcks, before, s, i, a + b + c);
    ExactlyOnceWaiterIff(t, a, b, c, s.senders[i].pid);
  }
}
