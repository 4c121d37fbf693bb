/** The shared state as the source writes it: fields that locked sections update in place. */
module SharedState {
  import opened Base
  import opened PacketId
  import opened Session
  import opened SessionTheorems

  datatype SendError = MaxInflight

  datatype SendResult = Sent(pid: Pid) | Refused | Panicked

  datatype AckResult = Reply(pid: int) | Unsolicited(pid: int) | InsertFailed

  /** The collections that the second section of `send` inserts into. */
  datatype Sets = Sets(outgoing: set<int>, inflight: set<int>, acks: map<int, AckStatus>)

  /** The insertions of `send`, in their order, on the values they touch. */
  method EnqueueLocked(ghost s: State, ghost i: nat, x: Sender, sets: Sets, maxInflight: nat, maxAcks: nat)
    returns (r: SendResult, now: Sets)
    requires i < |s.senders| && x == s.senders[i] && maxInflight == s.maxInflight && maxAcks == s.maxAcks
    requires sets == Sets(s.outgoing, s.inflight, s.acks)
    ensures r == if Panics(s, Enqueue(i)) then Panicked else if Commits(s, x) then Sent(x.pid) else Refused
    ensures !r.Panicked? ==>
              s.(senders := Without(s.senders, i), outgoing := now.outgoing, inflight := now.inflight, acks := now.acks,
                 tx := s.tx + [if r.Sent? then r.pid else 0]) == AfterEnqueue(s, i)
  {
    now := sets;
    if FullFor(now.outgoing, x.pid, maxInflight) { return Refused, now; }
    now := now.(outgoing := now.outgoing + {x.pid});
    if x.kind.Publishing? {
      if x.kind.Acknowledged() {
        if FullFor(now.inflight, x.pid, maxInflight) { return Panicked, now; }
        now := now.(inflight := now.inflight + {x.pid});
      }
    } else {
      if |now.acks| == maxAcks && x.pid !in now.acks { return Refused, now; }
      var status := if x.kind.Subscribing? then AwaitingSubAck else AwaitingUnsubAck(true);
      now := now.(acks := now.acks[x.pid := status]);
    }
    r := Sent(x.pid);
  }

  /** `Shared`, with the transmit queue's identifiers and the progress of the futures that use it. */
  class Shared {
    var lastPid: Pid
    var connected: Option<bool>
    var cleanCount: nat
    var inflight: set<int>
    var rel: set<int>
    var outgoing: set<int>
    var incoming: set<int>
    var acks: map<int, AckStatus>
    var tx: seq<int>
    var senders: seq<Sender>
    var stack: Stack
    const maxInflight: nat
    const maxAcks: nat

    ghost function Model(): State
      reads this
    {
      State(lastPid, connected, cleanCount, inflight, rel, outgoing, incoming, acks, tx, senders, stack,
            maxInflight, maxAcks)
    }

    /** Collections within their capacity, a counter that fits its byte, disconnected while connecting. */
    ghost predicate Valid()
      reads this
    {
      SessionTheorems.Valid(Model())
    }

    constructor (maxInflight: nat, maxAcks: nat)
      ensures Valid() && Model() == Init(maxInflight, maxAcks)
    {
      lastPid, connected, cleanCount := 1, None, 0;
      inflight, rel, outgoing, incoming, acks := {}, {}, {}, {}, map[];
      tx, senders, stack := [], [], Selecting;
      this.maxInflight, this.maxAcks := maxInflight, maxAcks;
    }

    /** `next_pid` */
    method NextPid() returns (pid: Pid)
      modifies this`lastPid
      ensures pid == lastPid == Add(old(lastPid), 1)
    {
      lastPid := Add(lastPid, 1);
      pid := lastPid;
    }

    /** `set_connected` */
    method SetConnected(c: Option<bool>)
      modifies this`connected, this`cleanCount
      ensures Model() == AfterSetConnected(old(Model()), c)
    {
      var previous := connected;
      connected := c;
      if previous != c && c == Some(false) { cleanCount := (cleanCount + 1) % 256; }
    }

    /** `reset` */
    method ResetAll()
      requires Valid() && !stack.Connecting?
      modifies this
      ensures Valid() && Model() == Apply(old(Model()), Reset)
    {
      StepKeepsValid(Model(), Reset);
      SetConnected(None);
      inflight, acks, outgoing, rel, incoming := {}, map[], {}, {}, {};
      stack := Selecting;
    }

    /** `send` up to its first unlock. */
    method SendReserve(kind: Kind) returns (r: Result<Pid, SendError>)
      requires Valid()
      modifies this
      ensures Valid() && Model() == Apply(old(Model()), Reserve(kind))
      ensures r.Err? <==> kind.Acknowledged() && |old(inflight)| == maxInflight
      ensures r.Ok? ==> senders == old(senders) + [Sender(r.value, kind)]
    {
      StepKeepsValid(Model(), Reserve(kind));
      if kind.Acknowledged() && |inflight| == maxInflight { return Err(MaxInflight); }
      var pid := NextPid();
      senders := senders + [Sender(pid, kind)];
      r := Ok(pid);
    }

    /** `send` from its second lock on; an identifier stays recorded when the acknowledgement has no room. */
    method SendEnqueue(i: nat) returns (r: SendResult)
      requires Valid() && i < |senders|
      modifies this
      ensures r.Panicked? <==> Panics(old(Model()), Enqueue(i))
      ensures !r.Panicked? ==> Valid() && Model() == Apply(old(Model()), Enqueue(i))
      ensures !r.Panicked? ==> (r == Sent(old(senders[i].pid)) <==> Commits(old(Model()), old(senders[i])))
    {
      if !Panics(Model(), Enqueue(i)) { StepKeepsValid(Model(), Enqueue(i)); }
      var recorded;
      r, recorded := EnqueueLocked(Model(), i, senders[i], Sets(outgoing, inflight, acks), maxInflight, maxAcks);
      senders := Without(senders, i);
      outgoing, inflight, acks := recorded.outgoing, recorded.inflight, recorded.acks;
      tx := tx + [if r.Sent? then r.pid else 0];
    }

    /** The transmit arm of `select` once the socket has taken the frame. */
    method TransmitFrame()
      requires Valid() && Enabled(Model(), Transmit)
      modifies this
      ensures Valid() && Model() == Apply(old(Model()), Transmit)
    {
      StepKeepsValid(Model(), Transmit);
      var pid := tx[0];
      if pid != 0 { outgoing := outgoing - {pid}; }
      tx := tx[1..];
    }

    /** The transmit arm left early: by a write error, or because `run` is dropped. */
    method LeaveTransmit(failed: bool)
      requires Valid() && Enabled(Model(), LoseFrame(failed))
      modifies this
      ensures Valid() && Model() == Apply(old(Model()), LoseFrame(failed))
    {
      StepKeepsValid(Model(), LoseFrame(failed));
      tx := tx[1..];
      if failed { stack := Failing; }
    }

    /** `handle_pub_ack` */
    method HandlePubAck(pid: int)
      requires Valid() && stack.Selecting?
      modifies this`inflight
      ensures Valid() && Model() == Apply(old(Model()), PubAckIn(pid))
    {
      StepKeepsValid(Model(), PubAckIn(pid));
      inflight := inflight - {pid};
    }

    /** `handle_pub_rec` */
    method HandlePubRec(pid: int) returns (r: AckResult)
      requires Valid() && stack.Selecting?
      modifies this
      ensures r == if Panics(old(Model()), PubRecIn(pid)) then InsertFailed
                   else if pid in old(inflight) then Reply(pid) else Unsolicited(pid)
      ensures !r.InsertFailed? ==> Valid() && Model() == Apply(old(Model()), PubRecIn(pid))
    {
      if !Panics(Model(), PubRecIn(pid)) { StepKeepsValid(Model(), PubRecIn(pid)); }
      if pid !in inflight {
        stack := Failing;
        return Unsolicited(pid);
      }
      inflight := inflight - {pid};
      if FullFor(rel, pid, maxInflight) { return InsertFailed; }
      rel := rel + {pid};
      r := Reply(pid);
    }

    /** `handle_pub_comp` */
    method HandlePubComp(pid: int)
      requires Valid() && stack.Selecting?
      modifies this`rel
      ensures Valid() && Model() == Apply(old(Model()), PubCompIn(pid))
    {
      StepKeepsValid(Model(), PubCompIn(pid));
      rel := rel - {pid};
    }

    /** The QoS 2 arm for an incoming PUBLISH. */
    method HandlePublish(pid: int) returns (r: AckResult)
      requires Valid() && stack.Selecting?
      modifies this`incoming
      ensures r == if Panics(old(Model()), PublishIn(pid)) then InsertFailed else Reply(pid)
      ensures !r.InsertFailed? ==> Valid() && Model() == Apply(old(Model()), PublishIn(pid))
    {
      if FullFor(incoming, pid, maxInflight) { return InsertFailed; }
      StepKeepsValid(Model(), PublishIn(pid));
      incoming := incoming + {pid};
      r := Reply(pid);
    }

    /** `handle_pub_rel` */
    method HandlePubRel(pid: int) returns (r: AckResult)
      requires Valid() && stack.Selecting?
      modifies this
      ensures Valid() && Model() == Apply(old(Model()), PubRelIn(pid))
      ensures r == if pid in old(incoming) then Reply(pid) else Unsolicited(pid)
    {
      StepKeepsValid(Model(), PubRelIn(pid));
      if pid in incoming {
        incoming := incoming - {pid};
        return Reply(pid);
      }
      stack := Failing;
      r := Unsolicited(pid);
    }

    /** `handle_sub_ack` */
    method HandleSubAck(pid: int, codes: Bytes)
      requires Valid() && stack.Selecting?
      modifies this`acks
      ensures Valid() && Model() == Apply(old(Model()), SubAckIn(pid, codes))
    {
      StepKeepsValid(Model(), SubAckIn(pid, codes));
      if pid in acks && acks[pid] == AwaitingSubAck { acks := acks[pid := Acked(codes)]; }
    }

    /** `handle_unsub_ack` */
    method HandleUnsubAck(pid: int, codes: Bytes)
      requires Valid() && stack.Selecting?
      modifies this`acks
      ensures Valid() && Model() == Apply(old(Model()), UnsubAckIn(pid, codes))
    {
      StepKeepsValid(Model(), UnsubAckIn(pid, codes));
      if pid !in acks { return; }
      if acks[pid] == AwaitingUnsubAck(true) {
        acks := acks[pid := Acked(codes)];
      } else if acks[pid] == AwaitingUnsubAck(false) {
        acks := acks - {pid};
      }
    }

    /** The drop guard of `wait_publish_tx`. */
    method CancelPublishWait(pid: int)
      requires Valid()
      modifies this
      ensures Valid() && Model() == Apply(old(Model()), CancelPublish(pid))
    {
      ghost var next := Apply(Model(), CancelPublish(pid));
      StepKeepsValid(Model(), CancelPublish(pid));
      var removed := pid in inflight;
      inflight := inflight - {pid};
      if !removed { outgoing := outgoing - {pid}; }
      rel := rel - {pid};
      assert Model() == next;
    }

    /** The drop guard of `wait_subscribe_tx`. */
    method CancelSubscribeWait(pid: int)
      requires Valid()
      modifies this
      ensures Valid() && Model() == Apply(old(Model()), CancelSubscribe(pid))
    {
      ghost var next := Apply(Model(), CancelSubscribe(pid));
      StepKeepsValid(Model(), CancelSubscribe(pid));
      acks := acks - {pid};
      outgoing := outgoing - {pid};
      assert Model() == next;
    }

    /** `Subscription::drop`; the flags say which of its `try_lock`s and its grant succeed. */
    method DropSubscriber(locked: bool, granted: bool, recorded: bool)
      requires Valid()
      modifies this
      ensures Valid() && Model() == Apply(old(Model()), DropSubscription(locked, granted, recorded))
    {
      StepKeepsValid(Model(), DropSubscription(locked, granted, recorded));
      var pid: Pid := 1;
      if locked { pid := NextPid(); }
      if granted {
        if recorded && !(|acks| == maxAcks && pid !in acks) { acks := acks[pid := AwaitingUnsubAck(false)]; }
        tx := tx + [0];
      }
    }

    /** `run` before it connects. */
    method StartConnect()
      requires Valid() && stack.Selecting?
      modifies this
      ensures Valid() && Model() == Apply(old(Model()), BeginConnect) && connected == None
    {
      StepKeepsValid(Model(), BeginConnect);
      SetConnected(None);
      stack := Connecting;
    }

    /** `run` once the broker has answered: the counter moves exactly when it holds no session. */
    method FinishConnect(sessionPresent: bool)
      requires Valid() && stack.Connecting?
      modifies this
      ensures Valid() && Model() == Apply(old(Model()), Connected(sessionPresent))
      ensures cleanCount == if sessionPresent then old(cleanCount) else (old(cleanCount) + 1) % 256
    {
      StepKeepsValid(Model(), Connected(sessionPresent));
      SetConnected(Some(sessionPresent));
      stack := Selecting;
    }
  }
}
