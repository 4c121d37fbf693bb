/**
 The state shared by the client's futures and the stack, as a transition system: one event per
 section that runs under the `Shared` lock, in any interleaving.
 */
module Session {
  import opened Base
  import opened PacketId
  import opened Packets

  datatype AckStatus = AwaitingSubAck | AwaitingUnsubAck(waited: bool) | Acked(codes: Bytes)

  datatype Kind = Publishing(qos: QoS) | Subscribing | Unsubscribing {
    predicate Acknowledged() {
      Publishing? && !qos.AtMostOnce?
    }
  }

  /** A `send` between its two locked sections. */
  datatype Sender = Sender(pid: Pid, kind: Kind)

  /** Where `run` stands: in `select` or not started, connecting, or on its way to `reset` after an error. */
  datatype Stack = Selecting | Connecting | Failing

  /** `tx` lists the identifiers of the frames in the transmit channel, 0 for a frame without one. */
  datatype State = State(
    lastPid: Pid,
    connected: Option<bool>,
    cleanCount: nat,
    inflight: set<int>,
    rel: set<int>,
    outgoing: set<int>,
    incoming: set<int>,
    acks: map<int, AckStatus>,
    tx: seq<int>,
    senders: seq<Sender>,
    stack: Stack,
    maxInflight: nat,
    maxAcks: nat)

  datatype Event =
    | Reserve(kind: Kind)
    | Enqueue(i: nat)
    | Abandon(i: nat, granted: bool)
    | Transmit
    | LoseFrame(failed: bool)
    | PubAckIn(pid: int)
    | PubRecIn(pid: int)
    | PubCompIn(pid: int)
    | PublishIn(pid: int)
    | PubRelIn(pid: int)
    | SubAckIn(pid: int, codes: Bytes)
    | UnsubAckIn(pid: int, codes: Bytes)
    | TakeAck(pid: int)
    | CancelPublish(pid: int)
    | CancelSubscribe(pid: int)
    | DropSubscription(locked: bool, granted: bool, recorded: bool)
    | BeginConnect
    | Connected(sessionPresent: bool)
    | ConnectFailed
    | Fail
    | Reset
    | DropRun

  function Init(maxInflight: nat, maxAcks: nat): State {
    State(1, None, 0, {}, {}, {}, {}, map[], [], [], Selecting, maxInflight, maxAcks)
  }

  // ---- heapless collections: inserting fails when full, unless the key is there ----

  predicate FullFor(s: set<int>, x: int, cap: nat) {
    |s| == cap && x !in s
  }

  predicate AcksFullFor(s: State, pid: int) {
    |s.acks| == s.maxAcks && pid !in s.acks
  }

  // ---- connection ----

  /** `set_connected` */
  function AfterSetConnected(s: State, c: Option<bool>): State {
    var lost := s.connected != c && c == Some(false);
    s.(connected := c, cleanCount := if lost then (s.cleanCount + 1) % 256 else s.cleanCount)
  }

  /** `Shared::reset` */
  function AfterReset(s: State): State {
    AfterSetConnected(s, None).(
      inflight := {}, rel := {}, outgoing := {}, incoming := {}, acks := map[], stack := Selecting)
  }

  // ---- sending ----

  /** First locked section of `send`: the capacity check and the identifier. */
  function AfterReserve(s: State, kind: Kind): State {
    if kind.Acknowledged() && |s.inflight| == s.maxInflight then s
    else s.(lastPid := Add(s.lastPid, 1), senders := s.senders + [Sender(Add(s.lastPid, 1), kind)])
  }

  function Without(senders: seq<Sender>, i: nat): seq<Sender>
    requires i < |senders|
  {
    senders[..i] + senders[i + 1..]
  }

  /** Whether the second section of `send` gets as far as committing its frame. */
  predicate Commits(s: State, x: Sender) {
    && !FullFor(s.outgoing, x.pid, s.maxInflight)
    && (!x.kind.Publishing? ==> !AcksFullFor(s, x.pid))
  }

  /** Second locked section of `send`; a grant that is not committed becomes an empty frame. */
  function AfterEnqueue(s: State, i: nat): State
    requires i < |s.senders|
  {
    var x := s.senders[i];
    s.(senders := Without(s.senders, i),
       outgoing := if FullFor(s.outgoing, x.pid, s.maxInflight) then s.outgoing else s.outgoing + {x.pid},
       inflight := if Commits(s, x) && x.kind.Acknowledged() then s.inflight + {x.pid} else s.inflight,
       acks := if Commits(s, x) && !x.kind.Publishing?
               then s.acks[x.pid := if x.kind.Subscribing? then AwaitingSubAck else AwaitingUnsubAck(true)]
               else s.acks,
       tx := s.tx + [if Commits(s, x) then x.pid else 0])
  }

  function AfterAbandon(s: State, i: nat, granted: bool): State
    requires i < |s.senders|
  {
    s.(senders := Without(s.senders, i), tx := if granted then s.tx + [0] else s.tx)
  }

  /** The transmit arm of `select` after a successful write. */
  function AfterTransmit(s: State): State
    requires s.tx != []
  {
    s.(tx := s.tx[1..], outgoing := if s.tx[0] != 0 then s.outgoing - {s.tx[0]} else s.outgoing)
  }

  /** The transmit arm left early, by an error or because `run` is dropped: the grant's drop releases the frame. */
  function AfterLoseFrame(s: State, failed: bool): State
    requires s.tx != []
  {
    s.(tx := s.tx[1..], stack := if failed then Failing else s.stack)
  }

  // ---- acknowledgements ----

  function AfterPubAck(s: State, pid: int): State {
    s.(inflight := s.inflight - {pid})
  }

  /** An unsolicited PUBREC is an error of `select`. */
  function AfterPubRec(s: State, pid: int): State {
    if pid in s.inflight then s.(inflight := s.inflight - {pid}, rel := s.rel + {pid}) else s.(stack := Failing)
  }

  function AfterPubComp(s: State, pid: int): State {
    s.(rel := s.rel - {pid})
  }

  /** So is an unsolicited PUBREL. */
  function AfterPubRel(s: State, pid: int): State {
    if pid in s.incoming then s.(incoming := s.incoming - {pid}) else s.(stack := Failing)
  }

  function AfterSubAck(s: State, pid: int, codes: Bytes): State {
    if pid in s.acks && s.acks[pid] == AwaitingSubAck then s.(acks := s.acks[pid := Acked(codes)]) else s
  }

  function AfterUnsubAck(s: State, pid: int, codes: Bytes): State {
    if pid in s.acks && s.acks[pid] == AwaitingUnsubAck(true) then s.(acks := s.acks[pid := Acked(codes)])
    else if pid in s.acks && s.acks[pid] == AwaitingUnsubAck(false) then s.(acks := s.acks - {pid})
    else s
  }

  // ---- cancelled futures ----

  /** The drop guard of `wait_publish_tx`: `||` leaves `outgoing_pid` alone when the first removal succeeds. */
  function AfterCancelPublish(s: State, pid: int): State {
    s.(inflight := s.inflight - {pid},
       outgoing := if pid in s.inflight then s.outgoing else s.outgoing - {pid},
       rel := s.rel - {pid})
  }

  function AfterCancelSubscribe(s: State, pid: int): State {
    s.(acks := s.acks - {pid}, outgoing := s.outgoing - {pid})
  }

  /** `Subscription::drop`: its UNSUBSCRIBE is queued without an identifier on the frame. */
  function AfterDropSubscription(s: State, locked: bool, granted: bool, recorded: bool): State {
    var pid := if locked then Add(s.lastPid, 1) else 1;
    var insert := granted && recorded && !AcksFullFor(s, pid);
    s.(lastPid := if locked then pid else s.lastPid,
       acks := if insert then s.acks[pid := AwaitingUnsubAck(false)] else s.acks,
       tx := if granted then s.tx + [0] else s.tx)
  }

  // ---- runs ----

  predicate Enabled(s: State, e: Event) {
    match e
    case Enqueue(i) => i < |s.senders|
    case Abandon(i, _) => i < |s.senders|
    case TakeAck(pid) => pid in s.acks && s.acks[pid].Acked?
    case Transmit => s.stack.Selecting? && s.tx != []
    case LoseFrame(_) => s.stack.Selecting? && s.tx != []
    case PubAckIn(_) => s.stack.Selecting?
    case PubRecIn(_) => s.stack.Selecting?
    case PubCompIn(_) => s.stack.Selecting?
    case PublishIn(_) => s.stack.Selecting?
    case PubRelIn(_) => s.stack.Selecting?
    case SubAckIn(_, _) => s.stack.Selecting?
    case UnsubAckIn(_, _) => s.stack.Selecting?
    case BeginConnect => s.stack.Selecting?
    case Fail => s.stack.Selecting?
    case Connected(_) => s.stack.Connecting?
    case ConnectFailed => s.stack.Connecting?
    case Reset => !s.stack.Connecting?
    case _ => true
  }

  function Apply(s: State, e: Event): State
    requires Enabled(s, e)
  {
    match e
    case Reserve(kind) => AfterReserve(s, kind)
    case Enqueue(i) => AfterEnqueue(s, i)
    case Abandon(i, granted) => AfterAbandon(s, i, granted)
    case Transmit => AfterTransmit(s)
    case LoseFrame(failed) => AfterLoseFrame(s, failed)
    case PubAckIn(pid) => AfterPubAck(s, pid)
    case PubRecIn(pid) => AfterPubRec(s, pid)
    case PubCompIn(pid) => AfterPubComp(s, pid)
    case PublishIn(pid) => s.(incoming := s.incoming + {pid})
    case PubRelIn(pid) => AfterPubRel(s, pid)
    case SubAckIn(pid, codes) => AfterSubAck(s, pid, codes)
    case UnsubAckIn(pid, codes) => AfterUnsubAck(s, pid, codes)
    case TakeAck(pid) => s.(acks := s.acks - {pid})
    case CancelPublish(pid) => AfterCancelPublish(s, pid)
    case CancelSubscribe(pid) => AfterCancelSubscribe(s, pid)
    case DropSubscription(locked, granted, recorded) => AfterDropSubscription(s, locked, granted, recorded)
    case BeginConnect => AfterSetConnected(s, None).(stack := Connecting)
    case Connected(present) => AfterSetConnected(s, Some(present)).(stack := Selecting)
    case ConnectFailed => s.(stack := Selecting)
    case Fail => s.(stack := Failing)
    case Reset => AfterReset(s)
    case DropRun => s.(stack := Selecting)
  }

  /** Where the source unwraps a failed insertion. */
  predicate Panics(s: State, e: Event)
    requires Enabled(s, e)
  {
    match e
    case Enqueue(i) =>
      var x := s.senders[i];
      x.kind.Acknowledged() && Commits(s, x) && FullFor(s.inflight, x.pid, s.maxInflight)
    case PubRecIn(pid) => pid in s.inflight && FullFor(s.rel, pid, s.maxInflight)
    case PublishIn(pid) => FullFor(s.incoming, pid, s.maxInflight)
    case _ => false
  }

  predicate Runs(s: State, es: seq<Event>)
    decreases |es|
  {
    es == [] || (Enabled(s, es[0]) && !Panics(s, es[0]) && Runs(Apply(s, es[0]), es[1..]))
  }

  function Exec(s: State, es: seq<Event>): State
    requires Runs(s, es)
    decreases |es|
  {
    if es == [] then s else Exec(Apply(s, es[0]), es[1..])
  }

  // ---- composing runs ----

  lemma {:induction false} RunsConcat(s: State, a: seq<Event>, b: seq<Event>)
    ensures Runs(s, a + b) <==> Runs(s, a) && Runs(Exec(s, a), b)
    ensures Runs(s, a + b) ==> Exec(s, a + b) == Exec(Exec(s, a), b)
    decreases |a|
  {
    if a == [] {
      assert a + b == b;
    } else {
      assert (a + b)[0] == a[0] && (a + b)[1..] == a[1..] + b;
      if Enabled(s, a[0]) { RunsConcat(Apply(s, a[0]), a[1..], b); }
    }
  }

  /** One more event. */
  lemma RunsSnoc(s: State, es: seq<Event>, e: Event)
    requires Runs(s, es) && Enabled(Exec(s, es), e) && !Panics(Exec(s, es), e)
    ensures Runs(s, es + [e]) && Exec(s, es + [e]) == Apply(Exec(s, es), e)
  {
    var t := Exec(s, es);
    assert [e][1..] == [] && Runs(Apply(t, e), []);
    RunsConcat(s, es, [e]);
  }
}
