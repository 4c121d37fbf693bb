/**
 The framed pub/sub channel as a machine of atomic steps, one step per locked
 section of the source (src/pubsub).  A run is any sequence of events, so every
 interleaving of the publisher, the subscribers and the outstanding grants is a
 run.  The class in `PubSubChannel` carries the code of each step and is proved
 equal to the functions here.
 */
module Channel {
  import opened Base
  import opened Ring

  /** Identity of a `FrameSubscriber` object; never reused. */
  type SubId = nat

  /**
   One queued frame.  `owed` is the `subscriber_count` of the header, kept as an
   unbounded integer so that "no decrement underflows" is something to prove.
   */
  datatype Header = Header(at: Region, id: int, owed: int, reading: bool, pid: nat)

  datatype ReadGrant = ReadGrant(at: Region, holder: SubId)

  /**
   The locked state, the buffer and the objects handed out.  `write` is the
   outstanding `FrameGrantW` (present exactly while `write_in_progress`),
   `held` the live `FrameGrantR`s by message id, `cursors` the live
   subscribers; `slots` and `maxSubs` are the capacity of the deque and `SUBS`.
   */
  datatype Chan = Chan(
    buf: Bytes,
    msgs: seq<Header>,
    write: Option<Region>,
    nextId: int,
    cursors: map<SubId, int>,
    held: map<int, ReadGrant>,
    taken: bool,
    nextSub: SubId,
    slots: nat,
    maxSubs: nat)

  datatype Error = InsufficientSize | GrantInProgress

  datatype Event =
    | Join
    | TakePublisher
    | DropPublisher
    | Evict(size: nat)
    | Grant(size: nat)
    | Fill(bytes: Bytes)
    | Commit(used: nat, pid: nat)
    | Read(sub: SubId)
    | Release(id: int)
    | Leak(id: int)
    | Leave(sub: SubId)
    | Clear

  function Init(capacity: nat, slots: nat, maxSubs: nat): Chan {
    Chan(seq(capacity, _ => 0), [], None, 0, map[], map[], false, 0, slots, maxSubs)
  }

  function Spans(msgs: seq<Header>): (rs: seq<Region>)
    ensures |rs| == |msgs| && forall i :: 0 <= i < |msgs| ==> rs[i] == msgs[i].at
  {
    seq(|msgs|, i requires 0 <= i < |msgs| => msgs[i].at)
  }

  /** `next_message_id - messages.len()` */
  function StartId(c: Chan): int {
    c.nextId - |c.msgs|
  }

  // ---- publisher steps ----

  /** How many frames the loop of `grant_immediate` removes from the front. */
  function EvictCount(capacity: nat, slots: nat, msgs: seq<Header>, size: nat): (k: nat)
    ensures k <= |msgs|
  {
    if msgs != [] && !msgs[0].reading && (FreeSpace(capacity, Spans(msgs)) < size || |msgs| == slots)
    then 1 + EvictCount(capacity, slots, msgs[1..], size)
    else 0
  }

  function AfterEvict(c: Chan, size: nat): Chan {
    c.(msgs := c.msgs[EvictCount(|c.buf|, c.slots, c.msgs, size)..])
  }

  /** `grant_with_context`: the region reserved, or why none is. */
  function GrantOutcome(c: Chan, size: nat): Result<Region, Error> {
    if c.write.Some? then Err(GrantInProgress)
    else if size > FreeSpace(|c.buf|, Spans(c.msgs)) || |c.msgs| == c.slots then Err(InsufficientSize)
    else Ok(Region(GrantStart(|c.buf|, Spans(c.msgs), size), size))
  }

  function AfterGrant(c: Chan, size: nat): Chan {
    match GrantOutcome(c, size)
    case Ok(r) => c.(write := Some(r))
    case Err(_) => c
  }

  function Overwrite(buf: Bytes, start: nat, bytes: Bytes): (r: Bytes)
    requires start + |bytes| <= |buf|
    ensures |r| == |buf|
  {
    buf[..start] + bytes + buf[start + |bytes|..]
  }

  /** The bytes of a region; empty if it leaves the buffer, which `Geometry` excludes. */
  function Slice(buf: Bytes, r: Region): Bytes {
    if r.End() <= |buf| then buf[r.start..r.End()] else []
  }

  function AfterFill(c: Chan, bytes: Bytes): Chan
    requires c.write.Some?
  {
    if c.write.value.start + |bytes| <= |c.buf|
    then c.(buf := Overwrite(c.buf, c.write.value.start, bytes))
    else c
  }

  /** `commit_inner`: the length is saturated to the grant and then cast to `u16`. */
  function CommittedHeader(c: Chan, used: nat, pid: nat): Header
    requires c.write.Some?
  {
    var len := Min(c.write.value.len, used) % 0x1_0000;
    Header(Region(c.write.value.start, len), c.nextId, |c.cursors|, false, pid)
  }

  function AfterCommit(c: Chan, used: nat, pid: nat): Chan
    requires c.write.Some?
  {
    if |c.cursors| == 0 then c.(write := None)
    else
      var queued := if |c.msgs| < c.slots then c.msgs + [CommittedHeader(c, used, pid)] else c.msgs;
      c.(msgs := queued, nextId := c.nextId + 1, write := None)
  }

  /** Taking the publisher zeroes the whole buffer. */
  function AfterTake(c: Chan): Chan {
    if c.taken then c else c.(taken := true, buf := seq(|c.buf|, _ => 0))
  }

  // ---- subscriber steps ----

  function AfterJoin(c: Chan): Chan {
    if |c.cursors| >= c.maxSubs then c
    else c.(cursors := c.cursors[c.nextSub := c.nextId], nextSub := c.nextSub + 1)
  }

  /** The cursor after `read_with_context` has skipped what is no longer queued. */
  function CaughtUp(c: Chan, sub: SubId): int
    requires sub in c.cursors
  {
    Max(c.cursors[sub], StartId(c))
  }

  /** The index of the frame that `read_with_context` grants, or why it grants none. */
  function ReadOutcome(c: Chan, sub: SubId): Result<nat, Error>
    requires sub in c.cursors
  {
    var index := CaughtUp(c, sub) - StartId(c);
    if index >= |c.msgs| then Err(InsufficientSize)
    else if c.msgs[index].reading then Err(GrantInProgress)
    else Ok(index)
  }

  function AfterRead(c: Chan, sub: SubId): Chan
    requires sub in c.cursors
  {
    match ReadOutcome(c, sub)
    case Err(_) => c.(cursors := c.cursors[sub := CaughtUp(c, sub)])
    case Ok(i) =>
      var h := c.msgs[i];
      c.(msgs := c.msgs[i := h.(owed := h.owed - 1, reading := true)],
         cursors := c.cursors[sub := CaughtUp(c, sub) + 1],
         held := c.held[h.id := ReadGrant(h.at, sub)])
  }

  /** `position(|m| m.message_id == id)`; the length when there is none. */
  function Find(msgs: seq<Header>, id: int): (i: nat)
    ensures i <= |msgs|
    ensures i < |msgs| ==> msgs[i].id == id
    ensures forall j :: 0 <= j < i ==> msgs[j].id != id
  {
    if msgs == [] || msgs[0].id == id then 0 else 1 + Find(msgs[1..], id)
  }

  /** The queue after `release_inner`. */
  function Unmark(msgs: seq<Header>, id: int): seq<Header> {
    var i := Find(msgs, id);
    if i == |msgs| || !msgs[i].reading then msgs
    else if i == 0 && msgs[0].owed == 0 then msgs[1..]
    else msgs[i := msgs[i].(reading := false)]
  }

  function AfterRelease(c: Chan, id: int): Chan {
    c.(msgs := Unmark(c.msgs, id), held := c.held - {id})
  }

  /** A grant dropped with `auto_release(false)`: the frame keeps its mark. */
  function AfterLeak(c: Chan, id: int): Chan {
    c.(held := c.held - {id})
  }

  /** `for_each(|header| header.subscriber_count -= 1)` from index `from` on. */
  function Settle(msgs: seq<Header>, from: int): (r: seq<Header>)
    ensures |r| == |msgs|
    ensures forall i :: 0 <= i < |msgs| ==>
      r[i] == if from <= i then msgs[i].(owed := msgs[i].owed - 1) else msgs[i]
  {
    seq(|msgs|, i requires 0 <= i < |msgs| =>
      if from <= i then msgs[i].(owed := msgs[i].owed - 1) else msgs[i])
  }

  /** How many frames at the front nobody owes a read any more. */
  function PaidCount(msgs: seq<Header>): (k: nat)
    ensures k <= |msgs|
    ensures forall i :: 0 <= i < k ==> msgs[i].owed == 0
    ensures k < |msgs| ==> msgs[k].owed != 0
  {
    if msgs != [] && msgs[0].owed == 0 then 1 + PaidCount(msgs[1..]) else 0
  }

  /** `FrameSubscriber::drop`; a lagged subscriber only disappears. */
  function AfterLeave(c: Chan, sub: SubId): Chan
    requires sub in c.cursors
  {
    var gone := c.(cursors := c.cursors - {sub});
    if c.cursors[sub] < StartId(c) then gone
    else
      var settled := Settle(c.msgs, c.cursors[sub] - StartId(c));
      gone.(msgs := settled[PaidCount(settled)..])
  }

  // ---- runs ----

  /** What ownership in the source allows: only objects that exist are used. */
  predicate Enabled(c: Chan, e: Event) {
    match e
    case DropPublisher => c.taken
    case Evict(_) => c.taken
    case Grant(_) => c.taken
    case Fill(bytes) => c.write.Some? && |bytes| <= c.write.value.len
    case Commit(_, _) => c.write.Some?
    case Read(s) => s in c.cursors
    case Leave(s) => s in c.cursors
    case Release(id) => id in c.held
    case Leak(id) => id in c.held
    case _ => true
  }

  function Apply(c: Chan, e: Event): Chan {
    if !Enabled(c, e) then c else
    match e
    case Join => AfterJoin(c)
    case TakePublisher => AfterTake(c)
    case DropPublisher => c.(taken := false)
    case Evict(n) => AfterEvict(c, n)
    case Grant(n) => AfterGrant(c, n)
    case Fill(bytes) => AfterFill(c, bytes)
    case Commit(used, pid) => AfterCommit(c, used, pid)
    case Read(s) => AfterRead(c, s)
    case Release(id) => AfterRelease(c, id)
    case Leak(id) => AfterLeak(c, id)
    case Leave(s) => AfterLeave(c, s)
    case Clear => c.(msgs := [])
  }

  function Exec(c: Chan, es: seq<Event>): Chan
    decreases |es|
  {
    if es == [] then c else Exec(Apply(c, es[0]), es[1..])
  }

  /** Every event of the run is taken in a state where `ok` allows it. */
  ghost predicate Along(ok: (Chan, Event) -> bool, c: Chan, es: seq<Event>)
    decreases |es|
  {
    es == [] || (ok(c, es[0]) && Along(ok, Apply(c, es[0]), es[1..]))
  }
}
