/** The channel as the source writes it: one object updated in place, with its loops. */
module PubSub {
  import opened Base
  import opened Ring
  import opened Channel
  import opened ChannelSafety

  /** The loop of `grant_immediate` on the queue; `ok` is false when it gives up at a frame under read. */
  method EvictLoop(capacity: nat, slots: nat, msgs: seq<Header>, size: nat) returns (rest: seq<Header>, ok: bool)
    ensures rest == msgs[EvictCount(capacity, slots, msgs, size)..]
    ensures !ok <==> rest != [] && rest[0].reading && (FreeSpace(capacity, Spans(rest)) < size || |rest| == slots)
  {
    ghost var k := 0;
    rest, ok := msgs, true;
    while FreeSpace(capacity, Spans(rest)) < size || |rest| == slots
      invariant k <= |msgs| && rest == msgs[k..] && ok
      invariant EvictCount(capacity, slots, msgs, size) == k + EvictCount(capacity, slots, rest, size)
      decreases |rest|
    {
      if rest == [] { break; }
      if rest[0].reading { ok := false; break; }
      rest, k := rest[1..], k + 1;
    }
  }

  /** `position(|m| m.message_id == id)` */
  method Position(msgs: seq<Header>, id: int) returns (index: nat)
    ensures index == Find(msgs, id)
  {
    index := 0;
    while index < |msgs| && msgs[index].id != id
      invariant index <= |msgs| && forall j :: 0 <= j < index ==> msgs[j].id != id
    {
      index := index + 1;
    }
  }

  /** The decrement loop of `FrameSubscriber::drop`. */
  method SettleLoop(msgs: seq<Header>, from: nat) returns (r: seq<Header>)
    ensures r == Settle(msgs, from)
  {
    r := msgs;
    var i := from;
    while i < |r|
      invariant from <= i && |r| == |msgs|
      invariant forall j :: 0 <= j < |r| ==>
        r[j] == if from <= j < i then msgs[j].(owed := msgs[j].owed - 1) else msgs[j]
    {
      r := r[i := r[i].(owed := r[i].owed - 1)];
      i := i + 1;
    }
  }

  /** The pop loop of `FrameSubscriber::drop`. */
  method PopPaidLoop(msgs: seq<Header>) returns (r: seq<Header>)
    ensures r == msgs[PaidCount(msgs)..]
  {
    r := msgs;
    ghost var k := 0;
    while r != [] && r[0].owed == 0
      invariant k <= |msgs| && r == msgs[k..] && PaidCount(msgs) == k + PaidCount(r)
      decreases |r|
    {
      r, k := r[1..], k + 1;
    }
  }

  /** The locked section of `read_with_context` on the values it touches. */
  method ReadLocked(ghost c: Chan, sub: SubId, cursor: int, nextId: int, msgs: seq<Header>, held: map<int, ReadGrant>)
    returns (r: Result<(int, Region, nat), Error>, cursor': int, msgs': seq<Header>, held': map<int, ReadGrant>)
    requires sub in c.cursors && cursor == c.cursors[sub] && nextId == c.nextId && msgs == c.msgs && held == c.held
    ensures c.(msgs := msgs', cursors := c.cursors[sub := cursor'], held := held') == AfterRead(c, sub)
    ensures match ReadOutcome(c, sub)
            case Err(e) => r == Err(e)
            case Ok(i) => r == Ok((c.msgs[i].id, c.msgs[i].at, c.msgs[i].pid))
  {
    cursor', msgs', held' := cursor, msgs, held;
    var startId := nextId - |msgs|;
    if cursor' < startId {
      cursor' := startId;
    }
    var index := cursor' - startId;
    if index >= |msgs| { return Err(InsufficientSize), cursor', msgs', held'; }
    var header := msgs[index];
    if header.reading { return Err(GrantInProgress), cursor', msgs', held'; }
    msgs' := msgs[index := header.(owed := header.owed - 1, reading := true)];
    cursor' := cursor' + 1;
    held' := held[header.id := ReadGrant(header.at, sub)];
    r := Ok((header.id, header.at, header.pid));
  }

  /** The locked section of `FrameSubscriber::drop` on the values it touches. */
  method LeaveLocked(ghost c: Chan, sub: SubId, cursor: int, nextId: int, msgs: seq<Header>) returns (left: seq<Header>)
    requires sub in c.cursors && cursor == c.cursors[sub] && nextId == c.nextId && msgs == c.msgs
    ensures c.(cursors := c.cursors - {sub}, msgs := left) == AfterLeave(c, sub)
  {
    left := msgs;
    var startId := nextId - |msgs|;
    if cursor >= startId {
      left := SettleLoop(left, cursor - startId);
      left := PopPaidLoop(left);
    }
  }

  class PubSubChannel {
    var buf: array<byte>
    var messages: seq<Header>
    var write: Option<Region>
    var nextMessageId: int
    var cursors: map<SubId, int>
    var held: map<int, ReadGrant>
    var publisherTaken: bool
    var nextSub: SubId
    const slots: nat
    const maxSubs: nat

    ghost function Model(): Chan
      reads this, buf
    {
      Chan(buf[..], messages, write, nextMessageId, cursors, held, publisherTaken, nextSub, slots, maxSubs)
    }

    ghost predicate Valid()
      reads this, buf
    {
      Safe(Model())
    }

    constructor (capacity: nat, slots: nat, maxSubs: nat)
      ensures Valid() && fresh(buf) && Model() == Init(capacity, slots, maxSubs)
    {
      buf := new byte[capacity](_ => 0);
      messages, write, nextMessageId, cursors, held := [], None, 0, map[], map[];
      publisherTaken, nextSub := false, 0;
      this.slots, this.maxSubs := slots, maxSubs;
      new;
      assert buf[..] == Init(capacity, slots, maxSubs).buf;
      InitIsSafe(capacity, slots, maxSubs);
    }

    function Space(): (n: int)
      reads this, buf
      ensures n == FreeSpace(buf.Length, Spans(messages))
    {
      if messages == [] then buf.Length
      else
        var front, back := messages[0].at, messages[|messages| - 1].at;
        if back.End() <= front.start then front.start - back.End()
        else Max(front.start, buf.Length - back.End())
    }

    /** Zeroes the buffer byte by byte the first time and every time the publisher is taken again. */
    method TakePublisher() returns (ok: bool)
      requires Valid()
      modifies `publisherTaken, buf
      ensures Valid() && Model() == AfterTake(old(Model()))
      ensures ok == !old(publisherTaken)
      ensures ok ==> forall i :: 0 <= i < buf.Length ==> buf[i] == 0
    {
      StepKeepsSafe(Model(), Event.TakePublisher);
      if publisherTaken { return false; }
      publisherTaken := true;
      for i := 0 to buf.Length
        invariant publisherTaken && forall j :: 0 <= j < i ==> buf[j] == 0
      {
        buf[i] := 0;
      }
      assert buf[..] == AfterTake(old(Model())).buf;
      return true;
    }

    method DropPublisher()
      requires Valid() && publisherTaken
      modifies `publisherTaken
      ensures Valid() && Model() == Apply(old(Model()), Event.DropPublisher)
    {
      StepKeepsSafe(Model(), Event.DropPublisher);
      publisherTaken := false;
    }

    /** The loop of `grant_immediate`; false when it gives up at a frame under read. */
    method EvictFor(size: nat) returns (ok: bool)
      requires Valid() && publisherTaken
      modifies `messages
      ensures Valid() && Model() == AfterEvict(old(Model()), size)
      ensures !ok <==> messages != [] && messages[0].reading && (Space() < size || |messages| == slots)
    {
      StepKeepsSafe(Model(), Evict(size));
      messages, ok := EvictLoop(buf.Length, slots, messages, size);
    }

    method Grant(size: nat) returns (r: Result<Region, Error>)
      requires Valid() && publisherTaken
      modifies `write
      ensures Valid() && Model() == AfterGrant(old(Model()), size)
      ensures r == GrantOutcome(old(Model()), size)
    {
      StepKeepsSafe(Model(), Event.Grant(size));
      if write.Some? { return Err(GrantInProgress); }
      if size > Space() || |messages| == slots { return Err(InsufficientSize); }
      var start := 0;
      if messages != [] {
        var backEnd := messages[|messages| - 1].at.End();
        var inverted := backEnd <= messages[0].at.start;
        if inverted || size <= buf.Length - backEnd { start := backEnd; }
      }
      write := Some(Region(start, size));
      return Ok(Region(start, size));
    }

    method GrantImmediate(size: nat) returns (r: Result<Region, Error>)
      requires Valid() && publisherTaken
      modifies `messages, `write
      ensures Valid()
      ensures var d := AfterEvict(old(Model()), size);
              if d.msgs != [] && d.msgs[0].reading && (FreeSpace(|d.buf|, Spans(d.msgs)) < size || |d.msgs| == d.slots)
              then r == Err(InsufficientSize) && Model() == d
              else r == GrantOutcome(d, size) && Model() == AfterGrant(d, size)
    {
      var ok := EvictFor(size);
      if !ok { return Err(InsufficientSize); }
      r := Grant(size);
    }

    /** The holder of the write grant writes into its slice. */
    method Fill(bytes: Bytes)
      requires Valid() && write.Some? && |bytes| <= write.value.len
      modifies buf
      ensures Valid() && Model() == AfterFill(old(Model()), bytes)
    {
      StepKeepsSafe(Model(), Event.Fill(bytes));
      var start := write.value.start;
      assert Regions(Model())[|messages|] == write.value;
      for i := 0 to |bytes|
        invariant forall j :: 0 <= j < buf.Length ==>
          buf[j] == if start <= j < start + i then bytes[j - start] else old(buf[j])
      {
        buf[start + i] := bytes[i];
      }
      assert buf[..] == Overwrite(old(buf[..]), start, bytes);
    }

    method Commit(used: nat, pid: nat)
      requires Valid() && write.Some?
      modifies `write, `messages, `nextMessageId
      ensures Valid() && Model() == AfterCommit(old(Model()), used, pid)
    {
      StepKeepsSafe(Model(), Event.Commit(used, pid));
      var n := Min(write.value.len, used);
      if |cursors| == 0 {
        write := None;
        return;
      }
      var header := Header(Region(write.value.start, n % 0x1_0000), nextMessageId, |cursors|, false, pid);
      if |messages| < slots {
        messages := messages + [header];
      }
      nextMessageId := nextMessageId + 1;
      write := None;
    }

    method Subscribe() returns (r: Option<SubId>)
      requires Valid()
      modifies `cursors, `nextSub
      ensures Valid() && Model() == AfterJoin(old(Model()))
      ensures r == if |old(cursors)| < maxSubs then Some(old(nextSub)) else None
    {
      StepKeepsSafe(Model(), Join);
      if |cursors| >= maxSubs { return None; }
      r := Some(nextSub);
      cursors := cursors[nextSub := nextMessageId];
      nextSub := nextSub + 1;
    }

    method Read(sub: SubId) returns (r: Result<(int, Region, nat), Error>)
      requires Valid() && sub in cursors
      modifies `cursors, `messages, `held
      ensures Valid() && Model() == AfterRead(old(Model()), sub)
      ensures match ReadOutcome(old(Model()), sub)
              case Err(e) => r == Err(e)
              case Ok(i) => r == Ok((old(messages)[i].id, old(messages)[i].at, old(messages)[i].pid))
    {
      StepKeepsSafe(Model(), Event.Read(sub));
      var cursor, queue, grants;
      r, cursor, queue, grants := ReadLocked(Model(), sub, cursors[sub], nextMessageId, messages, held);
      messages, cursors, held := queue, cursors[sub := cursor], grants;
    }

    method Release(id: int)
      requires Valid() && id in held
      modifies `messages, `held
      ensures Valid() && Model() == AfterRelease(old(Model()), id)
    {
      StepKeepsSafe(Model(), Event.Release(id));
      held := held - {id};
      var index := Position(messages, id);
      if index == |messages| || !messages[index].reading { return; }
      if index == 0 && messages[0].owed == 0 {
        messages := messages[1..];
      } else {
        messages := messages[index := messages[index].(reading := false)];
      }
    }

    method Leave(sub: SubId)
      requires Valid() && sub in cursors
      modifies `cursors, `messages
      ensures Valid() && Model() == AfterLeave(old(Model()), sub)
    {
      LeaveKeepsSafe(Model(), sub);
      var left := LeaveLocked(Model(), sub, cursors[sub], nextMessageId, messages);
      cursors, messages := cursors - {sub}, left;
    }

    method Clear()
      requires Valid()
      modifies `messages
      ensures Valid() && Model() == Apply(old(Model()), Event.Clear)
    {
      StepKeepsSafe(Model(), Event.Clear);
      messages := [];
    }
  }
}
