/**
 What the channel is for: broadcast.  The specification is a log of published
 byte strings with one cursor per subscriber; a run of the channel is a sequence
 of observable labels that the log must accept.
 */
module Broadcast {
  import opened Base
  import opened Ring
  import opened Channel
  import opened ChannelSafety
  import opened ChannelReads

  /** What a frame carries: its bytes and the packet identifier of its header. */
  datatype Note = Note(bytes: Bytes, pid: nat)

  datatype Label =
    | Joined(sub: SubId)
    | Left(sub: SubId)
    | Published(note: Note)
    | Received(sub: SubId, id: int, note: Note)
    | Drained(sub: SubId)
    | Discarded(from: int, to: int)
    | Silent

  // ---- the specification ----

  /** Everything ever published, where each subscriber stands, and the messages thrown away by force. */
  datatype Log = Log(sent: seq<Note>, at: map<SubId, int>, lost: set<int>)

  /** Every message in this range was thrown away by force. */
  ghost predicate Excused(lost: set<int>, from: int, to: int) {
    forall j :: from <= j < to ==> j in lost
  }

  ghost predicate Accepts(g: Log, l: Label) {
    match l
    case Joined(s) => s !in g.at
    case Left(s) => s in g.at
    case Received(s, id, note) =>
      && s in g.at && 0 <= g.at[s] <= id < |g.sent| && g.sent[id] == note
      && Excused(g.lost, g.at[s], id)
    case Drained(s) => s in g.at && Excused(g.lost, g.at[s], |g.sent|)
    case Discarded(lo, hi) => 0 <= lo <= hi <= |g.sent|
    case _ => true
  }

  ghost function Range(lo: int, hi: int): (r: set<int>)
    ensures forall j :: j in r <==> lo <= j < hi
    decreases hi - lo
  {
    if lo < hi then {lo} + Range(lo + 1, hi) else {}
  }

  ghost function Next(g: Log, l: Label): Log {
    match l
    case Joined(s) => g.(at := g.at[s := |g.sent|])
    case Left(s) => g.(at := g.at - {s})
    case Published(note) => g.(sent := g.sent + [note])
    case Received(s, id, _) => g.(at := g.at[s := id + 1])
    case Discarded(lo, hi) => g.(lost := g.lost + Range(lo, hi))
    case _ => g
  }

  ghost predicate AcceptsAll(g: Log, ls: seq<Label>)
    decreases |ls|
  {
    ls == [] || (Accepts(g, ls[0]) && AcceptsAll(Next(g, ls[0]), ls[1..]))
  }

  // ---- the labels of a run ----

  /** The bytes the writer asks to publish, before any cast of their number. */
  function Offered(c: Chan, used: nat): Bytes
    requires c.write.Some?
  {
    Slice(c.buf, Region(c.write.value.start, Min(c.write.value.len, used)))
  }

  /** What the queued frame `i` hands to its readers. */
  function Carried(c: Chan, i: nat): Note
    requires i < |c.msgs|
  {
    Note(Slice(c.buf, c.msgs[i].at), c.msgs[i].pid)
  }

  function Observe(c: Chan, e: Event): Label {
    if !Enabled(c, e) then Silent else
    match e
    case Join => if |c.cursors| < c.maxSubs then Joined(c.nextSub) else Silent
    case Leave(s) => Left(s)
    case Commit(used, pid) => if |c.cursors| > 0 then Published(Note(Offered(c, used), pid)) else Silent
    case Read(s) => (
      match ReadOutcome(c, s)
      case Ok(i) => Received(s, c.msgs[i].id, Carried(c, i))
      case Err(InsufficientSize) => Drained(s)
      case Err(GrantInProgress) => Silent)
    case Evict(n) => Discarded(StartId(c), StartId(c) + EvictCount(|c.buf|, c.slots, c.msgs, n))
    case Clear => Discarded(StartId(c), c.nextId)
    case _ => Silent
  }

  function Trace(c: Chan, es: seq<Event>): seq<Label>
    decreases |es|
  {
    if es == [] then [] else [Observe(c, es[0])] + Trace(Apply(c, es[0]), es[1..])
  }

  // ---- refinement ----

  ghost predicate Positions(c: Chan, g: Log) {
    && |g.sent| == c.nextId
    && g.at.Keys == c.cursors.Keys
    && forall s :: s in g.at ==>
         0 <= g.at[s] <= c.cursors[s] && Excused(g.lost, g.at[s], Max(c.cursors[s], StartId(c)))
  }

  ghost predicate Contents(c: Chan, g: Log) {
    |g.sent| == c.nextId && forall i :: 0 <= i < |c.msgs| ==>
      0 <= c.msgs[i].id < |g.sent| && Carried(c, i) == g.sent[c.msgs[i].id]
  }

  /** Frames fit the `u16` of the header, and the publisher is not taken anew over queued frames. */
  predicate Faithful(c: Chan, e: Event) {
    match e
    case Commit(used, _) => c.write.Some? ==> Min(c.write.value.len, used) < 0x1_0000
    case TakePublisher => c.taken || c.msgs == []
    case _ => true
  }

  /** A commit publishes the bytes the writer offered exactly when their number fits the `u16` length. */
  lemma CommitIsFaithfulIff(c: Chan, used: nat, pid: nat)
    requires Safe(c) && c.write.Some?
    ensures Slice(c.buf, CommittedHeader(c, used, pid).at) == Offered(c, used)
            <==> Faithful(c, Commit(used, pid))
  {
    assert Regions(c)[|c.msgs|] == c.write.value;
    assert |Offered(c, used)| == Min(c.write.value.len, used);
  }

  lemma PaidMeansPassed(c: Chan, i: nat)
    requires Counts(c) && i < |c.msgs| && c.msgs[i].owed == 0
    ensures forall s :: s in c.cursors ==> c.msgs[i].id < c.cursors[s]
  {
    assert Owing(c.cursors, c.msgs[i].id) == {};
    forall s | s in c.cursors ensures c.msgs[i].id < c.cursors[s] {
      assert s !in Owing(c.cursors, c.msgs[i].id);
    }
  }

  /** Frames removed because nobody owes them are missed by nobody. */
  lemma PaidPopKeepsPositions(c: Chan, g: Log, n: nat)
    requires Ids(c) && Counts(c) && Positions(c, g) && n <= |c.msgs|
    requires forall i :: 0 <= i < n ==> c.msgs[i].owed == 0
    ensures Positions(c.(msgs := c.msgs[n..]), g)
  {
    if n > 0 { PaidMeansPassed(c, n - 1); }
  }

  lemma DropFrontKeepsContents(c: Chan, g: Log, n: nat)
    requires Contents(c, g) && n <= |c.msgs|
    ensures Contents(c.(msgs := c.msgs[n..]), g)
  {
    var d := c.(msgs := c.msgs[n..]);
    assert forall i :: 0 <= i < |d.msgs| ==> d.msgs[i] == c.msgs[n + i] && Carried(d, i) == Carried(c, n + i);
  }

  lemma RelabelKeepsContents(c: Chan, d: Chan, g: Log, h: Log)
    requires Contents(c, g) && d.buf == c.buf && d.nextId == c.nextId && h.sent == g.sent && |d.msgs| == |c.msgs|
    requires forall i :: 0 <= i < |c.msgs| ==>
      d.msgs[i].at == c.msgs[i].at && d.msgs[i].id == c.msgs[i].id && d.msgs[i].pid == c.msgs[i].pid
    ensures Contents(d, h)
  {
    assert forall i :: 0 <= i < |c.msgs| ==> Carried(d, i) == Carried(c, i);
  }

  ghost predicate Related(c: Chan, g: Log) {
    Positions(c, g) && Contents(c, g)
  }

  /** The label of this step is accepted, and the states agree again afterwards. */
  ghost predicate Refines(c: Chan, g: Log, e: Event) {
    Accepts(g, Observe(c, e)) && Related(Apply(c, e), Next(g, Observe(c, e)))
  }

  lemma OverwriteElsewhere(buf: Bytes, at: Region, bytes: Bytes, r: Region)
    requires at.End() <= |buf| && |bytes| <= at.len && Disjoint(r, at)
    ensures Slice(Overwrite(buf, at.start, bytes), r) == Slice(buf, r)
  {
  }

  lemma FillRefines(c: Chan, g: Log, bytes: Bytes)
    requires Geometry(c) && Related(c, g) && Enabled(c, Fill(bytes))
    ensures Refines(c, g, Fill(bytes))
  {
    var d, rs := AfterFill(c, bytes), Regions(c);
    assert rs[|c.msgs|] == c.write.value;
    forall i | 0 <= i < |c.msgs| ensures Carried(d, i) == Carried(c, i) {
      assert rs[i] == c.msgs[i].at;
      RingOrderedIsDisjoint(|c.buf|, rs, i, |c.msgs|);
      OverwriteElsewhere(c.buf, c.write.value, bytes, c.msgs[i].at);
    }
  }

  lemma CommitRefines(c: Chan, g: Log, used: nat, pid: nat)
    requires Ids(c) && Cursors(c) && Related(c, g) && c.write.Some? && Faithful(c, Commit(used, pid))
    ensures Refines(c, g, Commit(used, pid))
  {
    var d, h := AfterCommit(c, used, pid), Next(g, Observe(c, Commit(used, pid)));
    if |c.cursors| > 0 {
      assert d.msgs == c.msgs + [CommittedHeader(c, used, pid)];
      forall i | 0 <= i < |d.msgs|
        ensures 0 <= d.msgs[i].id < |h.sent| && Carried(d, i) == h.sent[d.msgs[i].id]
      {
        if i < |c.msgs| { assert d.msgs[i] == c.msgs[i] && Carried(d, i) == Carried(c, i); }
      }
      assert Contents(d, h);
    }
  }

  lemma ForcedPopKeepsPositions(c: Chan, g: Log, n: nat)
    requires Positions(c, g) && n <= |c.msgs|
    ensures Positions(c.(msgs := c.msgs[n..]), g.(lost := g.lost + Range(StartId(c), StartId(c) + n)))
  {
  }

  lemma DiscardRefines(c: Chan, g: Log, e: Event)
    requires Ids(c) && Related(c, g) && Enabled(c, e) && (e.Evict? || e.Clear?)
    ensures Refines(c, g, e)
  {
    var n := if e.Evict? then EvictCount(|c.buf|, c.slots, c.msgs, e.size) else |c.msgs|;
    assert Apply(c, e) == c.(msgs := c.msgs[n..]);
    assert Observe(c, e) == Discarded(StartId(c), StartId(c) + n);
    ForcedPopKeepsPositions(c, g, n);
    DropFrontKeepsContents(c, g, n);
  }

  lemma JoinRefines(c: Chan, g: Log)
    requires Cursors(c) && Related(c, g)
    ensures Refines(c, g, Join)
  {
  }

  /** One cursor moves, in the channel and in the log. */
  lemma MoveKeepsPositions(c: Chan, g: Log, d: Chan, h: Log, s: SubId)
    requires Positions(c, g) && s in g.at
    requires d.nextId == c.nextId && |d.msgs| == |c.msgs| && h.sent == g.sent && h.lost == g.lost
    requires s in d.cursors && d.cursors == c.cursors[s := d.cursors[s]]
    requires s in h.at && h.at == g.at[s := h.at[s]]
    requires 0 <= h.at[s] <= d.cursors[s] && Excused(h.lost, h.at[s], Max(d.cursors[s], StartId(d)))
    ensures Positions(d, h)
  {
  }

  lemma ReadRefines(c: Chan, g: Log, s: SubId)
    requires Ids(c) && Cursors(c) && Related(c, g) && s in c.cursors
    ensures Refines(c, g, Read(s))
  {
    var d, h := AfterRead(c, s), Next(g, Observe(c, Read(s)));
    ReadIsAccepted(c, g, s);
    RelabelKeepsContents(c, d, g, h);
    MoveKeepsPositions(c, g, d, h, s);
  }

  lemma ReadIsAccepted(c: Chan, g: Log, s: SubId)
    requires Ids(c) && Cursors(c) && Related(c, g) && s in c.cursors
    ensures var l := Observe(c, Read(s));
            && Accepts(g, l) && (l.Received? || l.Drained? || l.Silent?)
            && (l.Received? ==> l.sub == s && l.id == CaughtUp(c, s)) && (l.Drained? ==> l.sub == s)
  {
    var index := CaughtUp(c, s) - StartId(c);
    if index < |c.msgs| { assert c.msgs[index].id == CaughtUp(c, s); }
  }

  lemma ReleaseRefines(c: Chan, g: Log, id: int)
    requires Ids(c) && Counts(c) && Related(c, g) && id in c.held
    ensures Refines(c, g, Release(id))
  {
    var d := AfterRelease(c, id);
    if |d.msgs| < |c.msgs| {
      PaidPopKeepsPositions(c, g, 1);
      DropFrontKeepsContents(c, g, 1);
    } else {
      RelabelKeepsContents(c, d, g, g);
    }
  }

  lemma LeaveRefines(c: Chan, g: Log, s: SubId)
    requires Safe(c) && Related(c, g) && s in c.cursors
    ensures Refines(c, g, Leave(s))
  {
    SettleKeepsSafe(c, s);
    SettledRelated(c, g, s);
    var d, h := Settled(c, s), g.(at := g.at - {s});
    if StartId(c) <= c.cursors[s] {
      var n := PaidCount(d.msgs);
      assert AfterLeave(c, s) == d.(msgs := d.msgs[n..]);
      PaidPopKeepsPositions(d, h, n);
      DropFrontKeepsContents(d, h, n);
    }
  }

  lemma SettledRelated(c: Chan, g: Log, s: SubId)
    requires Related(c, g) && s in c.cursors
    ensures Related(Settled(c, s), g.(at := g.at - {s}))
  {
    RelabelKeepsContents(c, Settled(c, s), g, g.(at := g.at - {s}));
  }

  lemma StepRefines(c: Chan, g: Log, e: Event)
    requires Safe(c) && Related(c, g) && Faithful(c, e)
    ensures Refines(c, g, e)
  {
    if Enabled(c, e) {
      match e
      case Join => JoinRefines(c, g);
      case Evict(_) => DiscardRefines(c, g, e);
      case Clear => DiscardRefines(c, g, e);
      case Fill(bytes) => FillRefines(c, g, bytes);
      case Commit(used, pid) => CommitRefines(c, g, used, pid);
      case Read(s) => ReadRefines(c, g, s);
      case Release(id) => ReleaseRefines(c, g, id);
      case Leave(s) => LeaveRefines(c, g, s);
      case _ =>
    }
  }

  // ---- whole runs ----

  ghost function NextAll(g: Log, ls: seq<Label>): Log
    decreases |ls|
  {
    if ls == [] then g else NextAll(Next(g, ls[0]), ls[1..])
  }

  /** Any run whose steps are faithful refines the log, label by label. */
  lemma {:induction false} RunRefines(c: Chan, g: Log, es: seq<Event>)
    requires Safe(c) && Related(c, g) && Along(Faithful, c, es)
    ensures AcceptsAll(g, Trace(c, es))
    ensures Related(Exec(c, es), NextAll(g, Trace(c, es)))
    decreases |es|
  {
    if es != [] {
      StepRefines(c, g, es[0]);
      StepKeepsSafe(c, es[0]);
      var l, d := Observe(c, es[0]), Apply(c, es[0]);
      RunRefines(d, Next(g, l), es[1..]);
      assert Trace(c, es) == [l] + Trace(d, es[1..]);
      assert Trace(c, es)[1..] == Trace(d, es[1..]);
    }
  }

  function PublishedIn(ls: seq<Label>): seq<Note> {
    if ls == [] then []
    else (if ls[0].Published? then [ls[0].note] else []) + PublishedIn(ls[1..])
  }

  function ReceivedBy(s: SubId, ls: seq<Label>): seq<Note> {
    if ls == [] then []
    else (if ls[0].Received? && ls[0].sub == s then [ls[0].note] else []) + ReceivedBy(s, ls[1..])
  }

  /** Nothing is thrown away by force, and `s` stays. */
  predicate Quiet(s: SubId, e: Event) {
    !e.Evict? && !e.Clear? && e != Leave(s)
  }

  predicate QuietLabel(s: SubId, l: Label) {
    !l.Discarded? && l != Left(s)
  }

  lemma {:induction false} QuietRunHasQuietTrace(c: Chan, es: seq<Event>, s: SubId)
    requires forall i :: 0 <= i < |es| ==> Quiet(s, es[i])
    ensures forall i :: 0 <= i < |Trace(c, es)| ==> QuietLabel(s, Trace(c, es)[i])
    decreases |es|
  {
    if es != [] {
      QuietRunHasQuietTrace(Apply(c, es[0]), es[1..], s);
    }
  }

  /** `s` stands somewhere in the log and everything thrown away lies behind it. */
  ghost predicate Standing(g: Log, s: SubId) {
    s in g.at && 0 <= g.at[s] <= |g.sent| && LostBelow(g, g.at[s])
  }

  ghost predicate LostBelow(g: Log, bound: int) {
    forall j :: j in g.lost ==> j < bound
  }

  /** From `g` to `h` nothing was thrown away and `s` only moved forward in a growing log. */
  ghost predicate Advanced(g: Log, h: Log, s: SubId) {
    Standing(g, s) && Standing(h, s) && h.lost == g.lost && g.sent <= h.sent && g.at[s] <= h.at[s]
  }

  lemma NothingToExcuse(g: Log, from: int, to: int)
    requires Excused(g.lost, from, to) && LostBelow(g, from) && from <= to
    ensures from == to
  {
    assert to <= from || from in g.lost;
  }

  lemma Splice<T>(p: seq<T>, q: seq<T>, a: nat, b: nat, c: nat)
    requires p <= q && a <= b <= |p| && b <= c <= |q|
    ensures p[a..b] + q[b..c] == q[a..c]
  {
    assert q[a..b] == p[a..b];
  }

  lemma QuietLabelDelivers(g: Log, l: Label, s: SubId)
    requires Accepts(g, l) && QuietLabel(s, l) && Standing(g, s)
    ensures Advanced(g, Next(g, l), s)
    ensures ReceivedBy(s, [l]) == Next(g, l).sent[g.at[s]..Next(g, l).at[s]]
  {
    if l.Received? && l.sub == s {
      NothingToExcuse(g, g.at[s], l.id);
    }
  }

  /** In a quiet trace a subscriber receives exactly the part of the log between its two positions. */
  lemma {:induction false} QuietTraceDelivers(g: Log, ls: seq<Label>, s: SubId)
    requires AcceptsAll(g, ls) && Standing(g, s)
    requires forall i :: 0 <= i < |ls| ==> QuietLabel(s, ls[i])
    ensures Advanced(g, NextAll(g, ls), s)
    ensures ReceivedBy(s, ls) == NextAll(g, ls).sent[g.at[s]..NextAll(g, ls).at[s]]
    decreases |ls|
  {
    if ls != [] {
      QuietLabelDelivers(g, ls[0], s);
      var g1 := Next(g, ls[0]);
      QuietTraceDelivers(g1, ls[1..], s);
      var h := NextAll(g1, ls[1..]);
      assert ReceivedBy(s, ls) == ReceivedBy(s, [ls[0]]) + ReceivedBy(s, ls[1..]);
      Splice(g1.sent, h.sent, g.at[s], g1.at[s], h.at[s]);
    }
  }

  lemma {:induction false} LostStaysBelowSent(g: Log, ls: seq<Label>)
    requires AcceptsAll(g, ls) && LostBelow(g, |g.sent|)
    ensures LostBelow(NextAll(g, ls), |NextAll(g, ls).sent|)
    decreases |ls|
  {
    if ls != [] {
      assert LostBelow(Next(g, ls[0]), |Next(g, ls[0]).sent|);
      LostStaysBelowSent(Next(g, ls[0]), ls[1..]);
    }
  }

  const EmptyLog := Log([], map[], {})

  /** The run `after` from `c` has given `s` a prefix of what it published, and all of it if `s` has drained it. */
  ghost predicate Delivers(c: Chan, after: seq<Event>, s: SubId) {
    var ls, end := Trace(c, after), Exec(c, after);
    && s in end.cursors
    && ReceivedBy(s, ls) <= PublishedIn(ls)
    && (ReadOutcome(end, s) == Err(InsufficientSize) ==> ReceivedBy(s, ls) == PublishedIn(ls))
  }

  lemma LosslessFrom(c: Chan, g: Log, after: seq<Event>, s: SubId)
    requires Safe(c) && Related(c, g) && Standing(g, s) && g.at[s] == |g.sent|
    requires Along(Faithful, c, after) && forall i :: 0 <= i < |after| ==> Quiet(s, after[i])
    ensures Delivers(c, after, s)
  {
    var ls, end := Trace(c, after), Exec(c, after);
    RunRefines(c, g, after);
    QuietRunHasQuietTrace(c, after, s);
    QuietTraceDelivers(g, ls, s);
    SentIsPublished(g, ls);
    var h := NextAll(g, ls);
    assert ReceivedBy(s, ls) == PublishedIn(ls)[..h.at[s] - |g.sent|];
    if ReadOutcome(end, s) == Err(InsufficientSize) {
      NothingToExcuse(h, h.at[s], |h.sent|);
    }
  }

  /**
   Lossless broadcast.  Take any run `before`, let a subscriber join, and take
   any run `after` in which nothing is evicted or cleared and the subscriber
   stays: what it has received is a prefix of what was published since it
   joined, byte for byte, and all of it once a read finds nothing more.
   */
  lemma LosslessBroadcast(init: Chan, before: seq<Event>, c: Chan, after: seq<Event>)
    requires init == Init(|init.buf|, init.slots, init.maxSubs)
    requires Along(Faithful, init, before) && c == Exec(init, before)
    requires |c.cursors| < c.maxSubs && Along(Faithful, AfterJoin(c), after)
    requires forall i :: 0 <= i < |after| ==> Quiet(c.nextSub, after[i])
    ensures Delivers(AfterJoin(c), after, c.nextSub)
  {
    InitIsSafe(|init.buf|, init.slots, init.maxSubs);
    RunRefines(init, EmptyLog, before);
    LostStaysBelowSent(EmptyLog, Trace(init, before));
    RunKeepsSafe(init, before);
    var g := NextAll(EmptyLog, Trace(init, before));
    JoinRefines(c, g);
    JoinKeepsSafe(c);
    LosslessFrom(AfterJoin(c), Next(g, Joined(c.nextSub)), after, c.nextSub);
  }

  /** While a read grant is held, its bytes are the published ones, whatever the other parties do. */
  lemma HeldBytesAreThePublishedOnes(init: Chan, es: seq<Event>, c: Chan, id: int)
    requires init == Init(|init.buf|, init.slots, init.maxSubs) && c == Exec(init, es)
    requires Along(Faithful, init, es) && Along(GentleToReaders, init, es)
    requires id in c.held
    ensures 0 <= id < |PublishedIn(Trace(init, es))|
    ensures Slice(c.buf, c.held[id].at) == PublishedIn(Trace(init, es))[id].bytes
  {
    InitIsSafe(|init.buf|, init.slots, init.maxSubs);
    RunRefines(init, EmptyLog, es);
    SentIsPublished(EmptyLog, Trace(init, es));
    RunKeepsSafe(init, es);
    RunKeepsStable(init, es);
    StableGrantIsUntouched(c, id);
    assert Carried(c, id - StartId(c)).bytes == Slice(c.buf, c.held[id].at);
  }

  lemma {:induction false} SentIsPublished(g: Log, ls: seq<Label>)
    ensures NextAll(g, ls).sent == g.sent + PublishedIn(ls)
    decreases |ls|
  {
    if ls != [] {
      SentIsPublished(Next(g, ls[0]), ls[1..]);
    }
  }

  // ---- lossy runs ----

  /** From here on `s` can only receive ids from `bound` up. */
  ghost predicate Beyond(g: Log, s: SubId, bound: int) {
    && bound <= |g.sent|
    && (s in g.at ==> bound <= g.at[s])
    && forall t :: t in g.at ==> g.at[t] <= |g.sent|
  }

  lemma {:induction false} ReceivesBeyond(g: Log, ls: seq<Label>, s: SubId, bound: int, j: nat)
    requires AcceptsAll(g, ls) && Beyond(g, s, bound)
    requires j < |ls| && ls[j].Received? && ls[j].sub == s
    ensures bound <= ls[j].id
    decreases j
  {
    if j > 0 {
      ReceivesBeyond(Next(g, ls[0]), ls[1..], s, bound, j - 1);
    }
  }

  /** Evictions included, the ids a subscriber receives strictly increase along every accepted trace. */
  lemma {:induction false} ReceivedIdsIncrease(g: Log, ls: seq<Label>, s: SubId, i: nat, j: nat)
    requires AcceptsAll(g, ls) && forall t :: t in g.at ==> g.at[t] <= |g.sent|
    requires i < j < |ls| && ls[i].Received? && ls[j].Received? && ls[i].sub == ls[j].sub == s
    ensures ls[i].id < ls[j].id
    decreases i
  {
    var g1 := Next(g, ls[0]);
    if i == 0 {
      assert Beyond(g1, s, ls[0].id + 1);
      ReceivesBeyond(g1, ls[1..], s, ls[0].id + 1, j - 1);
    } else {
      ReceivedIdsIncrease(g1, ls[1..], s, i - 1, j - 1);
    }
  }

  predicate Discards(l: Label, k: int) {
    l.Discarded? && l.from <= k < l.to
  }

  /** Some label of the trace throws `k` away. */
  ghost predicate DiscardedIn(ls: seq<Label>, k: int) {
    exists m :: 0 <= m < |ls| && Discards(ls[m], k)
  }

  predicate Involves(l: Label, s: SubId) {
    (l.Received? && l.sub == s) || l == Left(s)
  }

  /** Whatever lies between where `s` stands and what it receives next was thrown away by force. */
  lemma {:induction false} SkippedOnTheWay(g: Log, ls: seq<Label>, s: SubId, j: nat, k: int)
    requires AcceptsAll(g, ls) && s in g.at && j < |ls| && ls[j].Received? && ls[j].sub == s
    requires forall m :: 0 <= m < j ==> !Involves(ls[m], s)
    requires g.at[s] <= k < ls[j].id
    ensures k in g.lost || exists m :: 0 <= m < j && Discards(ls[m], k)
    decreases j
  {
    if j > 0 {
      assert !Involves(ls[0], s);
      SkippedOnTheWay(Next(g, ls[0]), ls[1..], s, j - 1, k);
      if m :| 0 <= m < j - 1 && Discards(ls[1..][m], k) { assert Discards(ls[m + 1], k); }
      else if k !in g.lost { assert Discards(ls[0], k); }
    }
  }

  lemma {:induction false} SkippedWereDiscarded(g: Log, ls: seq<Label>, s: SubId, i: nat, j: nat, k: int)
    requires AcceptsAll(g, ls) && i < j < |ls|
    requires ls[i].Received? && ls[j].Received? && ls[i].sub == ls[j].sub == s
    requires forall m :: i < m < j ==> !Involves(ls[m], s)
    requires ls[i].id < k < ls[j].id
    ensures k in g.lost || exists m :: 0 <= m < j && Discards(ls[m], k)
    decreases i
  {
    var g1, rest := Next(g, ls[0]), ls[1..];
    assert forall m :: 0 <= m < |rest| ==> rest[m] == ls[m + 1];
    if i == 0 { SkippedOnTheWay(g1, rest, s, j - 1, k); } else { SkippedWereDiscarded(g1, rest, s, i - 1, j - 1, k); }
    if m :| 0 <= m < j - 1 && Discards(rest[m], k) { assert Discards(ls[m + 1], k); }
    else if k !in g.lost { assert Discards(ls[0], k); }
  }

  /** In every faithful run a subscriber's ids increase and skip only frames thrown away by force. */
  lemma LossyReceipts(init: Chan, es: seq<Event>, ls: seq<Label>, s: SubId, i: nat, j: nat)
    requires init == Init(|init.buf|, init.slots, init.maxSubs) && Along(Faithful, init, es) && ls == Trace(init, es)
    requires i < j < |ls| && ls[i].Received? && ls[j].Received? && ls[i].sub == ls[j].sub == s
    ensures ls[i].id < ls[j].id
    ensures (forall m :: i < m < j ==> !Involves(ls[m], s)) ==>
              forall k :: ls[i].id < k < ls[j].id ==> DiscardedIn(ls[..j], k)
  {
    InitIsSafe(|init.buf|, init.slots, init.maxSubs);
    RunRefines(init, EmptyLog, es);
    ReceivedIdsIncrease(EmptyLog, ls, s, i, j);
    if forall m :: i < m < j ==> !Involves(ls[m], s) {
      forall k | ls[i].id < k < ls[j].id ensures DiscardedIn(ls[..j], k) {
        SkippedWereDiscarded(EmptyLog, ls, s, i, j, k);
        var m :| 0 <= m < j && Discards(ls[m], k);
        assert Discards(ls[..j][m], k);
      }
    }
  }

  // ---- reads succeed ----

  /** What trying to read shows: the next frame, or why it is refused. */
  ghost predicate ReadShows(c: Chan, s: SubId, sent: seq<Note>)
    requires s in c.cursors
  {
    var i, l := NextIndex(c, s), Observe(c, Read(s));
    if i >= |c.msgs| then l == Drained(s)
    else if c.msgs[i].id in c.held then l == Silent
    else 0 <= c.msgs[i].id < |sent| && l == Received(s, c.msgs[i].id, sent[c.msgs[i].id])
  }

  lemma ReadShowsNext(c: Chan, g: Log, s: SubId)
    requires Safe(c) && MarkedAreHeld(c) && Contents(c, g) && s in c.cursors
    ensures ReadShows(c, s, g.sent)
  {
    ReadOutcomeIff(c, s);
  }

  /**
   In every run that releases its grants, a live subscriber that tries to read receives its next
   frame, with the bytes and identifier published under that id, unless the frame is not there yet
   or somebody is holding it.
   */
  lemma ReadsSucceedIff(init: Chan, es: seq<Event>, c: Chan, s: SubId)
    requires init == Init(|init.buf|, init.slots, init.maxSubs) && c == Exec(init, es)
    requires Along(Faithful, init, es) && Along(NoLeak, init, es) && s in c.cursors
    ensures ReadShows(c, s, PublishedIn(Trace(init, es)))
  {
    InitIsSafe(|init.buf|, init.slots, init.maxSubs);
    RunKeepsSafe(init, es);
    RunKeepsMarkedHeld(init, es);
    RunRefines(init, EmptyLog, es);
    SentIsPublished(EmptyLog, Trace(init, es));
    ReadShowsNext(c, NextAll(EmptyLog, Trace(init, es)), s);
  }

  // ---- what is filled in is what is published ----

  /** The write grant starts with `x`. */
  ghost predicate Drafted(c: Chan, x: Bytes) {
    c.write.Some? && |x| <= c.write.value.len && c.write.value.End() <= |c.buf|
    && Slice(c.buf, Region(c.write.value.start, |x|)) == x
  }

  lemma FillDrafts(c: Chan, x: Bytes)
    requires Safe(c) && Enabled(c, Fill(x))
    ensures Drafted(AfterFill(c, x), x)
  {
    assert Regions(c)[|c.msgs|] == c.write.value;
  }

  /** Nobody writes into the grant or commits it, and the publisher is not taken anew. */
  predicate LeavesDraft(c: Chan, e: Event) {
    !e.Fill? && !e.Commit? && (e.TakePublisher? ==> c.taken)
  }

  lemma {:induction false} DraftStays(c: Chan, es: seq<Event>, x: Bytes)
    requires Drafted(c, x) && Along(LeavesDraft, c, es)
    ensures Drafted(Exec(c, es), x)
    decreases |es|
  {
    if es != [] {
      assert Apply(c, es[0]).buf == c.buf && Apply(c, es[0]).write == c.write;
      DraftStays(Apply(c, es[0]), es[1..], x);
    }
  }

  /** Filling `x` in and committing its length, whatever the readers do meanwhile, publishes `x` under `pid`. */
  lemma FilledIsPublished(c: Chan, x: Bytes, es: seq<Event>, pid: nat)
    requires Safe(c) && Enabled(c, Fill(x)) && Along(LeavesDraft, AfterFill(c, x), es)
    ensures var d := Exec(AfterFill(c, x), es);
            d.write.Some? && Observe(d, Commit(|x|, pid)) == if |d.cursors| > 0 then Published(Note(x, pid)) else Silent
  {
    FillDrafts(c, x);
    DraftStays(AfterFill(c, x), es, x);
  }
}
