/** The session's transmit queue is the transmit channel. */
module TransmitQueue {
  import Channel
  import Broadcast
  import opened Session
  import opened SessionTheorems

  function Pids(notes: seq<Broadcast.Note>): seq<int> {
    if notes == [] then [] else [notes[0].pid] + Pids(notes[1..])
  }

  lemma {:induction false} PidsOfPrefix(notes: seq<Broadcast.Note>, n: nat)
    requires n <= |notes|
    ensures |Pids(notes)| == |notes| && Pids(notes[..n]) == Pids(notes)[..n]
    decreases |notes|
  {
    if notes != [] {
      PidsOfPrefix(notes[1..], if n > 0 then n - 1 else 0);
      if n > 0 {
        assert notes[..n][0] == notes[0] && notes[..n][1..] == notes[1..][..n - 1];
      }
    }
  }

  /**
   Take any run of the session from a fresh client, and any run of the transmit channel after the
   stack has joined it in which nothing is evicted or cleared and the stack stays. If the frames
   committed carry what the session appended, and the stack has read as many as the session took off,
   then the identifiers read are the first appended, in order, and the session's queue is the rest.
   */
  lemma QueueIsTheChannel(
      maxInflight: nat, maxAcks: nat, es: seq<Event>, s: State, c: Channel.Chan, after: seq<Channel.Event>, sub: nat)
    requires Reached(maxInflight, maxAcks, es, s) && Broadcast.Delivers(c, after, sub)
    requires Pids(Broadcast.PublishedIn(Broadcast.Trace(c, after))) == AllAppended(Init(maxInflight, maxAcks), es)
    requires |Broadcast.ReceivedBy(sub, Broadcast.Trace(c, after))| == Pops(es)
    ensures var sent, got := Broadcast.PublishedIn(Broadcast.Trace(c, after)),
                             Broadcast.ReceivedBy(sub, Broadcast.Trace(c, after));
            && Pops(es) <= |Pids(sent)| && Pids(got) == Pids(sent)[..Pops(es)] && s.tx == Pids(sent)[Pops(es)..]
  {
    var ls := Broadcast.Trace(c, after);
    var sent, got := Broadcast.PublishedIn(ls), Broadcast.ReceivedBy(sub, ls);
    assert got == sent[..|got|];
    PidsOfPrefix(sent, |got|);
    QueueIsFifo(Init(maxInflight, maxAcks), es);
    assert [] + AllAppended(Init(maxInflight, maxAcks), es) == AllAppended(Init(maxInflight, maxAcks), es);
  }
}
