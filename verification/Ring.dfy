/**
 Geometry of the byte ring.  A queue of frames is a sequence of regions of one
 buffer; the order of the sequence is the order of writing.  Nothing wraps
 inside a frame: a queue either climbs through the buffer once, or climbs to
 some frame, starts again lower down, and stays below its own first frame.
 */
module Ring {
  import opened Base

  datatype Region = Region(start: nat, len: nat) {
    function End(): nat {
      start + len
    }
  }

  ghost predicate Disjoint(a: Region, b: Region) {
    a.End() <= b.start || b.End() <= a.start
  }

  /** Frames before `k` climb, frames from `k` on climb, and the second climb stays below the first. */
  ghost predicate SplitsAt(rs: seq<Region>, k: nat) {
    forall i, j :: 0 <= i < j < |rs| ==>
      if i < k <= j then rs[j].End() <= rs[i].start else rs[i].End() <= rs[j].start
  }

  ghost predicate Within(capacity: nat, rs: seq<Region>) {
    forall i :: 0 <= i < |rs| ==> rs[i].End() <= capacity
  }

  ghost predicate RingOrdered(capacity: nat, rs: seq<Region>) {
    Within(capacity, rs) && exists k: nat :: SplitsAt(rs, k)
  }

  /** `State::free_space` */
  function FreeSpace(capacity: nat, rs: seq<Region>): int {
    if rs == [] then capacity
    else
      var front := rs[0];
      var backEnd := rs[|rs| - 1].End();
      if backEnd <= front.start then front.start - backEnd
      else Max(front.start, capacity - backEnd)
  }

  /** The start that `grant_with_context` chooses once the size has been checked. */
  function GrantStart(capacity: nat, rs: seq<Region>, size: nat): nat {
    if rs == [] then 0
    else
      var backEnd := rs[|rs| - 1].End();
      if backEnd <= rs[0].start || size <= capacity - backEnd then backEnd else 0
  }

  lemma RingOrderedIsDisjoint(capacity: nat, rs: seq<Region>, i: nat, j: nat)
    requires RingOrdered(capacity, rs)
    requires i < |rs| && j < |rs| && i != j
    ensures Disjoint(rs[i], rs[j])
  {
    var k: nat :| SplitsAt(rs, k);
    if i < j {
      assert if i < k <= j then rs[j].End() <= rs[i].start else rs[i].End() <= rs[j].start;
    } else {
      assert if j < k <= i then rs[i].End() <= rs[j].start else rs[j].End() <= rs[i].start;
    }
  }

  lemma DropFrontKeepsOrder(capacity: nat, rs: seq<Region>, n: nat)
    requires RingOrdered(capacity, rs) && n <= |rs|
    ensures RingOrdered(capacity, rs[n..])
  {
    var k: nat :| SplitsAt(rs, k);
    assert SplitsAt(rs[n..], if k < n then 0 else k - n);
  }

  lemma ShrinkBackKeepsOrder(capacity: nat, rs: seq<Region>, r: Region, len: nat)
    requires RingOrdered(capacity, rs + [r]) && len <= r.len
    ensures RingOrdered(capacity, rs + [Region(r.start, len)])
  {
    var k: nat :| SplitsAt(rs + [r], k);
    var shrunk := rs + [Region(r.start, len)];
    assert forall i :: 0 <= i < |rs| ==> (rs + [r])[i] == rs[i] == shrunk[i];
    assert Within(capacity, shrunk) by {
      assert (rs + [r])[|rs|].End() <= capacity;
    }
    assert SplitsAt(shrunk, k);
  }

  lemma DropBackKeepsOrder(capacity: nat, rs: seq<Region>, r: Region)
    requires RingOrdered(capacity, rs + [r])
    ensures RingOrdered(capacity, rs)
  {
    var k: nat :| SplitsAt(rs + [r], k);
    assert forall i :: 0 <= i < |rs| ==> (rs + [r])[i] == rs[i];
    assert SplitsAt(rs, k);
  }

  /** A climb that ends at or below its own start holds no bytes. */
  lemma FlatClimb(rs: seq<Region>)
    requires rs != [] && rs[|rs| - 1].End() <= rs[0].start
    requires SplitsAt(rs, 0) || SplitsAt(rs, |rs|)
    ensures forall i :: 0 <= i < |rs| ==> rs[i].len == 0 && rs[i].start == rs[0].start
  {
    forall i | 0 <= i < |rs| ensures rs[i].len == 0 && rs[i].start == rs[0].start {
      if 0 < i { assert rs[0].End() <= rs[i].start; }
      if i < |rs| - 1 { assert rs[i].End() <= rs[|rs| - 1].start; }
    }
  }

  /** What a successful grant reserves fits after the queue, wherever the queue has wrapped. */
  lemma GrantKeepsOrder(capacity: nat, rs: seq<Region>, size: nat)
    requires RingOrdered(capacity, rs) && size <= FreeSpace(capacity, rs)
    ensures RingOrdered(capacity, rs + [Region(GrantStart(capacity, rs, size), size)])
  {
    var r := Region(GrantStart(capacity, rs, size), size);
    var all := rs + [r];
    assert forall i :: 0 <= i < |rs| ==> all[i] == rs[i];
    if rs == [] {
      assert SplitsAt(all, 0);
    } else {
      var n, front, back := |rs|, rs[0], rs[|rs| - 1];
      var k: nat :| SplitsAt(rs, k);
      if 0 < k < n {
        assert n > 1 && back.End() <= front.start;
        forall i | 0 <= i < n
          ensures if i < k then r.End() <= rs[i].start else rs[i].End() <= r.start
        {
          if 0 < i < k { assert front.End() <= rs[i].start; }
          if k <= i < n - 1 { assert rs[i].End() <= back.start; }
        }
        assert SplitsAt(all, k);
      } else {
        assert SplitsAt(rs, 0) && SplitsAt(rs, n);
        if back.End() <= front.start { FlatClimb(rs); }
        forall i | 0 <= i < n
          ensures front.start <= rs[i].start && rs[i].End() <= back.End()
        {
          if 0 < i { assert front.End() <= rs[i].start; }
          if i < n - 1 { assert rs[i].End() <= back.start; }
        }
        if r.start == back.End() {
          assert SplitsAt(all, 0);
        } else {
          assert SplitsAt(all, n);
        }
      }
    }
  }

  ghost predicate Fits(capacity: nat, rs: seq<Region>, start: nat, size: nat) {
    RingOrdered(capacity, rs + [Region(start, size)])
  }

  /** A queue of empty frames that all sit at one address. */
  ghost predicate Flat(rs: seq<Region>) {
    rs != [] && forall i :: 0 <= i < |rs| ==> rs[i].len == 0 && rs[i].start == rs[0].start
  }

  /**
   `free_space` is exact, with one exception.  A grant is refused for lack of
   bytes precisely when no contiguous region of that size could follow the
   queue, except that a queue of empty frames at one address reports 0 although
   the bytes on either side of that address could be handed out.
   */
  lemma FreeSpaceIsExactUnlessFlat(capacity: nat, rs: seq<Region>, size: nat)
    requires RingOrdered(capacity, rs)
    ensures (size <= FreeSpace(capacity, rs) <==> exists start: nat :: Fits(capacity, rs, start, size))
            <==> !(Flat(rs) && 0 < size <= Max(rs[0].start, capacity - rs[0].start))
  {
    if size <= FreeSpace(capacity, rs) {
      GrantKeepsOrder(capacity, rs, size);
      assert Fits(capacity, rs, GrantStart(capacity, rs, size), size);
    }
    if exists start: nat :: Fits(capacity, rs, start, size) {
      var start: nat :| Fits(capacity, rs, start, size);
      PlacementBoundsSize(capacity, rs, Region(start, size));
    }
    if Flat(rs) && size <= Max(rs[0].start, capacity - rs[0].start) {
      FlatQueueHasRoom(capacity, rs, size);
    }
  }

  lemma PlacementBoundsSize(capacity: nat, rs: seq<Region>, r: Region)
    requires RingOrdered(capacity, rs + [r])
    ensures !Flat(rs) ==> r.len <= FreeSpace(capacity, rs)
    ensures Flat(rs) ==> r.len <= Max(rs[0].start, capacity - rs[0].start)
  {
    var all, n := rs + [r], |rs|;
    assert all[n] == r && forall i :: 0 <= i < n ==> all[i] == rs[i];
    if rs != [] {
      var k: nat :| SplitsAt(all, k);
      assert all[0] == rs[0] && all[n - 1] == rs[n - 1];
      if 0 < k < n {
        assert rs[n - 1].End() <= r.start && r.End() <= rs[0].start;
      } else {
        assert SplitsAt(rs, if k == 0 then 0 else n);
        if rs[n - 1].End() <= rs[0].start { FlatClimb(rs); }
      }
    }
  }

  lemma FlatQueueHasRoom(capacity: nat, rs: seq<Region>, size: nat)
    requires Flat(rs) && RingOrdered(capacity, rs) && size <= Max(rs[0].start, capacity - rs[0].start)
    ensures exists start: nat :: Fits(capacity, rs, start, size)
  {
    var start := if size <= capacity - rs[0].start then rs[0].start else 0;
    var all := rs + [Region(start, size)];
    assert forall i :: 0 <= i < |rs| ==> all[i] == rs[i];
    assert SplitsAt(all, if size <= capacity - rs[0].start then 0 else |rs|);
    assert Fits(capacity, rs, start, size);
  }
}
