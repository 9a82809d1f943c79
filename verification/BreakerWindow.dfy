/** The sliding window of recent cordons: a map from node to bucket that time shifts, and the
class that keeps it in three redundant structures. Time is in nanoseconds. */
module BreakerWindow {
  const SECOND: nat := 1_000_000_000

  /** Bucket n - 1 is the current one; it began at `start`. */
  datatype Ring = Ring(n: nat, start: nat, slots: map<string, int>)

  ghost predicate ValidRing(r: Ring) {
    r.n > 0 && forall v :: v in r.slots ==> 0 <= r.slots[v] < r.n
  }

  function Steps(r: Ring, now: nat): nat {
    if now <= r.start then 0 else (now - r.start) / SECOND
  }

  function Truncate(now: nat): nat {
    now - now % SECOND
  }

  /** k buckets further on: older nodes drop out, the others move down. */
  function Shifted(r: Ring, k: nat): Ring {
    r.(start := r.start + k * SECOND, slots := map v | v in r.slots && r.slots[v] >= k :: r.slots[v] - k)
  }

  /** slideWindow. A jump past the whole window clears it and realigns to a whole second. */
  function Slide(r: Ring, now: nat): Ring {
    if Steps(r, now) >= r.n then Ring(r.n, Truncate(now), map[])
    else Shifted(r, Steps(r, now))
  }

  /** AddCordonEvent. */
  function Cordon(r: Ring, now: nat, node: string): Ring {
    var s := Slide(r, now);
    s.(slots := s.slots[node := s.n - 1])
  }

  lemma ShiftedTwice(r: Ring, a: nat, b: nat)
    ensures Shifted(Shifted(r, a), b) == Shifted(r, a + b)
  {
  }

  lemma ShiftedZero(r: Ring)
    requires ValidRing(r)
    ensures Shifted(r, 0) == r
  {
  }

  /** After a slide the current bucket is the one that holds `now`. */
  lemma SlideReachesNow(r: Ring, now: nat)
    requires ValidRing(r) && r.start <= now
    ensures ValidRing(Slide(r, now))
    ensures Slide(r, now).start <= now < Slide(r, now).start + SECOND
    ensures Slide(r, now).slots.Keys <= r.slots.Keys
  {
  }

  /** The nodes counted at a time do not depend on polls made before it. */
  lemma PollKeepsCount(r: Ring, poll: nat, now: nat)
    requires ValidRing(r) && r.start <= poll <= now
    ensures Slide(Slide(r, poll), now).slots == Slide(r, now).slots
  {
    var k, total := Steps(r, poll), Steps(r, now);
    assert k <= total;
    if k < r.n {
      var mid := Shifted(r, k);
      assert Steps(mid, now) == total - k;
      ShiftedTwice(r, k, total - k);
      if total >= r.n { assert Shifted(r, total).slots == map[]; }
    } else {
      assert Shifted(Ring(r.n, Truncate(poll), map[]), Steps(Ring(r.n, Truncate(poll), map[]), now)).slots == map[];
    }
  }

  /** The window has been polled at an offset that keeps it from being cleared and realigned
  when `now` comes. */
  predicate PollDelaysRealignment(r: Ring, poll: nat, now: nat) {
    1 <= Steps(r, poll) < r.n <= Steps(r, now) < r.n + Steps(r, poll)
  }

  /** A poll leaves no trace in the state a later slide reaches if and only if the ring starts
  on a whole second or the poll does not delay a realignment. */
  lemma PollIsInvisible(r: Ring, poll: nat, now: nat)
    requires ValidRing(r) && r.start <= poll <= now
    ensures Slide(Slide(r, poll), now) == Slide(r, now)
       <==> r.start % SECOND == 0 || !PollDelaysRealignment(r, poll, now)
  {
    PollKeepsCount(r, poll, now);
    var k, total := Steps(r, poll), Steps(r, now);
    if k < r.n {
      var mid := Shifted(r, k);
      assert Steps(mid, now) == total - k;
      ShiftedTwice(r, k, total - k);
    } else {
      var mid := Ring(r.n, Truncate(poll), map[]);
      assert Slide(mid, now).start == Truncate(now);
    }
  }

  /** Such a poll can change a later count: with a two-second window begun at half a second, a
  poll at 1.6s decides whether the node cordoned at 2.9s is still counted at 4.2s. */
  lemma PollCanChangeLaterCount(r: Ring, node: string)
    requires r.n == 2 && r.start == 500_000_000
    ensures node !in Slide(Cordon(r, 2_900_000_000, node), 4_200_000_000).slots
    ensures node in Slide(Cordon(Slide(r, 1_600_000_000), 2_900_000_000, node), 4_200_000_000).slots
  {
  }

  /** The redundancy: counts are set sizes, and the two maps are inverse to each other. */
  ghost predicate Consistent(counts: seq<int>, index: map<string, int>, nodes: seq<set<string>>) {
    && |nodes| == |counts|
    && (forall i :: 0 <= i < |nodes| ==> counts[i] == |nodes[i]|)
    && (forall v :: v in index ==> 0 <= index[v] < |nodes| && v in nodes[index[v]])
    && (forall i, v :: 0 <= i < |nodes| && v in nodes[i] ==> v in index && index[v] == i)
  }

  function Decremented(index: map<string, int>, expired: set<string>): map<string, int> {
    map v | v in index && v !in expired :: index[v] - 1
  }

  lemma ShiftKeepsConsistent(counts: seq<int>, index: map<string, int>, nodes: seq<set<string>>)
    requires Consistent(counts, index, nodes) && |nodes| > 0
    ensures Consistent(counts[1..] + [0], Decremented(index, nodes[0]), nodes[1..] + [{}])
    ensures Decremented(index, nodes[0]) == map v | v in index && index[v] >= 1 :: index[v] - 1
  {
  }

  lemma RemoveKeepsConsistent(counts: seq<int>, index: map<string, int>, nodes: seq<set<string>>, node: string)
    requires Consistent(counts, index, nodes) && node in index
    ensures var at := index[node];
      Consistent(counts[at := counts[at] - 1], index - {node}, nodes[at := nodes[at] - {node}])
  {
  }

  lemma InsertKeepsConsistent(counts: seq<int>, index: map<string, int>, nodes: seq<set<string>>, node: string, at: nat)
    requires Consistent(counts, index, nodes) && node !in index && at < |nodes|
    ensures Consistent(counts[at := counts[at] + 1], index[node := at], nodes[at := nodes[at] + {node}])
  {
  }

  /** The in-place shift of the counts, oldest first. */
  method ShiftCounts(a: array<int>)
    requires a.Length > 0
    modifies a
    ensures a[..] == old(a[..])[1..] + [0]
  {
    ghost var counts := a[..];
    for i := 0 to a.Length - 1
      invariant forall k :: 0 <= k < i ==> a[k] == counts[k + 1]
      invariant forall k :: i <= k < a.Length ==> a[k] == counts[k]
    {
      a[i] := a[i + 1];
    }
    a[a.Length - 1] := 0;
  }

  method AddCount(a: array<int>, i: nat, delta: int)
    requires i < a.Length
    modifies a
    ensures a[..] == old(a[..])[i := old(a[i]) + delta]
  {
    a[i] := a[i] + delta;
  }

  /** The ring as the source keeps it: counts, node to bucket, and bucket to nodes. */
  class SlidingWindow {
    const buckets: array<int>
    var start: nat
    var nodeToIndex: map<string, int>
    var indexToNodes: seq<set<string>>

    ghost function View(): Ring
      reads this
    {
      Ring(|indexToNodes|, start, nodeToIndex)
    }

    ghost predicate Valid()
      reads this, buckets
    {
      buckets.Length > 0 && Consistent(buckets[..], nodeToIndex, indexToNodes)
    }

    constructor (n: nat, now: nat)
      requires n > 0
      ensures Valid() && fresh(buckets) && View() == Ring(n, now, map[])
    {
      buckets := new int[n](i => 0);
      start, nodeToIndex := now, map[];
      indexToNodes := seq(n, i => {});
    }

    method Clear(now: nat)
      requires Valid()
      modifies this, buckets
      ensures Valid() && View() == Ring(old(View().n), Truncate(now), map[])
    {
      for i := 0 to buckets.Length
        invariant forall k :: 0 <= k < i ==> buckets[k] == 0
        invariant |indexToNodes| == buckets.Length && start == old(start)
      {
        buckets[i] := 0;
      }
      nodeToIndex := map[];
      indexToNodes := seq(|indexToNodes|, i => {});
      start := Truncate(now);
    }

    method ShiftOne()
      requires Valid()
      modifies this, buckets
      ensures Valid() && View() == Shifted(old(View()), 1)
    {
      ShiftKeepsConsistent(buckets[..], nodeToIndex, indexToNodes);
      ShiftCounts(buckets);
      nodeToIndex := Decremented(nodeToIndex, indexToNodes[0]);
      indexToNodes := indexToNodes[1..] + [{}];
      start := start + SECOND;
    }

    method SlideWindow(now: nat)
      requires Valid()
      modifies this, buckets
      ensures Valid() && View() == Slide(old(View()), now)
    {
      ghost var ring := View();
      if now <= start {
        ShiftedZero(ring);
        return;
      }
      var steps := (now - start) / SECOND;
      if steps >= buckets.Length {
        Clear(now);
        return;
      }
      assert Slide(ring, now) == Shifted(ring, steps);
      ShiftedZero(ring);
      for k := 0 to steps
        invariant Valid() && View() == Shifted(ring, k)
      {
        ShiftedTwice(ring, k, 1);
        ShiftOne();
      }
    }

    /** Takes the node out of the bucket of its previous cordon, if it has one. */
    method LeaveOldBucket(node: string)
      requires Valid()
      modifies this`indexToNodes, buckets
      ensures |indexToNodes| == old(|indexToNodes|)
      ensures Consistent(buckets[..], nodeToIndex - {node}, indexToNodes)
    {
      if node in nodeToIndex {
        var at := nodeToIndex[node];
        RemoveKeepsConsistent(buckets[..], nodeToIndex, indexToNodes, node);
        indexToNodes := indexToNodes[at := indexToNodes[at] - {node}];
        AddCount(buckets, at, -1);
      } else {
        assert nodeToIndex - {node} == nodeToIndex;
      }
    }

    method EnterCurrentBucket(node: string)
      requires buckets.Length > 0 && Consistent(buckets[..], nodeToIndex - {node}, indexToNodes)
      modifies this`indexToNodes, this`nodeToIndex, buckets
      ensures Valid() && |indexToNodes| == old(|indexToNodes|)
      ensures nodeToIndex == old(nodeToIndex)[node := buckets.Length - 1]
    {
      var current := buckets.Length - 1;
      InsertKeepsConsistent(buckets[..], nodeToIndex - {node}, indexToNodes, node, current);
      assert (nodeToIndex - {node})[node := current] == nodeToIndex[node := current];
      nodeToIndex := nodeToIndex[node := current];
      indexToNodes := indexToNodes[current := indexToNodes[current] + {node}];
      AddCount(buckets, current, 1);
    }

    method AddCordonEvent(now: nat, node: string)
      requires Valid()
      modifies this, buckets
      ensures Valid() && View() == Cordon(old(View()), now, node)
    {
      SlideWindow(now);
      LeaveOldBucket(node);
      EnterCurrentBucket(node);
    }

    /** The bucket sum is the number of distinct tracked nodes. */
    method SumBuckets() returns (sum: int)
      requires Valid()
      ensures sum == |nodeToIndex|
    {
      sum := 0;
      for i := 0 to buckets.Length
        invariant sum == |Below(nodeToIndex, i)|
      {
        NextBucket(buckets[..], nodeToIndex, indexToNodes, i);
        sum := sum + buckets[i];
      }
      assert Below(nodeToIndex, buckets.Length) == nodeToIndex.Keys;
    }
  }

  ghost function Below(index: map<string, int>, i: nat): set<string> {
    set v | v in index && index[v] < i
  }

  lemma NextBucket(counts: seq<int>, index: map<string, int>, nodes: seq<set<string>>, i: nat)
    requires Consistent(counts, index, nodes) && i < |counts|
    ensures |Below(index, i + 1)| == |Below(index, i)| + counts[i]
  {
    assert Below(index, i + 1) == Below(index, i) + nodes[i];
    assert Below(index, i) !! nodes[i];
  }
}
