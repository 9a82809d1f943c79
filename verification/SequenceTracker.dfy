/** The tracker of out-of-order completions: it advances to the least sequence number that
has not completed, whatever order completions arrive in. */
module SequenceTracker {
  import opened Options

  /** A resume token; None is the nil token. */
  type Token = Option<string>

  datatype Tracker = Tracker(completed: map<nat, Token>, nextSeq: nat)

  const NEW_TRACKER: Tracker := Tracker(map[], 1)

  /** The least number from n on that is not a key of c. */
  function Gap(c: map<nat, Token>, n: nat): (g: nat)
    ensures n <= g && g !in c && forall k :: n <= k < g ==> k in c
    decreases |c|
  {
    if n !in c then n
    else
      assert |c - {n}| < |c| by { assert c.Keys == (c - {n}).Keys + {n}; }
      Gap(c - {n}, n + 1)
  }

  /** c without the keys from lo up to, not including, hi. */
  function Drop(c: map<nat, Token>, lo: nat, hi: nat): map<nat, Token> {
    map k | k in c && !(lo <= k < hi) :: c[k]
  }

  lemma DropNone(c: map<nat, Token>, lo: nat)
    ensures Drop(c, lo, lo) == c
  {
  }

  lemma DropOne(c: map<nat, Token>, lo: nat, hi: nat)
    requires lo <= hi
    ensures Drop(c, lo, hi) - {hi} == Drop(c, lo, hi + 1)
  {
  }

  function AfterMark(t: Tracker, seqNo: nat, token: Token): Tracker {
    var c := t.completed[seqNo := token];
    var g := Gap(c, t.nextSeq);
    Tracker(Drop(c, t.nextSeq, g), g)
  }

  /** The token of the last number advanced over, None if none was. */
  function MarkToken(t: Tracker, seqNo: nat, token: Token): Token {
    var c := t.completed[seqNo := token];
    var g := Gap(c, t.nextSeq);
    if g == t.nextSeq then None else c[g - 1]
  }

  class SequenceTracker {
    var completed: map<nat, Token>
    var nextSeq: nat

    ghost function View(): Tracker
      reads this
    {
      Tracker(completed, nextSeq)
    }

    constructor ()
      ensures View() == NEW_TRACKER
    {
      completed, nextSeq := map[], 1;
    }

    method MarkCompleted(seqNo: nat, token: Token) returns (latest: Token)
      modifies this
      ensures View() == AfterMark(old(View()), seqNo, token)
      ensures latest == MarkToken(old(View()), seqNo, token)
    {
      ghost var first := nextSeq;
      completed := completed[seqNo := token];
      ghost var c := completed;
      ghost var gap := Gap(c, first);
      latest := None;
      DropNone(c, first);
      while nextSeq in completed
        invariant first <= nextSeq <= gap
        invariant completed == Drop(c, first, nextSeq)
        invariant nextSeq > first ==> nextSeq - 1 in c && latest == c[nextSeq - 1]
        invariant nextSeq == first ==> latest == None
        decreases gap - nextSeq
      {
        latest := completed[nextSeq];
        DropOne(c, first, nextSeq);
        completed := completed - {nextSeq};
        nextSeq := nextSeq + 1;
      }
      assert nextSeq == gap;
    }

    method Pending() returns (n: nat)
      ensures n == |completed|
    {
      n := |completed|;
    }
  }

  datatype Completion = Completion(seqNo: nat, token: Token)

  function Marked(cs: seq<Completion>): Tracker {
    if cs == [] then NEW_TRACKER
    else AfterMark(Marked(cs[..|cs| - 1]), cs[|cs| - 1].seqNo, cs[|cs| - 1].token)
  }

  function Numbers(cs: seq<Completion>): set<nat> {
    set c | c in cs :: c.seqNo
  }

  /** Everything below nextSeq is in done, nextSeq is not, and what is above it is buffered. */
  ghost predicate AtLeastMissing(t: Tracker, done: set<nat>) {
    && t.nextSeq >= 1 && t.nextSeq !in done
    && (forall k :: 1 <= k < t.nextSeq ==> k in done)
    && (forall k :: k in t.completed <==> k in done && k > t.nextSeq)
  }

  lemma MarkKeepsLeastMissing(t: Tracker, done: set<nat>, seqNo: nat, token: Token)
    requires AtLeastMissing(t, done) && seqNo >= 1 && seqNo !in done
    ensures AtLeastMissing(AfterMark(t, seqNo, token), done + {seqNo})
  {
  }

  /** After distinct positive numbers completed in any order, everything below nextSeq has
  completed, nextSeq has not, and what completed above it waits in the buffer. */
  lemma {:induction false} TrackerAtLeastMissing(cs: seq<Completion>)
    requires forall c :: c in cs ==> c.seqNo >= 1
    requires forall i, j :: 0 <= i < j < |cs| ==> cs[i].seqNo != cs[j].seqNo
    ensures AtLeastMissing(Marked(cs), Numbers(cs))
  {
    if cs != [] {
      var front, last := cs[..|cs| - 1], cs[|cs| - 1];
      TrackerAtLeastMissing(front);
      assert cs == front + [last];
      assert Numbers(cs) == Numbers(front) + {last.seqNo};
      assert last.seqNo !in Numbers(front);
      MarkKeepsLeastMissing(Marked(front), Numbers(front), last.seqNo, last.token);
    }
  }

  lemma RemoveCount(c: map<nat, Token>, k: nat)
    requires k in c
    ensures |c - {k}| == |c| - 1
  {
    assert c.Keys == (c - {k}).Keys + {k};
  }

  lemma {:induction false} DropCount(c: map<nat, Token>, lo: nat, n: nat)
    requires forall k :: lo <= k < lo + n ==> k in c
    ensures |Drop(c, lo, lo + n)| == |c| - n
  {
    if n == 0 {
      DropNone(c, lo);
    } else {
      var last := lo + (n - 1);
      assert last in c;
      DropCount(c, lo, n - 1);
      DropOne(c, lo, last);
      RemoveCount(Drop(c, lo, last), last);
    }
  }

  /** A completion is buffered or advanced over: one more of either. */
  lemma MarkConserves(t: Tracker, seqNo: nat, token: Token)
    requires seqNo !in t.completed
    ensures |AfterMark(t, seqNo, token).completed| + AfterMark(t, seqNo, token).nextSeq
         == |t.completed| + t.nextSeq + 1
  {
    var c := t.completed[seqNo := token];
    assert c.Keys == t.completed.Keys + {seqNo};
    DropCount(c, t.nextSeq, Gap(c, t.nextSeq) - t.nextSeq);
  }

  /** Nothing is lost or counted twice: after distinct completions in any order, what `pending` reports
  and what was advanced over add up to the completions. */
  lemma {:induction false} PendingAndPassedAddUp(cs: seq<Completion>)
    requires forall c :: c in cs ==> c.seqNo >= 1
    requires forall i, j :: 0 <= i < j < |cs| ==> cs[i].seqNo != cs[j].seqNo
    ensures |Marked(cs).completed| + (Marked(cs).nextSeq - 1) == |cs|
  {
    if cs != [] {
      var front, last := cs[..|cs| - 1], cs[|cs| - 1];
      PendingAndPassedAddUp(front);
      TrackerAtLeastMissing(front);
      MarkConserves(Marked(front), last.seqNo, last.token);
    }
  }
}
