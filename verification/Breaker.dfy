/** The circuit breaker: evaluation against its thresholds, and what every run of polls,
cordons and forced states guarantees. */
module Breaker {
  import opened Options
  import opened Orders
  import opened BreakerThresholds
  import opened BreakerWindow

  datatype Breaker = Breaker(cfg: Config, ring: Ring, tripped: bool)

  datatype Answer = Answer(tripped: bool, failed: bool)

  /** What the cluster answers during one evaluation: the GPU fleet size, the quarantined count
  (None for a failed read), and whether the state could be written back. */
  datatype Cluster = Cluster(fleet: Option<nat>, quarantined: Option<int>, writes: bool)

  predicate RateReached(b: Breaker, total: nat) {
    TripThreshold(b.cfg, total).bound != NoBound && |b.ring.slots| >= TripThreshold(b.cfg, total).nodes
  }

  /** IsTripped: the state it leaves and what it answers. */
  function Evaluated(b: Breaker, now: nat, k: Cluster): (Breaker, Answer) {
    if b.tripped then (b, Answer(true, false))
    else if k.fleet.None? then (b, Answer(false, true))
    else
      var slid := b.(ring := Slide(b.ring, now));
      var trip := (slid.(tripped := true), Answer(true, !k.writes));
      if k.fleet.value == 0 then
        if |slid.ring.slots| == 0 then (slid, Answer(false, false)) else trip
      else if RateReached(slid, k.fleet.value) then trip
      else
        var standing := StandingThreshold(b.cfg, k.fleet.value);
        if standing.bound == NoBound then (slid, Answer(false, false))
        else if k.quarantined.None? then (slid, Answer(false, true))
        else if k.quarantined.value >= standing.nodes then trip
        else (slid, Answer(false, false))
  }

  /** On the counts and bounds alone, the window's part: cordons recent enough to be counted, with no
  GPU node counted at all, or as many as a window bound allows. */
  predicate TooManyRecent(c: Config, fleet: nat, recent: nat) {
    if fleet == 0 then recent > 0
    else (c.tripPercentage > 0.0 || c.tripMaxNodes > 0) && WindowBoundReached(c, fleet, recent)
  }

  /** When a poll answers true, and when it reports an error, in terms of what it counts: a tripped
  breaker stays tripped and asks nothing; else it trips on too many recent cordons, and then does
  not ask for the quarantined count, or on too many quarantined nodes. */
  lemma PollMeans(b: Breaker, now: nat, k: Cluster)
    requires ValidBounds(b.cfg)
    ensures var (b', answer) := Evaluated(b, now, k);
      var recent := |Slide(b.ring, now).slots|;
      && (b.tripped ==> b' == b && answer == Answer(true, false))
      && (!b.tripped && k.fleet.None? ==> b' == b && answer == Answer(false, true))
      && (!b.tripped && k.fleet.Some? ==>
            var fleet := k.fleet.value;
            var window := TooManyRecent(b.cfg, fleet, recent);
            var asked :=
              !window && fleet > 0 && (b.cfg.tripMaxCordonedPercentage > 0.0 || b.cfg.tripMaxCordonedNodes > 0);
            && (answer.tripped <==>
                  window || (asked && k.quarantined.Some? && StandingBoundReached(b.cfg, fleet, k.quarantined.value)))
            && (answer.failed <==> (answer.tripped && !k.writes) || (asked && k.quarantined.None?))
            && b' == Breaker(b.cfg, Slide(b.ring, now), answer.tripped))
  {
    if k.fleet.Some? && k.fleet.value > 0 {
      var fleet, recent := k.fleet.value, |Slide(b.ring, now).slots|;
      NoWindowBound(b.cfg, fleet);
      NoStandingBound(b.cfg, fleet);
      if HasWindowBound(b.cfg) { TripThresholdIsLeast(b.cfg, fleet, recent); }
      if HasStandingBound(b.cfg) && k.quarantined.Some? { StandingThresholdIsLeast(b.cfg, fleet, k.quarantined.value); }
    }
  }

  class SlidingWindowBreaker {
    const cfg: Config
    const window: SlidingWindow
    var tripped: bool

    ghost function View(): Breaker
      reads this, window
    {
      Breaker(cfg, window.View(), tripped)
    }

    ghost predicate Valid()
      reads this, window, window.buckets
    {
      window.Valid()
    }

    /** NewSlidingWindowBreaker, after the checks: one bucket per started second of the window,
    the state as last written. */
    constructor (cfg: Config, windowLength: nat, now: nat, savedTripped: bool)
      requires ValidBounds(cfg) && windowLength > 0
      ensures Valid()
      ensures View() == Breaker(cfg, Ring((windowLength + SECOND - 1) / SECOND, now, map[]), savedTripped)
    {
      this.cfg := cfg;
      window := new SlidingWindow((windowLength + SECOND - 1) / SECOND, now);
      tripped := savedTripped;
    }

    /** NewSlidingWindowBreaker: bounds that cannot act as limits and a window of no length are refused.
    No second of the window is without its bucket. ensured: the ConfigMap exists or could be created;
    saved: the state it holds, if that can be read. */
    static method NewBreaker(cfg: Config, windowLength: int, now: nat, ensured: bool, saved: Option<string>)
      returns (b: SlidingWindowBreaker?)
      ensures b == null <==>
        || cfg.tripPercentage < 0.0 || cfg.tripMaxCordonedPercentage < 0.0
        || cfg.tripMaxNodes < 0 || cfg.tripMaxCordonedNodes < 0
        || (&& cfg.tripPercentage == 0.0 && cfg.tripMaxNodes == 0
            && cfg.tripMaxCordonedNodes == 0 && cfg.tripMaxCordonedPercentage == 0.0)
        || windowLength <= 0 || !ensured
      ensures b != null ==>
        && b.Valid() && b.cfg == cfg && (b.tripped <==> saved == Some("TRIPPED"))
        && b.View().ring.start == now && b.View().ring.slots == map[]
        && (b.View().ring.n - 1) * SECOND < windowLength <= b.View().ring.n * SECOND
    {
      if !ValidBounds(cfg) || windowLength <= 0 || !ensured {
        return null;
      }
      b := new SlidingWindowBreaker(cfg, windowLength, now, saved == Some("TRIPPED"));
    }

    /** writes: the state can be written back. The state in memory changes in any case. */
    method ForceState(trip: bool, writes: bool) returns (failed: bool)
      requires Valid()
      modifies this
      ensures Valid() && View() == old(View()).(tripped := trip)
      ensures failed <==> !writes
    {
      tripped := trip;
      failed := !writes;
    }

    method IsTripped(now: nat, k: Cluster) returns (answer: Answer)
      requires Valid()
      modifies this, window, window.buckets
      ensures Valid() && (View(), answer) == Evaluated(old(View()), now, k)
    {
      if tripped {
        return Answer(true, false);
      }
      if k.fleet.None? {
        return Answer(false, true);
      }
      window.SlideWindow(now);
      var recent := window.SumBuckets();
      var total := k.fleet.value;
      var shouldTrip;
      if total == 0 {
        shouldTrip := recent != 0;
      } else {
        var threshold := TripThreshold(cfg, total);
        shouldTrip := threshold.bound != NoBound && recent >= threshold.nodes;
        if !shouldTrip {
          var standing := StandingThreshold(cfg, total);
          if standing.bound != NoBound {
            if k.quarantined.None? {
              return Answer(false, true);
            }
            shouldTrip := k.quarantined.value >= standing.nodes;
          }
        }
      }
      if shouldTrip {
        var failed := ForceState(true, k.writes);
        return Answer(true, failed);
      }
      return Answer(false, false);
    }

    method AddCordonEvent(now: nat, node: string)
      requires Valid()
      modifies window, window.buckets
      ensures Valid() && View() == old(View()).(ring := Cordon(old(View().ring), now, node))
    {
      window.AddCordonEvent(now, node);
    }
  }

  // Runs.

  datatype Op =
    | Poll(now: nat, k: Cluster)
    | AddCordon(now: nat, node: string)
    | Force(now: nat, trip: bool)

  datatype Event = Event(node: string, at: nat)

  /** `slid` is when the window was last slid; `permit` says that the last poll answered false
  and that nothing was cordoned since. */
  datatype RunState = RunState(b: Breaker, clock: nat, slid: nat, permit: bool, log: seq<Event>)

  function Initial(cfg: Config, n: nat, now: nat, savedTripped: bool): RunState {
    RunState(Breaker(cfg, Ring(n, now, map[]), savedTripped), now, now, false, [])
  }

  function Next(s: RunState, op: Op): RunState {
    match op
    case Poll(now, k) =>
      var (b', answer) := Evaluated(s.b, now, k);
      var slid := if s.b.tripped || k.fleet.None? then s.slid else now;
      s.(b := b', clock := now, slid := slid, permit := answer == Answer(false, false))
    case AddCordon(now, node) =>
      s.(b := s.b.(ring := Cordon(s.b.ring, now, node)), clock := now, slid := now, permit := false,
         log := s.log + [Event(node, now)])
    case Force(now, trip) => s.(b := s.b.(tripped := trip), clock := now)
  }

  function Ran(s: RunState, ops: seq<Op>): RunState {
    if ops == [] then s else Next(Ran(s, ops[..|ops| - 1]), ops[|ops| - 1])
  }

  /** The clock never goes back. */
  ghost predicate Timely(s: RunState, ops: seq<Op>) {
    forall i :: 0 <= i < |ops| ==> Ran(s, ops[..i]).clock <= ops[i].now
  }

  /** A poll that finds this fleet answers false only below the limit. */
  predicate Limited(cfg: Config, fleet: nat, limit: int) {
    (fleet == 0 || HasWindowBound(cfg)) && Limit(cfg, fleet) <= limit
  }

  /** Cordons happen one per poll that answered false; the fleet may change, as long as its limit does
  not exceed the given one. */
  ghost predicate Disciplined(s: RunState, ops: seq<Op>, limit: int) {
    forall i :: 0 <= i < |ops| ==>
      && (ops[i].AddCordon? ==> Ran(s, ops[..i]).permit)
      && (ops[i].Poll? && ops[i].k.fleet.Some? ==> Limited(s.b.cfg, ops[i].k.fleet.value, limit))
  }

  ghost predicate LatestAt(log: seq<Event>, node: string, i: int) {
    0 <= i < |log| && log[i].node == node && forall j :: i < j < |log| ==> log[j].node != node
  }

  /** When the bucket a node is tracked in began. */
  function SlotStart(r: Ring, node: string): int
    requires node in r.slots
  {
    r.start - (r.n - 1 - r.slots[node]) * SECOND
  }

  /** The ring as a record of the log: a tracked node's bucket holds its latest cordon, and a
  node that dropped out was cordoned more than n - 1 seconds before the last slide. */
  ghost predicate RingRecords(r: Ring, log: seq<Event>, slid: nat) {
    && ValidRing(r)
    && r.start <= slid < r.start + SECOND
    && (forall i :: 0 <= i < |log| ==> log[i].at <= slid)
    && (forall i, j :: 0 <= i < j < |log| ==> log[i].at <= log[j].at)
    && (forall v :: v in r.slots ==>
          exists i :: LatestAt(log, v, i) && SlotStart(r, v) <= log[i].at < SlotStart(r, v) + SECOND)
    && (forall v, i :: LatestAt(log, v, i) && v !in r.slots ==> log[i].at < slid - (r.n - 1) * SECOND)
  }

  lemma SlideRecords(r: Ring, log: seq<Event>, slid: nat, now: nat)
    requires RingRecords(r, log, slid) && slid <= now
    ensures RingRecords(Slide(r, now), log, now)
  {
  }

  lemma CordonRecords(r: Ring, log: seq<Event>, now: nat, node: string)
    requires RingRecords(r, log, now)
    ensures RingRecords(r.(slots := r.slots[node := r.n - 1]), log + [Event(node, now)], now)
  {
    var r', log' := r.(slots := r.slots[node := r.n - 1]), log + [Event(node, now)];
    forall v, i ensures LatestAt(log', v, i) <==> if v == node then i == |log| else LatestAt(log, v, i) {
      assert log'[|log|] == Event(node, now) && forall j :: 0 <= j < |log| ==> log'[j] == log[j];
    }
    forall v | v in r'.slots
      ensures exists i :: LatestAt(log', v, i) && SlotStart(r', v) <= log'[i].at < SlotStart(r', v) + SECOND
    {
      if v == node {
        assert LatestAt(log', v, |log|);
      } else {
        var i :| LatestAt(log, v, i) && SlotStart(r, v) <= log[i].at < SlotStart(r, v) + SECOND;
        assert LatestAt(log', v, i);
      }
    }
  }

  ghost predicate TimeInvariant(s: RunState) {
    RingRecords(s.b.ring, s.log, s.slid) && s.slid <= s.clock
  }

  lemma PollSlidesOnly(b: Breaker, now: nat, k: Cluster)
    ensures var b' := Evaluated(b, now, k).0;
      b'.cfg == b.cfg && b'.ring == if b.tripped || k.fleet.None? then b.ring else Slide(b.ring, now)
  {
  }

  lemma StepKeepsTime(s: RunState, op: Op)
    requires TimeInvariant(s) && s.clock <= op.now
    ensures TimeInvariant(Next(s, op)) && Next(s, op).b.ring.n == s.b.ring.n
  {
    SlideRecords(s.b.ring, s.log, s.slid, op.now);
    match op {
      case Poll(now, k) => PollSlidesOnly(s.b, now, k);
      case AddCordon(now, node) =>
        var slid := Slide(s.b.ring, now);
        CordonRecords(slid, s.log, now, node);
        assert Next(s, op).b.ring == slid.(slots := slid.slots[node := slid.n - 1]);
      case Force(_, _) =>
    }
  }

  lemma TimelyPrefix(s: RunState, ops: seq<Op>)
    requires Timely(s, ops) && ops != []
    ensures Timely(s, ops[..|ops| - 1]) && Ran(s, ops[..|ops| - 1]).clock <= ops[|ops| - 1].now
  {
  }

  lemma {:induction false} RunKeepsTime(s: RunState, ops: seq<Op>)
    requires TimeInvariant(s) && Timely(s, ops)
    ensures TimeInvariant(Ran(s, ops)) && Ran(s, ops).b.ring.n == s.b.ring.n
  {
    if ops != [] {
      TimelyPrefix(s, ops);
      RunKeepsTime(s, ops[..|ops| - 1]);
      StepKeepsTime(Ran(s, ops[..|ops| - 1]), ops[|ops| - 1]);
    }
  }

  lemma InitialTime(cfg: Config, n: nat, begun: nat, saved: bool)
    requires n > 0
    ensures TimeInvariant(Initial(cfg, n, begun, saved))
  {
  }

  lemma CountedByAge(r: Ring, log: seq<Event>, now: nat, node: string, i: nat)
    requires RingRecords(r, log, now) && LatestAt(log, node, i)
    ensures now - log[i].at <= (r.n - 1) * SECOND ==> node in r.slots
    ensures node in r.slots ==> now - log[i].at < r.n * SECOND
  {
  }

  /** With n buckets and a clock that never goes back, whatever was run before: at any time a
  node whose latest cordon is at most n - 1 seconds old is counted, and a counted node's latest
  cordon is less than n seconds old. */
  lemma WindowTracksTime(start: RunState, ops: seq<Op>, now: nat, node: string, i: nat)
    requires TimeInvariant(start) && Timely(start, ops)
    requires Ran(start, ops).clock <= now && LatestAt(Ran(start, ops).log, node, i)
    ensures var s, n := Ran(start, ops), start.b.ring.n;
      && (now - s.log[i].at <= (n - 1) * SECOND ==> node in Slide(s.b.ring, now).slots)
      && (node in Slide(s.b.ring, now).slots ==> now - s.log[i].at < n * SECOND)
  {
    var s := Ran(start, ops);
    RunKeepsTime(start, ops);
    SlideRecords(s.b.ring, s.log, s.slid, now);
    CountedByAge(Slide(s.b.ring, now), s.log, now, node, i);
  }

  /** The number of recent cordons at which a poll stops answering false. */
  function Limit(cfg: Config, fleet: nat): int {
    if fleet == 0 then 1 else TripThreshold(cfg, fleet).nodes
  }

  /** The distinct nodes cordoned from time a to n - 1 seconds later. */
  function CordonedWithin(log: seq<Event>, a: nat, n: nat): set<string> {
    set e | e in log && a <= e.at <= a + (n - 1) * SECOND :: e.node
  }

  ghost predicate RateInvariant(s: RunState, limit: int) {
    && |s.b.ring.slots| <= limit
    && (s.permit ==> |s.b.ring.slots| < limit)
    && forall a: nat :: |CordonedWithin(s.log, a, s.b.ring.n)| <= limit
  }

  /** After a cordon, every node cordoned in the last n - 1 seconds is in the ring. */
  lemma RecentAreTracked(r: Ring, log: seq<Event>, now: nat, a: nat)
    requires RingRecords(r, log, now) && now <= a + (r.n - 1) * SECOND
    ensures CordonedWithin(log, a, r.n) <= r.slots.Keys
  {
    forall v | v in CordonedWithin(log, a, r.n) ensures v in r.slots {
      var e :| e in log && a <= e.at <= a + (r.n - 1) * SECOND && e.node == v;
      var i :| 0 <= i < |log| && log[i] == e;
      LatestExists(log, v, i);
      var j :| i <= j && LatestAt(log, v, j);
      assert log[i].at <= log[j].at;
      CountedByAge(r, log, now, v, j);
    }
  }

  lemma {:induction false} LatestExists(log: seq<Event>, v: string, i: nat)
    requires i < |log| && log[i].node == v
    ensures exists j :: i <= j && LatestAt(log, v, j)
    decreases |log| - i
  {
    if j :| i < j < |log| && log[j].node == v {
      LatestExists(log, v, j);
    } else {
      assert LatestAt(log, v, i);
    }
  }

  lemma SlideShrinks(r: Ring, now: nat)
    ensures |Slide(r, now).slots| <= |r.slots|
  {
    SubsetSize(Slide(r, now).slots.Keys, r.slots.Keys);
  }

  /** A poll that answers false leaves fewer recent cordons than the limit. */
  lemma PollKeepsRate(s: RunState, now: nat, k: Cluster, limit: int)
    requires RateInvariant(s, limit) && ValidBounds(s.b.cfg)
    requires k.fleet.Some? ==> Limited(s.b.cfg, k.fleet.value, limit)
    ensures RateInvariant(Next(s, Poll(now, k)), limit)
  {
    SlideShrinks(s.b.ring, now);
    if k.fleet.Some? && k.fleet.value > 0 { TripThresholdIsLeast(s.b.cfg, k.fleet.value, 0); }
  }

  lemma CordonKeepsRate(s: RunState, now: nat, node: string, limit: int)
    requires RateInvariant(s, limit) && s.permit && TimeInvariant(s) && s.clock <= now
    ensures RateInvariant(Next(s, AddCordon(now, node)), limit)
  {
    var s' := Next(s, AddCordon(now, node));
    var slid, r', n := Slide(s.b.ring, now), s'.b.ring, s.b.ring.n;
    SlideShrinks(s.b.ring, now);
    assert r'.slots.Keys == slid.slots.Keys + {node};
    assert |r'.slots.Keys| <= |slid.slots.Keys| + 1;
    StepKeepsTime(s, AddCordon(now, node));
    forall a: nat ensures |CordonedWithin(s'.log, a, n)| <= limit {
      if a <= now <= a + (n - 1) * SECOND {
        RecentAreTracked(r', s'.log, now, a);
        SubsetSize(CordonedWithin(s'.log, a, n), r'.slots.Keys);
      } else {
        OutsideTheSpan(s.log, now, node, a, n);
      }
    }
  }

  lemma OutsideTheSpan(log: seq<Event>, now: nat, node: string, a: nat, n: nat)
    requires !(a <= now <= a + (n - 1) * SECOND)
    ensures CordonedWithin(log + [Event(node, now)], a, n) == CordonedWithin(log, a, n)
  {
  }

  lemma DisciplinedPrefix(s: RunState, ops: seq<Op>, limit: int)
    requires Disciplined(s, ops, limit) && ops != []
    ensures Disciplined(s, ops[..|ops| - 1], limit)
    ensures var last := ops[|ops| - 1];
      && (last.AddCordon? ==> Ran(s, ops[..|ops| - 1]).permit)
      && (last.Poll? && last.k.fleet.Some? ==> Limited(s.b.cfg, last.k.fleet.value, limit))
  {
    forall i | 0 <= i < |ops| - 1 && ops[i].AddCordon? ensures Ran(s, ops[..|ops| - 1][..i]).permit {
      assert ops[..|ops| - 1][..i] == ops[..i];
    }
  }

  lemma StepKeepsRate(s: RunState, op: Op, limit: int)
    requires ValidBounds(s.b.cfg) && TimeInvariant(s) && RateInvariant(s, limit) && s.clock <= op.now
    requires op.AddCordon? ==> s.permit
    requires op.Poll? && op.k.fleet.Some? ==> Limited(s.b.cfg, op.k.fleet.value, limit)
    ensures Next(s, op).b.cfg == s.b.cfg && RateInvariant(Next(s, op), limit)
  {
    match op {
      case Poll(now, k) =>
        PollSlidesOnly(s.b, now, k);
        PollKeepsRate(s, now, k, limit);
      case AddCordon(now, node) => CordonKeepsRate(s, now, node, limit);
      case Force(_, _) =>
    }
  }

  lemma {:induction false} RunKeepsRate(s: RunState, ops: seq<Op>, limit: int)
    requires ValidBounds(s.b.cfg) && TimeInvariant(s) && RateInvariant(s, limit)
    requires Timely(s, ops) && Disciplined(s, ops, limit)
    ensures Ran(s, ops).b.cfg == s.b.cfg && RateInvariant(Ran(s, ops), limit)
  {
    if ops != [] {
      var front := ops[..|ops| - 1];
      TimelyPrefix(s, ops);
      DisciplinedPrefix(s, ops, limit);
      RunKeepsRate(s, front, limit);
      RunKeepsTime(s, front);
      StepKeepsRate(Ran(s, front), ops[|ops| - 1], limit);
    }
  }

  /** The breaker's promise. If each cordon follows a poll that answered false, then in every run,
  forced states and a changing fleet included, no span of n - 1 seconds sees more distinct nodes
  cordoned than a limit no polled fleet's threshold exceeds. */
  lemma CordonRateIsBounded(cfg: Config, n: nat, begun: nat, saved: bool, ops: seq<Op>, limit: nat, a: nat)
    requires n > 0 && ValidBounds(cfg)
    requires Timely(Initial(cfg, n, begun, saved), ops) && Disciplined(Initial(cfg, n, begun, saved), ops, limit)
    ensures |CordonedWithin(Ran(Initial(cfg, n, begun, saved), ops).log, a, n)| <= limit
  {
    var s := Initial(cfg, n, begun, saved);
    InitialTime(cfg, n, begun, saved);
    assert forall b: nat :: CordonedWithin([], b, n) == {};
    RunKeepsRate(s, ops, limit);
    RunKeepsTime(s, ops);
  }

  /** Every cordon follows a poll that answered false, whatever the fleets. */
  ghost predicate AsksFirst(s: RunState, ops: seq<Op>) {
    forall i :: 0 <= i < |ops| && ops[i].AddCordon? ==> Ran(s, ops[..i]).permit
  }

  /** With an absolute bound, growing the fleet cannot raise the limit: it bounds the rate of every run,
  whatever fleets its polls find. */
  lemma MaxNodesBoundsEveryFleet(cfg: Config, n: nat, begun: nat, saved: bool, ops: seq<Op>, a: nat)
    requires n > 0 && ValidBounds(cfg) && cfg.tripMaxNodes > 0
    requires Timely(Initial(cfg, n, begun, saved), ops) && AsksFirst(Initial(cfg, n, begun, saved), ops)
    ensures |CordonedWithin(Ran(Initial(cfg, n, begun, saved), ops).log, a, n)| <= cfg.tripMaxNodes
  {
    forall fleet: nat ensures Limited(cfg, fleet, cfg.tripMaxNodes) {
      if fleet > 0 { TripThresholdMonotone(cfg, fleet, fleet); }
    }
    CordonRateIsBounded(cfg, n, begun, saved, ops, cfg.tripMaxNodes, a);
  }

  /** With fleets of at most `largest` nodes, the threshold for the largest bounds the rate. */
  lemma LargestFleetBoundsTheRate(cfg: Config, n: nat, begun: nat, saved: bool, ops: seq<Op>, largest: nat, a: nat)
    requires n > 0 && ValidBounds(cfg) && HasWindowBound(cfg) && largest > 0
    requires Timely(Initial(cfg, n, begun, saved), ops) && AsksFirst(Initial(cfg, n, begun, saved), ops)
    requires forall i :: 0 <= i < |ops| && ops[i].Poll? && ops[i].k.fleet.Some? ==> ops[i].k.fleet.value <= largest
    ensures |CordonedWithin(Ran(Initial(cfg, n, begun, saved), ops).log, a, n)| <= TripThreshold(cfg, largest).nodes
  {
    TripThresholdIsLeast(cfg, largest, 0);
    forall fleet: nat | fleet <= largest ensures Limited(cfg, fleet, TripThreshold(cfg, largest).nodes) {
      if fleet > 0 { TripThresholdMonotone(cfg, fleet, largest); }
    }
    CordonRateIsBounded(cfg, n, begun, saved, ops, TripThreshold(cfg, largest).nodes, a);
  }
}
