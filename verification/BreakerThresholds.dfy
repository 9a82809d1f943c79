/** The circuit breaker's bounds and the node count at which it trips. Percentages are reals. */
module BreakerThresholds {
  datatype Bound = NoBound | Percentage | MaxNodes | FleetSize | MaxCordonedNodes | MaxCordonedPercentage

  datatype Config = Config(tripPercentage: real, tripMaxNodes: int,
                           tripMaxCordonedNodes: int, tripMaxCordonedPercentage: real)

  /** validateBounds. */
  predicate ValidBounds(c: Config) {
    && c.tripPercentage >= 0.0 && c.tripMaxCordonedPercentage >= 0.0
    && c.tripMaxNodes >= 0 && c.tripMaxCordonedNodes >= 0
    && (c.tripPercentage > 0.0 || c.tripMaxNodes > 0
        || c.tripMaxCordonedNodes > 0 || c.tripMaxCordonedPercentage > 0.0)
  }

  function Ceil(x: real): int {
    -((-x).Floor)
  }

  function Scaled(total: nat, percentage: real): int {
    Ceil(total as real * percentage / 100.0)
  }

  datatype Threshold = Threshold(nodes: int, bound: Bound)

  function ResolveThreshold(total: nat, percentage: real, percentageBound: Bound,
                            maxNodes: int, maxNodesBound: Bound): Threshold
  {
    var byShare :=
      if percentage <= 0.0 then Threshold(0, NoBound)
      else if Scaled(total, percentage) > total then Threshold(total, FleetSize)
      else Threshold(Scaled(total, percentage), percentageBound);
    if maxNodes > 0 && (byShare.nodes == 0 || maxNodes < byShare.nodes) then Threshold(maxNodes, maxNodesBound)
    else byShare
  }

  function TripThreshold(c: Config, total: nat): Threshold {
    var t := ResolveThreshold(total, c.tripPercentage, Percentage, c.tripMaxNodes, MaxNodes);
    if t.nodes > total then Threshold(total, FleetSize) else t
  }

  function StandingThreshold(c: Config, total: nat): Threshold {
    ResolveThreshold(total, c.tripMaxCordonedPercentage, MaxCordonedPercentage,
                     c.tripMaxCordonedNodes, MaxCordonedNodes)
  }

  predicate HasWindowBound(c: Config) {
    c.tripPercentage > 0.0 || c.tripMaxNodes > 0
  }

  predicate HasStandingBound(c: Config) {
    c.tripMaxCordonedPercentage > 0.0 || c.tripMaxCordonedNodes > 0
  }

  /** Rounding up, without the rounding: a node count reaches the scaled percentage exactly when it is
  that percentage of the fleet, or more. */
  lemma ScaledIsLeast(total: nat, percentage: real, k: int)
    ensures k >= Scaled(total, percentage) <==> 100.0 * k as real >= total as real * percentage
  {
    var x := total as real * percentage / 100.0;
    assert 100.0 * k as real >= total as real * percentage <==> k as real >= x;
    assert k as real >= x <==> (-x).Floor >= -k;
  }

  /** k recent cordons are as many as a window bound allows, or as the fleet has nodes. */
  predicate WindowBoundReached(c: Config, total: nat, k: int) {
    || k >= total
    || (c.tripMaxNodes > 0 && k >= c.tripMaxNodes)
    || (c.tripPercentage > 0.0 && 100.0 * k as real >= total as real * c.tripPercentage)
  }

  /** k quarantined nodes are as many as a standing bound allows; the fleet size counts only beside a
  percentage. */
  predicate StandingBoundReached(c: Config, total: nat, k: int) {
    || (c.tripMaxCordonedNodes > 0 && k >= c.tripMaxCordonedNodes)
    || (c.tripMaxCordonedPercentage > 0.0
        && (k >= total || 100.0 * k as real >= total as real * c.tripMaxCordonedPercentage))
  }

  /** For a non-empty fleet with a window bound, the trip threshold is the least count that reaches the
  fleet size, the absolute bound if set or the percentage if set; so it lies between 1 and the fleet
  size. */
  lemma TripThresholdIsLeast(c: Config, total: nat, k: int)
    requires ValidBounds(c) && HasWindowBound(c) && total > 0
    ensures k >= TripThreshold(c, total).nodes <==> WindowBoundReached(c, total, k)
    ensures 1 <= TripThreshold(c, total).nodes <= total
    ensures TripThreshold(c, total).bound != NoBound
  {
    ScaledIsLeast(total, c.tripPercentage, k);
    ScaledIsLeast(total, c.tripPercentage, total);
    ScaledPositive(total, c.tripPercentage);
  }

  lemma ScaledPositive(total: nat, percentage: real)
    requires total > 0
    ensures percentage > 0.0 ==> Scaled(total, percentage) >= 1
  {
    ScaledIsLeast(total, percentage, 0);
  }

  /** The reported bound is the one that gave the number. */
  lemma ReportedBound(c: Config, total: nat)
    requires ValidBounds(c) && HasWindowBound(c) && total > 0
    ensures var t := TripThreshold(c, total);
      && (t.bound == FleetSize ==> t.nodes == total)
      && (t.bound == MaxNodes ==> t.nodes == c.tripMaxNodes > 0)
      && (t.bound == Percentage ==>
            && 100.0 * t.nodes as real >= total as real * c.tripPercentage > 0.0
            && 100.0 * (t.nodes - 1) as real < total as real * c.tripPercentage)
      && (t.bound == FleetSize || t.bound == MaxNodes || t.bound == Percentage)
  {
    ScaledIsLeast(total, c.tripPercentage, Scaled(total, c.tripPercentage));
    ScaledIsLeast(total, c.tripPercentage, Scaled(total, c.tripPercentage) - 1);
    ScaledPositive(total, c.tripPercentage);
  }

  lemma NoWindowBound(c: Config, total: nat)
    requires ValidBounds(c)
    ensures TripThreshold(c, total).bound == NoBound <==> c.tripPercentage == 0.0 && c.tripMaxNodes == 0
  {
  }

  /** A larger fleet never lowers the threshold, and an absolute bound caps it for every fleet. */
  lemma TripThresholdMonotone(c: Config, small: nat, large: nat)
    requires ValidBounds(c) && HasWindowBound(c) && 0 < small <= large
    ensures TripThreshold(c, small).nodes <= TripThreshold(c, large).nodes
    ensures c.tripMaxNodes > 0 ==> TripThreshold(c, large).nodes <= c.tripMaxNodes
  {
    var k := TripThreshold(c, large).nodes;
    TripThresholdIsLeast(c, large, k);
    TripThresholdIsLeast(c, large, c.tripMaxNodes);
    TripThresholdIsLeast(c, small, k);
    SmallerFleetReached(c, small, large, k);
  }

  lemma ShareMonotone(small: nat, large: nat, percentage: real)
    requires small <= large && percentage >= 0.0
    ensures small as real * percentage <= large as real * percentage
  {
  }

  lemma SmallerFleetReached(c: Config, small: nat, large: nat, k: int)
    requires ValidBounds(c) && small <= large && WindowBoundReached(c, large, k)
    ensures WindowBoundReached(c, small, k)
  {
    ShareMonotone(small, large, c.tripPercentage);
  }

  /** The standing threshold is the least count that reaches a standing bound: the same minimum, except
  that the absolute bound alone is not clamped to the fleet. */
  lemma StandingThresholdIsLeast(c: Config, total: nat, k: int)
    requires ValidBounds(c) && HasStandingBound(c) && total > 0
    ensures k >= StandingThreshold(c, total).nodes <==> StandingBoundReached(c, total, k)
    ensures StandingThreshold(c, total).nodes >= 1 && StandingThreshold(c, total).bound != NoBound
  {
    ScaledIsLeast(total, c.tripMaxCordonedPercentage, k);
    ScaledPositive(total, c.tripMaxCordonedPercentage);
  }

  lemma NoStandingBound(c: Config, total: nat)
    requires ValidBounds(c)
    ensures StandingThreshold(c, total).bound == NoBound
       <==> c.tripMaxCordonedPercentage == 0.0 && c.tripMaxCordonedNodes == 0
  {
  }
}
