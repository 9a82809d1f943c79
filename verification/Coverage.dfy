/** The incremental coverage tracker of one candidate event (`eventCoverage`), against the
declarative reading of it: an effect is still the candidate's when the candidate touches it
and no newer event does. */
module Coverage {
  import opened Orders
  import opened HealthEvents

  /** The tracker's fields as a value. */
  datatype Tracker = Tracker(
    checkWide: bool,
    healthy: bool,
    codeWildcard: bool,
    remaining: set<Effect>,
    shadowing: seq<HealthEvent>,
    projected: bool)

  function NewTracker(c: HealthEvent): Tracker {
    Tracker(c.entities == [], c.healthy, c.healthy && c.codes == [], NamedEffects(c), [], false)
  }

  predicate IdentityFullyCovered(t: Tracker, r: Effect, n: HealthEvent) {
    if t.checkWide then
      if t.healthy then n.healthy && n.entities == [] else n.entities == []
    else if n.entities == [] then n.healthy
    else r.entity in n.entities
  }

  predicate CodeFullyCovered(t: Tracker, code: string, n: HealthEvent) {
    if t.codeWildcard && code == "" then n.healthy && n.codes == []
    else TouchesCode(n, code)
  }

  predicate FullyCovered(t: Tracker, r: Effect, n: HealthEvent) {
    IdentityFullyCovered(t, r, n) && CodeFullyCovered(t, r.code, n)
  }

  predicate IdentityCanShadow(t: Tracker, r: Effect, n: HealthEvent) {
    if t.checkWide then true
    else if n.entities == [] then n.healthy
    else r.entity in n.entities
  }

  predicate CanShadow(t: Tracker, n: HealthEvent) {
    exists r :: r in t.remaining && IdentityCanShadow(t, r, n)
                && (t.codeWildcard || CodeFullyCovered(t, r.code, n))
  }

  /** The tracker after one newer event. */
  function Added(t: Tracker, n: HealthEvent): Tracker {
    var shadows := t.healthy && CanShadow(t, n);
    var kept := set r | r in t.remaining && !FullyCovered(t, r, n);
    t.(remaining := kept,
       shadowing := if shadows then t.shadowing + [n] else t.shadowing,
       projected := t.projected || shadows || kept != t.remaining)
  }

  /** The tracker after newer events in the order the scan met them. */
  function Folded(t: Tracker, ns: seq<HealthEvent>): Tracker {
    if ns == [] then t else Added(Folded(t, ns[..|ns| - 1]), ns[|ns| - 1])
  }

  predicate HasRemainingEffect(t: Tracker, x: Effect) {
    exists r :: r in t.remaining
                && ((t.checkWide && t.healthy) || r.entity == x.entity)
                && (r.code == x.code || (t.codeWildcard && r.code == ""))
  }

  predicate IsShadowed(t: Tracker, x: Effect) {
    exists n :: n in t.shadowing && Touches(n, x)
  }

  predicate Allows(t: Tracker, x: Effect) {
    HasRemainingEffect(t, x) && (!t.healthy || !IsShadowed(t, x))
  }

  /** The tracker as the source keeps it: `add` deletes from the remaining map while ranging
  over it, in whatever order the map yields its keys. */
  class EventCoverage {
    const checkWide: bool
    const candidateHealthy: bool
    const candidateCodeWildcard: bool
    var remaining: set<Effect>
    var shadowing: seq<HealthEvent>
    var projected: bool

    function View(): Tracker
      reads this
    {
      Tracker(checkWide, candidateHealthy, candidateCodeWildcard, remaining, shadowing, projected)
    }

    constructor (c: HealthEvent)
      ensures View() == NewTracker(c)
    {
      checkWide := c.entities == [];
      candidateHealthy := c.healthy;
      candidateCodeWildcard := c.healthy && c.codes == [];
      shadowing, projected := [], false;
      var effects: set<Effect> := {};
      var codes := NormalizedCodes(c.codes);
      var entities := NormalizedEntities(c.entities);
      for i := 0 to |entities|
        invariant effects == set n, k | n in entities[..i] && k in codes :: Effect(n, k)
      {
        for j := 0 to |codes|
          invariant effects == (set n, k | n in entities[..i] && k in codes :: Effect(n, k))
                               + (set k | k in codes[..j] :: Effect(entities[i], k))
        {
          effects := effects + {Effect(entities[i], codes[j])};
        }
        assert entities[..i + 1] == entities[..i] + [entities[i]] && codes[..|codes|] == codes;
      }
      assert entities[..|entities|] == entities;
      remaining := effects;
    }

    method Add(n: HealthEvent) returns (resolved: bool)
      modifies this
      ensures View() == Added(old(View()), n)
      ensures resolved <==> remaining == {}
    {
      ghost var before := View();
      if candidateHealthy && CanShadow(View(), n) {
        shadowing := shadowing + [n];
        projected := true;
      }
      ghost var marked := projected;
      var todo := remaining;
      while todo != {}
        invariant todo <= remaining <= before.remaining
        invariant forall r :: r in before.remaining && r !in todo ==>
                                (r in remaining <==> !FullyCovered(before, r, n))
        invariant projected <==> marked || remaining != before.remaining
        invariant shadowing == Added(before, n).shadowing
        decreases todo
      {
        var r :| r in todo;
        if FullyCovered(View(), r, n) {
          remaining := remaining - {r};
          projected := true;
        }
        todo := todo - {r};
      }
      assert remaining == Added(before, n).remaining;
      resolved := remaining == {};
    }
  }

  /** What counts as a touch from the point of view of candidate c. It differs from `Touches`
  only around an impacted entity whose type and value are both empty. */
  predicate CountsAgainst(c: HealthEvent, n: HealthEvent, x: Effect) {
    && TouchesCode(n, x.code)
    && if c.entities == [] then
         if c.healthy then TouchesEntity(n, x.entity) else n.entities == []
       else if n.entities == [] then n.healthy
       else x.entity in n.entities
  }

  ghost predicate TracksCandidate(t: Tracker, c: HealthEvent) {
    && t.checkWide == (c.entities == [])
    && t.healthy == c.healthy
    && t.codeWildcard == (c.healthy && c.codes == [])
    && t.remaining <= NamedEffects(c)
  }

  lemma NewTrackerAllows(c: HealthEvent, x: Effect)
    ensures Allows(NewTracker(c), x) <==> Touches(c, x)
  {
    var t := NewTracker(c);
    if Touches(c, x) {
      var entity := if c.entities == [] then BLANK else x.entity;
      var code := if c.healthy && c.codes == [] then "" else x.code;
      assert Effect(entity, code) in t.remaining;
    }
  }

  /** One newer event takes away exactly the effects it counts against. */
  lemma AddedAllows(c: HealthEvent, t: Tracker, n: HealthEvent, x: Effect)
    requires TracksCandidate(t, c)
    ensures TracksCandidate(Added(t, n), c)
    ensures Allows(Added(t, n), x) <==> Allows(t, x) && !CountsAgainst(c, n, x)
  {
    var t' := Added(t, n);
    if Allows(t', x) {
      assert n in t'.shadowing || !(t.healthy && CanShadow(t, n));
    }
    if Allows(t, x) && !CountsAgainst(c, n, x) {
      var r :| r in t.remaining
               && ((t.checkWide && t.healthy) || r.entity == x.entity)
               && (r.code == x.code || (t.codeWildcard && r.code == ""));
      assert r in t'.remaining;
      forall m | t.healthy && m in t'.shadowing ensures !Touches(m, x) {
        if m !in t.shadowing { assert m == n && CanShadow(t, n); }
      }
    }
  }

  /** For every candidate, every list of newer events in any order, and every effect: after
  folding `add`, the tracker allows the effect exactly when the candidate touches it and
  none of the newer events counts against it. */
  lemma {:induction false} FoldedAllows(c: HealthEvent, ns: seq<HealthEvent>, x: Effect)
    ensures TracksCandidate(Folded(NewTracker(c), ns), c)
    ensures Allows(Folded(NewTracker(c), ns), x)
       <==> Touches(c, x) && forall n :: n in ns ==> !CountsAgainst(c, n, x)
  {
    if ns == [] {
      NewTrackerAllows(c, x);
    } else {
      var front, last := ns[..|ns| - 1], ns[|ns| - 1];
      FoldedAllows(c, front, x);
      AddedAllows(c, Folded(NewTracker(c), front), last, x);
      assert ns == front + [last];
    }
  }

  /** Newer event n and candidate c read a blank entity differently: one names it, the other
  is a check-wide fault. */
  predicate BlankConflict(c: HealthEvent, n: HealthEvent) {
    || (c.entities == [] && !c.healthy && BLANK in n.entities)
    || (BLANK in c.entities && n.entities == [] && !n.healthy)
  }

  /** Every code on which a blank-entity conflict arises is also touched, on the blank
  entity, by a newer event without such a conflict. */
  ghost predicate BlankConflictsSettled(c: HealthEvent, ns: seq<HealthEvent>) {
    forall n, k :: n in ns && BlankConflict(c, n)
                   && k in NormalizedCodes(c.codes) + NormalizedCodes(n.codes)
                   && TouchesCode(c, k) && TouchesCode(n, k)
      ==> exists m :: m in ns && !BlankConflict(c, m) && Touches(m, Effect(BLANK, k))
  }

  ghost predicate LastWriterWins(c: HealthEvent, ns: seq<HealthEvent>, x: Effect) {
    Touches(c, x) && forall n :: n in ns ==> !Touches(n, x)
  }

  lemma CountsAgainstIsTouch(c: HealthEvent, n: HealthEvent, x: Effect)
    requires Touches(c, x)
    ensures CountsAgainst(c, n, x) ==> Touches(n, x)
    ensures Touches(n, x) && !CountsAgainst(c, n, x) ==> BlankConflict(c, n) && x.entity == BLANK
    ensures BlankConflict(c, n) && x.entity == BLANK ==> !CountsAgainst(c, n, x)
  {
  }

  /** The incremental tracker is last-writer-wins, for faults, healthy, check-wide and
  wildcard events alike, if and only if its blank-entity conflicts are settled. */
  lemma TrackerIsLastWriterWins(c: HealthEvent, ns: seq<HealthEvent>)
    ensures (forall x :: Allows(Folded(NewTracker(c), ns), x) <==> LastWriterWins(c, ns, x))
       <==> BlankConflictsSettled(c, ns)
  {
    var t := Folded(NewTracker(c), ns);
    if BlankConflictsSettled(c, ns) {
      forall x ensures Allows(t, x) <==> LastWriterWins(c, ns, x) {
        FoldedAllows(c, ns, x);
        if Touches(c, x) { SettledAgrees(c, ns, x); }
      }
    }
    if forall x :: Allows(t, x) <==> LastWriterWins(c, ns, x) {
      forall n, k | n in ns && BlankConflict(c, n)
                    && k in NormalizedCodes(c.codes) + NormalizedCodes(n.codes)
                    && TouchesCode(c, k) && TouchesCode(n, k)
        ensures exists m :: m in ns && !BlankConflict(c, m) && Touches(m, Effect(BLANK, k))
      {
        var x := Effect(BLANK, k);
        FoldedAllows(c, ns, x);
        assert Touches(c, x) && Touches(n, x) && !LastWriterWins(c, ns, x);
        var m :| m in ns && CountsAgainst(c, m, x);
        CountsAgainstIsTouch(c, m, x);
      }
    }
  }

  lemma SettledAgrees(c: HealthEvent, ns: seq<HealthEvent>, x: Effect)
    requires BlankConflictsSettled(c, ns) && Touches(c, x)
    ensures (exists n :: n in ns && CountsAgainst(c, n, x)) <==> (exists n :: n in ns && Touches(n, x))
  {
  }

  ghost predicate NoBlankEntity(e: HealthEvent) {
    BLANK !in e.entities
  }

  lemma NamedEntitiesSettle(c: HealthEvent, ns: seq<HealthEvent>)
    requires NoBlankEntity(c) && forall n :: n in ns ==> NoBlankEntity(n)
    ensures BlankConflictsSettled(c, ns)
  {
  }

  /** A check-wide fault keeps its effect although a newer healthy event names the blank
  entity with the same code. */
  lemma BlankEntityBreaksLastWriter()
    ensures exists c, n, x :: Allows(Folded(NewTracker(c), [n]), x) && !LastWriterWins(c, [n], x)
  {
    var c := HealthEvent(false, [], ["79"]);
    var n := HealthEvent(true, [BLANK], ["79"]);
    var x := Effect(BLANK, "79");
    FoldedAllows(c, [n], x);
    assert Allows(Folded(NewTracker(c), [n]), x);
    assert n in [n] && Touches(n, x);
  }

  // The tracker runs out exactly when nothing is left to decide.

  /** A named effect remains exactly while no newer event has fully covered it. */
  lemma {:induction false} FoldedRemaining(c: HealthEvent, ns: seq<HealthEvent>, r: Effect)
    ensures var t := Folded(NewTracker(c), ns);
      && (r in t.remaining <==> r in NamedEffects(c) && forall n :: n in ns ==> !FullyCovered(NewTracker(c), r, n))
      && (forall n :: n in t.shadowing ==> n in ns)
      && t.checkWide == (c.entities == []) && t.healthy == c.healthy && t.codeWildcard == (c.healthy && c.codes == [])
  {
    if ns != [] {
      var front, last := ns[..|ns| - 1], ns[|ns| - 1];
      FoldedRemaining(c, front, r);
      assert ns == front + [last];
      var t := Folded(NewTracker(c), front);
      assert FullyCovered(t, r, last) <==> FullyCovered(NewTracker(c), r, last);
      assert r in Added(t, last).remaining <==> r in t.remaining && !FullyCovered(t, r, last);
    }
  }

  function AllNames(ns: seq<HealthEvent>): set<string> {
    (set n, e | n in ns && e in n.entities :: e.value) + (set n, k | n in ns && k in n.codes :: k)
  }

  /** While something remains, some effect is still the candidate's: the remaining one, or for a wildcard
  one that no newer event has named. */
  lemma RemainingAllows(c: HealthEvent, ns: seq<HealthEvent>) returns (x: Effect)
    requires BlankConflictsSettled(c, ns) && Folded(NewTracker(c), ns).remaining != {}
    ensures Allows(Folded(NewTracker(c), ns), x)
  {
    var t := Folded(NewTracker(c), ns);
    var r :| r in t.remaining;
    FoldedRemaining(c, ns, r);
    var unused := FreshString(AllNames(ns) + {""});
    var entity := if t.checkWide && t.healthy then Entity("", unused) else r.entity;
    var code := if t.codeWildcard && r.code == "" then unused else r.code;
    x := Effect(entity, code);
    if t.healthy {
      forall n | n in t.shadowing ensures !Touches(n, x) { RemainingUntouched(c, ns, r, unused, n); }
    }
  }

  lemma RemainingUntouched(c: HealthEvent, ns: seq<HealthEvent>, r: Effect, unused: string, n: HealthEvent)
    requires c.healthy && BlankConflictsSettled(c, ns) && n in ns && unused !in AllNames(ns) + {""}
    requires r in Folded(NewTracker(c), ns).remaining
    ensures !Touches(n, Effect(if c.entities == [] then Entity("", unused) else r.entity,
                               if c.codes == [] && r.code == "" then unused else r.code))
  {
    FoldedRemaining(c, ns, r);
    var entity := if c.entities == [] then Entity("", unused) else r.entity;
    var code := if c.codes == [] && r.code == "" then unused else r.code;
    assert entity.value == unused ==> entity !in n.entities || entity.value in AllNames(ns);
    assert unused !in n.codes;
    if Touches(n, Effect(entity, code)) {
      assert CodeFullyCovered(NewTracker(c), r.code, n);
      assert !IdentityFullyCovered(NewTracker(c), r, n);
      assert BlankConflict(c, n) && entity == BLANK && r.code in NormalizedCodes(c.codes);
      var m :| m in ns && !BlankConflict(c, m) && Touches(m, Effect(BLANK, r.code));
      assert FullyCovered(NewTracker(c), r, m);
    }
  }

  /** The tracker says that it was projected exactly when something was taken away or may be shadowed. */
  lemma {:induction false} ProjectedIff(c: HealthEvent, ns: seq<HealthEvent>)
    ensures var t := Folded(NewTracker(c), ns);
      t.remaining <= NamedEffects(c) && (t.projected <==> t.remaining != NamedEffects(c) || t.shadowing != [])
  {
    if ns != [] { ProjectedIff(c, ns[..|ns| - 1]); }
  }
}
