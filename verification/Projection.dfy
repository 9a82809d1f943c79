/** Projection of a stored event onto its residual effects (`ProjectHealthEvent`): the events
handed to rule evaluation are exactly the maximal rectangles of what remains. */
module Projection {
  import opened Orders
  import opened HealthEvents
  import opened SliceKey
  import opened Coverage
  import opened Rectangles

  function EntitySet(e: HealthEvent): set<Entity> {
    Elems(NormalizedEntities(e.entities))
  }

  function CodeSet(e: HealthEvent): set<string> {
    Elems(NormalizedCodes(e.codes))
  }

  /** The tracker of event e after some newer events. */
  ghost predicate IsCoverageOf(t: Tracker, e: HealthEvent) {
    TracksCandidate(t, e) && (!t.projected ==> t.remaining == NamedEffects(e))
  }

  lemma {:induction false} FoldedIsCoverage(e: HealthEvent, ns: seq<HealthEvent>)
    ensures IsCoverageOf(Folded(NewTracker(e), ns), e)
  {
    if ns != [] { FoldedIsCoverage(e, ns[..|ns| - 1]); }
  }

  /** A lone empty code goes back to the absence of codes it came from, so that a wildcard
  recovery stays one. */
  function ProjectedCodes(e: HealthEvent, codes: seq<string>): seq<string> {
    if codes == [""] && "" !in e.codes then [] else codes
  }

  /** The projection limit is hit: exact evaluation would need too many rectangles. */
  ghost predicate Overflows(t: Tracker) {
    t.projected && t.remaining != {} && !t.checkWide && |Meets(t.remaining)| > 256
  }

  /** p stands for the sub-rectangle es x cs of e: deriving coverage from it afresh gives back
  that product under e's own wildcard meaning. */
  ghost predicate Stands(e: HealthEvent, p: HealthEvent, es: set<Entity>, cs: set<string>) {
    && EntitySet(p) == es && CodeSet(p) == cs
    && NewTracker(p) == NewTracker(e).(remaining := set n, c | n in es && c in cs :: Effect(n, c))
  }

  lemma ProjectedStands(e: HealthEvent, entities: seq<Entity>, codes: seq<string>)
    requires codes != [] && Elems(codes) <= CodeSet(e) && StrictlySorted(StringLess, codes)
    requires (entities == []) == (e.entities == [])
    ensures Stands(e, e.(entities := entities, codes := ProjectedCodes(e, codes)),
                   Elems(NormalizedEntities(entities)), Elems(codes))
  {
    assert forall i :: 0 <= i < |codes| ==> codes[i] in Elems(codes);
    var p := e.(entities := entities, codes := ProjectedCodes(e, codes));
    if e.codes == [] {
      StringLessIsStrictTotal();
      assert codes[0] in CodeSet(e) && codes[0] == "";
      assert Elems(codes) == Elems([""]) == {""};
      SortedIsUnique(StringLess, codes, [""]);
    }
    assert NormalizedCodes(p.codes) == codes;
    assert NamedEffects(p) == set n, c | n in EntitySet(p) && c in CodeSet(p) :: Effect(n, c);
  }

  lemma ProductHasOneMaximal(rel: set<Effect>, es: set<Entity>, cs: set<string>, es': set<Entity>, cs': set<string>)
    requires es != {} && cs != {} && rel == set n, c | n in es && c in cs :: Effect(n, c)
    ensures IsMaximal(rel, es', cs') <==> es' == es && cs' == cs
  {
    assert IsRectangle(rel, es, cs);
    forall es'', cs'' | IsRectangle(rel, es'', cs'') ensures es'' <= es && cs'' <= cs {
      var n0 :| n0 in es'';
      var c0 :| c0 in cs'';
      forall n | n in es'' ensures n in es { assert Effect(n, c0) in rel; }
      forall c | c in cs'' ensures c in cs { assert Effect(n0, c) in rel; }
    }
  }

  /** Without overflow the projected events are, one for one, the maximal rectangles of the
  residual relation; with overflow, or for coverage that never shrank, the event itself. */
  method ProjectHealthEvent(t: Tracker, e: HealthEvent) returns (events: seq<HealthEvent>)
    requires IsCoverageOf(t, e)
    ensures t.remaining == {} || Overflows(t) ==> events == [e]
    ensures t.remaining != {} && !Overflows(t) ==> FaithfulProjection(t.remaining, e, events)
  {
    if !t.projected || t.remaining == {} {
      events := [e];
      if t.remaining != {} { UnprojectedIsFaithful(t, e); }
      return;
    }
    if t.checkWide {
      StringLessIsStrictTotal();
      var codes := SortSet(StringLess, set x | x in t.remaining :: x.code);
      events := [e.(entities := [], codes := ProjectedCodes(e, codes))];
      CheckWideIsFaithful(t, e, codes);
      return;
    }
    var rectangles, overflow := MaximalResidualRectangles(t.remaining);
    if overflow {
      return [e];
    }
    events := [];
    for k := 0 to |rectangles|
      invariant |events| == k
      invariant forall i :: 0 <= i < k ==> events[i] == RectangleEvent(e, rectangles[i])
    {
      events := events + [RectangleEvent(e, rectangles[k])];
    }
    RectanglesAreFaithful(t, e, rectangles, events);
  }

  function RectangleEvent(e: HealthEvent, r: Rectangle): HealthEvent {
    e.(entities := r.entities, codes := ProjectedCodes(e, r.codes))
  }

  /** Each projected event stands for a maximal rectangle of the relation, each maximal
  rectangle has its event, and no two events are for the same rectangle. */
  ghost predicate FaithfulProjection(rel: set<Effect>, e: HealthEvent, events: seq<HealthEvent>) {
    && (forall p :: p in events ==> IsMaximal(rel, EntitySet(p), CodeSet(p)) && Stands(e, p, EntitySet(p), CodeSet(p)))
    && (forall es, cs :: IsMaximal(rel, es, cs) ==> exists p :: p in events && EntitySet(p) == es && CodeSet(p) == cs)
    && (forall i, j :: 0 <= i < j < |events| ==> CodeSet(events[i]) != CodeSet(events[j]))
  }

  lemma UnprojectedIsFaithful(t: Tracker, e: HealthEvent)
    requires IsCoverageOf(t, e) && !t.projected
    ensures FaithfulProjection(t.remaining, e, [e])
  {
    assert NormalizedEntities(e.entities)[0] in EntitySet(e) && NormalizedCodes(e.codes)[0] in CodeSet(e);
    assert t.remaining == set n, c | n in EntitySet(e) && c in CodeSet(e) :: Effect(n, c);
    forall es, cs ensures IsMaximal(t.remaining, es, cs) <==> es == EntitySet(e) && cs == CodeSet(e) {
      ProductHasOneMaximal(t.remaining, EntitySet(e), CodeSet(e), es, cs);
    }
    assert e in [e];
  }

  lemma CheckWideIsFaithful(t: Tracker, e: HealthEvent, codes: seq<string>)
    requires IsCoverageOf(t, e) && t.checkWide && t.remaining != {}
    requires StrictlySorted(StringLess, codes) && Elems(codes) == set x | x in t.remaining :: x.code
    ensures FaithfulProjection(t.remaining, e, [e.(entities := [], codes := ProjectedCodes(e, codes))])
  {
    var p := e.(entities := [], codes := ProjectedCodes(e, codes));
    forall x | x in t.remaining ensures x.entity == BLANK && x.code in CodeSet(e) && x == Effect(BLANK, x.code) {
      assert x in NamedEffects(e);
    }
    var x0 :| x0 in t.remaining;
    assert x0.code in Elems(codes);
    ProjectedStands(e, [], codes);
    assert t.remaining == set n, c | n in EntitySet(p) && c in CodeSet(p) :: Effect(n, c);
    forall es, cs ensures IsMaximal(t.remaining, es, cs) <==> es == EntitySet(p) && cs == CodeSet(p) {
      ProductHasOneMaximal(t.remaining, EntitySet(p), CodeSet(p), es, cs);
    }
    assert p in [p];
  }

  lemma RectangleStands(t: Tracker, e: HealthEvent, r: Rectangle)
    requires IsCoverageOf(t, e) && !t.checkWide && r in MaximalRectangles(t.remaining)
    ensures IsMaximal(t.remaining, Elems(r.entities), Elems(r.codes))
    ensures Stands(e, RectangleEvent(e, r), Elems(r.entities), Elems(r.codes))
  {
    MaximalRectanglesCorrect(t.remaining, r);
    var n0 :| n0 in Elems(r.entities);
    forall c | c in Elems(r.codes) ensures c in CodeSet(e) {
      assert Effect(n0, c) in t.remaining && Effect(n0, c) in NamedEffects(e);
    }
    assert r.entities != [] && r.codes != [];
    ProjectedStands(e, r.entities, r.codes);
  }

  lemma RectanglesAreFaithful(t: Tracker, e: HealthEvent, rectangles: seq<Rectangle>, events: seq<HealthEvent>)
    requires IsCoverageOf(t, e) && !t.checkWide
    requires StrictlySorted(RectangleLess, rectangles) && Elems(rectangles) == MaximalRectangles(t.remaining)
    requires |events| == |rectangles|
    requires forall i :: 0 <= i < |events| ==> events[i] == RectangleEvent(e, rectangles[i])
    ensures FaithfulProjection(t.remaining, e, events)
  {
    forall i | 0 <= i < |events|
      ensures rectangles[i] in MaximalRectangles(t.remaining)
      ensures IsMaximal(t.remaining, Elems(rectangles[i].entities), Elems(rectangles[i].codes))
      ensures Stands(e, events[i], Elems(rectangles[i].entities), Elems(rectangles[i].codes))
    {
      assert rectangles[i] in Elems(rectangles);
      RectangleStands(t, e, rectangles[i]);
    }
    forall es, cs | IsMaximal(t.remaining, es, cs)
      ensures exists p :: p in events && EntitySet(p) == es && CodeSet(p) == cs
    {
      MaximalIffMeet(t.remaining, es, cs);
      var r := RectangleOf(t.remaining, cs);
      assert r in Elems(rectangles);
      var i :| 0 <= i < |rectangles| && rectangles[i] == r;
      assert events[i] in events;
    }
    RectangleLessIsStrictTotal();
    SortedHasNoDuplicates(RectangleLess, rectangles);
    forall i, j | 0 <= i < j < |events| ensures CodeSet(events[i]) != CodeSet(events[j]) {
      SameCodesSameRectangle(t.remaining, rectangles[i], rectangles[j]);
    }
  }

  lemma SameCodesSameRectangle(rel: set<Effect>, a: Rectangle, b: Rectangle)
    requires a in MaximalRectangles(rel) && b in MaximalRectangles(rel)
    ensures Elems(a.codes) == Elems(b.codes) ==> a == b
  {
    var ca :| ca in Meets(rel) && a == RectangleOf(rel, ca);
    var cb :| cb in Meets(rel) && b == RectangleOf(rel, cb);
    StringLessIsStrictTotal();
    assert Elems(a.codes) == ca && Elems(b.codes) == cb;
  }

  /** The union of what the projected events name is exactly the residual set. */
  lemma ProjectionCoversResidual(rel: set<Effect>, e: HealthEvent, events: seq<HealthEvent>, x: Effect)
    requires FaithfulProjection(rel, e, events)
    ensures x in rel <==> exists p :: p in events && x in NamedEffects(p)
  {
    if x in rel {
      assert IsRectangle(rel, {x.entity}, {x.code}) by { assert x == Effect(x.entity, x.code); }
      RectangleInsideMaximal(rel, {x.entity}, {x.code});
      var es, cs :| IsMaximal(rel, es, cs) && {x.entity} <= es && {x.code} <= cs;
      var p :| p in events && EntitySet(p) == es && CodeSet(p) == cs;
      assert x == Effect(x.entity, x.code) && x in NamedEffects(p);
    }
    if p :| p in events && x in NamedEffects(p) {
      assert x.entity in EntitySet(p) && x.code in CodeSet(p);
      assert x == Effect(x.entity, x.code);
    }
  }

  ghost predicate Monotone(rule: (set<Entity>, set<string>) -> bool) {
    forall es, cs, es', cs' :: rule(es, cs) && es <= es' && cs <= cs' ==> rule(es', cs')
  }

  /** A rule that only gains from more entities and codes matches some coherent group of
  residual effects exactly when it matches some projected event. */
  lemma MonotoneRulesAgree(rel: set<Effect>, e: HealthEvent, events: seq<HealthEvent>,
                           rule: (set<Entity>, set<string>) -> bool)
    requires FaithfulProjection(rel, e, events) && Monotone(rule)
    ensures (exists es, cs :: IsRectangle(rel, es, cs) && rule(es, cs))
       <==> exists p :: p in events && rule(EntitySet(p), CodeSet(p))
  {
    if es, cs :| IsRectangle(rel, es, cs) && rule(es, cs) {
      RectangleInsideMaximal(rel, es, cs);
      var es', cs' :| IsMaximal(rel, es', cs') && es <= es' && cs <= cs';
      var p :| p in events && EntitySet(p) == es' && CodeSet(p) == cs';
      assert rule(EntitySet(p), CodeSet(p));
    }
    if p :| p in events && rule(EntitySet(p), CodeSet(p)) {
      assert IsRectangle(rel, EntitySet(p), CodeSet(p));
    }
  }
}
