/** The maximal entity x code rectangles of a residual relation, enumerated by closing the
entities' code sets under intersection, with a cap on how many closed sets are built. */
module Rectangles {
  import opened Orders
  import opened HealthEvents
  import opened SliceKey

  const MAX_RECTANGLES: nat := 256

  datatype Rectangle = Rectangle(entities: seq<Entity>, codes: seq<string>)

  // The relation and its rectangles, declaratively.

  ghost predicate IsRectangle(rel: set<Effect>, es: set<Entity>, cs: set<string>) {
    es != {} && cs != {} && forall e, c :: e in es && c in cs ==> Effect(e, c) in rel
  }

  ghost predicate IsMaximal(rel: set<Effect>, es: set<Entity>, cs: set<string>) {
    && IsRectangle(rel, es, cs)
    && forall es', cs' :: IsRectangle(rel, es', cs') && es <= es' && cs <= cs' ==> es' == es && cs' == cs
  }

  function Entities(rel: set<Effect>): set<Entity> {
    set x | x in rel :: x.entity
  }

  function CodesOf(rel: set<Effect>, e: Entity): set<string> {
    set x | x in rel && x.entity == e :: x.code
  }

  /** The codes all of es have in common. */
  function Common(rel: set<Effect>, es: set<Entity>): set<string> {
    set x | x in rel && (forall e :: e in es ==> Effect(e, x.code) in rel) :: x.code
  }

  /** The entities that have all of cs. */
  function Extent(rel: set<Effect>, cs: set<string>): set<Entity> {
    set e | e in Entities(rel) && cs <= CodesOf(rel, e)
  }

  /** The distinct non-empty intersections of entity neighbourhoods. */
  ghost function Meets(rel: set<Effect>): set<set<string>> {
    set es: set<Entity> | es <= Entities(rel) && es != {} && Common(rel, es) != {} :: Common(rel, es)
  }

  lemma CodesOfMember(rel: set<Effect>, e: Entity, c: string)
    ensures c in CodesOf(rel, e) <==> Effect(e, c) in rel
    ensures Effect(e, c) in rel ==> e in Entities(rel)
  {
  }

  lemma CommonMember(rel: set<Effect>, es: set<Entity>, c: string)
    requires es != {}
    ensures c in Common(rel, es) <==> forall e :: e in es ==> Effect(e, c) in rel
  {
  }

  lemma ExtentMember(rel: set<Effect>, cs: set<string>, e: Entity)
    requires cs != {}
    ensures e in Extent(rel, cs) <==> forall c :: c in cs ==> Effect(e, c) in rel
  {
  }

  lemma CommonOfOne(rel: set<Effect>, e: Entity)
    ensures Common(rel, {e}) == CodesOf(rel, e)
  {
  }

  lemma CommonOfUnion(rel: set<Effect>, a: set<Entity>, b: set<Entity>)
    requires a != {} && b != {}
    ensures Common(rel, a + b) == Common(rel, a) * Common(rel, b)
  {
  }

  /** A non-empty intersection of two meets is a meet. */
  lemma MeetsAreClosed(rel: set<Effect>, a: set<string>, b: set<string>)
    requires a in Meets(rel) && b in Meets(rel) && a * b != {}
    ensures a * b in Meets(rel)
  {
    var ea :| ea <= Entities(rel) && ea != {} && Common(rel, ea) == a;
    var eb :| eb <= Entities(rel) && eb != {} && Common(rel, eb) == b;
    CommonOfUnion(rel, ea, eb);
    assert ea + eb <= Entities(rel);
  }

  lemma NeighbourhoodIsMeet(rel: set<Effect>, e: Entity)
    requires e in Entities(rel)
    ensures CodesOf(rel, e) != {} && CodesOf(rel, e) in Meets(rel)
  {
    CommonOfOne(rel, e);
    var x :| x in rel && x.entity == e;
    assert x.code in CodesOf(rel, e);
    assert {e} <= Entities(rel);
  }

  /** A family holding every neighbourhood and closed under non-empty pairwise intersection
  holds every meet. */
  lemma {:induction false} ClosedFamilyHoldsMeet(rel: set<Effect>, family: set<set<string>>, es: set<Entity>)
    requires forall e :: e in Entities(rel) ==> CodesOf(rel, e) in family
    requires ClosedUnderMeet(family)
    requires es <= Entities(rel) && es != {} && Common(rel, es) != {}
    ensures Common(rel, es) in family
    decreases es
  {
    var e :| e in es;
    CommonOfOne(rel, e);
    if es == {e} {
    } else {
      var rest := es - {e};
      assert es == rest + {e};
      CommonOfUnion(rel, rest, {e});
      ClosedFamilyHoldsMeet(rel, family, rest);
      assert Common(rel, rest) in family && CodesOf(rel, e) in family;
    }
  }

  lemma ClosedFamilyHoldsMeets(rel: set<Effect>, family: set<set<string>>)
    requires forall e :: e in Entities(rel) ==> CodesOf(rel, e) in family
    requires ClosedUnderMeet(family)
    ensures Meets(rel) <= family
  {
    forall cs | cs in Meets(rel) ensures cs in family {
      var es :| es <= Entities(rel) && es != {} && Common(rel, es) == cs;
      ClosedFamilyHoldsMeet(rel, family, es);
    }
  }

  /** A meet is closed: it is what the entities having all of it have in common. */
  lemma MeetIsClosed(rel: set<Effect>, cs: set<string>)
    requires cs in Meets(rel)
    ensures Extent(rel, cs) != {} && Common(rel, Extent(rel, cs)) == cs
  {
  }

  /** The maximal rectangles are exactly the pairs (extent of a meet, meet). */
  lemma MaximalIffMeet(rel: set<Effect>, es: set<Entity>, cs: set<string>)
    ensures IsMaximal(rel, es, cs) <==> cs in Meets(rel) && es == Extent(rel, cs)
  {
    if IsMaximal(rel, es, cs) { MaximalIsMeet(rel, es, cs); }
    if cs in Meets(rel) && es == Extent(rel, cs) { MeetIsMaximal(rel, cs); }
  }

  lemma MaximalIsMeet(rel: set<Effect>, es: set<Entity>, cs: set<string>)
    requires IsMaximal(rel, es, cs)
    ensures cs in Meets(rel) && es == Extent(rel, cs)
  {
    forall e | e in es ensures e in Extent(rel, cs) { ExtentMember(rel, cs, e); }
    forall e, c | e in Extent(rel, cs) && c in cs ensures Effect(e, c) in rel { ExtentMember(rel, cs, e); }
    assert IsRectangle(rel, Extent(rel, cs), cs);
    forall c | c in cs ensures c in Common(rel, es) { CommonMember(rel, es, c); }
    forall e, c | e in es && c in Common(rel, es) ensures Effect(e, c) in rel { CommonMember(rel, es, c); }
    assert IsRectangle(rel, es, Common(rel, es));
    assert es <= Entities(rel);
  }

  lemma MeetIsMaximal(rel: set<Effect>, cs: set<string>)
    requires cs in Meets(rel)
    ensures IsMaximal(rel, Extent(rel, cs), cs)
  {
    MeetIsClosed(rel, cs);
    var es := Extent(rel, cs);
    forall e, c | e in es && c in cs ensures Effect(e, c) in rel { ExtentMember(rel, cs, e); }
    forall es', cs' | IsRectangle(rel, es', cs') && es <= es' && cs <= cs' ensures es' == es && cs' == cs {
      forall e | e in es' ensures e in es { ExtentMember(rel, cs, e); }
      forall c | c in cs' ensures c in cs { CommonMember(rel, es, c); }
    }
  }

  /** Every rectangle inside the relation lies inside a maximal one. */
  lemma RectangleInsideMaximal(rel: set<Effect>, es: set<Entity>, cs: set<string>)
    requires IsRectangle(rel, es, cs)
    ensures exists es', cs' :: IsMaximal(rel, es', cs') && es <= es' && cs <= cs'
  {
    var cs' := Common(rel, es);
    forall c | c in cs ensures c in cs' { CommonMember(rel, es, c); }
    forall e | e in es ensures e in Entities(rel) {
      var c :| c in cs;
      CodesOfMember(rel, e, c);
    }
    assert es <= Entities(rel) && cs' in Meets(rel);
    MeetIsMaximal(rel, cs');
    forall e | e in es ensures e in Extent(rel, cs') {
      ExtentMember(rel, cs', e);
      forall c | c in cs' ensures Effect(e, c) in rel { CommonMember(rel, es, c); }
    }
  }

  // The enumeration.

  predicate EntityLess(a: Entity, b: Entity) {
    if a.kind == b.kind then StringLess(a.value, b.value) else StringLess(a.kind, b.kind)
  }

  lemma EntityLessIsStrictTotal()
    ensures StrictTotal(EntityLess)
  {
    StringLessIsStrictTotal();
  }

  /** residualEntitySliceKey's list: types and values alternating. */
  function Flattened(es: seq<Entity>): seq<string> {
    if es == [] then [] else [es[0].kind, es[0].value] + Flattened(es[1..])
  }

  lemma {:induction false} FlattenedInjective(a: seq<Entity>, b: seq<Entity>)
    requires Flattened(a) == Flattened(b)
    ensures a == b
  {
    if a != [] && b != [] {
      var fa, fb := Flattened(a), Flattened(b);
      assert fa[0] == a[0].kind && fa[1] == a[0].value && fb[0] == b[0].kind && fb[1] == b[0].value;
      assert Flattened(a[1..]) == fa[2..] && Flattened(b[1..]) == fb[2..];
      FlattenedInjective(a[1..], b[1..]);
      assert a == [a[0]] + a[1..] && b == [b[0]] + b[1..];
    }
  }

  predicate RectangleLess(a: Rectangle, b: Rectangle) {
    var ka, kb := Key(a.codes), Key(b.codes);
    if ka == kb then StringLess(Key(Flattened(a.entities)), Key(Flattened(b.entities)))
    else StringLess(ka, kb)
  }

  /** Keys are injective, so the sort order leaves no ties between different rectangles. */
  lemma RectangleLessIsStrictTotal()
    ensures StrictTotal(RectangleLess)
  {
    StringLessIsStrictTotal();
    forall a, b ensures RectangleLess(a, b) || a == b || RectangleLess(b, a) {
      if Key(a.codes) == Key(b.codes) && Key(Flattened(a.entities)) == Key(Flattened(b.entities)) {
        KeyInjective(a.codes, b.codes);
        KeyInjective(Flattened(a.entities), Flattened(b.entities));
        FlattenedInjective(a.entities, b.entities);
      }
    }
  }

  method Neighbours(remaining: set<Effect>) returns (neighbours: map<Entity, set<string>>)
    ensures neighbours.Keys == Entities(remaining)
    ensures forall e :: e in neighbours ==> neighbours[e] == CodesOf(remaining, e)
  {
    neighbours := map[];
    var todo := remaining;
    while todo != {}
      invariant todo <= remaining
      invariant neighbours.Keys == Entities(remaining - todo)
      invariant forall e :: e in neighbours ==> neighbours[e] == CodesOf(remaining - todo, e)
      decreases todo
    {
      var x :| x in todo;
      var codes := if x.entity in neighbours then neighbours[x.entity] else {};
      neighbours := neighbours[x.entity := codes + {x.code}];
      GrowRelation(remaining - todo, x);
      todo := todo - {x};
      assert remaining - todo == (remaining - (todo + {x})) + {x};
    }
    assert remaining - todo == remaining;
  }

  lemma GrowRelation(rel: set<Effect>, x: Effect)
    ensures Entities(rel + {x}) == Entities(rel) + {x.entity}
    ensures forall e :: CodesOf(rel + {x}, e) == if e == x.entity then CodesOf(rel, e) + {x.code} else CodesOf(rel, e)
    ensures x.entity !in Entities(rel) ==> CodesOf(rel, x.entity) == {}
  {
  }

  /** What the closure loop keeps: distinct meets, their keys, and, once the cap was hit, a
  meet that did not fit. */
  ghost predicate Family(meets: set<set<string>>, codeSets: seq<set<string>>, seen: set<string>, overflow: bool) {
    && |codeSets| <= MAX_RECTANGLES
    && (forall i, j :: 0 <= i < j < |codeSets| ==> codeSets[i] != codeSets[j])
    && (forall cs :: cs in codeSets ==> cs in meets)
    && seen == (set cs | cs in codeSets :: SetKey(cs))
    && (overflow ==> |codeSets| == MAX_RECTANGLES && exists cs :: cs in meets && cs !in codeSets)
  }

  /** addCodeSet. */
  method AddCodeSet(ghost meets: set<set<string>>, codeSets: seq<set<string>>, seen: set<string>, overflow: bool,
                    codes: set<string>)
    returns (codeSets': seq<set<string>>, seen': set<string>, overflow': bool)
    requires Family(meets, codeSets, seen, overflow) && (codes == {} || codes in meets)
    ensures Family(meets, codeSets', seen', overflow') && codeSets <= codeSets'
    ensures overflow ==> overflow'
    ensures !overflow' ==> codes == {} || codes in codeSets'
  {
    codeSets', seen', overflow' := codeSets, seen, overflow;
    if codes == {} {
      return;
    }
    var sorted := SortedStringSet(codes);
    var key := Key(sorted);
    if key in seen {
      ghost var cs :| cs in codeSets && SetKey(cs) == key;
      SetKeyInjective(cs, codes);
      return;
    }
    assert codes !in codeSets;
    if |codeSets| >= MAX_RECTANGLES {
      overflow' := true;
      return;
    }
    seen' := seen + {key};
    codeSets' := codeSets + [codes];
  }

  lemma {:induction false} DistinctCount<T>(s: seq<T>)
    requires forall i, j :: 0 <= i < j < |s| ==> s[i] != s[j]
    ensures |Elems(s)| == |s|
  {
    if s != [] {
      var front, last := s[..|s| - 1], s[|s| - 1];
      DistinctCount(front);
      assert s == front + [last];
      assert Elems(s) == Elems(front) + {last} && last !in Elems(front);
    }
  }

  ghost predicate PairsDone(codeSets: seq<set<string>>, i: nat, j: nat) {
    forall a, b :: 0 <= b < a < |codeSets| && (a < i || (a == i && b < j)) ==>
      codeSets[a] * codeSets[b] == {} || codeSets[a] * codeSets[b] in codeSets
  }

  ghost predicate ClosedUnderMeet(family: set<set<string>>) {
    forall a, b :: a in family && b in family && a * b != {} ==> a * b in family
  }

  /** The intersection closure of the neighbourhoods, or overflow. */
  method Closure(ghost meets: set<set<string>>, neighbours: map<Entity, set<string>>, entities: seq<Entity>)
    returns (codeSets: seq<set<string>>, overflow: bool)
    requires neighbours.Keys == Elems(entities) && neighbours.Values <= meets && {} !in meets
    requires ClosedUnderMeet(meets)
    ensures overflow ==> |meets| > MAX_RECTANGLES
    ensures !overflow ==> && |codeSets| <= MAX_RECTANGLES
                          && neighbours.Values <= Elems(codeSets) <= meets
                          && ClosedUnderMeet(Elems(codeSets))
  {
    var seen: set<string>;
    codeSets, seen, overflow := Seed(meets, neighbours, entities);
    ghost var seeds, seedOverflow := codeSets, overflow;
    var i := 0;
    while i < |codeSets|
      invariant 0 <= i <= |codeSets| && Family(meets, codeSets, seen, overflow) && seeds <= codeSets
      invariant overflow ==> i <= 1
      invariant seedOverflow ==> overflow
      invariant !overflow ==> PairsDone(codeSets, i, 0)
      decreases MAX_RECTANGLES - i
    {
      for j := 0 to i
        invariant i < |codeSets| && Family(meets, codeSets, seen, overflow) && seeds <= codeSets
        invariant overflow ==> j == 0
        invariant seedOverflow ==> overflow
        invariant !overflow ==> PairsDone(codeSets, i, j)
      {
        ghost var before := codeSets;
        codeSets, seen, overflow := AddCodeSet(meets, codeSets, seen, overflow, codeSets[i] * codeSets[j]);
        if overflow {
          OverflowCount(meets, codeSets, seen);
          return;
        }
        PairDone(before, codeSets, i, j);
      }
      i := i + 1;
    }
    PairsClose(codeSets);
    assert Elems(seeds) <= Elems(codeSets);
  }

  method Seed(ghost meets: set<set<string>>, neighbours: map<Entity, set<string>>, entities: seq<Entity>)
    returns (codeSets: seq<set<string>>, seen: set<string>, overflow: bool)
    requires neighbours.Keys == Elems(entities) && neighbours.Values <= meets && {} !in meets
    ensures Family(meets, codeSets, seen, overflow)
    ensures !overflow ==> neighbours.Values <= Elems(codeSets)
  {
    codeSets, seen, overflow := [], {}, false;
    for k := 0 to |entities|
      invariant Family(meets, codeSets, seen, overflow)
      invariant !overflow ==>
        forall m :: 0 <= m < k ==> entities[m] in neighbours && neighbours[entities[m]] in codeSets
    {
      assert entities[k] in Elems(entities);
      codeSets, seen, overflow := AddCodeSet(meets, codeSets, seen, overflow, neighbours[entities[k]]);
    }
    forall v | !overflow && v in neighbours.Values ensures v in codeSets {
      var e :| e in neighbours && neighbours[e] == v;
      assert e in Elems(entities);
    }
  }

  lemma PairDone(before: seq<set<string>>, after: seq<set<string>>, i: nat, j: nat)
    requires j < i < |before| && before <= after && PairsDone(before, i, j)
    requires before[i] * before[j] == {} || before[i] * before[j] in after
    ensures PairsDone(after, i, j + 1)
  {
  }

  lemma PairsClose(codeSets: seq<set<string>>)
    requires PairsDone(codeSets, |codeSets|, 0)
    ensures ClosedUnderMeet(Elems(codeSets))
  {
    forall a, b | a in Elems(codeSets) && b in Elems(codeSets) && a * b != {} ensures a * b in Elems(codeSets) {
      var i :| 0 <= i < |codeSets| && codeSets[i] == a;
      var j :| 0 <= j < |codeSets| && codeSets[j] == b;
      if i == j { assert a * b == a; }
      if i < j {
        assert codeSets[j] * codeSets[i] == {} || codeSets[j] * codeSets[i] in codeSets;
        assert a * b == codeSets[j] * codeSets[i];
      }
    }
  }

  lemma OverflowCount(meets: set<set<string>>, codeSets: seq<set<string>>, seen: set<string>)
    requires Family(meets, codeSets, seen, true)
    ensures |meets| > MAX_RECTANGLES
  {
    DistinctCount(codeSets);
    var extra :| extra in meets && extra !in codeSets;
    SubsetSize(Elems(codeSets) + {extra}, meets);
  }

  lemma NeighboursAreMeets(rel: set<Effect>, neighbours: map<Entity, set<string>>)
    requires IsNeighbourMap(rel, neighbours)
    ensures neighbours.Values <= Meets(rel) && {} !in Meets(rel) && ClosedUnderMeet(Meets(rel))
  {
    forall v | v in neighbours.Values ensures v in Meets(rel) {
      var e :| e in neighbours && neighbours[e] == v;
      NeighbourhoodIsMeet(rel, e);
    }
    forall a, b | a in Meets(rel) && b in Meets(rel) && a * b != {} ensures a * b in Meets(rel) {
      MeetsAreClosed(rel, a, b);
    }
  }

  lemma ClosureIsMeets(rel: set<Effect>, neighbours: map<Entity, set<string>>, codeSets: seq<set<string>>)
    requires IsNeighbourMap(rel, neighbours)
    requires |codeSets| <= MAX_RECTANGLES && ClosedUnderMeet(Elems(codeSets))
    requires neighbours.Values <= Elems(codeSets) <= Meets(rel)
    ensures Elems(codeSets) == Meets(rel) && |Meets(rel)| <= MAX_RECTANGLES
  {
    forall e | e in Entities(rel) ensures CodesOf(rel, e) in Elems(codeSets) {
      assert neighbours[e] in neighbours.Values;
    }
    ClosedFamilyHoldsMeets(rel, Elems(codeSets));
    ElemsCount(codeSets);
  }

  lemma {:induction false} ElemsCount<T>(s: seq<T>)
    ensures |Elems(s)| <= |s|
  {
    if s != [] {
      ElemsCount(s[..|s| - 1]);
      assert s == s[..|s| - 1] + [s[|s| - 1]];
      assert Elems(s) == Elems(s[..|s| - 1]) + {s[|s| - 1]};
    }
  }

  /** The rectangle of a meet, both sides listed in sorted order. */
  ghost function RectangleOf(rel: set<Effect>, cs: set<string>): Rectangle {
    EntityLessIsStrictTotal();
    StringLessIsStrictTotal();
    Rectangle(SortedOf(EntityLess, Extent(rel, cs)), SortedOf(StringLess, cs))
  }

  lemma {:induction false} FilterSorted<T(!new)>(lt: (T, T) -> bool, p: T -> bool, s: seq<T>)
    requires StrictlySorted(lt, s)
    ensures StrictlySorted(lt, Filter(p, s))
  {
    if s != [] {
      var front, last := s[..|s| - 1], s[|s| - 1];
      FilterSorted(lt, p, front);
      forall x | x in Filter(p, front) ensures lt(x, last) {
        FilterMember(p, front, x);
        var i :| 0 <= i < |front| && front[i] == x;
        assert lt(s[i], s[|s| - 1]);
      }
    }
  }

  ghost predicate IsNeighbourMap(rel: set<Effect>, neighbours: map<Entity, set<string>>) {
    && neighbours.Keys == Entities(rel)
    && forall e :: e in neighbours ==> neighbours[e] == CodesOf(rel, e)
  }

  method ConceptEntities(ghost rel: set<Effect>, neighbours: map<Entity, set<string>>, entities: seq<Entity>,
                         codes: set<string>)
    returns (extent: seq<Entity>)
    requires IsNeighbourMap(rel, neighbours)
    requires Elems(entities) == Entities(rel) && StrictlySorted(EntityLess, entities)
    ensures StrictlySorted(EntityLess, extent) && Elems(extent) == Extent(rel, codes)
  {
    extent := [];
    ghost var hasAll := (e: Entity) => codes <= CodesOf(rel, e);
    for k := 0 to |entities|
      invariant extent == Filter(hasAll, entities[..k])
    {
      assert entities[k] in Elems(entities);
      if codes <= neighbours[entities[k]] {
        extent := extent + [entities[k]];
      }
      assert entities[..k + 1][..k] == entities[..k];
    }
    assert entities[..|entities|] == entities;
    FilterSorted(EntityLess, hasAll, entities);
    forall e ensures e in Elems(extent) <==> e in Extent(rel, codes) { FilterMember(hasAll, entities, e); }
  }

  method ClosedCodes(ghost rel: set<Effect>, neighbours: map<Entity, set<string>>, extent: seq<Entity>)
    returns (closed: set<string>)
    requires IsNeighbourMap(rel, neighbours)
    requires extent != [] && Elems(extent) <= Entities(rel)
    ensures closed == Common(rel, Elems(extent))
  {
    assert forall k :: 0 <= k < |extent| ==> extent[k] in Elems(extent);
    closed := neighbours[extent[0]];
    CommonOfOne(rel, extent[0]);
    assert Elems(extent[..1]) == {extent[0]};
    for k := 1 to |extent|
      invariant closed == Common(rel, Elems(extent[..k]))
    {
      assert Elems(extent[..k + 1]) == Elems(extent[..k]) + {extent[k]};
      assert extent[..k][0] in Elems(extent[..k]);
      CommonOfOne(rel, extent[k]);
      CommonOfUnion(rel, Elems(extent[..k]), {extent[k]});
      closed := closed * neighbours[extent[k]];
    }
    assert extent[..|extent|] == extent;
  }

  method Concept(ghost rel: set<Effect>, neighbours: map<Entity, set<string>>, entities: seq<Entity>,
                 codes: set<string>)
    returns (concept: Rectangle)
    requires IsNeighbourMap(rel, neighbours)
    requires Elems(entities) == Entities(rel) && StrictlySorted(EntityLess, entities)
    requires codes in Meets(rel)
    ensures concept == RectangleOf(rel, codes)
  {
    var extent := ConceptEntities(rel, neighbours, entities, codes);
    MeetIsClosed(rel, codes);
    var closed := ClosedCodes(rel, neighbours, extent);
    EntityLessIsStrictTotal();
    StringLessIsStrictTotal();
    var sorted := SortedStringSet(closed);
    SortedIsUnique(EntityLess, extent, SortedOf(EntityLess, Extent(rel, codes)));
    SortedIsUnique(StringLess, sorted, SortedOf(StringLess, codes));
    concept := Rectangle(extent, sorted);
  }

  ghost function MaximalRectangles(rel: set<Effect>): set<Rectangle> {
    set cs | cs in Meets(rel) :: RectangleOf(rel, cs)
  }

  /** maximalResidualRectangles: overflow exactly when the relation has more than 256
  distinct non-empty intersections of entity neighbourhoods; otherwise the sorted list of
  all maximal rectangles, each once. */
  method MaximalResidualRectangles(remaining: set<Effect>) returns (rectangles: seq<Rectangle>, overflow: bool)
    ensures overflow <==> |Meets(remaining)| > 256
    ensures !overflow ==> StrictlySorted(RectangleLess, rectangles)
                          && Elems(rectangles) == MaximalRectangles(remaining)
    ensures overflow ==> rectangles == []
  {
    var neighbours := Neighbours(remaining);
    EntityLessIsStrictTotal();
    var entities := SortSet(EntityLess, neighbours.Keys);
    var codeSets;
    NeighboursAreMeets(remaining, neighbours);
    codeSets, overflow := Closure(Meets(remaining), neighbours, entities);
    if overflow {
      return [], true;
    }
    ClosureIsMeets(remaining, neighbours, codeSets);
    var concepts: map<string, Rectangle> := map[];
    for k := 0 to |codeSets|
      invariant concepts.Values == set cs | cs in codeSets[..k] :: RectangleOf(remaining, cs)
      invariant forall key :: key in concepts ==>
        exists cs :: cs in codeSets[..k] && key == SetKey(cs) && concepts[key] == RectangleOf(remaining, cs)
    {
      assert codeSets[k] in Elems(codeSets);
      var concept := Concept(remaining, neighbours, entities, codeSets[k]);
      var key := Key(concept.codes);
      PutConcept(remaining, codeSets, k, concepts, key, concept);
      concepts := concepts[key := concept];
    }
    assert codeSets[..|codeSets|] == codeSets;
    RectangleLessIsStrictTotal();
    rectangles := SortSet(RectangleLess, concepts.Values);
  }

  /** Distinct code sets have distinct keys, so no concept displaces another. */
  lemma PutConcept(rel: set<Effect>, codeSets: seq<set<string>>, k: nat, concepts: map<string, Rectangle>,
                   key: string, concept: Rectangle)
    requires k < |codeSets| && concept == RectangleOf(rel, codeSets[k]) && key == Key(concept.codes)
    requires concepts.Values == set cs | cs in codeSets[..k] :: RectangleOf(rel, cs)
    requires forall q :: q in concepts ==>
      exists cs :: cs in codeSets[..k] && q == SetKey(cs) && concepts[q] == RectangleOf(rel, cs)
    ensures var after := concepts[key := concept];
      && after.Values == (set cs | cs in codeSets[..k + 1] :: RectangleOf(rel, cs))
      && forall q :: q in after ==>
        exists cs :: cs in codeSets[..k + 1] && q == SetKey(cs) && after[q] == RectangleOf(rel, cs)
  {
    var after := concepts[key := concept];
    assert codeSets[..k + 1] == codeSets[..k] + [codeSets[k]];
    assert key == SetKey(codeSets[k]);
    assert key in concepts ==> concepts[key] == concept by {
      if key in concepts {
        var cs :| cs in codeSets[..k] && key == SetKey(cs) && concepts[key] == RectangleOf(rel, cs);
        SetKeyInjective(cs, codeSets[k]);
      }
    }
    forall v | v in concepts.Values ensures v in after.Values {
      var q :| q in concepts && concepts[q] == v;
      assert q in after && after[q] == v;
    }
    assert key in after && after[key] == concept;
    forall q | q in after
      ensures exists cs :: cs in codeSets[..k + 1] && q == SetKey(cs) && after[q] == RectangleOf(rel, cs)
    {
      if q == key {
        assert codeSets[k] in codeSets[..k + 1];
      } else {
        var cs :| cs in codeSets[..k] && q == SetKey(cs) && concepts[q] == RectangleOf(rel, cs);
        assert cs in codeSets[..k + 1];
      }
    }
  }

  /** The enumerated set is the set of maximal rectangles, no two with the same codes. */
  lemma MaximalRectanglesCorrect(rel: set<Effect>, r: Rectangle)
    ensures r in MaximalRectangles(rel)
       <==> && IsMaximal(rel, Elems(r.entities), Elems(r.codes))
            && StrictlySorted(EntityLess, r.entities) && StrictlySorted(StringLess, r.codes)
  {
    var es, cs := Elems(r.entities), Elems(r.codes);
    EntityLessIsStrictTotal();
    StringLessIsStrictTotal();
    MaximalIffMeet(rel, es, cs);
    if IsMaximal(rel, es, cs) && StrictlySorted(EntityLess, r.entities) && StrictlySorted(StringLess, r.codes) {
      SortedIsUnique(EntityLess, r.entities, SortedOf(EntityLess, es));
      SortedIsUnique(StringLess, r.codes, SortedOf(StringLess, cs));
      assert r == RectangleOf(rel, cs);
    }
  }

  /** The list is a function of the relation alone, whatever order the maps were ranged in. */
  lemma RectangleListIsUnique(rel: set<Effect>, a: seq<Rectangle>, b: seq<Rectangle>)
    requires StrictlySorted(RectangleLess, a) && Elems(a) == MaximalRectangles(rel)
    requires StrictlySorted(RectangleLess, b) && Elems(b) == MaximalRectangles(rel)
    ensures a == b
    ensures forall i, j :: 0 <= i < j < |a| ==> a[i] != a[j]
  {
    RectangleLessIsStrictTotal();
    SortedIsUnique(RectangleLess, a, b);
    SortedHasNoDuplicates(RectangleLess, a);
  }
}
