/** The object monitor's cache, shared by all enabled policies: which fields it keeps of each kind,
which kinds lookups are served from, and what that does to each policy's expressions. */
module PolicyCache {
  import opened Options
  import opened Orders
  import opened Cel
  import opened FieldTree
  import opened FieldPaths
  import opened LookupUses
  import opened PruneSoundness
  import opened LookupTargets
  import opened LookupServing

  const RESOURCE := "resource"
  const LOOKUP := "lookup"

  /** An expression that does not compile is None; so is an absent node association. */
  datatype Policy = Policy(enabled: bool, gvk: Gvk, condition: Option<Expr>, association: Option<Option<Expr>>)

  /** One expression of an enabled policy that watches gvk. */
  datatype Reading = Reading(gvk: Gvk, compiled: Option<Expr>)

  function PolicyReadings(p: Policy): seq<Reading> {
    if !p.enabled then []
    else [Reading(p.gvk, p.condition)]
         + if p.association.None? then [] else [Reading(p.gvk, p.association.value)]
  }

  function AllReadings(ps: seq<Policy>): seq<Reading> {
    if ps == [] then [] else AllReadings(ps[..|ps| - 1]) + PolicyReadings(ps[|ps| - 1])
  }

  /** gvkFieldPaths. */
  datatype Fields = Fields(watched: bool, watchPaths: seq<seq<string>>, wholeWatch: bool,
                           lookedUp: bool, lookupPaths: seq<seq<string>>, wholeLookup: bool)

  const NO_FIELDS: Fields := Fields(false, [], false, false, [], false)

  function FieldsAt(d: map<Gvk, Fields>, g: Gvk): Fields {
    if g in d then d[g] else NO_FIELDS
  }

  // What is to be derived, without order: a summary per kind that readings contribute to.

  datatype Summary = Summary(watched: bool, watchPaths: set<seq<string>>, wholeWatch: bool,
                             lookedUp: bool, lookupPaths: set<seq<string>>, wholeLookup: bool)

  const NOTHING: Summary := Summary(false, {}, false, false, {}, false)

  function Join(a: Summary, b: Summary): Summary {
    Summary(a.watched || b.watched, a.watchPaths + b.watchPaths, a.wholeWatch || b.wholeWatch,
            a.lookedUp || b.lookedUp, a.lookupPaths + b.lookupPaths, a.wholeLookup || b.wholeLookup)
  }

  function Summarized(f: Fields): Summary {
    Summary(f.watched, Elems(f.watchPaths), f.wholeWatch, f.lookedUp, Elems(f.lookupPaths), f.wholeLookup)
  }

  function Walked(e: Expr): Reads {
    ReadsOf(Config(RESOURCE, LOOKUP), false, e)
  }

  /** What the walk of a reading says about kind g as the watched one. */
  function WatchShare(r: Reading, g: Gvk): Summary {
    if r.gvk != g then NOTHING
    else if r.compiled.Some? && Walked(r.compiled.value).complete
    then NOTHING.(watched := true, watchPaths := Elems(Walked(r.compiled.value).paths))
    else NOTHING.(watched := true, wholeWatch := true)
  }

  /** What it says about g as a looked-up one: its paths, or that it is needed whole. */
  function LookupShare(r: Reading, g: Gvk): Summary {
    if r.compiled.None? || g !in ReadKinds(Walked(r.compiled.value).lookups) then NOTHING
    else
      var walked := Walked(r.compiled.value);
      if walked.complete && [] !in PathsOff(walked.lookups, g)
      then NOTHING.(lookedUp := true, lookupPaths := PathsOff(walked.lookups, g))
      else NOTHING.(lookedUp := true, wholeLookup := true)
  }

  function Share(r: Reading, g: Gvk): Summary {
    Join(WatchShare(r, g), LookupShare(r, g))
  }

  function Total(rs: seq<Reading>, g: Gvk): Summary {
    if rs == [] then NOTHING else Join(Total(rs[..|rs| - 1], g), Share(rs[|rs| - 1], g))
  }

  lemma JoinAssociative(a: Summary, b: Summary, c: Summary)
    ensures Join(Join(a, b), c) == Join(a, Join(b, c))
  {
  }

  lemma JoinTwice(a: Summary, b: Summary)
    ensures Join(Join(a, b), b) == Join(a, b)
  {
  }

  lemma JoinSwap(a: Summary, b: Summary, c: Summary)
    ensures Join(Join(a, b), c) == Join(Join(a, c), b)
  {
  }

  /** Every reading is accounted for in the total. */
  lemma {:induction false} TotalHoldsShare(rs: seq<Reading>, r: Reading, g: Gvk)
    requires r in rs
    ensures Join(Total(rs, g), Share(r, g)) == Total(rs, g)
  {
    var front, last := rs[..|rs| - 1], rs[|rs| - 1];
    assert rs == front + [last];
    if r == last {
      JoinTwice(Total(front, g), Share(last, g));
    } else {
      TotalHoldsShare(front, r, g);
      JoinSwap(Total(front, g), Share(last, g), Share(r, g));
    }
  }

  /** The derived map holds exactly the kinds that are watched or looked up, each with its total. */
  ghost predicate IsDerivation(rs: seq<Reading>, d: map<Gvk, Fields>) {
    forall g :: Summarized(FieldsAt(d, g)) == Total(rs, g)
                && (g in d <==> Total(rs, g).watched || Total(rs, g).lookedUp)
  }

  // recordLookupPaths.

  function TargetShare(t: LookupTarget, g: Gvk): Summary {
    if TargetGvk(t) != g then NOTHING
    else if t.derivable then NOTHING.(lookedUp := true, lookupPaths := Elems(t.paths))
    else NOTHING.(lookedUp := true, wholeLookup := true)
  }

  function TargetTotal(ts: seq<LookupTarget>, g: Gvk): Summary {
    if ts == [] then NOTHING else Join(TargetTotal(ts[..|ts| - 1], g), TargetShare(ts[|ts| - 1], g))
  }

  function RecordTarget(d: map<Gvk, Fields>, t: LookupTarget): map<Gvk, Fields> {
    var f := FieldsAt(d, TargetGvk(t)).(lookedUp := true);
    d[TargetGvk(t) := if t.derivable then f.(lookupPaths := f.lookupPaths + t.paths) else f.(wholeLookup := true)]
  }

  lemma RecordTargetAdds(d: map<Gvk, Fields>, t: LookupTarget, g: Gvk)
    ensures Summarized(FieldsAt(RecordTarget(d, t), g)) == Join(Summarized(FieldsAt(d, g)), TargetShare(t, g))
    ensures g in RecordTarget(d, t) <==> g in d || TargetShare(t, g).lookedUp
  {
    var f := FieldsAt(d, g);
    assert Elems(f.lookupPaths + t.paths) == Elems(f.lookupPaths) + Elems(t.paths);
  }

  /** d' is d with the shares of the targets added. */
  ghost predicate AddsTargets(d: map<Gvk, Fields>, ts: seq<LookupTarget>, d': map<Gvk, Fields>) {
    forall g :: Summarized(FieldsAt(d', g)) == Join(Summarized(FieldsAt(d, g)), TargetTotal(ts, g))
                && (g in d' <==> g in d || TargetTotal(ts, g).lookedUp)
  }

  lemma AddsOneMore(d: map<Gvk, Fields>, ts: seq<LookupTarget>, i: nat, d': map<Gvk, Fields>)
    requires i < |ts| && AddsTargets(d, ts[..i], d')
    ensures AddsTargets(d, ts[..i + 1], RecordTarget(d', ts[i]))
  {
    assert ts[..i + 1][..i] == ts[..i];
    forall g ensures
        && Summarized(FieldsAt(RecordTarget(d', ts[i]), g))
           == Join(Summarized(FieldsAt(d, g)), TargetTotal(ts[..i + 1], g))
        && (g in RecordTarget(d', ts[i]) <==> g in d || TargetTotal(ts[..i + 1], g).lookedUp)
    {
      RecordTargetAdds(d', ts[i], g);
      assert TargetTotal(ts[..i + 1], g) == Join(TargetTotal(ts[..i], g), TargetShare(ts[i], g));
      JoinAssociative(Summarized(FieldsAt(d, g)), TargetTotal(ts[..i], g), TargetShare(ts[i], g));
    }
  }

  method RecordLookupPaths(d: map<Gvk, Fields>, targets: seq<LookupTarget>) returns (d': map<Gvk, Fields>)
    ensures AddsTargets(d, targets, d')
  {
    d' := d;
    for i := 0 to |targets|
      invariant AddsTargets(d, targets[..i], d')
    {
      AddsOneMore(d, targets, i, d');
      d' := RecordTarget(d', targets[i]);
    }
    assert targets[..|targets|] == targets;
  }

  /** What LookupTargets returns for a compiled expression. */
  ghost predicate AreTargets(walked: Reads, targets: seq<LookupTarget>) {
    && (walked.complete ==> IsMerge(walked.lookups, targets))
    && (!walked.complete ==> forall t :: t in targets ==> !t.derivable && t.paths == [])
    && TargetKinds(targets) == ReadKinds(walked.lookups)
  }

  lemma {:induction false} TargetTotalMeans(ts: seq<LookupTarget>, g: Gvk)
    ensures var total := TargetTotal(ts, g);
      && !total.watched && !total.wholeWatch && total.watchPaths == {}
      && (total.lookedUp <==> exists t :: t in ts && TargetGvk(t) == g)
      && (total.wholeLookup <==> exists t :: t in ts && TargetGvk(t) == g && !t.derivable)
      && (forall p :: p in total.lookupPaths <==>
            exists t :: t in ts && TargetGvk(t) == g && t.derivable && p in t.paths)
  {
    if ts != [] {
      var front, last := ts[..|ts| - 1], ts[|ts| - 1];
      assert ts == front + [last];
      TargetTotalMeans(front, g);
    }
  }

  /** The targets of a reading contribute its lookup share. */
  lemma TargetsAreShare(r: Reading, targets: seq<LookupTarget>, g: Gvk)
    requires r.compiled.Some? && AreTargets(Walked(r.compiled.value), targets)
    ensures TargetTotal(targets, g) == LookupShare(r, g)
  {
    var walked := Walked(r.compiled.value);
    TargetTotalMeans(targets, g);
    assert (exists t :: t in targets && TargetGvk(t) == g) <==> g in TargetKinds(targets);
    if walked.complete && g in TargetKinds(targets) {
      var t :| t in targets && TargetGvk(t) == g;
      forall t' | t' in targets && TargetGvk(t') == g ensures t' == t { SameTarget(walked.lookups, targets, t, t'); }
      assert IsFinished(walked.lookups, t);
      assert forall p :: p in t.paths <==> p in Elems(t.paths);
    }
  }

  lemma SameTarget(ls: seq<LookupPath>, targets: seq<LookupTarget>, t: LookupTarget, t': LookupTarget)
    requires IsMerge(ls, targets) && t in targets && t' in targets && TargetGvk(t) == TargetGvk(t')
    ensures t == t'
  {
    var i :| 0 <= i < |targets| && targets[i] == t;
    var j :| 0 <= j < |targets| && targets[j] == t';
    assert i == j;
  }

  // derivePolicyFieldPaths.

  function RecordWatch(d: map<Gvk, Fields>, g: Gvk, paths: Option<seq<seq<string>>>): map<Gvk, Fields> {
    var f := FieldsAt(d, g).(watched := true);
    d[g := if paths.Some? then f.(watchPaths := f.watchPaths + paths.value) else f.(wholeWatch := true)]
  }

  lemma RecordWatchAdds(d: map<Gvk, Fields>, r: Reading, paths: Option<seq<seq<string>>>, g: Gvk)
    requires paths.Some? <==> r.compiled.Some? && Walked(r.compiled.value).complete
    requires paths.Some? ==> Elems(paths.value) == Elems(Walked(r.compiled.value).paths)
    ensures var d' := RecordWatch(d, r.gvk, paths);
      && Summarized(FieldsAt(d', g)) == Join(Summarized(FieldsAt(d, g)), WatchShare(r, g))
      && (g in d' <==> g in d || WatchShare(r, g).watched)
  {
    var f := FieldsAt(d, g);
    if paths.Some? { assert Elems(f.watchPaths + paths.value) == Elems(f.watchPaths) + Elems(paths.value); }
  }

  /** d' is d with the share of the reading added. */
  ghost predicate AddsReading(d: map<Gvk, Fields>, r: Reading, d': map<Gvk, Fields>) {
    forall g :: Summarized(FieldsAt(d', g)) == Join(Summarized(FieldsAt(d, g)), Share(r, g))
                && (g in d' <==> g in d || Share(r, g).watched || Share(r, g).lookedUp)
  }

  lemma WatchThenLookups(d: map<Gvk, Fields>, r: Reading, paths: Option<seq<seq<string>>>,
                         targets: seq<LookupTarget>, d': map<Gvk, Fields>)
    requires paths.Some? <==> r.compiled.Some? && Walked(r.compiled.value).complete
    requires paths.Some? ==> Elems(paths.value) == Elems(Walked(r.compiled.value).paths)
    requires if r.compiled.Some? then AreTargets(Walked(r.compiled.value), targets) else targets == []
    requires AddsTargets(RecordWatch(d, r.gvk, paths), targets, d')
    ensures AddsReading(d, r, d')
  {
    forall g ensures
        && Summarized(FieldsAt(d', g)) == Join(Summarized(FieldsAt(d, g)), Share(r, g))
        && (g in d' <==> g in d || Share(r, g).watched || Share(r, g).lookedUp)
    {
      RecordWatchAdds(d, r, paths, g);
      if r.compiled.Some? { TargetsAreShare(r, targets, g); }
      assert TargetTotal(targets, g) == LookupShare(r, g);
      JoinAssociative(Summarized(FieldsAt(d, g)), WatchShare(r, g), LookupShare(r, g));
    }
  }

  method RecordReading(d: map<Gvk, Fields>, r: Reading) returns (d': map<Gvk, Fields>)
    ensures AddsReading(d, r, d')
  {
    if r.compiled.None? {
      d' := RecordWatch(d, r.gvk, None);
      WatchThenLookups(d, r, None, [], d');
      return;
    }
    var paths, isComplete := DeriveFieldPaths(r.compiled, RESOURCE);
    SameReads(RESOURCE, LOOKUP, false, r.compiled.value);
    var watchPaths := if isComplete then Some(paths) else None;
    var targets := DeriveLookupTargets(r.compiled, RESOURCE, LOOKUP);
    d' := RecordLookupPaths(RecordWatch(d, r.gvk, watchPaths), targets);
    WatchThenLookups(d, r, watchPaths, targets, d');
  }

  lemma DerivationGrows(rs: seq<Reading>, d: map<Gvk, Fields>, r: Reading, d': map<Gvk, Fields>)
    requires IsDerivation(rs, d) && AddsReading(d, r, d')
    ensures IsDerivation(rs + [r], d')
  {
    assert (rs + [r])[..|rs|] == rs;
    assert forall g :: Total(rs + [r], g) == Join(Total(rs, g), Share(r, g));
  }

  method DerivePolicyFieldPaths(policies: seq<Policy>) returns (derived: map<Gvk, Fields>)
    ensures IsDerivation(AllReadings(policies), derived)
  {
    derived := map[];
    for i := 0 to |policies|
      invariant IsDerivation(AllReadings(policies[..i]), derived)
    {
      derived := RecordPolicy(AllReadings(policies[..i]), derived, policies[i]);
      assert policies[..i + 1][..i] == policies[..i];
    }
    assert policies[..|policies|] == policies;
  }

  method RecordPolicy(ghost before: seq<Reading>, derived: map<Gvk, Fields>, p: Policy)
    returns (derived': map<Gvk, Fields>)
    requires IsDerivation(before, derived)
    ensures IsDerivation(before + PolicyReadings(p), derived')
  {
    derived' := derived;
    var readings := PolicyReadings(p);
    assert before + readings[..0] == before;
    for j := 0 to |readings|
      invariant IsDerivation(before + readings[..j], derived')
    {
      ghost var d := derived';
      derived' := RecordReading(derived', readings[j]);
      DerivationGrows(before + readings[..j], d, readings[j], derived');
      assert before + readings[..j + 1] == before + readings[..j] + [readings[j]];
    }
    assert readings[..|readings|] == readings;
  }

  // buildCacheEntries.

  const ALWAYS_RETAINED: seq<seq<string>> :=
    [["apiVersion"], ["kind"], ["metadata", "name"], ["metadata", "namespace"], ["metadata", "uid"],
     ["metadata", "resourceVersion"], ["metadata", "deletionTimestamp"]]

  /** The tree is WHOLE for objects cached in full. */
  datatype Entry = Entry(tree: Tree, servesLookups: bool)

  function CacheEntryFor(f: Fields): Entry {
    if f.wholeWatch then Entry(WHOLE, f.lookedUp)
    else
      var serves := f.lookedUp && !f.wholeLookup;
      var tree := InsertAll(InsertAll(EMPTY, ALWAYS_RETAINED), f.watchPaths);
      Entry(if serves then InsertAll(tree, f.lookupPaths) else tree, serves)
  }

  function BuildCacheEntries(derived: map<Gvk, Fields>): map<Gvk, Entry> {
    map g | g in derived && (derived[g].watched || !derived[g].wholeLookup) :: CacheEntryFor(derived[g])
  }

  /** The kinds lookups are served from, and how they are pruned: not those cached for named
  namespaces only. */
  function LookupTrees(entries: map<Gvk, Entry>, namespaced: set<Gvk>): map<Gvk, Tree> {
    map g | g in entries && entries[g].servesLookups && g !in namespaced :: entries[g].tree
  }

  /** What a kind's tree covers. */
  lemma EntryCovers(f: Fields, p: seq<string>)
    ensures Covers(CacheEntryFor(f).tree, p)
       <==> || f.wholeWatch
            || (exists q :: (q in ALWAYS_RETAINED || q in f.watchPaths) && q <= p)
            || (CacheEntryFor(f).servesLookups && exists q :: q in f.lookupPaths && q <= p)
  {
    if !f.wholeWatch {
      var always := InsertAll(EMPTY, ALWAYS_RETAINED);
      InsertAllCovers(EMPTY, ALWAYS_RETAINED, p);
      InsertAllCovers(always, f.watchPaths, p);
      InsertAllCovers(InsertAll(always, f.watchPaths), f.lookupPaths, p);
    }
  }

  /** An expression looks kind g up by literals; one uses such an object whole, or does not get to say. */
  ghost predicate LooksUp(r: Reading, g: Gvk) {
    r.compiled.Some? && g in ReadKinds(Walked(r.compiled.value).lookups)
  }

  ghost predicate NeedsWhole(r: Reading, g: Gvk) {
    LooksUp(r, g) && (!Walked(r.compiled.value).complete || [] in PathsOff(Walked(r.compiled.value).lookups, g))
  }

  ghost predicate WatchesWhole(r: Reading, g: Gvk) {
    r.gvk == g && (r.compiled.None? || !Walked(r.compiled.value).complete)
  }

  lemma {:induction false} TotalFlags(rs: seq<Reading>, g: Gvk)
    ensures Total(rs, g).lookedUp <==> exists r :: r in rs && LooksUp(r, g)
    ensures Total(rs, g).wholeLookup <==> exists r :: r in rs && NeedsWhole(r, g)
    ensures Total(rs, g).wholeWatch <==> exists r :: r in rs && WatchesWhole(r, g)
    ensures Total(rs, g).watched <==> exists r :: r in rs && r.gvk == g
  {
    if rs != [] {
      var front, last := rs[..|rs| - 1], rs[|rs| - 1];
      assert rs == front + [last];
      TotalFlags(front, g);
      ShareFlags(last, g);
      assert last in rs && forall r :: r in rs <==> r in front || r == last;
    }
  }

  lemma ShareFlags(r: Reading, g: Gvk)
    ensures Share(r, g).lookedUp <==> LooksUp(r, g)
    ensures Share(r, g).wholeLookup <==> NeedsWhole(r, g)
    ensures Share(r, g).wholeWatch <==> WatchesWhole(r, g)
    ensures Share(r, g).watched <==> r.gvk == g
  {
  }

  /** Exactly which kinds lookups are served from: those some expression looks up, unless one needs the
  object whole and it is not cached whole anyway, or the kind is cached for named namespaces only. */
  lemma ServedKinds(rs: seq<Reading>, d: map<Gvk, Fields>, namespaced: set<Gvk>, g: Gvk)
    requires IsDerivation(rs, d)
    ensures g in LookupTrees(BuildCacheEntries(d), namespaced) <==>
      && g !in namespaced
      && (exists r :: r in rs && LooksUp(r, g))
      && ((exists r :: r in rs && WatchesWhole(r, g)) || !(exists r :: r in rs && NeedsWhole(r, g)))
    ensures g in BuildCacheEntries(d) <==>
      || (exists r :: r in rs && r.gvk == g)
      || ((exists r :: r in rs && LooksUp(r, g)) && !(exists r :: r in rs && NeedsWhole(r, g)))
  {
    TotalFlags(rs, g);
    assert Summarized(FieldsAt(d, g)) == Total(rs, g);
    assert (exists r :: r in rs && WatchesWhole(r, g)) ==> exists r :: r in rs && r.gvk == g;
  }

  /** Every entry keeps what identifies an object and its version. */
  lemma IdentityRetained(f: Fields)
    ensures var t := CacheEntryFor(f).tree;
      && Covers(t, ["apiVersion"]) && Covers(t, ["kind"]) && Covers(t, ["metadata", "name"])
      && Covers(t, ["metadata", "namespace"]) && Covers(t, ["metadata", "uid"])
      && Covers(t, ["metadata", "resourceVersion"]) && Covers(t, ["metadata", "deletionTimestamp"])
  {
    forall p | p in ALWAYS_RETAINED ensures Covers(CacheEntryFor(f).tree, p) { EntryCovers(f, p); }
    assert ALWAYS_RETAINED[0] in ALWAYS_RETAINED && ALWAYS_RETAINED[1] in ALWAYS_RETAINED;
    assert ALWAYS_RETAINED[2] in ALWAYS_RETAINED && ALWAYS_RETAINED[3] in ALWAYS_RETAINED;
    assert ALWAYS_RETAINED[4] in ALWAYS_RETAINED && ALWAYS_RETAINED[5] in ALWAYS_RETAINED;
    assert ALWAYS_RETAINED[6] in ALWAYS_RETAINED;
  }

  /** The watched kind of a reading is cached, with everything the reading's expression reads off the
  watched object. */
  lemma WatchedRetained(rs: seq<Reading>, d: map<Gvk, Fields>, r: Reading)
    requires IsDerivation(rs, d) && r in rs && r.compiled.Some?
    ensures r.gvk in BuildCacheEntries(d)
    ensures Retains(BuildCacheEntries(d)[r.gvk].tree, Walked(r.compiled.value))
  {
    TotalHoldsShare(rs, r, r.gvk);
    var f, walked := FieldsAt(d, r.gvk), Walked(r.compiled.value);
    assert Summarized(f) == Total(rs, r.gvk);
    if !f.wholeWatch {
      forall p | p in walked.paths ensures Covers(CacheEntryFor(f).tree, p) {
        assert p in Elems(walked.paths) && p in Elems(f.watchPaths);
        EntryCovers(f, p);
      }
    }
  }

  /** A kind lookups are served from retains what each reading's recorded lookups read. */
  lemma LookupsServed(rs: seq<Reading>, d: map<Gvk, Fields>, namespaced: set<Gvk>, r: Reading)
    requires IsDerivation(rs, d) && r in rs && r.compiled.Some?
    ensures LookupsRetained(Walked(r.compiled.value).lookups, LookupTrees(BuildCacheEntries(d), namespaced))
  {
    var ls, trees := Walked(r.compiled.value).lookups, LookupTrees(BuildCacheEntries(d), namespaced);
    forall l | l in ls && ReadGvk(l) in trees ensures Covers(trees[ReadGvk(l)], l.path) {
      var g := ReadGvk(l);
      TotalHoldsShare(rs, r, g);
      assert Summarized(FieldsAt(d, g)) == Total(rs, g) && l.path in PathsOff(ls, g);
      EntryCovers(FieldsAt(d, g), l.path);
      if !d[g].wholeWatch { assert l.path in Elems(d[g].lookupPaths); }
    }
  }

  /** A lookup the walk of e did not record: its kind is computed, or it stands beyond the point
  where the walk stopped. */
  predicate Stray(e: Expr, u: Use) {
    !NamedUse(u) || AsLookupPath(u) !in Walked(e).lookups
  }

  /** The whole cache. For any policies, every compiled expression of an enabled one evaluates on the
  cached object, with lookups served by the kind they name, as on full objects, provided that each
  lookup its walk did not record finds its path in the cached kinds it can name. */
  lemma PolicyCachePreservesEvaluation(policies: seq<Policy>, d: map<Gvk, Fields>, namespaced: set<Gvk>, r: Reading,
                                       obj: Value, env: Env, w: World, cached: World)
    requires IsDerivation(AllReadings(policies), d) && r in AllReadings(policies) && r.compiled.Some?
    requires w.lookupFunc == LOOKUP && Serves(cached, w, LookupTrees(BuildCacheEntries(d), namespaced), true)
    requires forall u :: u in Uses(LOOKUP, r.compiled.value) && Stray(r.compiled.value, u) ==>
               Admits(LookupTrees(BuildCacheEntries(d), namespaced), true, u)
    ensures r.gvk in BuildCacheEntries(d)
    ensures var pruned := Prune(obj, BuildCacheEntries(d)[r.gvk].tree);
      Eval(r.compiled.value, env[RESOURCE := Ok(pruned)], cached) == Eval(r.compiled.value, env[RESOURCE := Ok(obj)], w)
  {
    var rs, e, trees := AllReadings(policies), r.compiled.value, LookupTrees(BuildCacheEntries(d), namespaced);
    WatchedRetained(rs, d, r);
    LookupsServed(rs, d, namespaced, r);
    forall u | u in Uses(LOOKUP, e) ensures Admits(trees, true, u) {
      if !Stray(e, u) { RetainedUseAdmitted(Walked(e).lookups, trees, true, u); }
    }
    CachedSound(e, RESOURCE, BuildCacheEntries(d)[r.gvk].tree, trees, true, obj, env, w, cached);
  }

  /** In an expression whose walk completes, only computed lookups are stray. */
  lemma StrayWhenComplete(e: Expr, u: Use)
    requires Walked(e).complete && u in Uses(LOOKUP, e)
    ensures Stray(e, u) <==> !NamedUse(u)
  {
    WalkRecordsUses(Config(RESOURCE, LOOKUP), false, e);
    if NamedUse(u) { assert AsLookupPath(u) in LiteralPaths(Uses(LOOKUP, e)); }
  }

  /** lookup("v1", kind, "", "n").a */
  function FieldOfLookup(kind: string, a: string): Expr {
    Access(Lookup(Literal(VStr(kind))), [a])
  }

  /** resource == lookup("v1", kind, "", "n").b */
  function WholeAndLookup(kind: string, b: string): Expr {
    EqualTo(Ident(RESOURCE), FieldOfLookup(kind, b))
  }

  function TwoPolicies(kind: string, a: string, b: string, watchedA: Gvk, watchedB: Gvk): seq<Policy> {
    [Policy(true, watchedA, Some(FieldOfLookup(kind, a)), None),
     Policy(true, watchedB, Some(WholeAndLookup(kind, b)), None)]
  }

  /** The condition is needed. One policy reads field a off a kind by lookup; another compares its
  whole object with field b off the same kind. The second one's walk stops before its lookup, the
  first one has the kind cached with field a alone, and the second one's result changes for some
  object, although that is itself cached in full. */
  lemma AnotherPolicyPrunes(kind: string, a: string, b: string, watchedA: Gvk, watchedB: Gvk, d: map<Gvk, Fields>)
    returns (env: Env, w: World, cached: World)
    requires a != b && b != "apiVersion" && b != "kind"
    requires watchedA != GvkOf("v1", kind) && watchedB != GvkOf("v1", kind)
    requires IsDerivation(AllReadings(TwoPolicies(kind, a, b, watchedA, watchedB)), d)
    ensures watchedB in BuildCacheEntries(d) && BuildCacheEntries(d)[watchedB].tree.keep
    ensures BindsObject(env, RESOURCE) && w.lookupFunc == LOOKUP && ComparesValues(w)
    ensures Serves(cached, w, LookupTrees(BuildCacheEntries(d), {}), true)
    ensures Eval(WholeAndLookup(kind, b), env, cached) != Eval(WholeAndLookup(kind, b), env, w)
  {
    TwoPoliciesTotal(kind, a, b, watchedA, watchedB);
    SecondKeptWhole(kind, a, b, watchedA, watchedB, d);
    OneFieldCached(d, GvkOf("v1", kind), a, b);
    env, w, cached := UncoveredFieldLoses(kind, b, LookupTrees(BuildCacheEntries(d), {}));
  }

  /** The second policy's own kind is cached in full. */
  lemma SecondKeptWhole(kind: string, a: string, b: string, watchedA: Gvk, watchedB: Gvk, d: map<Gvk, Fields>)
    requires IsDerivation(AllReadings(TwoPolicies(kind, a, b, watchedA, watchedB)), d)
    ensures watchedB in BuildCacheEntries(d) && BuildCacheEntries(d)[watchedB].tree.keep
  {
    var ps, r := TwoPolicies(kind, a, b, watchedA, watchedB), Reading(watchedB, Some(WholeAndLookup(kind, b)));
    ReadingsOfTwo(ps[0], ps[1]);
    assert r in AllReadings(ps);
    StoppedWalkRecordsNothing(Config(RESOURCE, LOOKUP), FieldOfLookup(kind, b));
    WatchedRetained(AllReadings(ps), d, r);
  }

  lemma UncoveredFieldLoses(kind: string, b: string, trees: map<Gvk, Tree>) returns (env: Env, w: World, cached: World)
    requires GvkOf("v1", kind) in trees && !Covers(trees[GvkOf("v1", kind)], [b])
    ensures BindsObject(env, RESOURCE) && w.lookupFunc == LOOKUP && ComparesValues(w)
    ensures Serves(cached, w, trees, true)
    ensures Eval(WholeAndLookup(kind, b), env, cached) != Eval(WholeAndLookup(kind, b), env, w)
  {
    var call := Lookup(Literal(VStr(kind)));
    assert MayName(call, GvkOf("v1", kind));
    PathArgumentsSettable(LOOKUP, RESOURCE, call, [[], [], [], []]);
    env, w := StoppedWalkLoses(LOOKUP, RESOURCE, call, [b], trees);
    cached := ServedWorld(w, trees);
    ServedWorldServes(w, trees);
  }

  /** A kind that is not watched and of which lookups read field a alone. */
  lemma OneFieldCached(d: map<Gvk, Fields>, g: Gvk, a: string, b: string)
    requires a != b && b != "apiVersion" && b != "kind"
    requires g in d && Summarized(d[g]) == NOTHING.(lookedUp := true, lookupPaths := {[a]})
    ensures var trees := LookupTrees(BuildCacheEntries(d), {}); g in trees && !Covers(trees[g], [b])
  {
    var f := d[g];
    EntryCovers(f, [b]);
    assert forall q :: q in f.watchPaths ==> q in Elems(f.watchPaths);
    forall q | q in f.lookupPaths ensures !(q <= [b]) { assert q in Elems(f.lookupPaths) && q[0] == a; }
    forall q | q in ALWAYS_RETAINED ensures !(q <= [b]) { assert |q| == 2 || q[0] == "apiVersion" || q[0] == "kind"; }
  }

  lemma FirstShare(kind: string, a: string, watched: Gvk)
    requires watched != GvkOf("v1", kind)
    ensures Share(Reading(watched, Some(FieldOfLookup(kind, a))), GvkOf("v1", kind))
         == NOTHING.(lookedUp := true, lookupPaths := {[a]})
  {
    var l := LookupPath("v1", kind, [a]);
    LookupAccessReads(Literal(VStr(kind)), a);
    assert ReadsOf(Config(RESOURCE, LOOKUP), false, Literal(VStr(kind))) == NO_READS;
    NoReadsNeutral(Reads([], [l], true));
    assert l in [l] && ReadKinds([l]) == {ReadGvk(l)} && PathsOff([l], ReadGvk(l)) == {l.path};
  }

  lemma SecondShare(kind: string, b: string, watched: Gvk)
    requires watched != GvkOf("v1", kind)
    ensures Share(Reading(watched, Some(WholeAndLookup(kind, b))), GvkOf("v1", kind)) == NOTHING
  {
    StoppedWalkRecordsNothing(Config(RESOURCE, LOOKUP), FieldOfLookup(kind, b));
  }

  lemma TotalOfTwo(r: Reading, s: Reading, g: Gvk)
    ensures Total([r, s], g) == Join(Share(r, g), Share(s, g))
  {
    assert [r, s][..1] == [r] && [r][..0] == [];
    assert Total([r], g) == Join(Total([r][..0], g), Share(r, g));
  }

  lemma ReadingsOfTwo(p: Policy, q: Policy)
    requires p.enabled && q.enabled && p.association.None? && q.association.None?
    ensures AllReadings([p, q]) == [Reading(p.gvk, p.condition), Reading(q.gvk, q.condition)]
  {
    assert [p, q][..1] == [p] && [p][..0] == [];
    assert AllReadings([p]) == AllReadings([p][..0]) + PolicyReadings(p);
  }

  lemma TwoPoliciesTotal(kind: string, a: string, b: string, watchedA: Gvk, watchedB: Gvk)
    requires watchedA != GvkOf("v1", kind) && watchedB != GvkOf("v1", kind)
    ensures Total(AllReadings(TwoPolicies(kind, a, b, watchedA, watchedB)), GvkOf("v1", kind))
         == NOTHING.(lookedUp := true, lookupPaths := {[a]})
  {
    var r, s := Reading(watchedA, Some(FieldOfLookup(kind, a))), Reading(watchedB, Some(WholeAndLookup(kind, b)));
    ReadingsOfTwo(Policy(true, watchedA, r.compiled, None), Policy(true, watchedB, s.compiled, None));
    TotalOfTwo(r, s, GvkOf("v1", kind));
    FirstShare(kind, a, watchedA);
    SecondShare(kind, b, watchedB);
  }
}
