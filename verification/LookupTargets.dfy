/** The kinds an expression reads through lookup(), with the paths it reads off them; and the
end-to-end statements about caches pruned by FieldPaths and LookupTargets. */
module LookupTargets {
  import opened Options
  import opened Orders
  import opened Cel
  import opened FieldTree
  import opened FieldPaths
  import opened Accesses
  import opened LookupUses
  import opened PruneSoundness

  datatype LookupTarget = LookupTarget(apiVersion: string, kind: string, paths: seq<seq<string>>, derivable: bool)

  function TargetGvk(t: LookupTarget): Gvk { GvkOf(t.apiVersion, t.kind) }

  function ReadGvk(l: LookupPath): Gvk { GvkOf(l.apiVersion, l.kind) }

  /** All paths read off kind g, the empty path standing for the whole object. */
  function PathsOff(ls: seq<LookupPath>, g: Gvk): set<seq<string>> {
    set l | l in ls && ReadGvk(l) == g :: l.path
  }

  function TargetKinds(targets: seq<LookupTarget>): set<Gvk> {
    set t | t in targets :: TargetGvk(t)
  }

  function ReadKinds(ls: seq<LookupPath>): set<Gvk> {
    set l | l in ls :: ReadGvk(l)
  }

  /** Where kind g is first read, the length if nowhere. */
  function FirstRead(ls: seq<LookupPath>, g: Gvk): (k: nat)
    ensures k <= |ls| && (k < |ls| ==> ReadGvk(ls[k]) == g) && forall i :: 0 <= i < k ==> ReadGvk(ls[i]) != g
  {
    if ls == [] then 0
    else
      var front := ls[..|ls| - 1];
      if FirstRead(front, g) < |front| then FirstRead(front, g)
      else if ReadGvk(ls[|ls| - 1]) == g then |front|
      else |ls|
  }

  ghost predicate InOrderOfFirstRead(ls: seq<LookupPath>, targets: seq<LookupTarget>) {
    forall i, j :: 0 <= i < j < |targets| ==>
      FirstRead(ls, TargetGvk(targets[i])) < FirstRead(ls, TargetGvk(targets[j]))
  }

  /** One target per kind, in the order the kinds were first read; derivable exactly when the kind's
  object is never used whole. */
  ghost predicate IsMerge(ls: seq<LookupPath>, targets: seq<LookupTarget>) {
    && InOrderOfFirstRead(ls, targets)
    && (forall i, j :: 0 <= i < j < |targets| ==> TargetGvk(targets[i]) != TargetGvk(targets[j]))
    && TargetKinds(targets) == ReadKinds(ls)
    && (forall t :: t in targets ==> IsFinished(ls, t))
  }

  ghost predicate IsFinished(ls: seq<LookupPath>, t: LookupTarget) {
    && (t.derivable <==> [] !in PathsOff(ls, TargetGvk(t)))
    && (t.derivable ==> StrictlySorted(PathLess, t.paths) && Elems(t.paths) == PathsOff(ls, TargetGvk(t)))
    && (!t.derivable ==> t.paths == [])
  }

  /** A target while paths are still being gathered. */
  ghost predicate IsGathering(ls: seq<LookupPath>, t: LookupTarget) {
    && (t.derivable <==> [] !in PathsOff(ls, TargetGvk(t)))
    && Elems(t.paths) == PathsOff(ls, TargetGvk(t)) - {[]}
  }

  /** Positions index the targets by kind, and every target has its paths so far. */
  ghost predicate Gathered(ls: seq<LookupPath>, targets: seq<LookupTarget>, positions: map<Gvk, nat>) {
    && (forall g :: g in positions ==> positions[g] < |targets| && TargetGvk(targets[positions[g]]) == g)
    && (forall i :: 0 <= i < |targets| ==> TargetGvk(targets[i]) in positions && positions[TargetGvk(targets[i])] == i)
    && (forall i :: 0 <= i < |targets| ==> IsGathering(ls, targets[i]))
  }

  /** The state of the merging loop. */
  ghost predicate Merging(ls: seq<LookupPath>, targets: seq<LookupTarget>, positions: map<Gvk, nat>) {
    Gathered(ls, targets, positions) && InOrderOfFirstRead(ls, targets) && positions.Keys == ReadKinds(ls)
  }

  lemma PathsOffStep(ls: seq<LookupPath>, l: LookupPath, g: Gvk)
    ensures PathsOff(ls + [l], g) == PathsOff(ls, g) + if ReadGvk(l) == g then {l.path} else {}
  {
  }

  lemma OtherTargetUntouched(ls: seq<LookupPath>, l: LookupPath, t: LookupTarget)
    requires IsGathering(ls, t) && TargetGvk(t) != ReadGvk(l)
    ensures IsGathering(ls + [l], t)
  {
  }

  /** The edit of the target a path belongs to. */
  function WithPath(t: LookupTarget, path: seq<string>): LookupTarget {
    if path == [] then t.(derivable := false) else t.(paths := t.paths + [path])
  }

  lemma PathAdded(ls: seq<LookupPath>, l: LookupPath, t: LookupTarget)
    requires IsGathering(ls, t) && TargetGvk(t) == ReadGvk(l)
    ensures IsGathering(ls + [l], WithPath(t, l.path))
  {
    PathsOffStep(ls, l, TargetGvk(t));
    assert Elems(t.paths + [l.path]) == Elems(t.paths) + {l.path};
  }

  lemma FirstReadMember(ls: seq<LookupPath>, g: Gvk)
    ensures g in ReadKinds(ls) <==> FirstRead(ls, g) < |ls|
  {
  }

  lemma TargetOpened(ls: seq<LookupPath>, l: LookupPath, targets: seq<LookupTarget>, positions: map<Gvk, nat>)
    requires Merging(ls, targets, positions) && ReadGvk(l) !in positions
    ensures Gathered(ls, targets + [LookupTarget(l.apiVersion, l.kind, [], true)], positions[ReadGvk(l) := |targets|])
    ensures InOrderOfFirstRead(ls, targets + [LookupTarget(l.apiVersion, l.kind, [], true)])
  {
    var t := LookupTarget(l.apiVersion, l.kind, [], true);
    FirstReadMember(ls, ReadGvk(l));
    forall i | 0 <= i < |targets| ensures FirstRead(ls, TargetGvk(targets[i])) < FirstRead(ls, ReadGvk(l)) {
      FirstReadMember(ls, TargetGvk(targets[i]));
    }
    assert IsGathering(ls, t) by {
      assert forall x :: x in ls ==> ReadGvk(x) in ReadKinds(ls);
    }
  }

  lemma OrderMerged(ls: seq<LookupPath>, l: LookupPath, targets: seq<LookupTarget>, positions: map<Gvk, nat>, p: nat)
    requires Gathered(ls, targets, positions) && InOrderOfFirstRead(ls, targets)
    requires positions.Keys == ReadKinds(ls) + {ReadGvk(l)} && p < |targets|
    ensures InOrderOfFirstRead(ls + [l], targets[p := WithPath(targets[p], l.path)])
  {
  }

  lemma PathMerged(ls: seq<LookupPath>, l: LookupPath, targets: seq<LookupTarget>, positions: map<Gvk, nat>)
    requires Gathered(ls, targets, positions) && positions.Keys == ReadKinds(ls) + {ReadGvk(l)}
    ensures var p := positions[ReadGvk(l)];
      Gathered(ls + [l], targets[p := WithPath(targets[p], l.path)], positions)
    ensures positions.Keys == ReadKinds(ls + [l])
  {
    var p := positions[ReadGvk(l)];
    assert ReadKinds(ls + [l]) == ReadKinds(ls) + {ReadGvk(l)};
    PathAdded(ls, l, targets[p]);
    forall k | 0 <= k < |targets| && k != p ensures IsGathering(ls + [l], targets[k]) {
      OtherTargetUntouched(ls, l, targets[k]);
    }
  }

  /** One path joins the target of its kind, which is opened if need be. */
  method MergeOne(ghost before: seq<LookupPath>, l: LookupPath, targets: seq<LookupTarget>, positions: map<Gvk, nat>)
    returns (targets': seq<LookupTarget>, positions': map<Gvk, nat>)
    requires Merging(before, targets, positions)
    ensures Merging(before + [l], targets', positions')
  {
    var g := ReadGvk(l);
    targets', positions' := targets, positions;
    if g !in positions {
      TargetOpened(before, l, targets, positions);
      positions' := positions[g := |targets|];
      targets' := targets + [LookupTarget(l.apiVersion, l.kind, [], true)];
    }
    assert positions'.Keys == ReadKinds(before) + {g};
    OrderMerged(before, l, targets', positions', positions'[g]);
    PathMerged(before, l, targets', positions');
    targets' := targets'[positions'[g] := WithPath(targets'[positions'[g]], l.path)];
  }

  method MergeFieldPathsByGVK(fieldPaths: seq<LookupPath>) returns (targets: seq<LookupTarget>)
    ensures IsMerge(fieldPaths, targets)
  {
    targets := [];
    var positions: map<Gvk, nat> := map[];
    for i := 0 to |fieldPaths|
      invariant Merging(fieldPaths[..i], targets, positions)
    {
      targets, positions := MergeOne(fieldPaths[..i], fieldPaths[i], targets, positions);
      assert fieldPaths[..i + 1] == fieldPaths[..i] + [fieldPaths[i]];
    }
    assert fieldPaths[..|fieldPaths|] == fieldPaths;
    targets := FinishMerge(fieldPaths, targets, positions);
  }

  method FinishMerge(ghost ls: seq<LookupPath>, merged: seq<LookupTarget>, ghost positions: map<Gvk, nat>)
    returns (targets: seq<LookupTarget>)
    requires Merging(ls, merged, positions)
    ensures IsMerge(ls, targets)
  {
    targets := merged;
    for i := 0 to |targets|
      invariant |targets| == |merged|
      invariant forall k :: i <= k < |merged| ==> targets[k] == merged[k]
      invariant forall k :: 0 <= k < i ==> TargetGvk(targets[k]) == TargetGvk(merged[k]) && IsFinished(ls, targets[k])
    {
      var paths := [];
      if targets[i].derivable {
        paths := SortedUniquePaths(targets[i].paths);
      }
      targets := targets[i := targets[i].(paths := paths)];
    }
    SameKinds(merged, targets);
    forall g ensures g in TargetKinds(merged) <==> g in positions {
      if g in positions { assert merged[positions[g]] in merged; }
    }
  }

  lemma SameKinds(a: seq<LookupTarget>, b: seq<LookupTarget>)
    requires |a| == |b| && forall k :: 0 <= k < |a| ==> TargetGvk(a[k]) == TargetGvk(b[k])
    ensures TargetKinds(a) == TargetKinds(b)
  {
  }

  /** LookupTargets: once the walk has stopped early no target is derivable. */
  method DeriveLookupTargets(compiled: Option<Expr>, objectVar: string, lookupFunc: string)
    returns (targets: seq<LookupTarget>)
    ensures compiled.None? ==> targets == []
    ensures compiled.Some? ==>
      var r := ReadsOf(Config(objectVar, lookupFunc), false, compiled.value);
      && (r.complete ==> IsMerge(r.lookups, targets))
      && (!r.complete ==> forall t :: t in targets ==> !t.derivable && t.paths == [])
      && TargetKinds(targets) == ReadKinds(r.lookups)
  {
    if compiled.None? {
      return [];
    }
    var w := new FieldWalker(objectVar, lookupFunc);
    w.Walk(compiled.value);
    NoReadsNeutral(w.State());
    ghost var r := ReadsOf(Config(objectVar, lookupFunc), false, compiled.value);
    assert w.State() == r;
    targets := MergeFieldPathsByGVK(w.lookupFieldPaths);
    if !w.ok {
      targets := GiveUpOn(targets);
    }
  }

  /** What is left of the targets once the walk has stopped. */
  method GiveUpOn(merged: seq<LookupTarget>) returns (targets: seq<LookupTarget>)
    ensures forall t :: t in targets ==> !t.derivable && t.paths == []
    ensures TargetKinds(targets) == TargetKinds(merged)
  {
    targets := merged;
    for i := 0 to |targets|
      invariant |targets| == |merged|
      invariant forall k :: 0 <= k < |targets| ==> TargetGvk(targets[k]) == TargetGvk(merged[k])
      invariant forall k :: 0 <= k < i ==> !targets[k].derivable && targets[k].paths == []
    {
      targets := targets[i := targets[i].(derivable := false, paths := [])];
    }
    SameKinds(merged, targets);
  }

  // The object's paths do not depend on whether lookups are tracked.

  ghost predicate SameObjectReads(a: Reads, b: Reads) {
    a.complete == b.complete && (a.complete ==> Elems(a.paths) == Elems(b.paths))
  }

  lemma SameThen(a: Reads, b: Reads, a': Reads, b': Reads)
    requires SameObjectReads(a, b) && SameObjectReads(a', b')
    ensures SameObjectReads(Then(a, a'), Then(b, b'))
  {
    assert Elems(a.paths + a'.paths) == Elems(a.paths) + Elems(a'.paths);
    assert Elems(b.paths + b'.paths) == Elems(b.paths) + Elems(b'.paths);
  }

  lemma SameSwap(a: Reads, b: Reads)
    ensures SameObjectReads(Then(a, b), Then(b, a))
  {
  }

  lemma {:induction false} SameReads(o: string, f: string, shadowed: bool, e: Expr)
    ensures SameObjectReads(ReadsOf(Config(o, f), shadowed, e), ReadsOf(Config(o, ""), shadowed, e))
    decreases Size(e), 2
  {
    var cfg, plain := Config(o, f), Config(o, "");
    var m, c := MembershipChain(e), ResolveChain(e);
    if IsRoot(cfg, shadowed, m) {
      SameRecorded(o, f, shadowed, m, e.operands[1]);
      if !IsRoot(plain, shadowed, m) { PlainMembership(o, shadowed, e); }
    } else if IsRoot(cfg, shadowed, c) {
      SameRecorded(o, f, shadowed, c, e);
      if !IsRoot(plain, shadowed, c) { PlainChain(o, shadowed, e); }
    } else {
      SameChildren(o, f, shadowed, e);
    }
  }

  /** What a chain rooted at a lookup reads when lookups are not tracked. */
  function PlainReads(o: string, shadowed: bool, c: Chain, chain: Expr): Reads
    requires c.Chain? && c.base.Call?
  {
    Then(ReadsAll(Config(o, ""), shadowed, IndexKeys(chain)), ReadsAll(Config(o, ""), shadowed, c.base.operands))
  }

  lemma {:induction false} SameRecorded(o: string, f: string, shadowed: bool, c: Chain, chain: Expr)
    requires IsRoot(Config(o, f), shadowed, c) && Size(c.base) <= Size(chain)
    ensures SameObjectReads(RecordReads(Config(o, f), shadowed, c, chain),
                            if c.base.Ident? then RecordReads(Config(o, ""), shadowed, c, chain)
                            else PlainReads(o, shadowed, c, chain))
    decreases Size(chain), 1
  {
    var cfg, plain := Config(o, f), Config(o, "");
    SameAll(o, f, shadowed, IndexKeys(chain));
    var keys, keys' := ReadsAll(cfg, shadowed, IndexKeys(chain)), ReadsAll(plain, shadowed, IndexKeys(chain));
    if c.base.Ident? {
      var own := Reads([c.path], [], true);
      SameThen(own, own, keys, keys');
    } else {
      SameAll(o, f, shadowed, c.base.operands);
      var args, args' := ReadsAll(cfg, shadowed, c.base.operands), ReadsAll(plain, shadowed, c.base.operands);
      SameThen(keys, keys', args, args');
      SameThen(LookupReads(c.base, c.path), NO_READS, Then(keys, args), Then(keys', args'));
      NoReadsNeutral(Then(keys', args'));
    }
  }

  lemma {:induction false} PlainChain(o: string, shadowed: bool, e: Expr)
    requires ResolveChain(e).Chain? && ResolveChain(e).base.Call? && !IsInCall(ResolveChain(e).base)
    ensures SameObjectReads(ReadsOf(Config(o, ""), shadowed, e), PlainReads(o, shadowed, ResolveChain(e), e))
    decreases e
  {
    var plain, c := Config(o, ""), ResolveChain(e);
    if e.Select? {
      PlainChain(o, shadowed, e.operand);
    } else if IsIndexCall(e) {
      PlainChain(o, shadowed, e.operands[0]);
      var key, rest := ReadsOf(plain, shadowed, e.operands[1]), ReadsAll(plain, shadowed, IndexKeys(e.operands[0]));
      var args, inner := ReadsAll(plain, shadowed, c.base.operands), ReadsOf(plain, shadowed, e.operands[0]);
      TwoOperands(plain, shadowed, e);
      assert IndexKeys(e)[1..] == IndexKeys(e.operands[0]);
      SameThen(inner, Then(rest, args), key, key);
      SameSwap(Then(rest, args), key);
      ThenAssociative(key, rest, args);
    } else {
      NoReadsNeutral(ReadsAll(plain, shadowed, e.operands));
    }
  }

  lemma TwoOperands(cfg: Config, shadowed: bool, e: Expr)
    requires e.Call? && |e.operands| == 2
    ensures ReadsAll(cfg, shadowed, e.operands)
         == Then(ReadsOf(cfg, shadowed, e.operands[0]), ReadsOf(cfg, shadowed, e.operands[1]))
  {
    var rest := e.operands[1..];
    assert rest[0] == e.operands[1] && rest[1..] == [];
    assert ReadsAll(cfg, shadowed, rest) == Then(ReadsOf(cfg, shadowed, rest[0]), ReadsAll(cfg, shadowed, rest[1..]));
    NoReadsNeutral(ReadsOf(cfg, shadowed, e.operands[1]));
  }

  lemma PlainMembership(o: string, shadowed: bool, e: Expr)
    requires var m := MembershipChain(e); m.Chain? && m.base.Call? && !IsInCall(m.base)
    ensures SameObjectReads(ReadsOf(Config(o, ""), shadowed, e),
                            PlainReads(o, shadowed, MembershipChain(e), e.operands[1]))
  {
    PlainChain(o, shadowed, e.operands[1]);
    TwoOperands(Config(o, ""), shadowed, e);
    NoReadsNeutral(ReadsOf(Config(o, ""), shadowed, e.operands[1]));
    assert ReadsOf(Config(o, ""), shadowed, e.operands[0]) == NO_READS;
  }

  lemma {:induction false} SameAll(o: string, f: string, shadowed: bool, es: seq<Expr>)
    ensures SameObjectReads(ReadsAll(Config(o, f), shadowed, es), ReadsAll(Config(o, ""), shadowed, es))
    decreases SizeAll(es), 0
  {
    if es != [] {
      SameReads(o, f, shadowed, es[0]);
      SameAll(o, f, shadowed, es[1..]);
      SameThen(ReadsOf(Config(o, f), shadowed, es[0]), ReadsOf(Config(o, ""), shadowed, es[0]),
               ReadsAll(Config(o, f), shadowed, es[1..]), ReadsAll(Config(o, ""), shadowed, es[1..]));
    }
  }

  lemma {:induction false} SameChildren(o: string, f: string, shadowed: bool, e: Expr)
    ensures SameObjectReads(ChildReads(Config(o, f), shadowed, e), ChildReads(Config(o, ""), shadowed, e))
    decreases Size(e), 1
  {
    match e {
      case Select(operand, _, _) => SameReads(o, f, shadowed, operand);
      case Call(_, _, operands) => SameAll(o, f, shadowed, operands);
      case ListLit(elements) => SameAll(o, f, shadowed, elements);
      case MapLit(keysAndValues) => SameAll(o, f, shadowed, keysAndValues);
      case StructLit(_, _, values) => SameAll(o, f, shadowed, values);
      case Comprehension(range, _, _, accuVar, init, condition, step, result) =>
        var a, b := Config(o, f), Config(o, "");
        var inLoop, inAccu := LoopShadows(a, shadowed, e), shadowed || accuVar == o;
        SameReads(o, f, shadowed, range);
        SameReads(o, f, shadowed, init);
        SameReads(o, f, inLoop, condition);
        SameReads(o, f, inLoop, step);
        SameReads(o, f, inAccu, result);
        var a1, a2, a3 := ReadsOf(a, shadowed, range), ReadsOf(a, shadowed, init), ReadsOf(a, inLoop, condition);
        var a4, a5 := ReadsOf(a, inLoop, step), ReadsOf(a, inAccu, result);
        var b1, b2, b3 := ReadsOf(b, shadowed, range), ReadsOf(b, shadowed, init), ReadsOf(b, inLoop, condition);
        var b4, b5 := ReadsOf(b, inLoop, step), ReadsOf(b, inAccu, result);
        SameThen(a4, b4, a5, b5);
        SameThen(a3, b3, Then(a4, a5), Then(b4, b5));
        SameThen(a2, b2, Then(a3, Then(a4, a5)), Then(b3, Then(b4, b5)));
        SameThen(a1, b1, Then(a2, Then(a3, Then(a4, a5))), Then(b2, Then(b3, Then(b4, b5))));
      case _ =>
    }
  }

  // End to end.

  /** The object pruned by t, the looked-up kinds by trees. */
  lemma CachedSound(e: Expr, objectVar: string, t: Tree, trees: map<Gvk, Tree>, byGvk: bool,
                    obj: Value, env: Env, w: World, cached: World)
    requires Serves(cached, w, trees, byGvk)
    requires Retains(t, ReadsOf(Config(objectVar, w.lookupFunc), false, e))
    requires AdmitsAll(trees, byGvk, Uses(w.lookupFunc, e))
    ensures Eval(e, env[objectVar := Ok(Prune(obj, t))], cached) == Eval(e, env[objectVar := Ok(obj)], w)
  {
    Sound(Setting(objectVar, t, trees, w, cached, byGvk), false, e,
          env[objectVar := Ok(obj)], env[objectVar := Ok(Prune(obj, t))]);
  }

  /** FieldPaths is sound: evaluation on the object pruned by any tree that covers the
  returned paths equals evaluation on the full object. */
  lemma FieldPathsPreserveEvaluation(e: Expr, objectVar: string, fieldPaths: seq<seq<string>>, retained: Tree,
                                     obj: Value, env: Env, w: World)
    requires ReadsOf(Config(objectVar, ""), false, e).complete
    requires Elems(fieldPaths) == Elems(ReadsOf(Config(objectVar, ""), false, e).paths)
    ensures var pruned := Prune(obj, InsertAll(retained, fieldPaths));
      Eval(e, env[objectVar := Ok(pruned)], w) == Eval(e, env[objectVar := Ok(obj)], w)
  {
    PathsRetained(e, objectVar, w.lookupFunc, fieldPaths, retained);
    CachedSound(e, objectVar, InsertAll(retained, fieldPaths), map[], false, obj, env, w, w);
  }

  lemma PathsRetained(e: Expr, objectVar: string, f: string, fieldPaths: seq<seq<string>>, retained: Tree)
    requires ReadsOf(Config(objectVar, ""), false, e).complete
    requires Elems(ReadsOf(Config(objectVar, ""), false, e).paths) <= Elems(fieldPaths)
    ensures Retains(InsertAll(retained, fieldPaths), ReadsOf(Config(objectVar, f), false, e))
  {
    SameReads(objectVar, f, false, e);
    var r := ReadsOf(Config(objectVar, f), false, e);
    forall p | p in r.paths ensures Covers(InsertAll(retained, fieldPaths), p) {
      assert p in Elems(r.paths) && p in Elems(fieldPaths);
      InsertAllCovers(retained, fieldPaths, p);
    }
  }

  /** A target whose kind is in the cache is derivable and its paths are retained there. The cache
  may hold any other kinds. */
  ghost predicate TreesFor(targets: seq<LookupTarget>, trees: map<Gvk, Tree>) {
    forall t :: t in targets && TargetGvk(t) in trees ==>
      t.derivable && forall p :: p in t.paths ==> Covers(trees[TargetGvk(t)], p)
  }

  lemma TargetsRetain(ls: seq<LookupPath>, targets: seq<LookupTarget>, trees: map<Gvk, Tree>)
    requires IsMerge(ls, targets) && TreesFor(targets, trees)
    ensures LookupsRetained(ls, trees)
  {
    forall l | l in ls && ReadGvk(l) in trees ensures Covers(trees[ReadGvk(l)], l.path) {
      assert ReadGvk(l) in TargetKinds(targets);
      var target :| target in targets && TargetGvk(target) == ReadGvk(l);
      assert l.path in PathsOff(ls, ReadGvk(l));
      assert l.path in Elems(target.paths);
    }
  }

  ghost predicate LookupsRetained(ls: seq<LookupPath>, trees: map<Gvk, Tree>) {
    forall l :: l in ls && ReadGvk(l) in trees ==> Covers(trees[ReadGvk(l)], l.path)
  }

  /** A recorded literal use finds its path where its lookup is served from. */
  lemma RetainedUseAdmitted(ls: seq<LookupPath>, trees: map<Gvk, Tree>, byGvk: bool, u: Use)
    requires LookupsRetained(ls, trees) && NamedUse(u) && AsLookupPath(u) in ls
    ensures Admits(trees, byGvk, u)
  {
    forall g | g in trees && MayName(u.call, g) ensures Covers(trees[g], u.path) {
      assert g == ReadGvk(AsLookupPath(u));
    }
  }

  /** The whole cache: the watched object pruned to its field paths and every derivable looked-up
  kind pruned at most to its merged paths, in a cache that may hold other kinds too, the expression
  evaluates as on full objects; if lookups by literals alone are served from the cache, or if every
  lookup that computes its kind finds its path in the trees it can reach. */
  lemma PrunedCachePreservesEvaluation(e: Expr, objectVar: string, fieldPaths: seq<seq<string>>,
                                       targets: seq<LookupTarget>, retained: Tree, trees: map<Gvk, Tree>,
                                       byGvk: bool, obj: Value, env: Env, w: World, cached: World)
    requires ReadsOf(Config(objectVar, ""), false, e).complete
    requires Elems(fieldPaths) == Elems(ReadsOf(Config(objectVar, ""), false, e).paths)
    requires IsMerge(ReadsOf(Config(objectVar, w.lookupFunc), false, e).lookups, targets)
    requires TreesFor(targets, trees) && Serves(cached, w, trees, byGvk)
    requires byGvk ==> forall u :: u in Uses(w.lookupFunc, e) && !NamedUse(u) ==> Admits(trees, true, u)
    ensures var pruned := Prune(obj, InsertAll(retained, fieldPaths));
      Eval(e, env[objectVar := Ok(pruned)], cached) == Eval(e, env[objectVar := Ok(obj)], w)
  {
    var cfg := Config(objectVar, w.lookupFunc);
    var r := ReadsOf(cfg, false, e);
    PathsRetained(e, objectVar, w.lookupFunc, fieldPaths, retained);
    SameReads(objectVar, w.lookupFunc, false, e);
    TargetsRetain(r.lookups, targets, trees);
    WalkRecordsUses(cfg, false, e);
    forall u | u in Uses(w.lookupFunc, e) ensures Admits(trees, byGvk, u) {
      if NamedUse(u) {
        assert AsLookupPath(u) in LiteralPaths(Uses(w.lookupFunc, e));
        RetainedUseAdmitted(r.lookups, trees, byGvk, u);
      }
    }
    CachedSound(e, objectVar, InsertAll(retained, fieldPaths), trees, byGvk, obj, env, w, cached);
  }

  // Tightness: the derived path of a field access is needed.

  /** root.p[0].p[1]... */
  function Access(root: Expr, p: seq<string>): Expr {
    if p == [] then root else Select(Access(root, p[..|p| - 1]), p[|p| - 1], false)
  }

  function Get(r: Res, p: seq<string>): Res {
    if p == [] then r else SelectField(Get(r, p[..|p| - 1]), p[|p| - 1], false)
  }

  lemma {:induction false} GetFromFront(r: Res, p: seq<string>)
    requires p != []
    ensures Get(r, p) == Get(SelectField(r, p[0], false), p[1..])
  {
    if |p| > 1 {
      GetFromFront(r, p[..|p| - 1]);
      assert p[..|p| - 1][1..] == p[1..][..|p| - 2];
    }
  }

  lemma {:induction false} AccessChain(root: Expr, p: seq<string>)
    requires root.Ident? || (root.Call? && !IsIndexCall(root))
    ensures ResolveChain(Access(root, p)) == Chain(root, p, true) && IndexKeys(Access(root, p)) == []
    decreases |p|
  {
    if p != [] {
      var front, last := p[..|p| - 1], p[|p| - 1];
      AccessChain(root, front);
      SelectChain(Access(root, front), last);
      assert front + [last] == p;
    }
  }

  lemma SelectChain(e: Expr, field: string)
    requires ResolveChain(e).Chain? && ResolveChain(e).exact
    ensures ResolveChain(Select(e, field, false)) == ResolveChain(e).(path := ResolveChain(e).path + [field])
    ensures IndexKeys(Select(e, field, false)) == IndexKeys(e)
  {
  }

  lemma AccessReads(cfg: Config, p: seq<string>)
    ensures p != [] ==> ReadsOf(cfg, false, Access(Ident(cfg.objectVar), p)) == Reads([p], [], true)
    ensures p == [] ==> !ReadsOf(cfg, false, Access(Ident(cfg.objectVar), p)).complete
  {
    var e := Access(Ident(cfg.objectVar), p);
    AccessChain(Ident(cfg.objectVar), p);
    if p != [] {
      assert ReadsOf(cfg, false, e) == RecordReads(cfg, false, ResolveChain(e), e);
      assert ReadsAll(cfg, false, IndexKeys(e)) == NO_READS;
      NoReadsNeutral(Reads([p], [], true));
    }
  }

  lemma {:induction false} AccessEval(root: Expr, p: seq<string>, env: Env, w: World)
    ensures Eval(Access(root, p), env, w) == Get(Eval(root, env, w), p)
  {
    if p != [] { AccessEval(root, p[..|p| - 1], env, w); }
  }

  function Nest(p: seq<string>, leaf: Value): Value {
    if p == [] then leaf else VMap(map[KStr(p[0]) := Nest(p[1..], leaf)])
  }

  lemma {:induction false} GetNested(p: seq<string>, leaf: Value)
    ensures Get(Ok(Nest(p, leaf)), p) == Ok(leaf)
  {
    if p != [] {
      GetFromFront(Ok(Nest(p, leaf)), p);
      GetNested(p[1..], leaf);
    }
  }

  lemma {:induction false} UncoveredLoses(p: seq<string>, t: Tree) returns (leaf: Value)
    requires !Covers(t, p)
    ensures leaf.VMap? && Get(Ok(Prune(Nest(p, leaf), t)), p) != Ok(leaf)
    decreases p
  {
    if p == [] {
      var unused := FreshString(t.children.Keys);
      leaf := VMap(map[KStr(unused) := VNull]);
      assert KStr(unused) in leaf.entries && KStr(unused) !in Prune(leaf, t).entries;
    } else if p[0] in t.children {
      leaf := UncoveredLoses(p[1..], t.children[p[0]]);
      var nested := Nest(p, leaf);
      GetFromFront(Ok(Prune(nested, t)), p);
      assert KStr(p[0]) in nested.entries;
    } else {
      leaf := VMap(map[]);
      var nested := Nest(p, leaf);
      GetFromFront(Ok(Prune(nested, t)), p);
      assert KStr(p[0]) !in Prune(nested, t).entries;
      GetOfError(SelectField(Ok(Prune(nested, t)), p[0], false), p[1..]);
    }
  }

  lemma {:induction false} GetOfError(r: Res, p: seq<string>)
    requires r.Err?
    ensures Get(r, p).Err?
  {
    if p != [] { GetOfError(r, p[..|p| - 1]); }
  }

  /** For a plain field access the derived path is exact: a tree preserves its evaluation on
  every object if and only if it covers that path. */
  lemma DerivedPathIsNecessary(objectVar: string, p: seq<string>, t: Tree, env: Env, w: World)
    ensures (forall obj: Value ::
               Eval(Access(Ident(objectVar), p), env[objectVar := Ok(Prune(obj, t))], w)
               == Eval(Access(Ident(objectVar), p), env[objectVar := Ok(obj)], w))
       <==> Covers(t, p)
  {
    var e := Access(Ident(objectVar), p);
    AccessChain(Ident(objectVar), p);
    if Covers(t, p) {
      forall obj: Value
        ensures Eval(e, env[objectVar := Ok(Prune(obj, t))], w) == Eval(e, env[objectVar := Ok(obj)], w)
      {
        CoveredChainAgrees(e, t, env[objectVar := Ok(obj)], w, env[objectVar := Ok(Prune(obj, t))], w);
      }
    } else {
      var leaf := UncoveredLoses(p, t);
      var obj := Nest(p, leaf);
      GetNested(p, leaf);
      AccessEval(Ident(objectVar), p, env[objectVar := Ok(obj)], w);
      AccessEval(Ident(objectVar), p, env[objectVar := Ok(Prune(obj, t))], w);
    }
  }

  /** "key" in root.p, with the current or the old operator. */
  function Membership(op: string, key: string, root: Expr, p: seq<string>): Expr {
    Call(op, false, [Literal(VStr(key)), Access(root, p)])
  }

  lemma {:induction false} AccessAccesses(o: string, p: seq<string>, rest: seq<string>)
    ensures AccessesOf(o, "", false, Access(Ident(o), p), rest) == {OnObject(p + rest)}
    decreases |p|
  {
    if p == [] {
      assert [] + rest == rest;
    } else {
      var front, last := p[..|p| - 1], p[|p| - 1];
      AccessAccesses(o, front, [last] + rest);
      assert front + ([last] + rest) == p + rest;
    }
  }

  /** A membership test reads that one key, and the derivation is complete even for a test on the object
  itself. */
  lemma MembershipReadsTheKey(op: string, key: string, o: string, p: seq<string>, fieldPaths: seq<seq<string>>)
    requires op == "@in" || op == "_in_"
    requires Elems(fieldPaths) == ObjectPaths(AccessesOf(o, "", false, Membership(op, key, Ident(o), p), []))
    requires StrictlySorted(PathLess, fieldPaths)
    ensures AccessesOf(o, "", false, Membership(op, key, Ident(o), p), []) == {OnObject(p + [key])}
    ensures OnObject([]) !in AccessesOf(o, "", false, Membership(op, key, Ident(o), p), [])
    ensures fieldPaths == [p + [key]]
  {
    AccessAccesses(o, p, [key]);
    var found := AccessesOf(o, "", false, Membership(op, key, Ident(o), p), []);
    assert found == {OnObject(p + [key])};
    assert p + [key] != [] && ObjectPaths(found) == {p + [key]};
    PathLessIsStrictTotal();
    assert Elems([p + [key]]) == {p + [key]};
    SortedIsUnique(PathLess, fieldPaths, [p + [key]]);
  }

  /** For a membership test the derived path is exact too: a tree preserves the test on every object if
  and only if it can be followed along the path, whether or not it keeps what is there. */
  lemma MembershipPathIsNecessary(op: string, key: string, o: string, p: seq<string>, t: Tree, env: Env, w: World)
    requires op == "@in" || op == "_in_"
    ensures (forall obj: Value ::
               Eval(Membership(op, key, Ident(o), p), env[o := Ok(Prune(obj, t))], w)
               == Eval(Membership(op, key, Ident(o), p), env[o := Ok(obj)], w))
       <==> Follows(t, p + [key])
  {
    var e := Membership(op, key, Ident(o), p);
    if Follows(t, p + [key]) {
      forall obj: Value ensures Eval(e, env[o := Ok(Prune(obj, t))], w) == Eval(e, env[o := Ok(obj)], w) {
        MembershipFollowed(op, key, o, p, t, env, w, obj);
      }
    } else {
      MembershipLost(op, key, o, p, t, env, w);
      var obj := Nest(p + [key], VNull);
      assert Eval(e, env[o := Ok(Prune(obj, t))], w) != Eval(e, env[o := Ok(obj)], w);
    }
  }

  lemma MembershipLost(op: string, key: string, o: string, p: seq<string>, t: Tree, env: Env, w: World)
    requires (op == "@in" || op == "_in_") && !Follows(t, p + [key])
    ensures var obj := Nest(p + [key], VNull);
      Eval(Membership(op, key, Ident(o), p), env[o := Ok(Prune(obj, t))], w)
      != Eval(Membership(op, key, Ident(o), p), env[o := Ok(obj)], w)
  {
    var obj := Nest(p + [key], VNull);
    MembershipEval(op, key, o, p, env[o := Ok(obj)], w);
    MembershipEval(op, key, o, p, env[o := Ok(Prune(obj, t))], w);
    NestedKeyFound(p, key);
    UnfollowedLoses(p, key, t);
  }

  lemma NestedKeyFound(p: seq<string>, key: string)
    ensures Contains(Ok(VStr(key)), Get(Ok(Nest(p + [key], VNull)), p)) == Ok(VBool(true))
  {
    GetNested(p + [key], VNull);
    assert (p + [key])[..|p|] == p;
  }

  lemma MembershipEval(op: string, key: string, o: string, p: seq<string>, env: Env, w: World)
    requires (op == "@in" || op == "_in_") && o in env
    ensures Eval(Membership(op, key, Ident(o), p), env, w) == Contains(Ok(VStr(key)), Get(env[o], p))
  {
    EvalOperands(Membership(op, key, Ident(o), p), env, w);
    AccessEval(Ident(o), p, env, w);
  }

  lemma MembershipFollowed(op: string, key: string, o: string, p: seq<string>, t: Tree, env: Env, w: World, obj: Value)
    requires (op == "@in" || op == "_in_") && Follows(t, p + [key])
    ensures Eval(Membership(op, key, Ident(o), p), env[o := Ok(Prune(obj, t))], w)
         == Eval(Membership(op, key, Ident(o), p), env[o := Ok(obj)], w)
  {
    var full, cached := env[o := Ok(obj)], env[o := Ok(Prune(obj, t))];
    FollowsStep(t, p, key);
    AccessChain(Ident(o), p);
    ChainAgrees(Access(Ident(o), p), t, full, w, cached, w);
    AccessEval(Ident(o), p, full, w);
    AccessEval(Ident(o), p, cached, w);
    StepAgrees(Get(Ok(obj), p), Descend(t, p), key);
    MembershipEval(op, key, o, p, full, w);
    MembershipEval(op, key, o, p, cached, w);
  }

  lemma {:induction false} UnfollowedLoses(p: seq<string>, key: string, t: Tree)
    requires !Follows(t, p + [key])
    ensures Contains(Ok(VStr(key)), Get(Ok(Prune(Nest(p + [key], VNull), t)), p)) != Ok(VBool(true))
    decreases p
  {
    var q := p + [key];
    var nested := Nest(q, VNull);
    assert q[1..] == if p == [] then [] else p[1..] + [key];
    if p == [] {
      assert q[0] == key && key !in t.children;
    } else {
      assert q[0] == p[0] && KStr(p[0]) in nested.entries;
      GetFromFront(Ok(Prune(nested, t)), p);
      if p[0] in t.children {
        UnfollowedLoses(p[1..], key, t.children[p[0]]);
      } else {
        assert KStr(p[0]) !in Prune(nested, t).entries;
        GetOfError(SelectField(Ok(Prune(nested, t)), p[0], false), p[1..]);
      }
    }
  }

  /** The targets of a complete walk, on the expression: the kinds it looks up by literals, derivable
  exactly when none of their objects is used whole, with exactly the paths read off them. */
  lemma TargetsMeanAccesses(e: Expr, o: string, f: string, targets: seq<LookupTarget>, g: Gvk)
    requires OnObject([]) !in AccessesOf(o, f, false, e, [])
    requires IsMerge(ReadsOf(Config(o, f), false, e).lookups, targets)
    ensures var looked := LookupPaths(AccessesOf(o, f, false, e, []));
      && (g in TargetKinds(targets) <==> exists l :: l in looked && GvkOf(l.apiVersion, l.kind) == g)
      && (forall t :: t in targets && TargetGvk(t) == g ==>
            && (t.derivable <==> forall l :: l in looked && GvkOf(l.apiVersion, l.kind) == g ==> l.path != [])
            && (t.derivable ==> Elems(t.paths) == set l | l in looked && GvkOf(l.apiVersion, l.kind) == g :: l.path))
  {
    WalkDerives(Config(o, f), false, e);
    var ls, looked := ReadsOf(Config(o, f), false, e).lookups, LookupPaths(AccessesOf(o, f, false, e, []));
    assert forall l :: l in ls <==> l in looked by { assert forall l :: l in ls <==> l in Elems(ls); }
    assert PathsOff(ls, g) == set l | l in looked && GvkOf(l.apiVersion, l.kind) == g :: l.path;
  }
}
