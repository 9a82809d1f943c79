/** Pruning to the derived field paths preserves evaluation: for every expression whose object paths
are retained and whose lookups find what they read, every object, every set of looked-up objects
and every interpretation of the environment's functions, the result or error is the same. */
module PruneSoundness {
  import opened Options
  import opened Cel
  import opened FieldTree
  import opened FieldPaths
  import opened LookupUses

  /** What a lookup answers when the kinds in `trees` are served from a pruned cache: for
  calls that name their kind with literals, or, with `byGvk`, for every call that ends up
  naming one of them. */
  function ServedObject(w: World, trees: map<Gvk, Tree>, byGvk: bool,
                        literal: bool, apiVersion: string, kind: string, ns: string, name: string): Res
  {
    var r := w.fetch(literal, apiVersion, kind, ns, name);
    var g := GvkOf(apiVersion, kind);
    if (literal || byGvk) && g in trees then PruneRes(r, trees[g]) else r
  }

  /** cached is w with its lookups served that way, or, each time the cache has not caught up or
  cannot be read, through the API after all. */
  ghost predicate Serves(cached: World, w: World, trees: map<Gvk, Tree>, byGvk: bool) {
    && cached.lookupFunc == w.lookupFunc && cached.apply == w.apply && cached.order == w.order
    && forall literal, apiVersion, kind, ns, name ::
         || cached.fetch(literal, apiVersion, kind, ns, name)
            == ServedObject(w, trees, byGvk, literal, apiVersion, kind, ns, name)
         || cached.fetch(literal, apiVersion, kind, ns, name) == w.fetch(literal, apiVersion, kind, ns, name)
  }

  /** cached binds the object variable, while it is not shadowed, to the pruned object. */
  ghost predicate EnvAgrees(objectVar: string, shadowed: bool, t: Tree, full: Env, cached: Env) {
    && full.Keys == cached.Keys
    && forall x :: x in full ==>
         cached[x] == if x == objectVar && !shadowed then PruneRes(full[x], t) else full[x]
  }

  /** The tree retains every object path of r, or the whole object. */
  ghost predicate Retains(t: Tree, r: Reads) {
    t.keep || (r.complete && forall p :: p in r.paths ==> Covers(t, p))
  }

  lemma RetainsThen(t: Tree, a: Reads, b: Reads)
    requires Retains(t, Then(a, b))
    ensures Retains(t, a) && Retains(t, b)
  {
  }

  /** The call can end up naming kind g: some strings its literals allow name it. */
  ghost predicate MayName(call: Expr, g: Gvk) {
    && call.Call? && |call.operands| == LOOKUP_ARGS
    && exists a, k :: GvkOf(a, k) == g
         && (IsStringLiteral(call.operands[0]) ==> call.operands[0].value.s == a)
         && (IsStringLiteral(call.operands[1]) ==> call.operands[1].value.s == k)
  }

  /** Every tree the call can be served from retains the path the use reads. */
  ghost predicate Admits(trees: map<Gvk, Tree>, byGvk: bool, u: Use) {
    byGvk || NamedUse(u) ==> forall g :: g in trees && MayName(u.call, g) ==> Covers(trees[g], u.path)
  }

  ghost predicate AdmitsAll(trees: map<Gvk, Tree>, byGvk: bool, us: set<Use>) {
    forall u :: u in us ==> Admits(trees, byGvk, u)
  }

  /** Everything fixed along a derivation: the two environments' worlds and the analysis. */
  datatype Setting = Setting(objectVar: string, t: Tree, trees: map<Gvk, Tree>,
                             w: World, cachedWorld: World, byGvk: bool)
  {
    ghost predicate Valid() { Serves(cachedWorld, w, trees, byGvk) }
    function Cfg(): Config { Config(objectVar, w.lookupFunc) }
    ghost predicate Allows(us: set<Use>) { AdmitsAll(trees, byGvk, us) }
    /** What is read off the object is retained, and every lookup of e finds what it reads. */
    ghost predicate Fits(shadowed: bool, e: Expr) {
      Retains(t, ReadsOf(Cfg(), shadowed, e)) && Allows(Uses(w.lookupFunc, e))
    }
    ghost predicate FitsAll(shadowed: bool, es: seq<Expr>) {
      Retains(t, ReadsAll(Cfg(), shadowed, es)) && Allows(UsesAll(w.lookupFunc, es))
    }
  }

  /** One field access on a value and on its pruning. */
  lemma StepAgrees(r: Res, d: Tree, field: string)
    requires d.keep || field in d.children
    ensures var d' := if d.keep then d else d.children[field];
      && SelectField(PruneRes(r, d), field, false) == PruneRes(SelectField(r, field, false), d')
      && IndexValue(PruneRes(r, d), Ok(VStr(field))) == PruneRes(IndexValue(r, Ok(VStr(field))), d')
    ensures SelectField(PruneRes(r, d), field, true) == SelectField(r, field, true)
    ensures Contains(Ok(VStr(field)), PruneRes(r, d)) == Contains(Ok(VStr(field)), r)
  {
  }

  lemma TestIsNeverPruned(r: Res, field: string, d: Tree)
    ensures PruneRes(SelectField(r, field, true), d) == SelectField(r, field, true)
  {
  }

  lemma EvalOperands(e: Expr, env: Env, w: World)
    requires e.Call? && |e.operands| == 2
    ensures EvalAll(e.operands, env, w) == [Eval(e.operands[0], env, w), Eval(e.operands[1], env, w)]
  {
  }

  /** Along a chain whose root is pruned by t: an exact chain is pruned by what is left of t
  below its path, a cut one is not pruned at all. */
  lemma {:induction false} ChainAgrees(e: Expr, t: Tree, full: Env, w: World, cached: Env, w': World)
    requires ResolveChain(e).Chain?
    requires var c := ResolveChain(e);
      && Eval(c.base, cached, w') == PruneRes(Eval(c.base, full, w), t)
      && Follows(t, c.path) && (!c.exact ==> Covers(t, c.path))
    requires forall k :: k in IndexKeys(e) ==> Eval(k, cached, w') == Eval(k, full, w)
    ensures var c := ResolveChain(e);
      Eval(e, cached, w') == if c.exact then PruneRes(Eval(e, full, w), Descend(t, c.path)) else Eval(e, full, w)
    decreases e
  {
    var c := ResolveChain(e);
    if e.Select? {
      var inner := ResolveChain(e.operand);
      if inner.exact { FollowsStep(t, inner.path, e.field); }
      ChainAgrees(e.operand, t, full, w, cached, w');
      if inner.exact {
        StepAgrees(Eval(e.operand, full, w), Descend(t, inner.path), e.field);
        TestIsNeverPruned(Eval(e.operand, full, w), e.field, Descend(t, c.path));
      }
    } else if IsIndexCall(e) {
      var inner, key := ResolveChain(e.operands[0]), e.operands[1];
      if inner.exact && IsStringLiteral(key) { FollowsStep(t, inner.path, key.value.s); }
      assert key in IndexKeys(e);
      ChainAgrees(e.operands[0], t, full, w, cached, w');
      EvalOperands(e, full, w);
      EvalOperands(e, cached, w');
      if inner.exact && IsStringLiteral(key) {
        StepAgrees(Eval(e.operands[0], full, w), Descend(t, inner.path), key.value.s);
      } else if inner.exact {
        CoversFollows(t, inner.path);
      }
    }
  }

  /** A chain whose path the tree covers evaluates to the same result. */
  lemma CoveredChainAgrees(e: Expr, t: Tree, full: Env, w: World, cached: Env, w': World)
    requires ResolveChain(e).Chain? && Covers(t, ResolveChain(e).path)
    requires Eval(ResolveChain(e).base, cached, w') == PruneRes(Eval(ResolveChain(e).base, full, w), t)
    requires forall k :: k in IndexKeys(e) ==> Eval(k, cached, w') == Eval(k, full, w)
    ensures Eval(e, cached, w') == Eval(e, full, w)
  {
    CoversFollows(t, ResolveChain(e).path);
    ChainAgrees(e, t, full, w, cached, w');
  }

  /** A membership test of a literal key in a chain, when the tree covers that key. */
  lemma MembershipAgrees(e: Expr, t: Tree, full: Env, w: World, cached: Env, w': World)
    requires MembershipChain(e).Chain? && Covers(t, MembershipChain(e).path)
    requires Eval(MembershipChain(e).base, cached, w') == PruneRes(Eval(MembershipChain(e).base, full, w), t)
    requires forall k :: k in IndexKeys(e.operands[1]) ==> Eval(k, cached, w') == Eval(k, full, w)
    ensures Eval(e, cached, w') == Eval(e, full, w)
  {
    var container, key := e.operands[1], e.operands[0].value.s;
    var c := ResolveChain(container);
    CoversFollows(t, MembershipChain(e).path);
    if c.exact { FollowsStep(t, c.path, key); }
    ChainAgrees(container, t, full, w, cached, w');
    if c.exact { StepAgrees(Eval(container, full, w), Descend(t, c.path), key); }
    EvalOperands(e, full, w);
    EvalOperands(e, cached, w');
  }

  /** The expression evaluates alike in the full and in the cached environment. */
  ghost predicate Agree(s: Setting, e: Expr, full: Env, cached: Env) {
    Eval(e, cached, s.cachedWorld) == Eval(e, full, s.w)
  }

  predicate AllStrings(args: seq<Res>) {
    forall i :: 0 <= i < |args| ==> args[i].Ok? && args[i].value.VStr?
  }

  /** The tree by which the cached environment prunes what a chain root evaluates to. */
  function RootTree(s: Setting, base: Expr, full: Env): Tree {
    if base.Ident? then s.t
    else if !IsLookupCall(s.w.lookupFunc, base) then WHOLE
    else
      var args := EvalAll(base.operands, full, s.w);
      if !AllStrings(args) then WHOLE
      else
        var a, k, ns, n := args[0].value.s, args[1].value.s, args[2].value.s, args[3].value.s;
        var literal := NamesItsKind(base);
        if && (s.byGvk || literal) && GvkOf(a, k) in s.trees
           && s.cachedWorld.fetch(literal, a, k, ns, n) != s.w.fetch(literal, a, k, ns, n)
        then s.trees[GvkOf(a, k)]
        else WHOLE
  }

  lemma LookupRootAgrees(s: Setting, base: Expr, full: Env, cached: Env)
    requires s.Valid() && IsLookupCall(s.w.lookupFunc, base)
    requires EvalAll(base.operands, cached, s.cachedWorld) == EvalAll(base.operands, full, s.w)
    ensures Eval(base, cached, s.cachedWorld) == PruneRes(Eval(base, full, s.w), RootTree(s, base, full))
  {
  }

  lemma FirstTwoArguments(call: Expr, env: Env, w: World)
    requires call.Call? && |call.operands| == LOOKUP_ARGS
    ensures var args := EvalAll(call.operands, env, w);
      args[0] == Eval(call.operands[0], env, w) && args[1] == Eval(call.operands[1], env, w)
  {
    assert EvalAll(call.operands[1..], env, w)[0] == Eval(call.operands[1..][0], env, w);
  }

  /** Whatever tree a call is served from, it is one the call can name, so an admitted use's path is
  covered there. */
  lemma LookupRootCovers(s: Setting, u: Use, full: Env)
    requires IsLookupCall(s.w.lookupFunc, u.call) && Admits(s.trees, s.byGvk, u)
    ensures Covers(RootTree(s, u.call, full), u.path)
  {
    var args := EvalAll(u.call.operands, full, s.w);
    FirstTwoArguments(u.call, full, s.w);
    if AllStrings(args) {
      assert MayName(u.call, GvkOf(args[0].value.s, args[1].value.s));
    }
  }

  /** Recording a chain rooted at the object variable or at a lookup is sound. */
  lemma RecordedRoot(s: Setting, shadowed: bool, c: Chain, chain: Expr, full: Env, cached: Env)
    requires s.Valid() && IsRoot(s.Cfg(), shadowed, c) && Size(c.base) <= Size(chain)
    requires EnvAgrees(s.objectVar, shadowed, s.t, full, cached)
    requires Retains(s.t, RecordReads(s.Cfg(), shadowed, c, chain))
    requires s.Allows(if c.base.Ident? then UsesAll(s.w.lookupFunc, IndexKeys(chain))
                      else ChainUses(s.w.lookupFunc, c, chain))
    ensures Covers(RootTree(s, c.base, full), c.path)
    ensures Eval(c.base, cached, s.cachedWorld) == PruneRes(Eval(c.base, full, s.w), RootTree(s, c.base, full))
    ensures forall k :: k in IndexKeys(chain) ==> Agree(s, k, full, cached)
    decreases Size(chain), 1, 0
  {
    var keys := ReadsAll(s.Cfg(), shadowed, IndexKeys(chain));
    if c.base.Ident? {
      var own := Reads([c.path], [], true);
      if c.path != [] { RetainsThen(s.t, own, keys); }
      assert c.path in own.paths;
      AllAgree(s, shadowed, IndexKeys(chain), full, cached);
    } else {
      var args := ReadsAll(s.Cfg(), shadowed, c.base.operands);
      RetainsThen(s.t, LookupReads(c.base, c.path), Then(keys, args));
      RetainsThen(s.t, keys, args);
      AllAgree(s, shadowed, IndexKeys(chain), full, cached);
      AllAgree(s, shadowed, c.base.operands, full, cached);
      LookupRootAgrees(s, c.base, full, cached);
      assert Use(c.base, c.path) in ChainUses(s.w.lookupFunc, c, chain);
      LookupRootCovers(s, Use(c.base, c.path), full);
    }
  }

  /** The soundness theorem, by induction on the expression. */
  lemma {:induction false} Sound(s: Setting, shadowed: bool, e: Expr, full: Env, cached: Env)
    requires s.Valid() && EnvAgrees(s.objectVar, shadowed, s.t, full, cached) && s.Fits(shadowed, e)
    ensures Agree(s, e, full, cached)
    decreases Size(e), 2, 0
  {
    var m, c := MembershipChain(e), ResolveChain(e);
    if IsRoot(s.Cfg(), shadowed, m) {
      if m.base.Ident? { VariableMembershipUses(s.w.lookupFunc, e); }
      RecordedRoot(s, shadowed, m, e.operands[1], full, cached);
      MembershipAgrees(e, RootTree(s, m.base, full), full, s.w, cached, s.cachedWorld);
    } else if IsRoot(s.Cfg(), shadowed, c) {
      if c.base.Ident? { VariableChainUses(s.w.lookupFunc, e); }
      RecordedRoot(s, shadowed, c, e, full, cached);
      CoveredChainAgrees(e, RootTree(s, c.base, full), full, s.w, cached, s.cachedWorld);
    } else {
      ChildrenSound(s, shadowed, e, full, cached);
    }
  }

  lemma {:induction false} ChildrenSound(s: Setting, shadowed: bool, e: Expr, full: Env, cached: Env)
    requires s.Valid() && EnvAgrees(s.objectVar, shadowed, s.t, full, cached)
    requires !IsRoot(s.Cfg(), shadowed, ResolveChain(e))
    requires Retains(s.t, ChildReads(s.Cfg(), shadowed, e)) && s.Allows(ChildUses(s.w.lookupFunc, e))
    ensures Agree(s, e, full, cached)
    decreases Size(e), 1, 0
  {
    match e {
      case Ident(name) =>
      case Literal(_) =>
      case Select(operand, _, _) => Sound(s, shadowed, operand, full, cached);
      case Call(_, _, operands) => AllAgree(s, shadowed, operands, full, cached);
      case ListLit(elements) => AllAgree(s, shadowed, elements, full, cached);
      case MapLit(keysAndValues) => AllAgree(s, shadowed, keysAndValues, full, cached);
      case StructLit(_, _, values) => AllAgree(s, shadowed, values, full, cached);
      case Comprehension(_, _, _, _, _, _, _, _) => ComprehensionSound(s, shadowed, e, full, cached);
      case Unspecified =>
    }
  }

  lemma {:induction false} AllAgree(s: Setting, shadowed: bool, es: seq<Expr>, full: Env, cached: Env)
    requires s.Valid() && EnvAgrees(s.objectVar, shadowed, s.t, full, cached) && s.FitsAll(shadowed, es)
    ensures EvalAll(es, cached, s.cachedWorld) == EvalAll(es, full, s.w)
    ensures forall e :: e in es ==> Agree(s, e, full, cached)
    decreases SizeAll(es), 0, 0
  {
    if es != [] {
      RetainsThen(s.t, ReadsOf(s.Cfg(), shadowed, es[0]), ReadsAll(s.Cfg(), shadowed, es[1..]));
      Sound(s, shadowed, es[0], full, cached);
      AllAgree(s, shadowed, es[1..], full, cached);
      assert es == [es[0]] + es[1..];
    }
  }

  /** What a comprehension fits, its parts fit, each in its scope. */
  lemma PartsFit(s: Setting, shadowed: bool, c: Expr)
    requires c.Comprehension?
    requires Retains(s.t, ChildReads(s.Cfg(), shadowed, c)) && s.Allows(ChildUses(s.w.lookupFunc, c))
    ensures s.Fits(shadowed, c.iterRange) && s.Fits(shadowed, c.accuInit)
    ensures s.Fits(LoopShadows(s.Cfg(), shadowed, c), c.loopCondition)
    ensures s.Fits(LoopShadows(s.Cfg(), shadowed, c), c.loopStep)
    ensures s.Fits(shadowed || c.accuVar == s.objectVar, c.result)
  {
    var cfg, inLoop := s.Cfg(), LoopShadows(s.Cfg(), shadowed, c);
    var r1, r2 := ReadsOf(cfg, shadowed, c.iterRange), ReadsOf(cfg, shadowed, c.accuInit);
    var r3, r4 := ReadsOf(cfg, inLoop, c.loopCondition), ReadsOf(cfg, inLoop, c.loopStep);
    var r5 := ReadsOf(cfg, shadowed || c.accuVar == s.objectVar, c.result);
    RetainsThen(s.t, r1, Then(r2, Then(r3, Then(r4, r5))));
    RetainsThen(s.t, r2, Then(r3, Then(r4, r5)));
    RetainsThen(s.t, r3, Then(r4, r5));
    RetainsThen(s.t, r4, r5);
  }

  /** Binding a name alike on both sides; it shadows the object variable if it has its name. */
  lemma BindingAgrees(objectVar: string, shadowed: bool, t: Tree, full: Env, cached: Env, name: string, r: Res)
    requires EnvAgrees(objectVar, shadowed, t, full, cached)
    ensures EnvAgrees(objectVar, shadowed || name == objectVar, t, full[name := r], cached[name := r])
  {
  }

  lemma {:induction false} ComprehensionSound(s: Setting, shadowed: bool, c: Expr, full: Env, cached: Env)
    requires c.Comprehension? && s.Valid() && EnvAgrees(s.objectVar, shadowed, s.t, full, cached)
    requires Retains(s.t, ChildReads(s.Cfg(), shadowed, c)) && s.Allows(ChildUses(s.w.lookupFunc, c))
    ensures Agree(s, c, full, cached)
    decreases Size(c), 0, 1
  {
    var inAccu := shadowed || c.accuVar == s.objectVar;
    PartsFit(s, shadowed, c);
    Sound(s, shadowed, c.iterRange, full, cached);
    Sound(s, shadowed, c.accuInit, full, cached);
    var range := Eval(c.iterRange, full, s.w);
    if range.Ok? {
      var bindings := Bindings(range.value, c.iterVar2.Some?, s.w);
      assert bindings == Bindings(range.value, c.iterVar2.Some?, s.cachedWorld);
      if bindings.Some? {
        var accu := Eval(c.accuInit, full, s.w);
        LoopSound(s, shadowed, c, bindings.value, accu, full, cached);
        var final := Loop(c, bindings.value, full, s.w, accu);
        BindingAgrees(s.objectVar, shadowed, s.t, full, cached, c.accuVar, final);
        Sound(s, inAccu, c.result, full[c.accuVar := final], cached[c.accuVar := final]);
      }
    }
  }

  lemma LoopEnvAgrees(s: Setting, shadowed: bool, c: Expr, full: Env, cached: Env, accu: Res, b: Binding)
    requires c.Comprehension? && EnvAgrees(s.objectVar, shadowed, s.t, full, cached)
    ensures EnvAgrees(s.objectVar, LoopShadows(s.Cfg(), shadowed, c), s.t,
                      LoopEnv(c, full, accu, b), LoopEnv(c, cached, accu, b))
  {
  }

  lemma {:induction false} LoopSound(s: Setting, shadowed: bool, c: Expr, bindings: seq<Binding>, accu: Res,
                                     full: Env, cached: Env)
    requires c.Comprehension? && s.Valid() && EnvAgrees(s.objectVar, shadowed, s.t, full, cached)
    requires s.Fits(LoopShadows(s.Cfg(), shadowed, c), c.loopCondition)
    requires s.Fits(LoopShadows(s.Cfg(), shadowed, c), c.loopStep)
    ensures Loop(c, bindings, cached, s.cachedWorld, accu) == Loop(c, bindings, full, s.w, accu)
    decreases Size(c), 0, 0, |bindings|
  {
    if bindings != [] {
      var inLoop := LoopShadows(s.Cfg(), shadowed, c);
      var inner, inner' := LoopEnv(c, full, accu, bindings[0]), LoopEnv(c, cached, accu, bindings[0]);
      LoopEnvAgrees(s, shadowed, c, full, cached, accu, bindings[0]);
      Sound(s, inLoop, c.loopCondition, inner, inner');
      if Eval(c.loopCondition, inner, s.w) != Ok(VBool(false)) {
        Sound(s, inLoop, c.loopStep, inner, inner');
        LoopSound(s, shadowed, c, bindings[1..], Eval(c.loopStep, inner, s.w), full, cached);
      }
    }
  }
}
