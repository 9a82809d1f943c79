/** How the object monitor serves lookups at run time: by the kind a call ends up naming, not by
whether the walker recorded the call. Exactly when that preserves evaluation, for a field access off
a lookup, and two expressions for which it does not. */
module LookupServing {
  import opened Options
  import opened Orders
  import opened Cel
  import opened FieldTree
  import opened FieldPaths
  import opened LookupUses
  import opened PruneSoundness
  import opened LookupTargets

  lemma EvalFour(call: Expr, env: Env, w: World)
    requires call.Call? && |call.operands| == LOOKUP_ARGS
    ensures var es := call.operands;
      EvalAll(es, env, w) == [Eval(es[0], env, w), Eval(es[1], env, w), Eval(es[2], env, w), Eval(es[3], env, w)]
  {
    var es := call.operands;
    assert es[1..][1..] == es[2..] && es[2..][1..] == es[3..] && es[3..][1..] == [];
    assert EvalAll(es[3..], env, w) == [Eval(es[3], env, w)];
    assert EvalAll(es[2..], env, w) == [Eval(es[2], env, w)] + EvalAll(es[3..], env, w);
    assert EvalAll(es[1..], env, w) == [Eval(es[1], env, w)] + EvalAll(es[2..], env, w);
  }

  /** The arguments of the call are the strings a, k, ns and name. */
  ghost predicate Passes(call: Expr, env: Env, w: World, a: string, k: string, ns: string, name: string) {
    && call.Call? && |call.operands| == LOOKUP_ARGS
    && Eval(call.operands[0], env, w) == Ok(VStr(a)) && Eval(call.operands[1], env, w) == Ok(VStr(k))
    && Eval(call.operands[2], env, w) == Ok(VStr(ns)) && Eval(call.operands[3], env, w) == Ok(VStr(name))
  }

  lemma LookupEval(call: Expr, p: seq<string>, env: Env, w: World, a: string, k: string, ns: string, name: string)
    requires IsLookupCall(w.lookupFunc, call) && Passes(call, env, w, a, k, ns, name)
    ensures Eval(Access(call, p), env, w) == Get(w.fetch(NamesItsKind(call), a, k, ns, name), p)
  {
    EvalFour(call, env, w);
    AccessEval(call, p, env, w);
  }

  // A field access off a lookup, exactly.

  /** The strings a and k agree with the literals among the first two arguments. */
  ghost predicate LiteralsAllow(call: Expr, a: string, k: string)
    requires call.Call? && |call.operands| == LOOKUP_ARGS
  {
    && (IsStringLiteral(call.operands[0]) ==> call.operands[0].value.s == a)
    && (IsStringLiteral(call.operands[1]) ==> call.operands[1].value.s == k)
  }

  /** The watched object is bound to an object. */
  ghost predicate BindsObject(env: Env, objectVar: string) {
    objectVar in env && env[objectVar].Ok? && env[objectVar].value.VMap?
  }

  /** env makes the call pass a and k, in every world. */
  ghost predicate Sets(f: string, call: Expr, env: Env, a: string, k: string) {
    forall w: World :: w.lookupFunc == f ==> exists ns, name :: Passes(call, env, w, a, k, ns, name)
  }

  /** The call can be made to name every kind its literals allow, the watched object being an object.
  Nothing is looked up in its arguments. */
  ghost predicate Settable(f: string, objectVar: string, call: Expr) {
    && IsLookupCall(f, call) && UsesAll(f, call.operands) == {}
    && forall a, k :: LiteralsAllow(call, a, k) ==>
         exists env :: BindsObject(env, objectVar) && Sets(f, call, env, a, k)
  }

  lemma AccessUses(f: string, call: Expr, p: seq<string>)
    requires IsLookupCall(f, call) && UsesAll(f, call.operands) == {}
    ensures Uses(f, Access(call, p)) == {Use(call, p)}
  {
    AccessChain(call, p);
    assert UsesAll(f, IndexKeys(Access(call, p))) == {};
    assert Uses(f, Access(call, p)) == ChainUses(f, Chain(call, p, true), Access(call, p));
  }

  /** An admitted access evaluates alike, whatever kind it ends up naming. */
  lemma AdmittedAccess(call: Expr, p: seq<string>, trees: map<Gvk, Tree>, env: Env, w: World, cached: World)
    requires IsLookupCall(w.lookupFunc, call) && UsesAll(w.lookupFunc, call.operands) == {}
    requires Serves(cached, w, trees, true) && Admits(trees, true, Use(call, p))
    ensures Eval(Access(call, p), env, cached) == Eval(Access(call, p), env, w)
  {
    AccessUses(w.lookupFunc, call, p);
    Sound(Setting("", WHOLE, trees, w, cached, true), false, Access(call, p), env, env);
  }

  function ServedWorld(w: World, trees: map<Gvk, Tree>): World {
    w.(fetch := (l: bool, a: string, k: string, ns: string, n: string) => ServedObject(w, trees, true, l, a, k, ns, n))
  }

  lemma ServedWorldServes(w: World, trees: map<Gvk, Tree>)
    ensures Serves(ServedWorld(w, trees), w, trees, true)
  {
  }

  /** A kind the call can name that does not retain the path, and arguments that name it. */
  lemma UnadmittedKind(f: string, objectVar: string, call: Expr, p: seq<string>, trees: map<Gvk, Tree>)
    returns (a: string, k: string, env: Env)
    requires Settable(f, objectVar, call) && !Admits(trees, true, Use(call, p))
    ensures GvkOf(a, k) in trees && !Covers(trees[GvkOf(a, k)], p)
    ensures BindsObject(env, objectVar) && Sets(f, call, env, a, k)
  {
    var g :| g in trees && MayName(call, g) && !Covers(trees[g], p);
    a, k :| GvkOf(a, k) == g && LiteralsAllow(call, a, k);
    env :| BindsObject(env, objectVar) && Sets(f, call, env, a, k);
  }

  /** The world like plain in which every lookup finds obj. */
  function OneObjectWorld(plain: World, obj: Value): World {
    plain.(fetch := (l: bool, a: string, k: string, ns: string, n: string) => Ok(obj))
  }

  /** What the access finds there, on the full and on the served object. */
  lemma AccessInOneObjectWorld(plain: World, call: Expr, p: seq<string>, trees: map<Gvk, Tree>, env: Env,
                               a: string, k: string, obj: Value)
    requires IsLookupCall(plain.lookupFunc, call) && Sets(plain.lookupFunc, call, env, a, k) && GvkOf(a, k) in trees
    ensures var w := OneObjectWorld(plain, obj);
      && Eval(Access(call, p), env, w) == Get(Ok(obj), p)
      && Eval(Access(call, p), env, ServedWorld(w, trees)) == Get(Ok(Prune(obj, trees[GvkOf(a, k)])), p)
  {
    var w := OneObjectWorld(plain, obj);
    var ns, n :| Passes(call, env, w, a, k, ns, n);
    var ns', n' :| Passes(call, env, ServedWorld(w, trees), a, k, ns', n');
    LookupEval(call, p, env, w, a, k, ns, n);
    LookupEval(call, p, env, ServedWorld(w, trees), a, k, ns', n');
  }

  /** Served by kind, a field access off a lookup is preserved in every world and for every watched
  object if and only if every cached kind the call can name retains the path. */
  lemma LookupAccessIff(f: string, objectVar: string, call: Expr, p: seq<string>, trees: map<Gvk, Tree>)
    requires Settable(f, objectVar, call)
    ensures (forall env: Env, w: World, cached: World ::
               BindsObject(env, objectVar) && w.lookupFunc == f && Serves(cached, w, trees, true) ==>
                 Eval(Access(call, p), env, cached) == Eval(Access(call, p), env, w))
       <==> Admits(trees, true, Use(call, p))
  {
    if Admits(trees, true, Use(call, p)) {
      forall env: Env, w: World, cached: World
        | BindsObject(env, objectVar) && w.lookupFunc == f && Serves(cached, w, trees, true)
        ensures Eval(Access(call, p), env, cached) == Eval(Access(call, p), env, w)
      {
        AdmittedAccess(call, p, trees, env, w, cached);
      }
    } else {
      var a, k, env := UnadmittedKind(f, objectVar, call, p, trees);
      var leaf := UncoveredLoses(p, trees[GvkOf(a, k)]);
      GetNested(p, leaf);
      var w := OneObjectWorld(EqualityWorld(f), Nest(p, leaf));
      AccessInOneObjectWorld(EqualityWorld(f), call, p, trees, env, a, k, Nest(p, leaf));
      ServedWorldServes(w, trees);
      assert Eval(Access(call, p), env, ServedWorld(w, trees)) != Eval(Access(call, p), env, w);
    }
  }

  // Calls whose arguments are string literals, variables and field accesses are settable.

  /** paths says what each argument reads: nothing if it is a literal, else a variable and a path off it. */
  ghost predicate ReadsPaths(call: Expr, paths: seq<seq<string>>) {
    && call.Call? && |call.operands| == LOOKUP_ARGS == |paths|
    && forall i :: 0 <= i < LOOKUP_ARGS ==>
         if IsStringLiteral(call.operands[i]) then paths[i] == []
         else paths[i] != [] && call.operands[i] == Access(Ident(paths[i][0]), paths[i][1..])
  }

  predicate Apart(p: seq<string>, q: seq<string>) {
    !(p <= q) && !(q <= p)
  }

  /** Different arguments read the same or unrelated places; apiVersion and kind not the same; none is
  the watched object itself. */
  ghost predicate Independent(paths: seq<seq<string>>, objectVar: string) {
    && |paths| == LOOKUP_ARGS
    && (forall i, j :: 0 <= i < LOOKUP_ARGS && 0 <= j < LOOKUP_ARGS && paths[i] != [] && paths[j] != [] ==>
          paths[i] == paths[j] || Apart(paths[i], paths[j]))
    && (paths[0] == paths[1] ==> paths[0] == [])
    && (forall i :: 0 <= i < LOOKUP_ARGS ==> paths[i] != [objectVar])
  }

  function Entries(v: Value): map<Key, Value> {
    if v.VMap? then v.entries else map[]
  }

  /** v with leaf at path q. */
  function Put(v: Value, q: seq<string>, leaf: Value): Value
    decreases q
  {
    if q == [] then leaf
    else
      var m := Entries(v);
      VMap(m[KStr(q[0]) := Put(if KStr(q[0]) in m then m[KStr(q[0])] else VNull, q[1..], leaf)])
  }

  lemma {:induction false} GetPut(v: Value, q: seq<string>, leaf: Value)
    ensures Get(Ok(Put(v, q, leaf)), q) == Ok(leaf)
    decreases q
  {
    if q != [] {
      var m := Entries(v);
      GetFromFront(Ok(Put(v, q, leaf)), q);
      GetPut(if KStr(q[0]) in m then m[KStr(q[0])] else VNull, q[1..], leaf);
    }
  }

  lemma {:induction false} GetPutApart(v: Value, q: seq<string>, leaf: Value, r: seq<string>)
    requires Apart(q, r) && Get(Ok(v), r).Ok?
    ensures Get(Ok(Put(v, q, leaf)), r) == Get(Ok(v), r)
    decreases q
  {
    GetFromFront(Ok(v), r);
    GetFromFront(Ok(Put(v, q, leaf)), r);
    if SelectField(Ok(v), r[0], false).Err? { GetOfError(SelectField(Ok(v), r[0], false), r[1..]); }
    if q[0] == r[0] {
      assert Apart(q[1..], r[1..]) by {
        assert q == [q[0]] + q[1..] && r == [r[0]] + r[1..];
      }
      GetPutApart(v.entries[KStr(r[0])], q[1..], leaf, r[1..]);
    }
  }

  /** The places all as the arguments of the call should find them; later ones win. */
  function Placed(objectVar: string, paths: seq<seq<string>>, texts: seq<string>, n: nat): Value
    requires n <= |paths| == |texts|
  {
    if n == 0 then VMap(map[KStr(objectVar) := VMap(map[])])
    else if paths[n - 1] == [] then Placed(objectVar, paths, texts, n - 1)
    else Put(Placed(objectVar, paths, texts, n - 1), paths[n - 1], VStr(texts[n - 1]))
  }

  /** Each place holds the text of the last argument that reads it; the watched object stays one. */
  lemma {:induction false} PlacedHolds(objectVar: string, paths: seq<seq<string>>, texts: seq<string>, n: nat, i: nat)
    requires n <= |paths| == |texts| == LOOKUP_ARGS && Independent(paths, objectVar)
    ensures var e := Placed(objectVar, paths, texts, n);
      && e.VMap? && KStr(objectVar) in e.entries && e.entries[KStr(objectVar)].VMap?
      && (i < n && paths[i] != [] ==>
            exists j :: i <= j < n && paths[j] == paths[i] && Get(Ok(e), paths[i]) == Ok(VStr(texts[j])))
  {
    if n > 0 {
      PlacedHolds(objectVar, paths, texts, n - 1, i);
      var before, q := Placed(objectVar, paths, texts, n - 1), paths[n - 1];
      if q != [] {
        if |q| > 1 { assert q[1..] != []; } else { assert q == [q[0]]; }
        GetPut(before, q, VStr(texts[n - 1]));
        if i < n - 1 && paths[i] != [] && paths[i] != q {
          GetPutApart(before, q, VStr(texts[n - 1]), paths[i]);
        }
      }
    }
  }

  /** The environment that binds each field of e. */
  function EnvOf(e: Value): Env
    requires e.VMap?
  {
    map x | x in (set k | k in e.entries && k.KStr? :: k.s) :: Ok(e.entries[KStr(x)])
  }

  lemma EnvOfBinds(e: Value, x: string)
    requires e.VMap? && KStr(x) in e.entries
    ensures x in EnvOf(e) && EnvOf(e)[x] == Ok(e.entries[KStr(x)])
  {
    assert KStr(x).s == x;
  }

  lemma PathEval(e: Value, p: seq<string>, w: World)
    requires e.VMap? && p != [] && Get(Ok(e), p).Ok?
    ensures Eval(Access(Ident(p[0]), p[1..]), EnvOf(e), w) == Get(Ok(e), p)
  {
    GetFromFront(Ok(e), p);
    AccessEval(Ident(p[0]), p[1..], EnvOf(e), w);
    if SelectField(Ok(e), p[0], false).Err? { GetOfError(SelectField(Ok(e), p[0], false), p[1..]); }
    EnvOfBinds(e, p[0]);
  }

  /** The text argument i is to be given. */
  function TextAt(paths: seq<seq<string>>, a: string, k: string, i: nat): string
    requires |paths| == LOOKUP_ARGS && i < LOOKUP_ARGS
  {
    if paths[i] == paths[0] then a else if paths[i] == paths[1] then k else ""
  }

  function Texts(paths: seq<seq<string>>, a: string, k: string): seq<string>
    requires |paths| == LOOKUP_ARGS
  {
    [TextAt(paths, a, k, 0), TextAt(paths, a, k, 1), TextAt(paths, a, k, 2), TextAt(paths, a, k, 3)]
  }

  lemma ArgumentEval(call: Expr, objectVar: string, paths: seq<seq<string>>, a: string, k: string, i: nat, w: World)
    requires ReadsPaths(call, paths) && Independent(paths, objectVar) && i < LOOKUP_ARGS
    ensures var e := Placed(objectVar, paths, Texts(paths, a, k), LOOKUP_ARGS);
      e.VMap? && Eval(call.operands[i], EnvOf(e), w)
              == Ok(VStr(if IsStringLiteral(call.operands[i]) then call.operands[i].value.s
                         else TextAt(paths, a, k, i)))
  {
    PlacedHolds(objectVar, paths, Texts(paths, a, k), LOOKUP_ARGS, i);
    if !IsStringLiteral(call.operands[i]) {
      PathEval(Placed(objectVar, paths, Texts(paths, a, k), LOOKUP_ARGS), paths[i], w);
    }
  }

  lemma PathArgumentUses(f: string, call: Expr, paths: seq<seq<string>>)
    requires ReadsPaths(call, paths)
    ensures UsesAll(f, call.operands) == {}
  {
    var es := call.operands;
    forall i | 0 <= i < LOOKUP_ARGS ensures Uses(f, es[i]) == {} {
      if !IsStringLiteral(es[i]) {
        AccessChain(Ident(paths[i][0]), paths[i][1..]);
        VariableChainUses(f, es[i]);
      }
    }
    assert es[1..][1..] == es[2..] && es[2..][1..] == es[3..] && es[3..][1..] == [];
    assert UsesAll(f, es[3..]) == Uses(f, es[3..][0]) + UsesAll(f, es[3..][1..]) == {};
    assert UsesAll(f, es[2..]) == Uses(f, es[2..][0]) + UsesAll(f, es[2..][1..]) == {};
    assert UsesAll(f, es[1..]) == Uses(f, es[1..][0]) + UsesAll(f, es[1..][1..]) == {};
  }

  /** Such calls are settable: lookup("v1", "Pod", resource.metadata.namespace, resource.spec.podName),
  and those whose kind or apiVersion is itself read off the object or off a loop variable. */
  lemma PathArgumentsSettable(f: string, objectVar: string, call: Expr, paths: seq<seq<string>>)
    requires IsLookupCall(f, call) && ReadsPaths(call, paths) && Independent(paths, objectVar)
    ensures Settable(f, objectVar, call)
  {
    PathArgumentUses(f, call, paths);
    forall a, k | LiteralsAllow(call, a, k)
      ensures exists env :: BindsObject(env, objectVar) && Sets(f, call, env, a, k)
    {
      var e := Placed(objectVar, paths, Texts(paths, a, k), LOOKUP_ARGS);
      PlacedHolds(objectVar, paths, Texts(paths, a, k), LOOKUP_ARGS, 0);
      EnvOfBinds(e, objectVar);
      PathArgumentsSet(f, call, objectVar, paths, a, k);
      assert BindsObject(EnvOf(e), objectVar) && Sets(f, call, EnvOf(e), a, k);
    }
  }

  lemma PathArgumentsSet(f: string, call: Expr, objectVar: string, paths: seq<seq<string>>, a: string, k: string)
    requires ReadsPaths(call, paths) && Independent(paths, objectVar) && LiteralsAllow(call, a, k)
    ensures var e := Placed(objectVar, paths, Texts(paths, a, k), LOOKUP_ARGS);
      e.VMap? && Sets(f, call, EnvOf(e), a, k)
  {
    PlacedHolds(objectVar, paths, Texts(paths, a, k), LOOKUP_ARGS, 0);
    var env := EnvOf(Placed(objectVar, paths, Texts(paths, a, k), LOOKUP_ARGS));
    forall w: World | w.lookupFunc == f ensures exists ns, name :: Passes(call, env, w, a, k, ns, name) {
      ArgumentEval(call, objectVar, paths, a, k, 0, w);
      ArgumentEval(call, objectVar, paths, a, k, 1, w);
      ArgumentEval(call, objectVar, paths, a, k, 2, w);
      ArgumentEval(call, objectVar, paths, a, k, 3, w);
      assert Passes(call, env, w, a, k, Eval(call.operands[2], env, w).value.s, Eval(call.operands[3], env, w).value.s);
    }
  }

  // A lookup beyond the point where the walk stops.

  const EQUALS := "_==_"

  function Equality(a: Res, b: Res): Res {
    if a.Err? then a else if b.Err? then b else Ok(VBool(a.value == b.value))
  }

  /** The world's == is CEL's. */
  ghost predicate ComparesValues(w: World) {
    forall a, b :: w.apply(HCall(EQUALS, false), [a, b]) == Equality(a, b)
  }

  function EqualityApply(h: Head, rs: seq<Res>): Res {
    if h == HCall(EQUALS, false) && |rs| == 2 then Equality(rs[0], rs[1]) else Err("no such overload")
  }

  /** A world with lookup and == whose lookups find nothing. */
  function EqualityWorld(f: string): World {
    World(f, EqualityApply, m => [],
          (l: bool, a: string, k: string, ns: string, n: string) => Ok(VNull))
  }

  function EqualTo(a: Expr, b: Expr): Expr { Call(EQUALS, false, [a, b]) }

  lemma ComparesTwo(w: World, a: Res, b: Res)
    requires ComparesValues(w)
    ensures w.apply(HCall(EQUALS, false), [a, b]) == Equality(a, b)
  {
  }

  lemma EqualToApplies(a: Expr, b: Expr, env: Env, w: World)
    ensures Eval(EqualTo(a, b), env, w) == w.apply(HCall(EQUALS, false), [Eval(a, env, w), Eval(b, env, w)])
  {
    EvalOperands(EqualTo(a, b), env, w);
  }

  lemma EqualToEval(a: Expr, b: Expr, env: Env, w: World)
    requires ComparesValues(w)
    ensures Eval(EqualTo(a, b), env, w) == Equality(Eval(a, env, w), Eval(b, env, w))
  {
    EqualToApplies(a, b, env, w);
    ComparesTwo(w, Eval(a, env, w), Eval(b, env, w));
  }

  lemma EqualToReads(cfg: Config, a: Expr, b: Expr)
    ensures ReadsOf(cfg, false, EqualTo(a, b)) == Then(ReadsOf(cfg, false, a), ReadsOf(cfg, false, b))
  {
    var e := EqualTo(a, b);
    assert ReadsOf(cfg, false, e) == ChildReads(cfg, false, e);
    TwoOperands(cfg, false, e);
  }

  /** Comparing the whole object stops the walk, so the lookup on the other side is in no target. */
  lemma StoppedWalkRecordsNothing(cfg: Config, other: Expr)
    ensures ReadsOf(cfg, false, EqualTo(Ident(cfg.objectVar), other)) == Reads([], [], false)
  {
    EqualToReads(cfg, Ident(cfg.objectVar), other);
  }

  /** For every object there is something to be found at an uncovered path whose comparison with the
  object comes out differently once it is pruned. */
  lemma {:induction false} UncoveredTells(p: seq<string>, t: Tree, obj: Value) returns (leaf: Value)
    requires !Covers(t, p) && obj.VMap?
    ensures Equality(Ok(obj), Ok(leaf)) != Equality(Ok(obj), Get(Ok(Prune(Nest(p, leaf), t)), p))
    decreases p
  {
    if p == [] {
      leaf := obj;
      if Prune(obj, t) == obj {
        var names := (set k | k in obj.entries && k.KStr? :: k.s) + t.children.Keys;
        var unused := FreshString(names);
        assert KStr(unused) !in obj.entries by { assert KStr(unused).s == unused; }
        leaf := VMap(obj.entries[KStr(unused) := VNull]);
        assert KStr(unused) in leaf.entries;
        assert Prune(leaf, t).entries == Prune(obj, t).entries;
      }
    } else {
      leaf := VMap(map[]);
      if p[0] in t.children { leaf := UncoveredTells(p[1..], t.children[p[0]], obj); }
      var nested := Nest(p, leaf);
      GetFromFront(Ok(Prune(nested, t)), p);
      assert KStr(p[0]) in nested.entries;
      if p[0] !in t.children {
        assert KStr(p[0]) !in Prune(nested, t).entries;
        GetOfError(SelectField(Ok(Prune(nested, t)), p[0], false), p[1..]);
      }
    }
  }

  /** Such a lookup is preserved in every world with CEL's == and for every watched object if and only
  if every cached kind it can name, be it for other expressions' sake, retains the path. */
  lemma StoppedWalkIff(f: string, objectVar: string, call: Expr, p: seq<string>, trees: map<Gvk, Tree>)
    requires Settable(f, objectVar, call)
    ensures (forall env: Env, w: World, cached: World ::
               && BindsObject(env, objectVar) && w.lookupFunc == f && ComparesValues(w)
               && Serves(cached, w, trees, true) ==>
                 Eval(EqualTo(Ident(objectVar), Access(call, p)), env, cached)
                 == Eval(EqualTo(Ident(objectVar), Access(call, p)), env, w))
       <==> Admits(trees, true, Use(call, p))
  {
    var e := EqualTo(Ident(objectVar), Access(call, p));
    if Admits(trees, true, Use(call, p)) {
      forall env: Env, w: World, cached: World
        | && BindsObject(env, objectVar) && w.lookupFunc == f && ComparesValues(w)
          && Serves(cached, w, trees, true)
        ensures Eval(e, env, cached) == Eval(e, env, w)
      {
        AdmittedAccess(call, p, trees, env, w, cached);
        EqualToEval(Ident(objectVar), Access(call, p), env, w);
        EqualToEval(Ident(objectVar), Access(call, p), env, cached);
      }
    } else {
      var env, w := StoppedWalkLoses(f, objectVar, call, p, trees);
      ServedWorldServes(w, trees);
      assert ComparesValues(w) && Serves(ServedWorld(w, trees), w, trees, true);
      assert Eval(EqualTo(Ident(objectVar), Access(call, p)), env, ServedWorld(w, trees))
          != Eval(EqualTo(Ident(objectVar), Access(call, p)), env, w);
    }
  }

  lemma StoppedWalkLoses(f: string, objectVar: string, call: Expr, p: seq<string>, trees: map<Gvk, Tree>)
    returns (env: Env, w: World)
    requires Settable(f, objectVar, call) && !Admits(trees, true, Use(call, p))
    ensures BindsObject(env, objectVar) && w.lookupFunc == f && ComparesValues(w)
    ensures Eval(EqualTo(Ident(objectVar), Access(call, p)), env, ServedWorld(w, trees))
         != Eval(EqualTo(Ident(objectVar), Access(call, p)), env, w)
  {
    var a, k, env' := UnadmittedKind(f, objectVar, call, p, trees);
    env := env';
    var leaf := UncoveredTells(p, trees[GvkOf(a, k)], env[objectVar].value);
    GetNested(p, leaf);
    w := OneObjectWorld(EqualityWorld(f), Nest(p, leaf));
    AccessInOneObjectWorld(EqualityWorld(f), call, p, trees, env, a, k, Nest(p, leaf));
    EqualToEval(Ident(objectVar), Access(call, p), env, w);
    EqualToEval(Ident(objectVar), Access(call, p), env, ServedWorld(w, trees));
  }

  // An expression with a literal and a computed lookup of the same kind.

  function Lookup(kind: Expr): Expr {
    Call("lookup", false, [Literal(VStr("v1")), kind, Literal(VStr("")), Literal(VStr("n"))])
  }

  /** A lookup whose kind is read off the watched object is settable, so the iffs are about it. */
  lemma ObjectKindSettable(q: seq<string>)
    requires q != []
    ensures Settable("lookup", "resource", Lookup(Access(Ident("resource"), q)))
  {
    assert (["resource"] + q)[1..] == q && Access(Ident("resource"), q).Select?;
    PathArgumentsSettable("lookup", "resource", Lookup(Access(Ident("resource"), q)), [[], ["resource"] + q, [], []]);
  }

  /** lookup("v1", kind, "", "n").a == lookup("v1", resource.q, "", "n").b */
  function MixedLookups(kind: string, q: seq<string>, a: string, b: string): Expr {
    EqualTo(Access(Lookup(Literal(VStr(kind))), [a]), Access(Lookup(Access(Ident("resource"), q)), [b]))
  }

  lemma LookupAccessReads(kind: Expr, field: string)
    requires IsStringLiteral(kind) || kind.Select?
    ensures var cfg := Config("resource", "lookup");
      ReadsOf(cfg, false, Access(Lookup(kind), [field]))
      == Then(Reads([], if IsStringLiteral(kind) then [LookupPath("v1", kind.value.s, [field])] else [], true),
              ReadsOf(cfg, false, kind))
  {
    var cfg, e, call := Config("resource", "lookup"), Access(Lookup(kind), [field]), Lookup(kind);
    AccessChain(call, [field]);
    assert ReadsOf(cfg, false, e) == RecordReads(cfg, false, Chain(call, [field], true), e);
    var es := call.operands;
    assert es[1..][1..] == es[2..] && es[2..][1..] == es[3..] && es[3..][1..] == [];
    forall i | i == 0 || i == 2 || i == 3 ensures ReadsOf(cfg, false, es[i]) == NO_READS {}
    assert ReadsAll(cfg, false, es[3..]) == Then(ReadsOf(cfg, false, es[3]), ReadsAll(cfg, false, es[3..][1..]));
    assert ReadsAll(cfg, false, es[2..]) == Then(ReadsOf(cfg, false, es[2]), ReadsAll(cfg, false, es[2..][1..]));
    assert ReadsAll(cfg, false, es[1..]) == Then(ReadsOf(cfg, false, es[1]), ReadsAll(cfg, false, es[1..][1..]));
    NoReadsNeutral(NO_READS);
    NoReadsNeutral(ReadsOf(cfg, false, kind));
    assert ReadsAll(cfg, false, es) == ReadsOf(cfg, false, kind);
    assert ReadsAll(cfg, false, IndexKeys(e)) == NO_READS;
  }

  lemma MixedLookupsReads(kind: string, q: seq<string>, a: string, b: string)
    requires q != []
    ensures ReadsOf(Config("resource", "lookup"), false, MixedLookups(kind, q, a, b))
         == Reads([q], [LookupPath("v1", kind, [a])], true)
  {
    var cfg, computed := Config("resource", "lookup"), Access(Ident("resource"), q);
    EqualToReads(cfg, Access(Lookup(Literal(VStr(kind))), [a]), Access(Lookup(computed), [b]));
    LookupAccessReads(Literal(VStr(kind)), a);
    LookupAccessReads(computed, b);
    AccessReads(cfg, q);
    NoReadsNeutral(Reads([q], [], true));
    NoReadsNeutral(Reads([], [LookupPath("v1", kind, [a])], true));
    assert ReadsOf(cfg, false, Literal(VStr(kind))) == NO_READS;
  }

  /** The walk completes and the one target is derivable, with the one path of the literal lookup. */
  lemma MixedLookupsDerivable(kind: string, q: seq<string>, a: string, b: string, targets: seq<LookupTarget>)
    requires q != []
    requires IsMerge(ReadsOf(Config("resource", "lookup"), false, MixedLookups(kind, q, a, b)).lookups, targets)
    ensures ReadsOf(Config("resource", "lookup"), false, MixedLookups(kind, q, a, b)).complete
    ensures |targets| == 1 && targets[0].derivable && targets[0].paths == [[a]]
  {
    MixedLookupsReads(kind, q, a, b);
    OneRead([LookupPath("v1", kind, [a])], targets);
  }

  /** The world in which every lookup finds the fields a and b. */
  function TwoFieldWorld(a: string, b: string): World {
    EqualityWorld("lookup").(fetch := (l: bool, v: string, k: string, ns: string, n: string) =>
      Ok(VMap(map[KStr(a) := VNull, KStr(b) := VNull])))
  }

  /** Serving lookups by the kind they end up naming is not sound for expressions that compute a
  kind: with the kind pruned, correctly, to the path of the literal lookup, the computed one turns a
  true comparison into an error, whatever kind, key path and fields they are. */
  lemma ComputedLookupReadsPrunedEntry(kind: string, q: seq<string>, a: string, b: string)
    requires a != b
    ensures var w, trees := TwoFieldWorld(a, b), map[GvkOf("v1", kind) := InsertAll(EMPTY, [[a]])];
      var env := map["resource" := Ok(Nest(q, VStr(kind)))];
      && ComparesValues(w) && Serves(ServedWorld(w, trees), w, trees, true)
      && Eval(MixedLookups(kind, q, a, b), env, w) == Ok(VBool(true))
      && Eval(MixedLookups(kind, q, a, b), env, ServedWorld(w, trees)).Err?
  {
    var w, trees := TwoFieldWorld(a, b), map[GvkOf("v1", kind) := InsertAll(EMPTY, [[a]])];
    var env: Env := map["resource" := Ok(Nest(q, VStr(kind)))];
    ServedWorldServes(w, trees);
    MixedEval(kind, q, a, b, env, w);
    MixedEval(kind, q, a, b, env, ServedWorld(w, trees));
    OneFieldTree(a);
  }

  lemma MixedEval(kind: string, q: seq<string>, a: string, b: string, env: Env, w: World)
    requires ComparesValues(w) && w.lookupFunc == "lookup"
    requires "resource" in env && env["resource"] == Ok(Nest(q, VStr(kind)))
    ensures Eval(MixedLookups(kind, q, a, b), env, w)
         == Equality(SelectField(w.fetch(true, "v1", kind, "", "n"), a, false),
                     SelectField(w.fetch(IsStringLiteral(Access(Ident("resource"), q)), "v1", kind, "", "n"), b, false))
  {
    var named, computed := Lookup(Literal(VStr(kind))), Lookup(Access(Ident("resource"), q));
    AccessEval(Ident("resource"), q, env, w);
    GetNested(q, VStr(kind));
    LookupEval(named, [a], env, w, "v1", kind, "", "n");
    LookupEval(computed, [b], env, w, "v1", kind, "", "n");
    OneField(w.fetch(true, "v1", kind, "", "n"), a);
    OneField(w.fetch(NamesItsKind(computed), "v1", kind, "", "n"), b);
    EqualToEval(Access(named, [a]), Access(computed, [b]), env, w);
  }

  lemma OneField(r: Res, field: string)
    ensures Get(r, [field]) == SelectField(r, field, false)
  {
    assert [field][..0] == [];
  }

  lemma OneFieldTree(a: string)
    ensures var t := InsertAll(EMPTY, [[a]]);
      !t.keep && t.children.Keys == {a} && t.children[a] == WHOLE
  {
    assert [[a]][..0] == [] && [a][1..] == [];
    assert InsertAll(EMPTY, [[a]]) == FieldTree.Insert(InsertAll(EMPTY, [[a]][..0]), [a]);
  }

  lemma OneRead(ls: seq<LookupPath>, targets: seq<LookupTarget>)
    requires |ls| == 1 && ls[0].path != [] && IsMerge(ls, targets)
    ensures |targets| == 1 && targets[0].derivable && targets[0].paths == [ls[0].path]
  {
    assert |targets| > 1 ==> TargetGvk(targets[0]) != TargetGvk(targets[1]);
    assert ReadKinds(ls) == {ReadGvk(ls[0])};
    forall i | 0 <= i < |targets| ensures TargetGvk(targets[i]) == ReadGvk(ls[0]) {
      assert TargetGvk(targets[i]) in TargetKinds(targets);
    }
    assert ReadGvk(ls[0]) in TargetKinds(targets);
    var t := targets[0];
    assert t in targets && PathsOff(ls, TargetGvk(t)) == {ls[0].path};
    forall i | 0 <= i < |t.paths| ensures t.paths[i] == ls[0].path { assert t.paths[i] in Elems(t.paths); }
    if |t.paths| > 1 { assert PathLess(t.paths[0], t.paths[1]); PathLessIsStrictTotal(); }
  }
}
