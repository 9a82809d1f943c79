/** The field paths an expression reads off an object variable and off looked-up objects:
the walker of celfields, and the compositional reading of what it collects. */
module FieldPaths {
  import opened Options
  import opened Orders
  import opened Cel
  import opened Accesses

  /** The walk is told the object variable and the lookup function. */
  datatype Config = Config(objectVar: string, lookupFunc: string)

  /** One field path taken off the object of a literal-kind lookup. */
  datatype LookupPath = LookupPath(apiVersion: string, kind: string, path: seq<string>)

  datatype Reads = Reads(paths: seq<seq<string>>, lookups: seq<LookupPath>, complete: bool)

  const NO_READS: Reads := Reads([], [], true)

  /** Reads of one part and then another; nothing is read once the first is incomplete. */
  function Then(a: Reads, b: Reads): Reads {
    if !a.complete then a else Reads(a.paths + b.paths, a.lookups + b.lookups, b.complete)
  }

  lemma ThenAssociative(a: Reads, b: Reads, c: Reads)
    ensures Then(Then(a, b), c) == Then(a, Then(b, c))
  {
  }

  lemma NoReadsNeutral(a: Reads)
    ensures Then(NO_READS, a) == a && Then(a, NO_READS) == a
  {
  }

  /** A chain of field accesses: its root, the path read from it, and whether the path goes
  all the way or was cut at a computed index. */
  datatype Chain = NotAChain | Chain(base: Expr, path: seq<string>, exact: bool)

  function ResolveChain(e: Expr): (c: Chain)
    ensures c.Chain? ==> Size(c.base) <= Size(e)
  {
    match e
    case Ident(_) => Chain(e, [], true)
    case Select(operand, field, _) =>
      var c := ResolveChain(operand);
      if c.NotAChain? || !c.exact then c else c.(path := c.path + [field])
    case Call(_, _, operands) =>
      if IsIndexCall(e) then
        var c := ResolveChain(operands[0]);
        if c.NotAChain? || !c.exact then c
        else if IsStringLiteral(operands[1]) then c.(path := c.path + [operands[1].value.s])
        else c.(exact := false)
      else Chain(e, [], true)
    case _ => NotAChain
  }

  /** The key expressions of the index operations along a chain, outermost first. */
  function IndexKeys(e: Expr): (keys: seq<Expr>)
    ensures SizeAll(keys) < Size(e)
  {
    match e
    case Select(operand, _, _) => IndexKeys(operand)
    case Call(_, _, operands) =>
      if IsIndexCall(e) then
        assert SizeAll(operands[1..]) == 1 + Size(operands[1]) + SizeAll(operands[1..][1..]);
        [operands[1]] + IndexKeys(operands[0])
      else []
    case _ => []
  }

  predicate IsObjectVar(cfg: Config, shadowed: bool, base: Expr) {
    base.Ident? && base.name == cfg.objectVar && !shadowed
  }

  predicate IsRoot(cfg: Config, shadowed: bool, c: Chain) {
    c.Chain? && (IsObjectVar(cfg, shadowed, c.base) || IsLookupCall(cfg.lookupFunc, c.base))
  }

  /** `"key" in <chain>`: the container's chain, extended by the key if exact. */
  function MembershipChain(e: Expr): (c: Chain)
    ensures c.Chain? ==> IsInCall(e) && Size(c.base) <= Size(e.operands[1]) < Size(e)
  {
    if !IsInCall(e) || !IsStringLiteral(e.operands[0]) then NotAChain
    else
      assert SizeAll(e.operands[1..]) == 1 + Size(e.operands[1]) + SizeAll(e.operands[1..][1..]);
      var c := ResolveChain(e.operands[1]);
      if c.Chain? && c.exact then c.(path := c.path + [e.operands[0].value.s]) else c
  }

  function LookupReads(call: Expr, path: seq<string>): Reads
    requires call.Call? && |call.operands| == LOOKUP_ARGS
  {
    if NamesItsKind(call)
    then Reads([], [LookupPath(call.operands[0].value.s, call.operands[1].value.s, path)], true)
    else NO_READS
  }

  /** What recording a chain reads: the path itself, the chain's computed keys, and for a
  lookup its arguments. Using the object whole makes the reads incomplete. */
  function RecordReads(cfg: Config, shadowed: bool, c: Chain, chain: Expr): Reads
    requires IsRoot(cfg, shadowed, c) && Size(c.base) <= Size(chain)
    decreases Size(chain), 1
  {
    if IsObjectVar(cfg, shadowed, c.base) then
      if c.path == [] then Reads([], [], false)
      else Then(Reads([c.path], [], true), ReadsAll(cfg, shadowed, IndexKeys(chain)))
    else
      Then(LookupReads(c.base, c.path),
           Then(ReadsAll(cfg, shadowed, IndexKeys(chain)), ReadsAll(cfg, shadowed, c.base.operands)))
  }

  function ReadsOf(cfg: Config, shadowed: bool, e: Expr): Reads
    decreases Size(e), 2
  {
    var m := MembershipChain(e);
    var c := ResolveChain(e);
    if IsRoot(cfg, shadowed, m) then RecordReads(cfg, shadowed, m, e.operands[1])
    else if IsRoot(cfg, shadowed, c) then RecordReads(cfg, shadowed, c, e)
    else ChildReads(cfg, shadowed, e)
  }

  function ChildReads(cfg: Config, shadowed: bool, e: Expr): Reads
    decreases Size(e), 1
  {
    match e
    case Select(operand, _, _) => ReadsOf(cfg, shadowed, operand)
    case Call(_, _, operands) => ReadsAll(cfg, shadowed, operands)
    case ListLit(elements) => ReadsAll(cfg, shadowed, elements)
    case MapLit(keysAndValues) => ReadsAll(cfg, shadowed, keysAndValues)
    case StructLit(_, _, values) => ReadsAll(cfg, shadowed, values)
    case Comprehension(range, _, _, accuVar, init, condition, step, result) =>
      var inAccu := shadowed || accuVar == cfg.objectVar;
      var inLoop := LoopShadows(cfg, shadowed, e);
      Then(ReadsOf(cfg, shadowed, range),
           Then(ReadsOf(cfg, shadowed, init),
                Then(ReadsOf(cfg, inLoop, condition),
                     Then(ReadsOf(cfg, inLoop, step), ReadsOf(cfg, inAccu, result)))))
    case _ => NO_READS
  }

  /** Inside the loop of c the object variable is shadowed. */
  predicate LoopShadows(cfg: Config, shadowed: bool, c: Expr)
    requires c.Comprehension?
  {
    || shadowed || c.accuVar == cfg.objectVar || c.iterVar == cfg.objectVar
    || c.iterVar2 == Some(cfg.objectVar)
  }

  function ReadsAll(cfg: Config, shadowed: bool, es: seq<Expr>): Reads
    decreases SizeAll(es), 0
  {
    if es == [] then NO_READS
    else Then(ReadsOf(cfg, shadowed, es[0]), ReadsAll(cfg, shadowed, es[1..]))
  }

  /** `fieldWalker`. Each method adds to the collected state what its spec function says
  is read, and leaves the shadow count as it found it. */
  class FieldWalker {
    const objectVar: string
    const lookupFunc: string
    var paths: seq<seq<string>>
    var lookupFieldPaths: seq<LookupPath>
    var shadowed: nat
    var ok: bool

    ghost function State(): Reads
      reads this
    {
      Reads(paths, lookupFieldPaths, ok)
    }

    function Cfg(): Config {
      Config(objectVar, lookupFunc)
    }

    constructor (objectVar: string, lookupFunc: string)
      ensures this.objectVar == objectVar && this.lookupFunc == lookupFunc
      ensures State() == NO_READS && shadowed == 0
    {
      this.objectVar, this.lookupFunc := objectVar, lookupFunc;
      paths, lookupFieldPaths, shadowed, ok := [], [], 0, true;
    }

    method Walk(e: Expr)
      modifies this
      ensures shadowed == old(shadowed)
      ensures State() == Then(old(State()), ReadsOf(Cfg(), old(shadowed) > 0, e))
      decreases Size(e), 2
    {
      if !ok {
        return;
      }
      var m := MembershipChain(e);
      var c := ResolveChain(e);
      if IsRoot(Cfg(), shadowed > 0, m) {
        Record(m, e.operands[1]);
      } else if IsRoot(Cfg(), shadowed > 0, c) {
        Record(c, e);
      } else {
        WalkChildren(e);
      }
    }

    method Record(c: Chain, chain: Expr)
      requires ok && IsRoot(Cfg(), shadowed > 0, c) && Size(c.base) <= Size(chain)
      modifies this
      ensures shadowed == old(shadowed)
      ensures State() == Then(old(State()), RecordReads(Cfg(), old(shadowed) > 0, c, chain))
      decreases Size(chain), 1
    {
      ghost var start := State();
      ghost var keys := ReadsAll(Cfg(), shadowed > 0, IndexKeys(chain));
      if IsObjectVar(Cfg(), shadowed > 0, c.base) {
        if c.path == [] {
          ok := false;
          return;
        }
        paths := paths + [c.path];
        assert State() == Then(start, Reads([c.path], [], true));
        WalkIndexKeys(chain);
        ThenAssociative(start, Reads([c.path], [], true), keys);
      } else {
        var first := LookupReads(c.base, c.path);
        if NamesItsKind(c.base) {
          lookupFieldPaths := lookupFieldPaths + first.lookups;
        }
        assert State() == Then(start, first);
        WalkIndexKeys(chain);
        WalkAll(c.base.operands);
        ghost var args := ReadsAll(Cfg(), shadowed > 0, c.base.operands);
        ThenAssociative(start, first, keys);
        ThenAssociative(start, Then(first, keys), args);
        ThenAssociative(first, keys, args);
      }
    }

    method WalkAll(es: seq<Expr>)
      modifies this
      ensures shadowed == old(shadowed)
      ensures State() == Then(old(State()), ReadsAll(Cfg(), old(shadowed) > 0, es))
      decreases SizeAll(es), 0
    {
      if es != [] {
        ghost var start := State();
        Walk(es[0]);
        WalkAll(es[1..]);
        ThenAssociative(start, ReadsOf(Cfg(), shadowed > 0, es[0]), ReadsAll(Cfg(), shadowed > 0, es[1..]));
      }
    }

    method WalkIndexKeys(chain: Expr)
      modifies this
      ensures shadowed == old(shadowed)
      ensures State() == Then(old(State()), ReadsAll(Cfg(), old(shadowed) > 0, IndexKeys(chain)))
      decreases Size(chain), 0
    {
      var e := chain;
      while ok
        invariant shadowed == old(shadowed) && Size(e) <= Size(chain)
        invariant Then(State(), ReadsAll(Cfg(), shadowed > 0, IndexKeys(e)))
               == Then(old(State()), ReadsAll(Cfg(), old(shadowed) > 0, IndexKeys(chain)))
        decreases Size(e)
      {
        if e.Select? {
          e := e.operand;
        } else if IsIndexCall(e) {
          ghost var start := State();
          ghost var rest := IndexKeys(e.operands[0]);
          assert IndexKeys(e)[1..] == rest;
          assert SizeAll(e.operands[1..]) == 1 + Size(e.operands[1]) + SizeAll(e.operands[1..][1..]);
          Walk(e.operands[1]);
          ThenAssociative(start, ReadsOf(Cfg(), shadowed > 0, e.operands[1]), ReadsAll(Cfg(), shadowed > 0, rest));
          e := e.operands[0];
        } else {
          NoReadsNeutral(State());
          return;
        }
      }
    }

    method WalkChildren(e: Expr)
      modifies this
      ensures shadowed == old(shadowed)
      ensures State() == Then(old(State()), ChildReads(Cfg(), old(shadowed) > 0, e))
      decreases Size(e), 1
    {
      match e {
        case Select(operand, _, _) => Walk(operand);
        case Call(_, _, operands) => WalkAll(operands);
        case ListLit(elements) => WalkAll(elements);
        case MapLit(keysAndValues) => WalkAll(keysAndValues);
        case StructLit(_, _, values) => WalkAll(values);
        case Comprehension(_, _, _, _, _, _, _, _) => WalkComprehension(e);
        case _ => NoReadsNeutral(State());
      }
    }

    method WalkComprehension(c: Expr)
      requires c.Comprehension?
      modifies this
      ensures shadowed == old(shadowed)
      ensures State() == Then(old(State()), ChildReads(Cfg(), old(shadowed) > 0, c))
      decreases Size(c), 0, 1
    {
      ghost var start, outer := State(), shadowed > 0;
      Walk(c.iterRange);
      Walk(c.accuInit);
      PushBinding(c.accuVar);
      PushBinding(c.iterVar);
      WalkLoop(c);
      PopBinding(c.iterVar);
      assert shadowed > 0 <==> outer || c.accuVar == objectVar;
      Walk(c.result);
      PopBinding(c.accuVar);
      ComprehensionReads(Cfg(), outer, c, start);
    }

    /** The loop condition and step, with the second loop variable bound if there is one. */
    method WalkLoop(c: Expr)
      requires c.Comprehension?
      modifies this
      ensures shadowed == old(shadowed)
      ensures var inLoop := old(shadowed) > 0 || c.iterVar2 == Some(objectVar);
        State() == Then(Then(old(State()), ReadsOf(Cfg(), inLoop, c.loopCondition)), ReadsOf(Cfg(), inLoop, c.loopStep))
      decreases Size(c), 0, 0
    {
      if c.iterVar2.Some? {
        PushBinding(c.iterVar2.value);
      }
      Walk(c.loopCondition);
      Walk(c.loopStep);
      if c.iterVar2.Some? {
        PopBinding(c.iterVar2.value);
      }
    }

    method PushBinding(name: string)
      modifies this`shadowed
      ensures shadowed == old(shadowed) + (if name == objectVar then 1 else 0)
    {
      if name == objectVar {
        shadowed := shadowed + 1;
      }
    }

    method PopBinding(name: string)
      requires name == objectVar ==> shadowed > 0
      modifies this`shadowed
      ensures old(shadowed) == shadowed + (if name == objectVar then 1 else 0)
    {
      if name == objectVar {
        shadowed := shadowed - 1;
      }
    }
  }

  lemma ComprehensionReads(cfg: Config, shadowed: bool, c: Expr, s: Reads)
    requires c.Comprehension?
    ensures var inLoop, inAccu := LoopShadows(cfg, shadowed, c), shadowed || c.accuVar == cfg.objectVar;
      Then(Then(Then(Then(Then(s, ReadsOf(cfg, shadowed, c.iterRange)), ReadsOf(cfg, shadowed, c.accuInit)),
                     ReadsOf(cfg, inLoop, c.loopCondition)), ReadsOf(cfg, inLoop, c.loopStep)),
           ReadsOf(cfg, inAccu, c.result))
      == Then(s, ChildReads(cfg, shadowed, c))
  {
    var inLoop, inAccu := LoopShadows(cfg, shadowed, c), shadowed || c.accuVar == cfg.objectVar;
    ThenFive(s, ReadsOf(cfg, shadowed, c.iterRange), ReadsOf(cfg, shadowed, c.accuInit),
             ReadsOf(cfg, inLoop, c.loopCondition), ReadsOf(cfg, inLoop, c.loopStep), ReadsOf(cfg, inAccu, c.result));
  }

  lemma ThenFive(s: Reads, a: Reads, b: Reads, c: Reads, d: Reads, e: Reads)
    ensures Then(Then(Then(Then(Then(s, a), b), c), d), e) == Then(s, Then(a, Then(b, Then(c, Then(d, e)))))
  {
    ThenAssociative(s, a, b);
    ThenAssociative(s, Then(a, b), c);
    ThenAssociative(s, Then(Then(a, b), c), d);
    ThenAssociative(s, Then(Then(Then(a, b), c), d), e);
    ThenAssociative(a, b, c);
    ThenAssociative(a, Then(b, c), d);
    ThenAssociative(a, Then(Then(b, c), d), e);
    ThenAssociative(b, c, d);
    ThenAssociative(b, Then(c, d), e);
    ThenAssociative(c, d, e);
  }

  method SortedUniquePaths(paths: seq<seq<string>>) returns (sorted: seq<seq<string>>)
    ensures StrictlySorted(PathLess, sorted) && Elems(sorted) == Elems(paths)
  {
    PathLessIsStrictTotal();
    sorted := SortSet(PathLess, Elems(paths));
  }

  // What the walk derives is what the expression reads.

  predicate NamesKind(a: Access) {
    && a.OnLookup? && a.call.Call? && |a.call.operands| == LOOKUP_ARGS
    && a.call.operands[0].Literal? && a.call.operands[0].value.VStr?
    && a.call.operands[1].Literal? && a.call.operands[1].value.VStr?
  }

  /** The paths read off lookups that name apiVersion and kind with string literals. */
  function LookupPaths(accesses: set<Access>): set<LookupPath> {
    set a | a in accesses && NamesKind(a) ::
      LookupPath(a.call.operands[0].value.s, a.call.operands[1].value.s, a.path)
  }

  /** The reads are complete exactly when the object is never used whole, and then they are exactly the
  accesses. */
  ghost predicate Derives(r: Reads, accesses: set<Access>) {
    && (r.complete <==> OnObject([]) !in accesses)
    && (r.complete ==> Elems(r.paths) == ObjectPaths(accesses) && Elems(r.lookups) == LookupPaths(accesses))
  }

  lemma DerivesThen(a: Reads, b: Reads, x: set<Access>, y: set<Access>)
    requires Derives(a, x) && Derives(b, y)
    ensures Derives(Then(a, b), x + y)
  {
    assert Elems(a.paths + b.paths) == Elems(a.paths) + Elems(b.paths);
    assert Elems(a.lookups + b.lookups) == Elems(a.lookups) + Elems(b.lookups);
    assert ObjectPaths(x + y) == ObjectPaths(x) + ObjectPaths(y);
    assert LookupPaths(x + y) == LookupPaths(x) + LookupPaths(y);
  }

  lemma AccessesOfTwo(o: string, f: string, shadowed: bool, es: seq<Expr>)
    requires |es| == 2
    ensures AccessesOfAll(o, f, shadowed, es)
         == AccessesOf(o, f, shadowed, es[0], []) + AccessesOf(o, f, shadowed, es[1], [])
  {
    var tail := es[1..];
    assert tail[0] == es[1] && tail[1..] == [];
    assert AccessesOfAll(o, f, shadowed, tail)
        == AccessesOf(o, f, shadowed, tail[0], []) + AccessesOfAll(o, f, shadowed, []);
  }

  /** Along a chain: the root is read with the chain's path before it, and the index keys by themselves. */
  lemma {:induction false} ChainAccesses(o: string, f: string, shadowed: bool, e: Expr, rest: seq<string>)
    requires ResolveChain(e).Chain?
    ensures var c := ResolveChain(e);
      AccessesOf(o, f, shadowed, e, rest)
      == AccessesOf(o, f, shadowed, c.base, if c.exact then c.path + rest else c.path)
         + AccessesOfAll(o, f, shadowed, IndexKeys(e))
    decreases e
  {
    var c := ResolveChain(e);
    if e.Select? {
      ChainAccesses(o, f, shadowed, e.operand, [e.field] + rest);
      if ResolveChain(e.operand).exact {
        assert ResolveChain(e.operand).path + ([e.field] + rest) == c.path + rest;
      }
    } else if IsIndexCall(e) {
      var inner, key := ResolveChain(e.operands[0]), e.operands[1];
      assert IndexKeys(e) == [key] + IndexKeys(e.operands[0]);
      assert ([key] + IndexKeys(e.operands[0]))[1..] == IndexKeys(e.operands[0]);
      if IsStringLiteral(key) {
        ChainAccesses(o, f, shadowed, e.operands[0], [key.value.s] + rest);
        if inner.exact { assert inner.path + ([key.value.s] + rest) == c.path + rest; }
      } else {
        ChainAccesses(o, f, shadowed, e.operands[0], []);
        assert inner.path + [] == inner.path;
      }
    } else {
      assert [] + rest == rest;
    }
  }

  /** What is done further down with the value of a chain that roots at no object does not matter. */
  lemma {:induction false} RestIsIrrelevant(cfg: Config, shadowed: bool, e: Expr, rest: seq<string>)
    requires !IsRoot(cfg, shadowed, ResolveChain(e))
    ensures AccessesOf(cfg.objectVar, cfg.lookupFunc, shadowed, e, rest)
         == AccessesOf(cfg.objectVar, cfg.lookupFunc, shadowed, e, [])
    decreases e
  {
    if e.Select? {
      RestIsIrrelevant(cfg, shadowed, e.operand, [e.field] + rest);
      RestIsIrrelevant(cfg, shadowed, e.operand, [e.field] + []);
    } else if IsIndexCall(e) && IsStringLiteral(e.operands[1]) {
      RestIsIrrelevant(cfg, shadowed, e.operands[0], [e.operands[1].value.s] + rest);
      RestIsIrrelevant(cfg, shadowed, e.operands[0], [e.operands[1].value.s] + []);
    }
  }

  lemma RootAccesses(cfg: Config, shadowed: bool, base: Expr, path: seq<string>)
    requires IsRoot(cfg, shadowed, Chain(base, path, true))
    ensures AccessesOf(cfg.objectVar, cfg.lookupFunc, shadowed, base, path)
         == if base.Ident? then {OnObject(path)}
            else {OnLookup(base, path)} + AccessesOfAll(cfg.objectVar, cfg.lookupFunc, shadowed, base.operands)
  {
  }

  /** The theorem on the walk: for every expression, object variable and lookup function, shadowed or
  not, it derives what the expression reads. */
  lemma {:induction false} WalkDerives(cfg: Config, shadowed: bool, e: Expr)
    ensures Derives(ReadsOf(cfg, shadowed, e), AccessesOf(cfg.objectVar, cfg.lookupFunc, shadowed, e, []))
    decreases Size(e), 2
  {
    var o, f := cfg.objectVar, cfg.lookupFunc;
    var m, c := MembershipChain(e), ResolveChain(e);
    if IsRoot(cfg, shadowed, m) {
      var container := e.operands[1];
      ChainAccesses(o, f, shadowed, container, [e.operands[0].value.s]);
      RecordDerives(cfg, shadowed, m, container);
    } else if IsRoot(cfg, shadowed, c) {
      ChainAccesses(o, f, shadowed, e, []);
      assert c.exact ==> c.path + [] == c.path;
      RecordDerives(cfg, shadowed, c, e);
    } else {
      ChildrenDerive(cfg, shadowed, e);
    }
  }

  lemma {:induction false} RecordDerives(cfg: Config, shadowed: bool, c: Chain, chain: Expr)
    requires IsRoot(cfg, shadowed, c) && Size(c.base) <= Size(chain)
    ensures Derives(RecordReads(cfg, shadowed, c, chain),
                    AccessesOf(cfg.objectVar, cfg.lookupFunc, shadowed, c.base, c.path)
                    + AccessesOfAll(cfg.objectVar, cfg.lookupFunc, shadowed, IndexKeys(chain)))
    decreases Size(chain), 1
  {
    var o, f := cfg.objectVar, cfg.lookupFunc;
    var keys, keyAccesses := ReadsAll(cfg, shadowed, IndexKeys(chain)), AccessesOfAll(o, f, shadowed, IndexKeys(chain));
    RootAccesses(cfg, shadowed, c.base, c.path);
    AllDerive(cfg, shadowed, IndexKeys(chain));
    if c.base.Ident? {
      if c.path != [] {
        OwnDerives(c.path);
        DerivesThen(Reads([c.path], [], true), keys, {OnObject(c.path)}, keyAccesses);
      }
    } else {
      var args, argAccesses := ReadsAll(cfg, shadowed, c.base.operands), AccessesOfAll(o, f, shadowed, c.base.operands);
      AllDerive(cfg, shadowed, c.base.operands);
      LookupDerives(c.base, c.path);
      DerivesThen(keys, args, keyAccesses, argAccesses);
      DerivesThen(LookupReads(c.base, c.path), Then(keys, args), {OnLookup(c.base, c.path)}, keyAccesses + argAccesses);
      assert {OnLookup(c.base, c.path)} + argAccesses + keyAccesses
          == {OnLookup(c.base, c.path)} + (keyAccesses + argAccesses);
    }
  }

  lemma OwnDerives(path: seq<string>)
    requires path != []
    ensures Derives(Reads([path], [], true), {OnObject(path)})
  {
    assert ObjectPaths({OnObject(path)}) == {path} == Elems([path]);
  }

  lemma LookupDerives(call: Expr, path: seq<string>)
    requires call.Call? && |call.operands| == LOOKUP_ARGS
    ensures Derives(LookupReads(call, path), {OnLookup(call, path)})
  {
    var a := OnLookup(call, path);
    assert NamesKind(a) ==>
      LookupPaths({a}) == {LookupPath(call.operands[0].value.s, call.operands[1].value.s, path)};
  }

  lemma {:induction false} AllDerive(cfg: Config, shadowed: bool, es: seq<Expr>)
    ensures Derives(ReadsAll(cfg, shadowed, es), AccessesOfAll(cfg.objectVar, cfg.lookupFunc, shadowed, es))
    decreases SizeAll(es), 0
  {
    if es != [] {
      WalkDerives(cfg, shadowed, es[0]);
      AllDerive(cfg, shadowed, es[1..]);
      DerivesThen(ReadsOf(cfg, shadowed, es[0]), ReadsAll(cfg, shadowed, es[1..]),
                  AccessesOf(cfg.objectVar, cfg.lookupFunc, shadowed, es[0], []),
                  AccessesOfAll(cfg.objectVar, cfg.lookupFunc, shadowed, es[1..]));
    }
  }

  lemma {:induction false} ChildrenDerive(cfg: Config, shadowed: bool, e: Expr)
    requires !IsRoot(cfg, shadowed, MembershipChain(e)) && !IsRoot(cfg, shadowed, ResolveChain(e))
    ensures Derives(ChildReads(cfg, shadowed, e), AccessesOf(cfg.objectVar, cfg.lookupFunc, shadowed, e, []))
    decreases Size(e), 1
  {
    match e {
      case Select(operand, field, _) =>
        WalkDerives(cfg, shadowed, operand);
        RestIsIrrelevant(cfg, shadowed, operand, [field] + []);
      case Call(_, _, operands) =>
        AllDerive(cfg, shadowed, operands);
        CallAccesses(cfg, shadowed, e);
      case ListLit(elements) => AllDerive(cfg, shadowed, elements);
      case MapLit(keysAndValues) => AllDerive(cfg, shadowed, keysAndValues);
      case StructLit(_, _, values) => AllDerive(cfg, shadowed, values);
      case Comprehension(_, _, _, _, _, _, _, _) => ComprehensionDerives(cfg, shadowed, e);
      case _ =>
    }
  }

  /** A call off no object reads what its arguments read. */
  lemma CallAccesses(cfg: Config, shadowed: bool, e: Expr)
    requires e.Call? && !IsRoot(cfg, shadowed, MembershipChain(e)) && !IsRoot(cfg, shadowed, ResolveChain(e))
    ensures AccessesOf(cfg.objectVar, cfg.lookupFunc, shadowed, e, [])
         == AccessesOfAll(cfg.objectVar, cfg.lookupFunc, shadowed, e.operands)
  {
    var o, f := cfg.objectVar, cfg.lookupFunc;
    if IsIndexCall(e) {
      AccessesOfTwo(o, f, shadowed, e.operands);
      if IsStringLiteral(e.operands[1]) {
        RestIsIrrelevant(cfg, shadowed, e.operands[0], [e.operands[1].value.s] + []);
      }
    } else if IsInCall(e) && IsStringLiteral(e.operands[0]) {
      AccessesOfTwo(o, f, shadowed, e.operands);
      assert !IsRoot(cfg, shadowed, ResolveChain(e.operands[1]));
      RestIsIrrelevant(cfg, shadowed, e.operands[1], [e.operands[0].value.s]);
    }
  }

  lemma {:induction false} ComprehensionDerives(cfg: Config, shadowed: bool, e: Expr)
    requires e.Comprehension?
    ensures Derives(ChildReads(cfg, shadowed, e), AccessesOf(cfg.objectVar, cfg.lookupFunc, shadowed, e, []))
    decreases Size(e), 0
  {
    var o, f := cfg.objectVar, cfg.lookupFunc;
    var inLoop, inAccu := LoopShadows(cfg, shadowed, e), shadowed || e.accuVar == o;
    WalkDerives(cfg, shadowed, e.iterRange);
    WalkDerives(cfg, shadowed, e.accuInit);
    WalkDerives(cfg, inLoop, e.loopCondition);
    WalkDerives(cfg, inLoop, e.loopStep);
    WalkDerives(cfg, inAccu, e.result);
    FiveDerive(ReadsOf(cfg, shadowed, e.iterRange), ReadsOf(cfg, shadowed, e.accuInit),
               ReadsOf(cfg, inLoop, e.loopCondition), ReadsOf(cfg, inLoop, e.loopStep), ReadsOf(cfg, inAccu, e.result),
               AccessesOf(o, f, shadowed, e.iterRange, []), AccessesOf(o, f, shadowed, e.accuInit, []),
               AccessesOf(o, f, inLoop, e.loopCondition, []), AccessesOf(o, f, inLoop, e.loopStep, []),
               AccessesOf(o, f, inAccu, e.result, []));
  }

  lemma FiveDerive(r1: Reads, r2: Reads, r3: Reads, r4: Reads, r5: Reads,
                   a1: set<Access>, a2: set<Access>, a3: set<Access>, a4: set<Access>, a5: set<Access>)
    requires Derives(r1, a1) && Derives(r2, a2) && Derives(r3, a3) && Derives(r4, a4) && Derives(r5, a5)
    ensures Derives(Then(r1, Then(r2, Then(r3, Then(r4, r5)))), a1 + a2 + a3 + a4 + a5)
  {
    DerivesThen(r4, r5, a4, a5);
    DerivesThen(r3, Then(r4, r5), a3, a4 + a5);
    DerivesThen(r2, Then(r3, Then(r4, r5)), a2, a3 + (a4 + a5));
    DerivesThen(r1, Then(r2, Then(r3, Then(r4, r5))), a1, a2 + (a3 + (a4 + a5)));
    assert a1 + a2 + a3 + a4 + a5 == a1 + (a2 + (a3 + (a4 + a5)));
  }

  /** FieldPaths; None stands for an expression that did not compile. The object's paths are complete
  exactly when the expression compiled and never uses the object whole, and then they are exactly the
  paths it reads. */
  method DeriveFieldPaths(compiled: Option<Expr>, objectVar: string)
    returns (fieldPaths: seq<seq<string>>, isComplete: bool)
    ensures isComplete <==>
      compiled.Some? && OnObject([]) !in AccessesOf(objectVar, "", false, compiled.value, [])
    ensures isComplete ==>
      && StrictlySorted(PathLess, fieldPaths)
      && Elems(fieldPaths) == ObjectPaths(AccessesOf(objectVar, "", false, compiled.value, []))
    ensures !isComplete ==> fieldPaths == []
    ensures isComplete <==> compiled.Some? && ReadsOf(Config(objectVar, ""), false, compiled.value).complete
    ensures isComplete ==> Elems(fieldPaths) == Elems(ReadsOf(Config(objectVar, ""), false, compiled.value).paths)
  {
    if compiled.None? {
      return [], false;
    }
    var w := new FieldWalker(objectVar, "");
    w.Walk(compiled.value);
    NoReadsNeutral(w.State());
    WalkDerives(Config(objectVar, ""), false, compiled.value);
    if !w.ok {
      return [], false;
    }
    fieldPaths := SortedUniquePaths(w.paths);
    isComplete := true;
  }
}
