/** Every lookup call of an expression with the path read off its object, whether or not the walker
records it: the walker drops calls that compute their kind and never reaches those beyond the
point where it stops. */
module LookupUses {
  import opened Orders
  import opened Cel
  import opened FieldPaths
  import opened Accesses

  datatype Gvk = Gvk(group: string, version: string, kind: string)

  /** The position of the first slash from i on, or the length. */
  function FirstSlash(s: string, i: nat): (k: nat)
    requires i <= |s|
    ensures i <= k <= |s|
    decreases |s| - i
  {
    if i == |s| || s[i] == '/' then i else FirstSlash(s, i + 1)
  }

  /** schema.FromAPIVersionAndKind: an apiVersion with two slashes has no group or version. */
  function GvkOf(apiVersion: string, kind: string): Gvk {
    var k := FirstSlash(apiVersion, 0);
    if apiVersion == "/" then Gvk("", "", kind)
    else if k == |apiVersion| then Gvk("", apiVersion, kind)
    else if FirstSlash(apiVersion, k + 1) == |apiVersion| then Gvk(apiVersion[..k], apiVersion[k + 1..], kind)
    else Gvk("", "", kind)
  }

  /** A lookup call and a path read off the object it returns. */
  datatype Use = Use(call: Expr, path: seq<string>)

  predicate IsLookupChain(f: string, c: Chain) {
    c.Chain? && IsLookupCall(f, c.base)
  }

  function Uses(f: string, e: Expr): set<Use>
    decreases Size(e), 2
  {
    var m, c := MembershipChain(e), ResolveChain(e);
    if IsLookupChain(f, m) then ChainUses(f, m, e.operands[1])
    else if IsLookupChain(f, c) then ChainUses(f, c, e)
    else ChildUses(f, e)
  }

  /** A chain rooted at a lookup: its own path, its index keys and the call's arguments. */
  function ChainUses(f: string, c: Chain, chain: Expr): set<Use>
    requires IsLookupChain(f, c) && Size(c.base) <= Size(chain)
    decreases Size(chain), 1
  {
    {Use(c.base, c.path)} + UsesAll(f, IndexKeys(chain)) + UsesAll(f, c.base.operands)
  }

  function ChildUses(f: string, e: Expr): set<Use>
    decreases Size(e), 1
  {
    match e
    case Select(operand, _, _) => Uses(f, operand)
    case Call(_, _, operands) => UsesAll(f, operands)
    case ListLit(elements) => UsesAll(f, elements)
    case MapLit(keysAndValues) => UsesAll(f, keysAndValues)
    case StructLit(_, _, values) => UsesAll(f, values)
    case Comprehension(range, _, _, _, init, condition, step, result) =>
      Uses(f, range) + Uses(f, init) + Uses(f, condition) + Uses(f, step) + Uses(f, result)
    case _ => {}
  }

  function UsesAll(f: string, es: seq<Expr>): set<Use>
    decreases SizeAll(es), 0
  {
    if es == [] then {} else Uses(f, es[0]) + UsesAll(f, es[1..])
  }

  lemma UsesOfTwo(f: string, e: Expr)
    requires e.Call? && |e.operands| == 2
    ensures UsesAll(f, e.operands) == Uses(f, e.operands[0]) + Uses(f, e.operands[1])
  {
    var rest := e.operands[1..];
    assert rest[0] == e.operands[1] && rest[1..] == [];
    assert UsesAll(f, rest) == Uses(f, rest[0]) + UsesAll(f, rest[1..]);
  }

  /** A chain off a variable looks up only in its index keys. */
  lemma {:induction false} VariableChainUses(f: string, e: Expr)
    requires ResolveChain(e).Chain? && ResolveChain(e).base.Ident?
    ensures Uses(f, e) == UsesAll(f, IndexKeys(e))
    decreases e
  {
    if e.Select? {
      VariableChainUses(f, e.operand);
    } else if IsIndexCall(e) {
      VariableChainUses(f, e.operands[0]);
      UsesOfTwo(f, e);
      assert IndexKeys(e)[1..] == IndexKeys(e.operands[0]);
    }
  }

  lemma VariableMembershipUses(f: string, e: Expr)
    requires MembershipChain(e).Chain? && MembershipChain(e).base.Ident?
    ensures Uses(f, e) == UsesAll(f, IndexKeys(e.operands[1]))
  {
    VariableChainUses(f, e.operands[1]);
    UsesOfTwo(f, e);
    assert Uses(f, e.operands[0]) == {};
  }

  // The walker's lookups are the literal uses.

  predicate NamedUse(u: Use) {
    u.call.Call? && |u.call.operands| == LOOKUP_ARGS && NamesItsKind(u.call)
  }

  function AsLookupPath(u: Use): LookupPath
    requires NamedUse(u)
  {
    LookupPath(u.call.operands[0].value.s, u.call.operands[1].value.s, u.path)
  }

  function LiteralPaths(us: set<Use>): set<LookupPath> {
    set u | u in us && NamedUse(u) :: AsLookupPath(u)
  }

  /** A walk that has not stopped has recorded exactly the literal uses. */
  ghost predicate Records(r: Reads, us: set<Use>) {
    r.complete ==> Elems(r.lookups) == LiteralPaths(us)
  }

  lemma RecordsThen(a: Reads, b: Reads, us: set<Use>, vs: set<Use>)
    requires Records(a, us) && Records(b, vs)
    ensures Records(Then(a, b), us + vs)
  {
    assert Elems(a.lookups + b.lookups) == Elems(a.lookups) + Elems(b.lookups);
    assert LiteralPaths(us + vs) == LiteralPaths(us) + LiteralPaths(vs);
  }

  lemma RecordsOwn(call: Expr, path: seq<string>)
    requires call.Call? && |call.operands| == LOOKUP_ARGS
    ensures Records(LookupReads(call, path), {Use(call, path)})
  {
    var u := Use(call, path);
    assert NamedUse(u) ==> LiteralPaths({u}) == {AsLookupPath(u)};
  }

  lemma {:induction false} WalkRecordsUses(cfg: Config, shadowed: bool, e: Expr)
    ensures Records(ReadsOf(cfg, shadowed, e), Uses(cfg.lookupFunc, e))
    decreases Size(e), 2
  {
    var m, c := MembershipChain(e), ResolveChain(e);
    if IsRoot(cfg, shadowed, m) {
      RecordedUses(cfg, shadowed, m, e.operands[1]);
      if m.base.Ident? { VariableMembershipUses(cfg.lookupFunc, e); }
    } else if IsRoot(cfg, shadowed, c) {
      RecordedUses(cfg, shadowed, c, e);
      if c.base.Ident? { VariableChainUses(cfg.lookupFunc, e); }
    } else {
      ChildrenRecordUses(cfg, shadowed, e);
    }
  }

  lemma {:induction false} RecordedUses(cfg: Config, shadowed: bool, c: Chain, chain: Expr)
    requires IsRoot(cfg, shadowed, c) && Size(c.base) <= Size(chain)
    ensures Records(RecordReads(cfg, shadowed, c, chain),
                    if c.base.Ident? then UsesAll(cfg.lookupFunc, IndexKeys(chain))
                    else ChainUses(cfg.lookupFunc, c, chain))
    decreases Size(chain), 1
  {
    var f, keys := cfg.lookupFunc, ReadsAll(cfg, shadowed, IndexKeys(chain));
    AllRecordUses(cfg, shadowed, IndexKeys(chain));
    if c.base.Ident? {
      RecordsThen(Reads([c.path], [], true), keys, {}, UsesAll(f, IndexKeys(chain)));
      assert {} + UsesAll(f, IndexKeys(chain)) == UsesAll(f, IndexKeys(chain));
    } else {
      var args, own := ReadsAll(cfg, shadowed, c.base.operands), LookupReads(c.base, c.path);
      AllRecordUses(cfg, shadowed, c.base.operands);
      RecordsOwn(c.base, c.path);
      RecordsThen(keys, args, UsesAll(f, IndexKeys(chain)), UsesAll(f, c.base.operands));
      RecordsThen(own, Then(keys, args), {Use(c.base, c.path)},
                  UsesAll(f, IndexKeys(chain)) + UsesAll(f, c.base.operands));
      assert ChainUses(f, c, chain)
          == {Use(c.base, c.path)} + (UsesAll(f, IndexKeys(chain)) + UsesAll(f, c.base.operands));
    }
  }

  lemma {:induction false} AllRecordUses(cfg: Config, shadowed: bool, es: seq<Expr>)
    ensures Records(ReadsAll(cfg, shadowed, es), UsesAll(cfg.lookupFunc, es))
    decreases SizeAll(es), 0
  {
    if es != [] {
      WalkRecordsUses(cfg, shadowed, es[0]);
      AllRecordUses(cfg, shadowed, es[1..]);
      RecordsThen(ReadsOf(cfg, shadowed, es[0]), ReadsAll(cfg, shadowed, es[1..]),
                  Uses(cfg.lookupFunc, es[0]), UsesAll(cfg.lookupFunc, es[1..]));
    }
  }

  lemma {:induction false} ChildrenRecordUses(cfg: Config, shadowed: bool, e: Expr)
    ensures Records(ChildReads(cfg, shadowed, e), ChildUses(cfg.lookupFunc, e))
    decreases Size(e), 1
  {
    match e {
      case Select(operand, _, _) => WalkRecordsUses(cfg, shadowed, operand);
      case Call(_, _, operands) => AllRecordUses(cfg, shadowed, operands);
      case ListLit(elements) => AllRecordUses(cfg, shadowed, elements);
      case MapLit(keysAndValues) => AllRecordUses(cfg, shadowed, keysAndValues);
      case StructLit(_, _, values) => AllRecordUses(cfg, shadowed, values);
      case Comprehension(range, _, _, accuVar, init, condition, step, result) =>
        var inLoop, inAccu := LoopShadows(cfg, shadowed, e), shadowed || accuVar == cfg.objectVar;
        WalkRecordsUses(cfg, shadowed, range);
        WalkRecordsUses(cfg, shadowed, init);
        WalkRecordsUses(cfg, inLoop, condition);
        WalkRecordsUses(cfg, inLoop, step);
        WalkRecordsUses(cfg, inAccu, result);
        FiveRecord(ReadsOf(cfg, shadowed, range), ReadsOf(cfg, shadowed, init), ReadsOf(cfg, inLoop, condition),
                   ReadsOf(cfg, inLoop, step), ReadsOf(cfg, inAccu, result),
                   Uses(cfg.lookupFunc, range), Uses(cfg.lookupFunc, init), Uses(cfg.lookupFunc, condition),
                   Uses(cfg.lookupFunc, step), Uses(cfg.lookupFunc, result));
      case _ =>
    }
  }

  lemma FiveRecord(r1: Reads, r2: Reads, r3: Reads, r4: Reads, r5: Reads,
                   u1: set<Use>, u2: set<Use>, u3: set<Use>, u4: set<Use>, u5: set<Use>)
    requires Records(r1, u1) && Records(r2, u2) && Records(r3, u3) && Records(r4, u4) && Records(r5, u5)
    ensures Records(Then(r1, Then(r2, Then(r3, Then(r4, r5)))), u1 + u2 + u3 + u4 + u5)
  {
    RecordsThen(r4, r5, u4, u5);
    RecordsThen(r3, Then(r4, r5), u3, u4 + u5);
    RecordsThen(r2, Then(r3, Then(r4, r5)), u2, u3 + (u4 + u5));
    RecordsThen(r1, Then(r2, Then(r3, Then(r4, r5))), u1, u2 + (u3 + (u4 + u5)));
    assert u1 + u2 + u3 + u4 + u5 == u1 + (u2 + (u3 + (u4 + u5)));
  }

  // The uses are the accesses of lookups.

  function UsesAmong(accesses: set<Access>): set<Use> {
    set a | a in accesses && a.OnLookup? :: Use(a.call, a.path)
  }

  lemma UsesAmongUnion(x: set<Access>, y: set<Access>)
    ensures UsesAmong(x + y) == UsesAmong(x) + UsesAmong(y)
  {
  }

  lemma {:induction false} UsesAreAccesses(o: string, f: string, shadowed: bool, e: Expr)
    ensures Uses(f, e) == UsesAmong(AccessesOf(o, f, shadowed, e, []))
    decreases Size(e), 2
  {
    var cfg := Config(o, f);
    var m, c := MembershipChain(e), ResolveChain(e);
    if IsRoot(cfg, shadowed, m) {
      ChainAccesses(o, f, shadowed, e.operands[1], [e.operands[0].value.s]);
      RootUses(o, f, shadowed, m, e.operands[1]);
      if m.base.Ident? { VariableMembershipUses(f, e); }
    } else if IsRoot(cfg, shadowed, c) {
      ChainAccesses(o, f, shadowed, e, []);
      assert c.exact ==> c.path + [] == c.path;
      RootUses(o, f, shadowed, c, e);
      if c.base.Ident? { VariableChainUses(f, e); }
    } else {
      ChildUsesAreAccesses(o, f, shadowed, e);
    }
  }

  lemma {:induction false} RootUses(o: string, f: string, shadowed: bool, c: Chain, chain: Expr)
    requires IsRoot(Config(o, f), shadowed, c) && Size(c.base) <= Size(chain)
    ensures UsesAmong(AccessesOf(o, f, shadowed, c.base, c.path) + AccessesOfAll(o, f, shadowed, IndexKeys(chain)))
         == if c.base.Ident? then UsesAll(f, IndexKeys(chain)) else ChainUses(f, c, chain)
    decreases Size(chain), 1
  {
    RootAccesses(Config(o, f), shadowed, c.base, c.path);
    AllUsesAreAccesses(o, f, shadowed, IndexKeys(chain));
    if !c.base.Ident? { AllUsesAreAccesses(o, f, shadowed, c.base.operands); }
  }

  lemma {:induction false} AllUsesAreAccesses(o: string, f: string, shadowed: bool, es: seq<Expr>)
    ensures UsesAll(f, es) == UsesAmong(AccessesOfAll(o, f, shadowed, es))
    decreases SizeAll(es), 0
  {
    if es != [] {
      UsesAreAccesses(o, f, shadowed, es[0]);
      AllUsesAreAccesses(o, f, shadowed, es[1..]);
      UsesAmongUnion(AccessesOf(o, f, shadowed, es[0], []), AccessesOfAll(o, f, shadowed, es[1..]));
    }
  }

  lemma {:induction false} ChildUsesAreAccesses(o: string, f: string, shadowed: bool, e: Expr)
    requires !IsRoot(Config(o, f), shadowed, MembershipChain(e)) && !IsRoot(Config(o, f), shadowed, ResolveChain(e))
    ensures ChildUses(f, e) == UsesAmong(AccessesOf(o, f, shadowed, e, []))
    decreases Size(e), 1
  {
    match e {
      case Select(operand, field, _) =>
        UsesAreAccesses(o, f, shadowed, operand);
        RestIsIrrelevant(Config(o, f), shadowed, operand, [field] + []);
      case Call(_, _, operands) =>
        AllUsesAreAccesses(o, f, shadowed, operands);
        CallAccesses(Config(o, f), shadowed, e);
      case ListLit(elements) => AllUsesAreAccesses(o, f, shadowed, elements);
      case MapLit(keysAndValues) => AllUsesAreAccesses(o, f, shadowed, keysAndValues);
      case StructLit(_, _, values) => AllUsesAreAccesses(o, f, shadowed, values);
      case Comprehension(_, _, _, _, _, _, _, _) => ComprehensionUses(o, f, shadowed, e);
      case _ =>
    }
  }

  lemma {:induction false} ComprehensionUses(o: string, f: string, shadowed: bool, e: Expr)
    requires e.Comprehension?
    ensures ChildUses(f, e) == UsesAmong(AccessesOf(o, f, shadowed, e, []))
    decreases Size(e), 0
  {
    var inLoop, inAccu := LoopShadows(Config(o, f), shadowed, e), shadowed || e.accuVar == o;
    UsesAreAccesses(o, f, shadowed, e.iterRange);
    UsesAreAccesses(o, f, shadowed, e.accuInit);
    UsesAreAccesses(o, f, inLoop, e.loopCondition);
    UsesAreAccesses(o, f, inLoop, e.loopStep);
    UsesAreAccesses(o, f, inAccu, e.result);
    var a1, a2 := AccessesOf(o, f, shadowed, e.iterRange, []), AccessesOf(o, f, shadowed, e.accuInit, []);
    var a3, a4 := AccessesOf(o, f, inLoop, e.loopCondition, []), AccessesOf(o, f, inLoop, e.loopStep, []);
    UsesAmongUnion(a1, a2);
    UsesAmongUnion(a1 + a2, a3);
    UsesAmongUnion(a1 + a2 + a3, a4);
    UsesAmongUnion(a1 + a2 + a3 + a4, AccessesOf(o, f, inAccu, e.result, []));
  }

  /** How an apiVersion is read: without a slash it is a version of the core group; with one slash, group
  and version; anything else has neither. */
  lemma GvkOfReads(group: string, version: string, rest: string, kind: string)
    requires '/' !in group && '/' !in version
    ensures GvkOf(version, kind) == Gvk("", version, kind)
    ensures group + version != "" ==> GvkOf(group + "/" + version, kind) == Gvk(group, version, kind)
    ensures GvkOf(group + "/" + version + "/" + rest, kind) == Gvk("", "", kind)
  {
    NoSlash(version, 0);
    var two := group + "/" + version;
    SlashAt(two, 0, |group|);
    NoSlash(two, |group| + 1);
    assert two[..|group|] == group && two[|group| + 1..] == version;
    var three := two + "/" + rest;
    assert forall i :: 0 <= i < |two| ==> three[i] == two[i];
    SlashAt(three, 0, |group|);
    SlashAt(three, |group| + 1, |two|);
  }

  lemma {:induction false} NoSlash(s: string, i: nat)
    requires i <= |s| && forall k :: i <= k < |s| ==> s[k] != '/'
    ensures FirstSlash(s, i) == |s|
    decreases |s| - i
  {
    if i < |s| { NoSlash(s, i + 1); }
  }

  lemma {:induction false} SlashAt(s: string, i: nat, at: nat)
    requires i <= at < |s| && s[at] == '/' && forall k :: i <= k < at ==> s[k] != '/'
    ensures FirstSlash(s, i) == at
    decreases at - i
  {
    if i < at { SlashAt(s, i + 1, at); }
  }
}
