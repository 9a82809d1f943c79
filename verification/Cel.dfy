/** A CEL expression tree and its evaluation, with error results and with the functions of
the environment left as parameters. */
module Cel {
  import opened Options

  datatype Key = KBool(b: bool) | KInt(i: int) | KStr(s: string)

  datatype Value =
    | VNull
    | VBool(b: bool)
    | VInt(i: int)
    | VStr(s: string)
    | VOpaque(tag: int)
    | VList(items: seq<Value>)
    | VMap(entries: map<Key, Value>)

  datatype Res = Ok(value: Value) | Err(reason: string)

  /** A member call carries its target as the first operand. A map literal lists keys and
  values alternating. */
  datatype Expr =
    | Ident(name: string)
    | Literal(value: Value)
    | Select(operand: Expr, field: string, testOnly: bool)
    | Call(fn: string, member: bool, operands: seq<Expr>)
    | ListLit(elements: seq<Expr>)
    | MapLit(keysAndValues: seq<Expr>)
    | StructLit(typeName: string, fieldNames: seq<string>, fieldValues: seq<Expr>)
    | Comprehension(iterRange: Expr, iterVar: string, iterVar2: Option<string>,
                    accuVar: string, accuInit: Expr, loopCondition: Expr, loopStep: Expr, result: Expr)
    | Unspecified

  const INDEX := "_[_]"
  const IN := "@in"
  const OLD_IN := "_in_"
  const LOOKUP_ARGS: nat := 4

  predicate IsIndexCall(e: Expr) {
    e.Call? && e.fn == INDEX && !e.member && |e.operands| == 2
  }

  predicate IsInCall(e: Expr) {
    e.Call? && (e.fn == IN || e.fn == OLD_IN) && !e.member && |e.operands| == 2
  }

  /** A call of the lookup function; an empty name means the environment has none. */
  predicate IsLookupCall(lookupFunc: string, e: Expr) {
    lookupFunc != "" && e.Call? && e.fn == lookupFunc && !e.member && |e.operands| == LOOKUP_ARGS
  }

  predicate IsStringLiteral(e: Expr) {
    e.Literal? && e.value.VStr?
  }

  /** The call names apiVersion and kind with string literals. */
  predicate NamesItsKind(e: Expr)
    requires e.Call? && |e.operands| == LOOKUP_ARGS
  {
    IsStringLiteral(e.operands[0]) && IsStringLiteral(e.operands[1])
  }

  function Size(e: Expr): nat
    decreases e
  {
    1 + match e
      case Select(operand, _, _) => 1 + Size(operand)
      case Call(_, _, operands) => SizeAll(operands)
      case ListLit(elements) => SizeAll(elements)
      case MapLit(keysAndValues) => SizeAll(keysAndValues)
      case StructLit(_, _, values) => SizeAll(values)
      case Comprehension(range, _, _, _, init, condition, step, result) =>
        5 + Size(range) + Size(init) + Size(condition) + Size(step) + Size(result)
      case _ => 0
  }

  function SizeAll(es: seq<Expr>): nat
    decreases es
  {
    if es == [] then 0 else 1 + Size(es[0]) + SizeAll(es[1..])
  }

  /** What a generic construct is, apart from its operands' results. */
  datatype Head =
    | HCall(fn: string, member: bool)
    | HList
    | HMap
    | HStruct(typeName: string, fieldNames: seq<string>)

  /** The environment an expression runs in: the interpretation of every generic construct as
  a function of its operands' results (errors included, so short-circuit operators fit), the
  order in which a map is ranged over, and the objects lookup() finds. `fetch` is told
  whether the call named its apiVersion and kind with literals. */
  datatype World = World(
    lookupFunc: string,
    apply: (Head, seq<Res>) -> Res,
    order: map<Key, Value> -> seq<Key>,
    fetch: (bool, string, string, string, string) -> Res)

  type Env = map<string, Res>

  function SelectField(r: Res, field: string, testOnly: bool): Res {
    if r.Err? then r
    else if !r.value.VMap? then Err("no such overload")
    else if testOnly then Ok(VBool(KStr(field) in r.value.entries))
    else if KStr(field) in r.value.entries then Ok(r.value.entries[KStr(field)])
    else Err("no such key")
  }

  function AsKey(v: Value): Option<Key> {
    match v
    case VBool(b) => Some(KBool(b))
    case VInt(i) => Some(KInt(i))
    case VStr(s) => Some(KStr(s))
    case _ => None
  }

  function FromKey(k: Key): Value {
    match k
    case KBool(b) => VBool(b)
    case KInt(i) => VInt(i)
    case KStr(s) => VStr(s)
  }

  function IndexValue(container: Res, key: Res): Res {
    if container.Err? then container
    else if key.Err? then key
    else match container.value
      case VMap(m) =>
        var k := AsKey(key.value);
        if k.None? then Err("unsupported key type")
        else if k.value in m then Ok(m[k.value]) else Err("no such key")
      case VList(items) =>
        if key.value.VInt? && 0 <= key.value.i < |items| then Ok(items[key.value.i]) else Err("index out of bounds")
      case _ => Err("no such overload")
  }

  function Contains(key: Res, container: Res): Res {
    if container.Err? then container
    else if key.Err? then key
    else match container.value
      case VMap(m) => Ok(VBool(AsKey(key.value).Some? && AsKey(key.value).value in m))
      case VList(items) => Ok(VBool(key.value in items))
      case _ => Err("no such overload")
  }

  function LookupObject(w: World, literal: bool, args: seq<Res>): Res
    requires |args| == LOOKUP_ARGS
  {
    if exists i :: 0 <= i < |args| && !(args[i].Ok? && args[i].value.VStr?) then Err("lookup arguments must be strings")
    else w.fetch(literal, args[0].value.s, args[1].value.s, args[2].value.s, args[3].value.s)
  }

  datatype Binding = Binding(first: Res, second: Res)

  /** What a comprehension ranges over: list elements (with index) or map keys (with value). */
  function Bindings(range: Value, two: bool, w: World): Option<seq<Binding>> {
    match range
    case VList(items) =>
      Some(seq(|items|, i requires 0 <= i < |items| =>
                 if two then Binding(Ok(VInt(i)), Ok(items[i])) else Binding(Ok(items[i]), Ok(VNull))))
    case VMap(m) =>
      var keys := w.order(m);
      Some(seq(|keys|, i requires 0 <= i < |keys| =>
                 Binding(Ok(FromKey(keys[i])), if keys[i] in m then Ok(m[keys[i]]) else Ok(VNull))))
    case _ => None
  }

  function Eval(e: Expr, env: Env, w: World): Res
    decreases e, 1, 0
  {
    match e
    case Ident(name) => if name in env then env[name] else Err("no such attribute")
    case Literal(v) => Ok(v)
    case Select(operand, field, testOnly) => SelectField(Eval(operand, env, w), field, testOnly)
    case Call(fn, member, operands) =>
      var args := EvalAll(operands, env, w);
      if IsIndexCall(e) then IndexValue(args[0], args[1])
      else if IsInCall(e) then Contains(args[0], args[1])
      else if IsLookupCall(w.lookupFunc, e) then LookupObject(w, NamesItsKind(e), args)
      else w.apply(HCall(fn, member), args)
    case ListLit(elements) => w.apply(HList, EvalAll(elements, env, w))
    case MapLit(keysAndValues) => w.apply(HMap, EvalAll(keysAndValues, env, w))
    case StructLit(typeName, names, values) => w.apply(HStruct(typeName, names), EvalAll(values, env, w))
    case Comprehension(iterRange, _, iterVar2, accuVar, accuInit, _, _, result) =>
      var range := Eval(iterRange, env, w);
      if range.Err? then range
      else
        var bindings := Bindings(range.value, iterVar2.Some?, w);
        if bindings.None? then Err("no such overload")
        else
          var accu := Loop(e, bindings.value, env, w, Eval(accuInit, env, w));
          Eval(result, env[accuVar := accu], w)
    case Unspecified => Err("unspecified expression")
  }

  function EvalAll(es: seq<Expr>, env: Env, w: World): (rs: seq<Res>)
    ensures |rs| == |es|
    decreases es, 0, 0
  {
    if es == [] then [] else [Eval(es[0], env, w)] + EvalAll(es[1..], env, w)
  }

  function LoopEnv(c: Expr, env: Env, accu: Res, b: Binding): Env
    requires c.Comprehension?
  {
    var inner := env[c.accuVar := accu][c.iterVar := b.first];
    if c.iterVar2.Some? then inner[c.iterVar2.value := b.second] else inner
  }

  /** The fold of a comprehension; it stops as soon as the loop condition is false. */
  function Loop(c: Expr, bindings: seq<Binding>, env: Env, w: World, accu: Res): Res
    requires c.Comprehension?
    decreases c, 0, |bindings|
  {
    if bindings == [] then accu
    else
      var inner := LoopEnv(c, env, accu, bindings[0]);
      if Eval(c.loopCondition, inner, w) == Ok(VBool(false)) then accu
      else Loop(c, bindings[1..], env, w, Eval(c.loopStep, inner, w))
  }
}
