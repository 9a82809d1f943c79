/** What an expression reads, on the expression alone: the meaning the walker's result is measured
against. It follows each value outwards to what is done with it, where the walker works from the
whole chain inwards, and it does not stop at a whole-object use. */
module Accesses {
  import opened Options
  import opened Cel

  /** A path read off the watched object, or off the object a lookup call returns. The empty path is a
  use of the object as a whole. */
  datatype Access = OnObject(path: seq<string>) | OnLookup(call: Expr, path: seq<string>)

  /** The accesses of e, given that the fields `rest` are then read off its value: the object variable
  o is not shadowed unless said so, and f names the lookup function if there is one.

  A select or a literal index reads one field further down; a computed index can pick any entry, so
  its container is needed as it is; a literal key's membership test reads that key; whatever else
  takes a value takes it whole. */
  function AccessesOf(o: string, f: string, shadowed: bool, e: Expr, rest: seq<string>): set<Access>
    decreases e, 1
  {
    match e
    case Ident(name) => if name == o && !shadowed then {OnObject(rest)} else {}
    case Select(operand, field, _) => AccessesOf(o, f, shadowed, operand, [field] + rest)
    case Call(fn, member, args) =>
      if fn == "_[_]" && !member && |args| == 2 then
        if args[1].Literal? && args[1].value.VStr? then AccessesOf(o, f, shadowed, args[0], [args[1].value.s] + rest)
        else AccessesOf(o, f, shadowed, args[0], []) + AccessesOf(o, f, shadowed, args[1], [])
      else if (fn == "@in" || fn == "_in_") && !member && |args| == 2 && args[0].Literal? && args[0].value.VStr? then
        AccessesOf(o, f, shadowed, args[1], [args[0].value.s])
      else
        (if f != "" && fn == f && !member && |args| == 4 then {OnLookup(e, rest)} else {})
        + AccessesOfAll(o, f, shadowed, args)
    case ListLit(elements) => AccessesOfAll(o, f, shadowed, elements)
    case MapLit(keysAndValues) => AccessesOfAll(o, f, shadowed, keysAndValues)
    case StructLit(_, _, values) => AccessesOfAll(o, f, shadowed, values)
    case Comprehension(range, iterVar, iterVar2, accuVar, init, condition, step, result) =>
      var inAccu := shadowed || accuVar == o;
      var inLoop := inAccu || iterVar == o || iterVar2 == Some(o);
      AccessesOf(o, f, shadowed, range, []) + AccessesOf(o, f, shadowed, init, [])
      + AccessesOf(o, f, inLoop, condition, []) + AccessesOf(o, f, inLoop, step, [])
      + AccessesOf(o, f, inAccu, result, [])
    case _ => {}
  }

  function AccessesOfAll(o: string, f: string, shadowed: bool, es: seq<Expr>): set<Access>
    decreases es, 0
  {
    if es == [] then {} else AccessesOf(o, f, shadowed, es[0], []) + AccessesOfAll(o, f, shadowed, es[1..])
  }

  function ObjectPaths(accesses: set<Access>): set<seq<string>> {
    set a | a in accesses && a.OnObject? :: a.path
  }
}
