/** The prefix tree of retained field paths and the pruning it drives. */
module FieldTree {
  import opened Cel

  /** keep marks a node whose value is retained whole. */
  datatype Tree = Tree(keep: bool, children: map<string, Tree>)

  const EMPTY: Tree := Tree(false, map[])
  const WHOLE: Tree := Tree(true, map[])

  function Insert(t: Tree, path: seq<string>): Tree
    decreases path
  {
    if t.keep then t
    else if path == [] then WHOLE
    else
      var child := if path[0] in t.children then t.children[path[0]] else EMPTY;
      Tree(false, t.children[path[0] := Insert(child, path[1..])])
  }

  function InsertAll(t: Tree, paths: seq<seq<string>>): Tree {
    if paths == [] then t else Insert(InsertAll(t, paths[..|paths| - 1]), paths[|paths| - 1])
  }

  /** Path p ends at or below a node that is retained whole. */
  predicate Covers(t: Tree, p: seq<string>)
    decreases p
  {
    t.keep || (p != [] && p[0] in t.children && Covers(t.children[p[0]], p[1..]))
  }

  lemma {:induction false} InsertCovers(t: Tree, p: seq<string>, q: seq<string>)
    ensures Covers(Insert(t, p), q) <==> Covers(t, q) || p <= q
    decreases p
  {
    if !t.keep && p != [] {
      var child := if p[0] in t.children then t.children[p[0]] else EMPTY;
      if q != [] {
        InsertCovers(child, p[1..], q[1..]);
        assert p <= q <==> p[0] == q[0] && p[1..] <= q[1..];
      }
    }
  }

  /** A path is covered exactly when some inserted path is a prefix of it. */
  lemma {:induction false} InsertAllCovers(t: Tree, paths: seq<seq<string>>, q: seq<string>)
    ensures Covers(InsertAll(t, paths), q) <==> Covers(t, q) || exists p :: p in paths && p <= q
  {
    if paths != [] {
      var front, last := paths[..|paths| - 1], paths[|paths| - 1];
      assert paths == front + [last];
      InsertAllCovers(t, front, q);
      InsertCovers(InsertAll(t, front), last, q);
      assert last in paths && forall p :: p in paths <==> p in front || p == last;
    }
  }

  /** Keeps what the tree retains of a map; a value that is not a map is kept as it is. */
  function Prune(v: Value, t: Tree): Value
    decreases t
  {
    if t.keep || !v.VMap? then v
    else VMap(map k | k in v.entries && k.KStr? && k.s in t.children :: Prune(v.entries[k], t.children[k.s]))
  }

  function PruneRes(r: Res, t: Tree): Res {
    if r.Ok? then Ok(Prune(r.value, t)) else r
  }

  /** The tree can be followed along p. */
  predicate Follows(t: Tree, p: seq<string>)
    decreases p
  {
    t.keep || p == [] || (p[0] in t.children && Follows(t.children[p[0]], p[1..]))
  }

  function Descend(t: Tree, p: seq<string>): Tree
    requires Follows(t, p)
    decreases p
  {
    if t.keep || p == [] then t else Descend(t.children[p[0]], p[1..])
  }

  lemma {:induction false} CoversFollows(t: Tree, p: seq<string>)
    requires Covers(t, p)
    ensures Follows(t, p) && Descend(t, p).keep
    decreases p
  {
    if !t.keep { CoversFollows(t.children[p[0]], p[1..]); }
  }

  lemma {:induction false} FollowsStep(t: Tree, p: seq<string>, f: string)
    requires Follows(t, p + [f])
    ensures Follows(t, p)
    ensures var d := Descend(t, p); d.keep || f in d.children
    ensures var d := Descend(t, p); Descend(t, p + [f]) == if d.keep then d else d.children[f]
    decreases p
  {
    if !t.keep && p != [] {
      assert (p + [f])[1..] == p[1..] + [f];
      FollowsStep(t.children[p[0]], p[1..], f);
    } else if !t.keep {
      assert (p + [f])[1..] == [];
    }
  }
}
