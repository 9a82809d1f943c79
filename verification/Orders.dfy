/** Strict total orders, and sequences strictly sorted by one.

The source sorts entities, code lists, residual rectangles and field paths with the standard
library; here each of those is an insertion into a strictly sorted sequence, and the point
of the module is `SortedIsUnique`: such a sequence is determined by its set of elements,
whatever order the elements were met in. */
module Orders {
  ghost predicate StrictTotal<T(!new)>(lt: (T, T) -> bool) {
    && (forall x :: !lt(x, x))
    && (forall x, y, z :: lt(x, y) && lt(y, z) ==> lt(x, z))
    && (forall x, y :: lt(x, y) || x == y || lt(y, x))
  }

  ghost predicate StrictlySorted<T>(lt: (T, T) -> bool, s: seq<T>) {
    forall i, j :: 0 <= i < j < |s| ==> lt(s[i], s[j])
  }

  function Elems<T>(s: seq<T>): set<T> {
    set x | x in s
  }

  /** Inserts v before the first larger element; an element already present is kept once. */
  function Insert<T(==)>(lt: (T, T) -> bool, s: seq<T>, v: T): seq<T> {
    if s == [] then [v]
    else if v == s[0] then s
    else if lt(v, s[0]) then [v] + s
    else [s[0]] + Insert(lt, s[1..], v)
  }

  lemma {:induction false} InsertElems<T(!new)>(lt: (T, T) -> bool, s: seq<T>, v: T)
    ensures Elems(Insert(lt, s, v)) == Elems(s) + {v}
  {
    if s != [] && v != s[0] && !lt(v, s[0]) {
      InsertElems(lt, s[1..], v);
      assert s == [s[0]] + s[1..];
      assert Elems([s[0]] + Insert(lt, s[1..], v)) == {s[0]} + Elems(Insert(lt, s[1..], v));
      assert Elems(s) == {s[0]} + Elems(s[1..]);
    }
  }

  lemma PrependKeepsSorted<T>(lt: (T, T) -> bool, v: T, s: seq<T>)
    requires StrictlySorted(lt, s) && (forall x :: x in s ==> lt(v, x))
    ensures StrictlySorted(lt, [v] + s)
  {
  }

  lemma {:induction false} InsertKeepsSorted<T(!new)>(lt: (T, T) -> bool, s: seq<T>, v: T)
    requires StrictTotal(lt) && StrictlySorted(lt, s)
    ensures StrictlySorted(lt, Insert(lt, s, v))
    ensures Elems(Insert(lt, s, v)) == Elems(s) + {v}
  {
    InsertElems(lt, s, v);
    if s == [] || v == s[0] {
    } else if lt(v, s[0]) {
      forall x | x in s ensures lt(v, x) {
        var j :| 0 <= j < |s| && s[j] == x;
        assert j == 0 || lt(s[0], s[j]);
      }
      PrependKeepsSorted(lt, v, s);
    } else {
      InsertKeepsSorted(lt, s[1..], v);
      var rest := Insert(lt, s[1..], v);
      forall x | x in rest ensures lt(s[0], x) {
        assert x in Elems(rest);
      }
      PrependKeepsSorted(lt, s[0], rest);
    }
  }

  /** A strictly sorted sequence is determined by the set of its elements. */
  lemma {:induction false} SortedIsUnique<T(!new)>(lt: (T, T) -> bool, a: seq<T>, b: seq<T>)
    requires StrictTotal(lt) && StrictlySorted(lt, a) && StrictlySorted(lt, b)
    requires Elems(a) == Elems(b)
    ensures a == b
  {
    assert a != [] ==> a[0] in Elems(b);
    assert b != [] ==> b[0] in Elems(a);
    if a != [] {
      assert a[0] == b[0] by { HeadIsLeast(lt, a, b[0]); HeadIsLeast(lt, b, a[0]); }
      TailElems(lt, a);
      TailElems(lt, b);
      SortedIsUnique(lt, a[1..], b[1..]);
      assert a == [a[0]] + a[1..] && b == [b[0]] + b[1..];
    }
  }

  lemma HeadIsLeast<T(!new)>(lt: (T, T) -> bool, s: seq<T>, x: T)
    requires StrictTotal(lt) && StrictlySorted(lt, s) && x in s
    ensures !lt(x, s[0])
  {
  }

  lemma TailElems<T(!new)>(lt: (T, T) -> bool, s: seq<T>)
    requires StrictTotal(lt) && StrictlySorted(lt, s) && s != []
    ensures Elems(s[1..]) == Elems(s) - {s[0]}
  {
  }

  lemma SortedHasNoDuplicates<T(!new)>(lt: (T, T) -> bool, s: seq<T>)
    requires StrictTotal(lt) && StrictlySorted(lt, s)
    ensures forall i, j :: 0 <= i < j < |s| ==> s[i] != s[j]
  {
  }

  /** The sorted enumeration of a finite set, independent of how the set is traversed. */
  ghost function SortedOf<T(!new)>(lt: (T, T) -> bool, values: set<T>): (s: seq<T>)
    requires StrictTotal(lt)
    ensures StrictlySorted(lt, s) && Elems(s) == values
  {
    if values == {} then []
    else
      var v :| v in values;
      var rest := SortedOf(lt, values - {v});
      InsertKeepsSorted(lt, rest, v);
      Insert(lt, rest, v)
  }

  /** Collects a set, met in any order, into its sorted enumeration. */
  method SortSet<T(!new,==)>(lt: (T, T) -> bool, values: set<T>) returns (s: seq<T>)
    requires StrictTotal(lt)
    ensures StrictlySorted(lt, s) && Elems(s) == values && s == SortedOf(lt, values)
  {
    s := [];
    var todo := values;
    while todo != {}
      invariant todo <= values
      invariant StrictlySorted(lt, s) && Elems(s) == values - todo
      decreases todo
    {
      var v :| v in todo;
      InsertKeepsSorted(lt, s, v);
      s, todo := Insert(lt, s, v), todo - {v};
    }
    SortedIsUnique(lt, s, SortedOf(lt, values));
  }

  /** Lexicographic order, a proper prefix being smaller: string `<` and slices.Compare. */
  predicate LexLess<T(==)>(lt: (T, T) -> bool, a: seq<T>, b: seq<T>) {
    if b == [] then false
    else if a == [] then true
    else lt(a[0], b[0]) || (a[0] == b[0] && LexLess(lt, a[1..], b[1..]))
  }

  lemma {:induction false} LexIrreflexive<T(!new)>(lt: (T, T) -> bool, a: seq<T>)
    requires StrictTotal(lt)
    ensures !LexLess(lt, a, a)
  {
    if a != [] { LexIrreflexive(lt, a[1..]); }
  }

  lemma {:induction false} LexTransitive<T(!new)>(lt: (T, T) -> bool, a: seq<T>, b: seq<T>, c: seq<T>)
    requires StrictTotal(lt) && LexLess(lt, a, b) && LexLess(lt, b, c)
    ensures LexLess(lt, a, c)
  {
    if a != [] && a[0] == b[0] == c[0] {
      LexTransitive(lt, a[1..], b[1..], c[1..]);
    }
  }

  lemma {:induction false} LexTotal<T(!new)>(lt: (T, T) -> bool, a: seq<T>, b: seq<T>)
    requires StrictTotal(lt)
    ensures LexLess(lt, a, b) || a == b || LexLess(lt, b, a)
  {
    if a != [] && b != [] {
      LexTotal(lt, a[1..], b[1..]);
      assert a == [a[0]] + a[1..] && b == [b[0]] + b[1..];
    }
  }

  /** The order without its recursion: a is a proper prefix of b, or smaller where they first differ. */
  lemma AgreeFurther<T>(a: seq<T>, b: seq<T>, i: nat)
    requires a != [] && b != [] && i < |a| && i < |b|
    ensures a[..i] == b[..i] <==> i == 0 || (a[0] == b[0] && a[1..][..i - 1] == b[1..][..i - 1])
  {
    if i > 0 {
      assert a[..i] == [a[0]] + a[1..][..i - 1] && b[..i] == [b[0]] + b[1..][..i - 1];
      assert a[..i] == b[..i] ==> a[..i][0] == b[..i][0] && a[..i][1..] == b[..i][1..];
    }
  }

  lemma {:induction false} LexMeans<T>(lt: (T, T) -> bool, a: seq<T>, b: seq<T>)
    ensures LexLess(lt, a, b) <==>
      || (a <= b && a != b)
      || exists i :: 0 <= i < |a| && i < |b| && a[..i] == b[..i] && lt(a[i], b[i])
  {
    if a != [] && b != [] {
      var x, y := a[1..], b[1..];
      LexMeans(lt, x, y);
      assert a == [a[0]] + x && b == [b[0]] + y;
      if LexLess(lt, a, b) && !lt(a[0], b[0]) && !(x <= y && x != y) {
        var i :| 0 <= i < |x| && i < |y| && x[..i] == y[..i] && lt(x[i], y[i]);
        AgreeFurther(a, b, i + 1);
        assert a[i + 1] == x[i] && b[i + 1] == y[i];
      }
      if lt(a[0], b[0]) { assert a[..0] == b[..0]; }
      if i :| 0 < i < |a| && i < |b| && a[..i] == b[..i] && lt(a[i], b[i]) {
        AgreeFurther(a, b, i);
        assert x[i - 1] == a[i] && y[i - 1] == b[i];
      }
    }
  }

  predicate CharLess(a: char, b: char) { a < b }

  predicate StringLess(a: string, b: string) { LexLess(CharLess, a, b) }

  predicate PathLess(a: seq<string>, b: seq<string>) { LexLess(StringLess, a, b) }

  lemma StringLessIsStrictTotal()
    ensures StrictTotal(StringLess)
  {
    forall a, b, c: string | StringLess(a, b) && StringLess(b, c) ensures StringLess(a, c) {
      LexTransitive(CharLess, a, b, c);
    }
    forall a: string ensures !StringLess(a, a) { LexIrreflexive(CharLess, a); }
    forall a, b: string ensures StringLess(a, b) || a == b || StringLess(b, a) { LexTotal(CharLess, a, b); }
  }

  lemma PathLessIsStrictTotal()
    ensures StrictTotal(PathLess)
  {
    StringLessIsStrictTotal();
    forall a, b, c: seq<string> | PathLess(a, b) && PathLess(b, c) ensures PathLess(a, c) {
      LexTransitive(StringLess, a, b, c);
    }
    forall a: seq<string> ensures !PathLess(a, a) { LexIrreflexive(StringLess, a); }
    forall a, b: seq<string> ensures PathLess(a, b) || a == b || PathLess(b, a) { LexTotal(StringLess, a, b); }
  }

  /** The elements of s that satisfy p, in the order of s. */
  function Filter<T>(p: T -> bool, s: seq<T>): seq<T> {
    if s == [] then []
    else Filter(p, s[..|s| - 1]) + (if p(s[|s| - 1]) then [s[|s| - 1]] else [])
  }

  lemma {:induction false} FilterMember<T>(p: T -> bool, s: seq<T>, x: T)
    ensures x in Filter(p, s) <==> x in s && p(x)
  {
    if s != [] {
      FilterMember(p, s[..|s| - 1], x);
      assert s == s[..|s| - 1] + [s[|s| - 1]];
    }
  }

  lemma SubsetSize<T>(a: set<T>, b: set<T>)
    requires a <= b
    ensures |a| <= |b|
  {
    assert b == a + (b - a);
  }

  /** A string longer than any of the names. */
  lemma {:induction false} FreshString(names: set<string>) returns (unused: string)
    ensures unused !in names
    ensures forall n :: n in names ==> |n| < |unused|
    decreases names
  {
    if names == {} {
      unused := "x";
    } else {
      var n :| n in names;
      unused := FreshString(names - {n});
      if |unused| <= |n| { unused := n + "x"; }
    }
  }
}
