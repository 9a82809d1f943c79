/** The length-prefixed key of a list of strings (`stringSliceKey`) is injective, so two
code sets share a deduplication key only when they are equal. */
module SliceKey {
  import opened Orders

  function Digit(d: nat): char
    requires d < 10
  {
    '0' + d as char
  }

  /** Decimal notation, as fmt's %d writes a length. */
  function Decimal(n: nat): string {
    if n < 10 then [Digit(n)] else Decimal(n / 10) + [Digit(n % 10)]
  }

  function Key(values: seq<string>): string {
    if values == [] then ""
    else Decimal(|values[0]|) + ":" + values[0] + Key(values[1..])
  }

  lemma {:induction false} DecimalHasNoColon(n: nat)
    ensures |Decimal(n)| > 0
    ensures forall i :: 0 <= i < |Decimal(n)| ==> Decimal(n)[i] != ':'
  {
    if n >= 10 { DecimalHasNoColon(n / 10); }
  }

  lemma {:induction false} DecimalInjective(m: nat, n: nat)
    requires Decimal(m) == Decimal(n)
    ensures m == n
  {
    var d := Decimal(m);
    DecimalHasNoColon(m / 10);
    DecimalHasNoColon(n / 10);
    assert d[|d| - 1] == Digit(m % 10) && d[|d| - 1] == Digit(n % 10);
    assert m % 10 == n % 10;
    if m >= 10 && n >= 10 {
      assert Decimal(m / 10) == d[..|d| - 1] == Decimal(n / 10);
      DecimalInjective(m / 10, n / 10);
    }
  }

  lemma SplitAtColon(a: string, b: string, restA: string, restB: string)
    requires a + ":" + restA == b + ":" + restB
    requires forall i :: 0 <= i < |a| ==> a[i] != ':'
    requires forall i :: 0 <= i < |b| ==> b[i] != ':'
    ensures a == b && restA == restB
  {
    var whole := a + ":" + restA;
    assert whole[|a|] == ':' && whole[|b|] == ':';
    assert a == whole[..|a|] && b == whole[..|b|];
    assert restA == whole[|a| + 1..] && restB == whole[|b| + 1..];
  }

  lemma {:induction false} KeyInjective(a: seq<string>, b: seq<string>)
    requires Key(a) == Key(b)
    ensures a == b
  {
    if a != [] && b != [] {
      var la, lb := Decimal(|a[0]|), Decimal(|b[0]|);
      var ra, rb := a[0] + Key(a[1..]), b[0] + Key(b[1..]);
      DecimalHasNoColon(|a[0]|);
      DecimalHasNoColon(|b[0]|);
      assert Key(a) == la + ":" + ra && Key(b) == lb + ":" + rb;
      SplitAtColon(la, lb, ra, rb);
      DecimalInjective(|a[0]|, |b[0]|);
      assert a[0] == ra[..|a[0]|] && b[0] == rb[..|b[0]|];
      assert Key(a[1..]) == ra[|a[0]|..] && Key(b[1..]) == rb[|b[0]|..];
      KeyInjective(a[1..], b[1..]);
      assert a == [a[0]] + a[1..] && b == [b[0]] + b[1..];
    }
  }

  /** The deduplication key of a set of codes (`sortedStringSetKey`). */
  ghost function SetKey(values: set<string>): string {
    StringLessIsStrictTotal();
    Key(SortedOf(StringLess, values))
  }

  lemma SetKeyInjective(a: set<string>, b: set<string>)
    requires SetKey(a) == SetKey(b)
    ensures a == b
  {
    StringLessIsStrictTotal();
    KeyInjective(SortedOf(StringLess, a), SortedOf(StringLess, b));
  }

  method SortedStringSet(values: set<string>) returns (sorted: seq<string>)
    ensures StrictlySorted(StringLess, sorted) && Elems(sorted) == values
    ensures Key(sorted) == SetKey(values)
  {
    StringLessIsStrictTotal();
    sorted := SortSet(StringLess, values);
  }
}
