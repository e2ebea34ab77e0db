/** Names and their order.

    The miner and the fold lean on `sorted(...)` over strings wherever they iterate a set, so
    that nothing depends on set iteration order.  This module gives the string order, the
    sorted enumeration of a set, and the fact that makes it deterministic: a set has exactly
    one strictly increasing enumeration. */
module Names {

  datatype Option<+T> = None | Some(value: T)

  type Name = string

  /** Code-point order on strings, as Python compares them. */
  predicate Le(a: string, b: string) {
    a == [] || (b != [] && (a[0] < b[0] || (a[0] == b[0] && Le(a[1..], b[1..]))))
  }

  lemma LeReflexive(a: string)
    ensures Le(a, a)
  {
  }

  lemma LeTotal(a: string, b: string)
    ensures Le(a, b) || Le(b, a)
  {
  }

  lemma LeAntisymmetric(a: string, b: string)
    requires Le(a, b) && Le(b, a)
    ensures a == b
  {
    if a != [] {
      LeAntisymmetric(a[1..], b[1..]);
      assert a == [a[0]] + a[1..] && b == [b[0]] + b[1..];
    }
  }

  lemma LeTransitive(a: string, b: string, c: string)
    requires Le(a, b) && Le(b, c)
    ensures Le(a, c)
  {
  }

  predicate IsBelow(m: string, s: set<string>) {
    forall y :: y in s ==> Le(m, y)
  }

  ghost predicate Least(m: string, s: set<string>) {
    m in s && IsBelow(m, s)
  }

  lemma HasLeast(s: set<string>)
    requires s != {}
    ensures exists m :: Least(m, s)
  {
    var x :| x in s;
    var rest := s - {x};
    if rest == {} {
      LeReflexive(x);
      assert s == {x};
      assert Least(x, s);
    } else {
      HasLeast(rest);
      var m :| Least(m, rest);
      LeTotal(x, m);
      LeReflexive(x);
      var k := if Le(x, m) then x else m;
      forall y | y in s ensures Le(k, y) {
        if y != x && k == x { LeTransitive(x, m, y); }
      }
      assert Least(k, s);
    }
  }

  lemma LeastUnique(m: string, n: string, s: set<string>)
    requires Least(m, s) && Least(n, s)
    ensures m == n
  {
    LeAntisymmetric(m, n);
  }

  lemma OnlyOneLeast(s: set<string>)
    ensures forall m, n :: m in s && IsBelow(m, s) && n in s && IsBelow(n, s) ==> m == n
  {
    forall m, n | m in s && IsBelow(m, s) && n in s && IsBelow(n, s) ensures m == n { LeastUnique(m, n, s); }
  }

  function Minimum(s: set<string>): (m: string)
    requires s != {}
    ensures Least(m, s)
  {
    HasLeast(s);
    OnlyOneLeast(s);
    var m :| m in s && IsBelow(m, s);
    m
  }

  /** No name occurs twice. */
  ghost predicate Distinct<T>(s: seq<T>) {
    forall i, j :: 0 <= i < j < |s| ==> s[i] != s[j]
  }

  function Elements<T(!new)>(s: seq<T>): (r: set<T>)
    ensures forall x :: x in r <==> x in s
  {
    set x | x in s
  }

  /** Strictly increasing. */
  ghost predicate Increasing(s: seq<string>) {
    forall i, j :: 0 <= i < j < |s| ==> Le(s[i], s[j]) && s[i] != s[j]
  }

  /** `sorted(s)`: the one increasing enumeration of a set. */
  function Sorted(s: set<string>): (r: seq<string>)
    ensures Distinct(r)
    ensures forall x :: x in r <==> x in s
    ensures |r| == |s|
  {
    if s == {} then []
    else
      var m := Minimum(s);
      [m] + Sorted(s - {m})
  }

  lemma {:induction false} SortedIncreases(s: set<string>)
    ensures Increasing(Sorted(s))
  {
    if s != {} {
      var m := Minimum(s);
      var rest := Sorted(s - {m});
      SortedIncreases(s - {m});
      hide Le;
      IncreasingCons(m, rest);
    }
  }

  lemma IncreasingCons(m: string, r: seq<string>)
    requires Increasing(r) && forall x :: x in r ==> Le(m, x) && x != m
    ensures Increasing([m] + r)
  {
    hide Le;
    var longer := [m] + r;
    forall i, j | 0 <= i < j < |longer| ensures Le(longer[i], longer[j]) && longer[i] != longer[j] {
      assert longer[j] == r[j - 1] && r[j - 1] in r;
      if i > 0 { assert longer[i] == r[i - 1]; }
    }
  }

  /** A set has only one increasing enumeration, so `sorted` hides the set's iteration order. */
  lemma {:induction false} IncreasingIsUnique(a: seq<string>, b: seq<string>)
    requires Increasing(a) && Increasing(b)
    requires forall x :: x in a <==> x in b
    ensures a == b
  {
    assert Elements(a) == Elements(b);
    DistinctCardinality(a);
    DistinctCardinality(b);
    if a == [] {
    } else {
      assert a[0] in b;
      assert b != [];
      assert b[0] in a;
      var i :| 0 <= i < |b| && b[i] == a[0];
      var j :| 0 <= j < |a| && a[j] == b[0];
      if i > 0 && j > 0 { LeAntisymmetric(a[0], b[0]); }
      assert a[0] == b[0];
      forall x ensures x in a[1..] <==> x in b[1..] {
        if x in a[1..] { assert x in b; var k :| 0 <= k < |b| && b[k] == x; assert k != 0; assert b[1..][k - 1] == x; }
        if x in b[1..] { assert x in a; var k :| 0 <= k < |a| && a[k] == x; assert k != 0; assert a[1..][k - 1] == x; }
      }
      IncreasingIsUnique(a[1..], b[1..]);
      assert a == [a[0]] + a[1..] && b == [b[0]] + b[1..];
    }
  }

  lemma EmptyIncreases()
    ensures Increasing([])
  {
  }

  /** Collecting some entries of an increasing sequence, in order, stays increasing. */
  lemma IncreasingAppend(all: seq<string>, i: nat, tail: seq<string>)
    requires Increasing(all) && i < |all| && Increasing(tail)
    requires forall x :: x in tail ==> x in all[..i]
    ensures Increasing(tail + [all[i]])
  {
    hide Le;
    var longer := tail + [all[i]];
    forall a, b | 0 <= a < b < |longer| ensures Le(longer[a], longer[b]) && longer[a] != longer[b] {
      if b == |tail| {
        assert tail[a] in tail;
        var k :| 0 <= k < i && all[..i][k] == tail[a];
        assert all[k] == tail[a];
      } else {
        assert longer[a] == tail[a] && longer[b] == tail[b];
      }
    }
  }

  lemma SortedIs(s: set<string>, r: seq<string>)
    requires Increasing(r) && forall x :: x in r <==> x in s
    ensures r == Sorted(s)
  {
    SortedIncreases(s);
    IncreasingIsUnique(r, Sorted(s));
  }

  /** Sequence facts the other modules share. */
  lemma Associates<T>(a: seq<T>, b: seq<T>, c: seq<T>)
    ensures a + (b + c) == a + b + c
  {
  }

  lemma DistinctConcat<T>(a: seq<T>, b: seq<T>)
    requires Distinct(a) && Distinct(b) && forall x :: x in b ==> x !in a
    ensures Distinct(a + b)
  {
    var c := a + b;
    forall i, j | 0 <= i < j < |c| ensures c[i] != c[j] {
      if i < |a| && j >= |a| { assert c[j] in b && c[i] in a; }
    }
  }

  lemma DistinctCardinality<T(!new)>(s: seq<T>)
    requires Distinct(s)
    ensures |Elements(s)| == |s|
  {
    if s != [] {
      var rest := s[1..];
      DistinctCardinality(rest);
      assert s == [s[0]] + rest;
      assert s[0] !in rest;
      assert Elements(s) == {s[0]} + Elements(rest);
    } else {
      assert Elements(s) == {};
    }
  }

  lemma PrefixGrows<T(!new)>(s: seq<T>, k: nat)
    requires k < |s|
    ensures Elements(s[..k + 1]) == Elements(s[..k]) + {s[k]}
    ensures Distinct(s) ==> s[k] !in Elements(s[..k])
  {
    assert s[..k + 1] == s[..k] + [s[k]];
  }

  lemma PrefixSize<T(!new)>(s: seq<T>, k: nat)
    requires Distinct(s) && k <= |s|
    ensures |Elements(s[..k])| == k
  {
    assert Distinct(s[..k]);
    hide Distinct, Elements;
    DistinctCardinality(s[..k]);
  }

  lemma {:induction false} SubsetSize<T>(a: set<T>, b: set<T>)
    requires a <= b
    ensures |a| <= |b|
  {
    if a != {} {
      var x :| x in a;
      SubsetSize(a - {x}, b - {x});
    }
  }
}
