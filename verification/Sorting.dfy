/** Python's stable `sorted(key=...)`, with the facts the miner's two sorts need. */
module Sorting {
  import opened Names

  ghost predicate Ordered<T>(s: seq<T>, key: T -> int) {
    forall i, j :: 0 <= i < j < |s| ==> key(s[i]) <= key(s[j])
  }

  /** No two entries tie. */
  ghost predicate Strict<T>(s: seq<T>, key: T -> int) {
    forall i, j :: 0 <= i < j < |s| ==> key(s[i]) != key(s[j])
  }

  /** `x` stands before `y`. */
  ghost predicate Precedes<T>(s: seq<T>, x: T, y: T) {
    exists i, j :: 0 <= i < j < |s| && s[i] == x && s[j] == y
  }

  lemma PrecedesAt<T>(s: seq<T>, i: nat, j: nat)
    requires Distinct(s) && i < |s| && j < |s| && Precedes(s, s[i], s[j])
    ensures i < j
  {
  }

  function Insert<T>(x: T, s: seq<T>, key: T -> int): (r: seq<T>)
    ensures |r| == |s| + 1
  {
    if s == [] || key(x) <= key(s[0]) then [x] + s
    else [s[0]] + Insert(x, s[1..], key)
  }

  function StableSort<T>(s: seq<T>, key: T -> int): (r: seq<T>)
    ensures |r| == |s|
  {
    if s == [] then [] else Insert(s[0], StableSort(s[1..], key), key)
  }

  lemma OrderedCons<T(!new)>(x: T, s: seq<T>, key: T -> int)
    ensures Ordered([x] + s, key) <==> Ordered(s, key) && forall y :: y in s ==> key(x) <= key(y)
  {
    var r := [x] + s;
    if Ordered(r, key) {
      forall i, j | 0 <= i < j < |s| ensures key(s[i]) <= key(s[j]) { assert r[i + 1] == s[i] && r[j + 1] == s[j]; }
      forall y | y in s ensures key(x) <= key(y) {
        var j :| 0 <= j < |s| && s[j] == y;
        assert r[0] == x && r[j + 1] == s[j];
      }
    }
    if Ordered(s, key) && forall y :: y in s ==> key(x) <= key(y) {
      forall i, j | 0 <= i < j < |r| ensures key(r[i]) <= key(r[j]) {
        assert r[j] == s[j - 1] && s[j - 1] in s;
        if i > 0 { assert r[i] == s[i - 1]; }
      }
    }
  }

  lemma {:induction false} InsertContents<T>(x: T, s: seq<T>, key: T -> int)
    ensures multiset(Insert(x, s, key)) == multiset{x} + multiset(s)
  {
    if s != [] && key(x) > key(s[0]) {
      InsertContents(x, s[1..], key);
      assert s == [s[0]] + s[1..];
    }
  }

  lemma {:induction false} InsertPlaces<T(!new)>(x: T, s: seq<T>, key: T -> int)
    requires Ordered(s, key)
    ensures Ordered(Insert(x, s, key), key)
  {
    if s == [] {
    } else {
      assert s == [s[0]] + s[1..];
      OrderedCons(s[0], s[1..], key);
      if key(x) <= key(s[0]) {
        OrderedCons(x, s, key);
      } else {
        hide Ordered;
        InsertPlaces(x, s[1..], key);
        var r := Insert(x, s[1..], key);
        InsertContents(x, s[1..], key);
        forall y | y in r ensures key(s[0]) <= key(y) {
          assert y in multiset(r);
        }
        OrderedCons(s[0], r, key);
      }
    }
  }

  lemma {:induction false} SortsStably<T(!new)>(s: seq<T>, key: T -> int)
    ensures Ordered(StableSort(s, key), key)
    ensures multiset(StableSort(s, key)) == multiset(s)
  {
    if s != [] {
      SortsStably(s[1..], key);
      InsertPlaces(s[0], StableSort(s[1..], key), key);
      InsertContents(s[0], StableSort(s[1..], key), key);
      assert s == [s[0]] + s[1..];
    }
  }

  lemma SameElements<T(!new)>(s: seq<T>, key: T -> int)
    ensures forall x :: x in StableSort(s, key) <==> x in s
  {
    SortsStably(s, key);
    forall x ensures x in StableSort(s, key) <==> x in s {
      assert x in StableSort(s, key) <==> x in multiset(StableSort(s, key));
      assert x in s <==> x in multiset(s);
    }
  }

  lemma DistinctOnce<T>(s: seq<T>)
    ensures Distinct(s) <==> forall x :: x in multiset(s) ==> multiset(s)[x] == 1
  {
    if s != [] {
      DistinctOnce(s[1..]);
      assert s == [s[0]] + s[1..];
      if Distinct(s) {
        forall x | x in multiset(s) ensures multiset(s)[x] == 1 {
          if x == s[0] { assert s[0] !in s[1..]; }
        }
      }
      if forall x :: x in multiset(s) ==> multiset(s)[x] == 1 {
        assert s[0] !in s[1..] by { assert multiset(s)[s[0]] == 1; }
        forall x | x in multiset(s[1..]) ensures multiset(s[1..])[x] == 1 { assert x in multiset(s); }
      }
    }
  }

  lemma StaysDistinct<T(!new)>(s: seq<T>, key: T -> int)
    requires Distinct(s)
    ensures Distinct(StableSort(s, key))
  {
    SortsStably(s, key);
    DistinctOnce(s);
    DistinctOnce(StableSort(s, key));
  }

  lemma PrecedesAll<T>(x: T, s: seq<T>, y: T)
    requires y in s
    ensures Precedes([x] + s, x, y)
  {
    var j :| 0 <= j < |s| && s[j] == y;
    var r := [x] + s;
    assert r[0] == x && r[j + 1] == y;
  }

  lemma PrecedesStill<T>(h: T, s: seq<T>, x: T, y: T)
    requires Precedes(s, x, y)
    ensures Precedes([h] + s, x, y)
  {
    var i, j :| 0 <= i < j < |s| && s[i] == x && s[j] == y;
    var r := [h] + s;
    assert r[i + 1] == x && r[j + 1] == y;
  }

  /** What stands in order after the first element, or begins with it. */
  lemma PrecedesSplits<T>(s: seq<T>, x: T, y: T)
    requires Precedes(s, x, y)
    ensures s != [] && y in s[1..] && (x == s[0] || Precedes(s[1..], x, y))
  {
    var i, j :| 0 <= i < j < |s| && s[i] == x && s[j] == y;
    assert s[1..][j - 1] == y;
    if i > 0 { assert s[1..][i - 1] == x; }
  }

  lemma HeadAndTail<T>(s: seq<T>)
    requires s != []
    ensures s == [s[0]] + s[1..]
  {
  }

  lemma OrderedTail<T>(s: seq<T>, key: T -> int)
    requires s != [] && Ordered(s, key)
    ensures Ordered(s[1..], key)
  {
  }

  /** The inserted element goes before every element of the same key. */
  lemma {:induction false} InsertFirst<T>(x: T, s: seq<T>, key: T -> int, y: T)
    requires y in s && key(x) <= key(y) && Ordered(s, key)
    ensures Precedes(Insert(x, s, key), x, y)
  {
    hide Ordered, Precedes;
    if key(x) <= key(s[0]) {
      PrecedesAll(x, s, y);
    } else {
      HeadAndTail(s);
      OrderedTail(s, key);
      InsertFirst(x, s[1..], key, y);
      PrecedesStill(s[0], Insert(x, s[1..], key), x, y);
    }
  }

  lemma {:induction false} InsertKeeps<T>(x: T, s: seq<T>, key: T -> int, y: T, z: T)
    requires Precedes(s, y, z)
    ensures Precedes(Insert(x, s, key), y, z)
  {
    PrecedesSplits(s, y, z);
    hide Precedes;
    if key(x) <= key(s[0]) {
      PrecedesStill(x, s, y, z);
    } else if y == s[0] {
      InsertHas(x, s[1..], key, z);
      PrecedesAll(y, Insert(x, s[1..], key), z);
    } else {
      InsertKeeps(x, s[1..], key, y, z);
      PrecedesStill(s[0], Insert(x, s[1..], key), y, z);
    }
  }

  lemma {:induction false} InsertHas<T>(x: T, s: seq<T>, key: T -> int, z: T)
    requires z in s
    ensures z in Insert(x, s, key)
  {
    HeadAndTail(s);
    if key(x) > key(s[0]) && z != s[0] {
      InsertHas(x, s[1..], key, z);
    }
  }

  /** Stability: equal keys keep their order. */
  lemma {:induction false} KeepsEqualKeys<T(!new)>(s: seq<T>, key: T -> int, i: nat, j: nat)
    requires i < j < |s| && key(s[i]) == key(s[j])
    ensures Precedes(StableSort(s, key), s[i], s[j])
  {
    SortsStably(s[1..], key);
    if i == 0 {
      assert s[1..][j - 1] == s[j];
      SameElements(s[1..], key);
      InsertFirst(s[0], StableSort(s[1..], key), key, s[j]);
    } else {
      KeepsEqualKeys(s[1..], key, i - 1, j - 1);
      InsertKeeps(s[0], StableSort(s[1..], key), key, s[i], s[j]);
    }
  }

  lemma TailContents<T>(a: seq<T>)
    requires a != []
    ensures multiset(a[1..]) == multiset(a) - multiset{a[0]}
  {
    assert a == [a[0]] + a[1..];
  }

  lemma StrictTail<T>(a: seq<T>, key: T -> int)
    requires a != [] && Strict(a, key)
    ensures Strict(a[1..], key)
  {
  }

  lemma SameSize<T>(a: seq<T>, b: seq<T>)
    requires multiset(a) == multiset(b)
    ensures |a| == |b|
  {
    assert |multiset(a)| == |a|;
    assert |multiset(b)| == |b|;
  }

  lemma SameHead<T(!new)>(a: seq<T>, b: seq<T>, key: T -> int)
    requires a != [] && multiset(a) == multiset(b) && Ordered(a, key) && Ordered(b, key)
    requires Strict(a, key)
    ensures b != [] && a[0] == b[0]
  {
    assert a[0] in multiset(a);
    assert a[0] in b;
    assert b[0] in multiset(b);
    assert b[0] in a;
    var i :| 0 <= i < |b| && b[i] == a[0];
    var j :| 0 <= j < |a| && a[j] == b[0];
    assert key(b[0]) <= key(b[i]) && key(a[0]) <= key(a[j]);
  }

  /** Sorting by keys that never tie has one outcome. */
  lemma {:induction false} StrictSortIsUnique<T(!new)>(a: seq<T>, b: seq<T>, key: T -> int)
    requires multiset(a) == multiset(b) && Ordered(a, key) && Ordered(b, key)
    requires Strict(a, key)
    ensures a == b
  {
    hide *;
    SameSize(a, b);
    if a != [] {
      SameHead(a, b, key);
      OrderedTail(a, key);
      OrderedTail(b, key);
      StrictTail(a, key);
      TailContents(a);
      TailContents(b);
      StrictSortIsUnique(a[1..], b[1..], key);
      HeadAndTail(a);
      HeadAndTail(b);
    }
  }
}
