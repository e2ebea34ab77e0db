/** Document order from anchor facts (`sgt/core/fold.py`, `_order_entities`).

    Every live top-level name carries at most one fact: the name that precedes it, or "first".
    The fold rebuilds an order from those facts by a depth-first placement, so that whatever
    was inserted after a name stays in one block behind it.  Facts may be stale, may name dead
    predecessors and may form cycles; the placement has to be total all the same. */
module Layout {
  import opened Names

  /** name -> recorded predecessor; `None` is the "first" marker.  A missing key is a name
      without a recorded fact. */
  type Facts = map<Name, Option<Name>>

  /** `anchor_of.get(name)`: a missing fact reads like the "first" marker. */
  function Predecessor(f: Facts, n: Name): Option<Name> {
    if n in f then f[n] else None
  }

  function Children(names: set<Name>, f: Facts, p: Option<Name>): (r: seq<Name>)
    ensures Distinct(r)
    ensures forall n :: n in r <==> n in names && Predecessor(f, n) == p
  {
    Sorted(set n | n in names && Predecessor(f, n) == p)
  }

  /** The placement of a list of siblings: each unvisited one, then everything below it.
      Returns the names placed and the visited set afterwards. */
  function Walk(names: set<Name>, f: Facts, todo: seq<Name>, visited: set<Name>): (r: (seq<Name>, set<Name>))
    ensures visited <= r.1
    decreases |names - visited|, |todo|
  {
    if todo == [] then ([], visited)
    else if todo[0] in visited || todo[0] !in names then Walk(names, f, todo[1..], visited)
    else
      var n := todo[0];
      SmallerRest(names, visited, visited + {n}, n);
      var below := Walk(names, f, Children(names, f, Some(n)), visited + {n});
      SmallerRest(names, visited, below.1, n);
      var others := Walk(names, f, todo[1..], below.1);
      ([n] + below.0 + others.0, others.1)
  }

  /** One step of the walk, for a name that is placed now. */
  lemma WalkStep(names: set<Name>, f: Facts, todo: seq<Name>, visited: set<Name>)
    requires todo != [] && todo[0] !in visited && todo[0] in names
    ensures |names - (visited + {todo[0]})| < |names - visited|
    ensures var below := Walk(names, f, Children(names, f, Some(todo[0])), visited + {todo[0]});
            var others := Walk(names, f, todo[1..], below.1);
            && Walk(names, f, todo, visited) == ([todo[0]] + below.0 + others.0, others.1)
            && |names - below.1| < |names - visited|
  {
    var n := todo[0];
    SmallerRest(names, visited, visited + {n}, n);
    var below := Walk(names, f, Children(names, f, Some(n)), visited + {n});
    SmallerRest(names, visited, below.1, n);
  }

  lemma WalkNone(names: set<Name>, f: Facts, visited: set<Name>)
    ensures Walk(names, f, [], visited) == ([], visited)
  {
  }

  lemma OrderIs(names: set<Name>, f: Facts)
    ensures var placed := Walk(names, f, Children(names, f, None), {});
            Order(names, f) == placed.0 + Sorted(names - placed.1)
  {
    hide Walk, Children, Sorted;
  }

  lemma WalkSkip(names: set<Name>, f: Facts, todo: seq<Name>, visited: set<Name>)
    requires todo != [] && (todo[0] in visited || todo[0] !in names)
    ensures Walk(names, f, todo, visited) == Walk(names, f, todo[1..], visited)
  {
  }

  lemma SmallerRest(names: set<Name>, v: set<Name>, w: set<Name>, n: Name)
    requires v <= w && n in w && n !in v && n in names
    ensures |names - w| < |names - v|
  {
    SubsetSize(names - w, (names - v) - {n});
  }

  /** The order the fold splices in: everything placed from the root, then the rest by name. */
  function Order(names: set<Name>, f: Facts): (order: seq<Name>) {
    var placed := Walk(names, f, Children(names, f, None), {});
    placed.0 + Sorted(names - placed.1)
  }

  // ---------------------------------------------------------------------------------------
  // Ancestry.  Independent of the walk: follow predecessors through live names.

  /** The `j`-th live predecessor of `m`, if there is one. */
  ghost function Up(names: set<Name>, f: Facts, m: Name, j: nat): Option<Name>
    decreases j
  {
    if m !in names then None
    else if j == 0 then Some(m)
    else match Predecessor(f, m)
      case None => None
      case Some(p) => Up(names, f, p, j - 1)
  }

  /** `m` lies in the anchor subtree of `n`. */
  ghost predicate Under(names: set<Name>, f: Facts, m: Name, n: Name) {
    exists j: nat :: Up(names, f, m, j) == Some(n)
  }

  /** `n` reaches the root in exactly `k` steps. */
  ghost predicate RootedAt(names: set<Name>, f: Facts, n: Name, k: nat) {
    var r := Up(names, f, n, k);
    r.Some? && Predecessor(f, r.value) == None
  }

  ghost predicate Rooted(names: set<Name>, f: Facts, n: Name) {
    exists k: nat :: RootedAt(names, f, n, k)
  }

  lemma {:induction false} UpAdds(names: set<Name>, f: Facts, m: Name, i: nat, j: nat)
    requires Up(names, f, m, i).Some?
    ensures Up(names, f, m, i + j) == Up(names, f, Up(names, f, m, i).value, j)
    decreases i
  {
    if i > 0 {
      UpAdds(names, f, Predecessor(f, m).value, i - 1, j);
    }
  }

  /** A rooted name runs out of predecessors right after its depth, and not before. */
  lemma RootedDepth(names: set<Name>, f: Facts, n: Name, k: nat, j: nat)
    requires RootedAt(names, f, n, k)
    ensures Up(names, f, n, j).Some? <==> j <= k
  {
    if j <= k {
      if Up(names, f, n, j).None? { UpStaysNone(names, f, n, j, k); }
    } else {
      UpAdds(names, f, n, k, j - k);
    }
  }

  lemma UpStaysNone(names: set<Name>, f: Facts, n: Name, j: nat, k: nat)
    requires j <= k && Up(names, f, n, j).None?
    ensures Up(names, f, n, k).None?
    decreases j
  {
    if j > 0 && n in names && Predecessor(f, n).Some? {
      UpStaysNone(names, f, Predecessor(f, n).value, j - 1, k - 1);
    }
  }

  /** Two names of the same depth have disjoint subtrees. */
  lemma SameDepthDisjoint(names: set<Name>, f: Facts, m: Name, a: Name, b: Name, k: nat)
    requires RootedAt(names, f, a, k) && RootedAt(names, f, b, k)
    requires Under(names, f, m, a) && Under(names, f, m, b)
    ensures a == b
  {
    var i: nat :| Up(names, f, m, i) == Some(a);
    var j: nat :| Up(names, f, m, j) == Some(b);
    UpAdds(names, f, m, i, k);
    UpAdds(names, f, m, j, k);
    assert RootedAt(names, f, m, i + k) && RootedAt(names, f, m, j + k);
    RootedDepth(names, f, m, i + k, j + k);
    RootedDepth(names, f, m, j + k, i + k);
  }

  lemma ChildIsDeeper(names: set<Name>, f: Facts, p: Name, c: Name, k: nat)
    requires RootedAt(names, f, p, k) && c in names && Predecessor(f, c) == Some(p)
    ensures RootedAt(names, f, c, k + 1)
  {
  }

  /** A subtree is its root together with the subtrees of the root's children. */
  lemma UnderSplits(names: set<Name>, f: Facts, m: Name, n: Name)
    requires n in names
    ensures Under(names, f, m, n) <==>
            m == n || exists c :: c in Children(names, f, Some(n)) && Under(names, f, m, c)
  {
    if Under(names, f, m, n) && m != n {
      var j: nat :| Up(names, f, m, j) == Some(n);
      StepBefore(names, f, m, n, j);
    }
    if m == n { assert Up(names, f, m, 0) == Some(n); }
    if c :| c in Children(names, f, Some(n)) && Under(names, f, m, c) {
      var j: nat :| Up(names, f, m, j) == Some(c);
      UpAdds(names, f, m, j, 1);
      assert Up(names, f, c, 1) == Some(n);
      assert Up(names, f, m, j + 1) == Some(n);
    }
  }

  lemma {:induction false} StepBefore(names: set<Name>, f: Facts, m: Name, n: Name, j: nat)
    requires Up(names, f, m, j) == Some(n) && m != n
    ensures exists c :: c in Children(names, f, Some(n)) && Under(names, f, m, c)
    decreases j
  {
    var p := Predecessor(f, m).value;
    if p == n {
      assert Up(names, f, m, 0) == Some(m);
      assert m in Children(names, f, Some(n)) && Under(names, f, m, m);
    } else {
      StepBefore(names, f, p, n, j - 1);
      var c :| c in Children(names, f, Some(n)) && Under(names, f, p, c);
      var i: nat :| Up(names, f, p, i) == Some(c);
      assert Up(names, f, m, i + 1) == Some(c);
    }
  }

  // ---------------------------------------------------------------------------------------
  // What the walk places.

  ghost predicate Fresh(names: set<Name>, f: Facts, todo: seq<Name>, visited: set<Name>, d: nat) {
    && Distinct(todo)
    && (forall t :: t in todo ==> t in names && RootedAt(names, f, t, d))
    && (forall v, t :: v in visited && t in todo ==> !Under(names, f, v, t))
  }

  lemma NotBelowChild(names: set<Name>, f: Facts, n: Name, c: Name, d: nat)
    requires RootedAt(names, f, n, d) && c in names && Predecessor(f, c) == Some(n)
    ensures !Under(names, f, n, c)
  {
    if Under(names, f, n, c) {
      var j: nat :| Up(names, f, n, j) == Some(c);
      UpAdds(names, f, n, j, d + 1);
      ChildIsDeeper(names, f, n, c, d);
      RootedDepth(names, f, n, d, j + d + 1);
    }
  }

  lemma UnderChild(names: set<Name>, f: Facts, m: Name, n: Name, c: Name)
    requires n in names && c in names && Predecessor(f, c) == Some(n) && Under(names, f, m, c)
    ensures Under(names, f, m, n)
  {
    UnderSplits(names, f, m, n);
  }

  lemma FreshChildren(names: set<Name>, f: Facts, todo: seq<Name>, visited: set<Name>, d: nat)
    requires todo != [] && Fresh(names, f, todo, visited, d)
    ensures todo[0] !in visited
    ensures Fresh(names, f, Children(names, f, Some(todo[0])), visited + {todo[0]}, d + 1)
  {
    var n := todo[0];
    assert n in todo && RootedAt(names, f, n, d);
    SelfUnder(names, f, n);
    hide Under, RootedAt;
    var kids := Children(names, f, Some(n));
    forall c | c in kids ensures RootedAt(names, f, c, d + 1) && !Under(names, f, n, c) {
      ChildIsDeeper(names, f, n, c, d);
      NotBelowChild(names, f, n, c, d);
    }
    forall v, c | v in visited && c in kids ensures !Under(names, f, v, c) {
      if Under(names, f, v, c) { UnderChild(names, f, v, n, c); }
    }
  }

  lemma SelfUnder(names: set<Name>, f: Facts, n: Name)
    requires n in names
    ensures Under(names, f, n, n)
  {
    assert Up(names, f, n, 0) == Some(n);
  }

  lemma FreshSiblings(names: set<Name>, f: Facts, todo: seq<Name>, visited: set<Name>, w: set<Name>, d: nat)
    requires todo != [] && Fresh(names, f, todo, visited, d)
    requires forall m :: m in w ==> m in visited || Under(names, f, m, todo[0])
    ensures Fresh(names, f, todo[1..], w, d)
  {
    forall v, t | v in w && t in todo[1..] ensures !Under(names, f, v, t) {
      if Under(names, f, v, t) && v !in visited {
        SameDepthDisjoint(names, f, v, todo[0], t, d);
      }
    }
  }

  ghost predicate UnderSome(names: set<Name>, f: Facts, m: Name, todo: seq<Name>) {
    exists t :: t in todo && Under(names, f, m, t)
  }

  /** `r` places exactly the subtrees of `todo`, each name once. */
  ghost predicate Covers(names: set<Name>, f: Facts, todo: seq<Name>, visited: set<Name>, r: (seq<Name>, set<Name>)) {
    && Distinct(r.0)
    && (forall m :: m in r.0 <==> UnderSome(names, f, m, todo))
    && (forall m :: m in r.1 <==> m in visited || UnderSome(names, f, m, todo))
  }

  /** From fresh siblings the walk places exactly their subtrees, each name once. */
  lemma {:induction false} WalkCovers(names: set<Name>, f: Facts, todo: seq<Name>, visited: set<Name>, d: nat)
    requires Fresh(names, f, todo, visited, d)
    ensures Covers(names, f, todo, visited, Walk(names, f, todo, visited))
    decreases |names - visited|, |todo|
  {
    if todo == [] {
      assert Walk(names, f, todo, visited) == ([], visited);
    } else {
      var n := todo[0];
      FreshChildren(names, f, todo, visited, d);
      WalkStep(names, f, todo, visited);
      hide Walk, Fresh, Covers;
      var kids := Children(names, f, Some(n));
      var below := Walk(names, f, kids, visited + {n});
      WalkCovers(names, f, kids, visited + {n}, d + 1);
      PlacedBelow(names, f, todo, visited, below, d);
      var others := Walk(names, f, todo[1..], below.1);
      WalkCovers(names, f, todo[1..], below.1, d);
      PlacedBeside(names, f, todo, visited, below, others);
    }
  }

  /** After the first sibling's subtree, the remaining siblings are still fresh. */
  lemma PlacedBelow(names: set<Name>, f: Facts, todo: seq<Name>, visited: set<Name>, below: (seq<Name>, set<Name>),
                    d: nat)
    requires todo != [] && Fresh(names, f, todo, visited, d)
    requires Covers(names, f, Children(names, f, Some(todo[0])), visited + {todo[0]}, below)
    ensures Distinct([todo[0]] + below.0)
    ensures forall m :: m in [todo[0]] + below.0 <==> Under(names, f, m, todo[0])
    ensures forall m :: m in below.1 <==> m in visited || Under(names, f, m, todo[0])
    ensures Fresh(names, f, todo[1..], below.1, d)
  {
    hide Covers;
    var n := todo[0];
    assert n in todo && RootedAt(names, f, n, d);
    CoversBelow(names, f, n, visited, below, d);
    hide Under, RootedAt;
    FreshSiblings(names, f, todo, visited, below.1, d);
  }

  lemma CoversBelow(names: set<Name>, f: Facts, n: Name, visited: set<Name>, below: (seq<Name>, set<Name>), d: nat)
    requires n in names && RootedAt(names, f, n, d)
    requires Covers(names, f, Children(names, f, Some(n)), visited + {n}, below)
    ensures Distinct([n] + below.0)
    ensures forall m :: m in [n] + below.0 <==> Under(names, f, m, n)
    ensures forall m :: m in below.1 <==> m in visited || Under(names, f, m, n)
  {
    var kids := Children(names, f, Some(n));
    forall m ensures m == n || UnderSome(names, f, m, kids) <==> Under(names, f, m, n) {
      UnderSplits(names, f, m, n);
    }
    hide Under, RootedAt;
    assert n !in below.0 by {
      if n in below.0 {
        var c :| c in kids && Under(names, f, n, c);
        NotBelowChild(names, f, n, c, d);
      }
    }
    DistinctConcat([n], below.0);
  }

  lemma PlacedBeside(names: set<Name>, f: Facts, todo: seq<Name>, visited: set<Name>, below: (seq<Name>, set<Name>),
                     others: (seq<Name>, set<Name>))
    requires todo != [] && Distinct([todo[0]] + below.0)
    requires forall m :: m in [todo[0]] + below.0 <==> Under(names, f, m, todo[0])
    requires forall m :: m in below.1 <==> m in visited || Under(names, f, m, todo[0])
    requires forall v, t :: v in below.1 && t in todo[1..] ==> !Under(names, f, v, t)
    requires Covers(names, f, todo[1..], below.1, others)
    ensures Covers(names, f, todo, visited, ([todo[0]] + below.0 + others.0, others.1))
  {
    hide Under;
    forall m
      ensures UnderSome(names, f, m, todo) <==> Under(names, f, m, todo[0]) || UnderSome(names, f, m, todo[1..])
    {
      SomeOf(names, f, m, todo);
    }
    forall m | m in others.0 ensures m !in [todo[0]] + below.0 {
      var t :| t in todo[1..] && Under(names, f, m, t);
    }
    DistinctConcat([todo[0]] + below.0, others.0);
  }

  lemma SomeOf(names: set<Name>, f: Facts, m: Name, todo: seq<Name>)
    requires todo != []
    ensures UnderSome(names, f, m, todo) <==> Under(names, f, m, todo[0]) || UnderSome(names, f, m, todo[1..])
  {
    if UnderSome(names, f, m, todo) {
      var t :| t in todo && Under(names, f, m, t);
      assert t == todo[0] || t in todo[1..];
    }
    if UnderSome(names, f, m, todo[1..]) {
      var t :| t in todo[1..] && Under(names, f, m, t);
      assert t in todo;
    }
    if Under(names, f, m, todo[0]) { assert todo[0] in todo; }
  }

  /** `n` heads a contiguous stretch of `order` that holds its subtree and nothing else. */
  ghost predicate Block(names: set<Name>, f: Facts, order: seq<Name>, n: Name, i: nat, j: nat) {
    && i < j <= |order| && order[i] == n
    && forall m :: m in order[i..j] <==> Under(names, f, m, n)
  }

  ghost predicate HeadsBlock(names: set<Name>, f: Facts, order: seq<Name>, n: Name) {
    exists i: nat, j: nat :: Block(names, f, order, n, i, j)
  }

  lemma BlockShifts(names: set<Name>, f: Facts, pre: seq<Name>, mid: seq<Name>, post: seq<Name>, n: Name)
    requires HeadsBlock(names, f, mid, n)
    ensures HeadsBlock(names, f, pre + mid + post, n)
  {
    var i: nat, j: nat :| Block(names, f, mid, n, i, j);
    var all := pre + mid + post;
    assert all[|pre| + i..|pre| + j] == mid[i..j];
    assert Block(names, f, all, n, |pre| + i, |pre| + j);
  }

  lemma {:induction false} WalkBlocks(names: set<Name>, f: Facts, todo: seq<Name>, visited: set<Name>, d: nat, n: Name)
    requires Fresh(names, f, todo, visited, d) && UnderSome(names, f, n, todo)
    ensures HeadsBlock(names, f, Walk(names, f, todo, visited).0, n)
    decreases |names - visited|, |todo|
  {
    var t := todo[0];
    FreshChildren(names, f, todo, visited, d);
    WalkStep(names, f, todo, visited);
    hide Walk, Fresh, HeadsBlock, Covers;
    var kids := Children(names, f, Some(t));
    var below := Walk(names, f, kids, visited + {t});
    WalkCovers(names, f, kids, visited + {t}, d + 1);
    PlacedBelow(names, f, todo, visited, below, d);
    var others := Walk(names, f, todo[1..], below.1);
    SomeOf(names, f, n, todo);
    if n == t {
      FirstBlock(names, f, [t] + below.0, others.0, n);
    } else if Under(names, f, n, t) {
      UnderSplits(names, f, n, t);
      WalkBlocks(names, f, kids, visited + {t}, d + 1, n);
      BlockShifts(names, f, [t], below.0, others.0, n);
    } else {
      WalkBlocks(names, f, todo[1..], below.1, d, n);
      BlockShifts(names, f, [t] + below.0, others.0, [], n);
      assert [t] + below.0 + others.0 + [] == [t] + below.0 + others.0;
    }
  }

  lemma FirstBlock(names: set<Name>, f: Facts, block: seq<Name>, rest: seq<Name>, n: Name)
    requires block != [] && block[0] == n && forall m :: m in block <==> Under(names, f, m, n)
    ensures HeadsBlock(names, f, block + rest, n)
  {
    assert (block + rest)[0..|block|] == block;
    assert Block(names, f, block + rest, n, 0, |block|);
  }

  lemma FreshRoots(names: set<Name>, f: Facts)
    ensures Fresh(names, f, Children(names, f, None), {}, 0)
  {
    forall t | t in Children(names, f, None) ensures RootedAt(names, f, t, 0) {
      assert Up(names, f, t, 0) == Some(t);
    }
  }

  lemma RootedIsUnderRoot(names: set<Name>, f: Facts, n: Name)
    ensures Rooted(names, f, n) <==> UnderSome(names, f, n, Children(names, f, None))
  {
    if Rooted(names, f, n) {
      var k: nat :| RootedAt(names, f, n, k);
      var r := Up(names, f, n, k).value;
      UpStaysIn(names, f, n, k);
      assert r in Children(names, f, None) && Under(names, f, n, r);
    }
    if UnderSome(names, f, n, Children(names, f, None)) {
      var r :| r in Children(names, f, None) && Under(names, f, n, r);
      var k: nat :| Up(names, f, n, k) == Some(r);
      assert RootedAt(names, f, n, k);
    }
  }

  lemma UpStaysIn(names: set<Name>, f: Facts, m: Name, j: nat)
    requires Up(names, f, m, j).Some?
    ensures Up(names, f, m, j).value in names
    decreases j
  {
  }

  // ---------------------------------------------------------------------------------------
  // Main results.

  /** The names that reach the root come first, the rest follow by name. */
  ghost predicate RootedThenRest(names: set<Name>, f: Facts, order: seq<Name>, k: nat) {
    && k <= |order|
    && (forall n :: n in order[..k] <==> Rooted(names, f, n))
    && Increasing(order[k..])
  }

  lemma PlacedIsRooted(names: set<Name>, f: Facts)
    ensures var placed := Walk(names, f, Children(names, f, None), {});
            && Distinct(placed.0)
            && (forall n :: n in placed.0 <==> Rooted(names, f, n))
            && (forall n :: n in placed.1 <==> Rooted(names, f, n))
  {
    var roots := Children(names, f, None);
    FreshRoots(names, f);
    hide Walk, Fresh, Rooted, UnderSome;
    WalkCovers(names, f, roots, {}, 0);
    forall n ensures Rooted(names, f, n) <==> UnderSome(names, f, n, roots) { RootedIsUnderRoot(names, f, n); }
  }

  lemma RootedIsLive(names: set<Name>, f: Facts, n: Name)
    requires Rooted(names, f, n)
    ensures n in names
  {
    var k: nat :| RootedAt(names, f, n, k);
    assert Up(names, f, n, k).Some?;
  }

  /** Whatever the facts say -- cycles, dead predecessors, missing facts -- every live name is
      placed exactly once; the names that reach the root come first, the rest follow by name. */
  lemma OrderPlacesEachNameOnce(names: set<Name>, f: Facts)
    ensures Distinct(Order(names, f))
    ensures forall n :: n in Order(names, f) <==> n in names
    ensures exists k: nat :: RootedThenRest(names, f, Order(names, f), k)
  {
    hide Walk, Order, Rooted, Le, Children;
    var placed := Walk(names, f, Children(names, f, None), {});
    OrderIs(names, f);
    PlacedIsRooted(names, f);
    forall n | n in placed.1 ensures n in names { RootedIsLive(names, f, n); }
    RestFollows(names, f, placed.0, placed.1);
  }

  lemma RestFollows(names: set<Name>, f: Facts, placed: seq<Name>, visited: set<Name>)
    requires Distinct(placed) && visited <= names
    requires forall n :: n in placed <==> n in visited
    requires forall n :: n in placed <==> Rooted(names, f, n)
    ensures var order := placed + Sorted(names - visited);
            && Distinct(order)
            && (forall n :: n in order <==> n in names)
            && RootedThenRest(names, f, order, |placed|)
  {
    hide Le, Rooted, Increasing, Distinct, Sorted;
    var rest := Sorted(names - visited);
    SortedIncreases(names - visited);
    DistinctConcat(placed, rest);
    var order := placed + rest;
    assert order[..|placed|] == placed && order[|placed|..] == rest;
  }

  /** A live name trails in the by-name part if and only if its facts do not lead to the root; so a name
      without a fact never does: it stands with the roots. */
  lemma TrailsExactlyWhenUnrooted(names: set<Name>, f: Facts, n: Name, k: nat)
    requires RootedThenRest(names, f, Order(names, f), k) && n in names
    ensures n in Order(names, f)[k..] <==> !Rooted(names, f, n)
    ensures n !in f ==> n in Order(names, f)[..k]
  {
    OrderPlacesEachNameOnce(names, f);
    if n !in f { NoFactIsRooted(names, f, n); }
    hide Order, Rooted;
    InOnePart(Order(names, f), n, k);
  }

  lemma NoFactIsRooted(names: set<Name>, f: Facts, n: Name)
    requires n in names && n !in f
    ensures Rooted(names, f, n)
  {
    assert Up(names, f, n, 0) == Some(n);
    assert RootedAt(names, f, n, 0);
  }

  lemma InOnePart<T>(s: seq<T>, x: T, k: nat)
    requires Distinct(s) && x in s && k <= |s|
    ensures x in s[k..] <==> x !in s[..k]
  {
    assert s == s[..k] + s[k..];
    if x in s[..k] {
      var i :| 0 <= i < k && s[i] == x;
      forall j | k <= j < |s| ensures s[j] != x { }
    }
  }

  /** Two names, one recorded as the first of the file and one without a fact: the latter comes first. */
  lemma UnanchoredComesFirst()
    ensures Order({"a", "b"}, map["b" := None]) == ["a", "b"]
  {
    var names: set<Name>, f: Facts := {"a", "b"}, map["b" := None];
    var a: Name, b: Name := "a", "b";
    assert names == {a, b};
    assert a[0] < b[0];
    assert Le(a, b) && !Le(b, a);
    hide Le, Order;
    PairOrder(names, f, a, b);
  }

  lemma PairOrder(names: set<Name>, f: Facts, a: Name, b: Name)
    requires names == {a, b} && a != b && Le(a, b) && Predecessor(f, a) == None == Predecessor(f, b)
    ensures Order(names, f) == [a, b]
  {
    TwoRoots(names, f, a, b);
    hide *;
    LeafStep(names, f, a, [b], {});
    LeafStep(names, f, b, [], {a});
    assert {} + {a} == {a} && {a} + {b} == names && names - names == {};
    WalkNone(names, f, names);
    OrderIs(names, f);
    assert [a] + [b] == [a, b] && [b] + [] == [b];
    NoneSorted();
  }

  lemma NoneSorted()
    ensures Sorted({}) == []
  {
  }

  lemma TwoRoots(names: set<Name>, f: Facts, a: Name, b: Name)
    requires names == {a, b} && a != b && Le(a, b) && Predecessor(f, a) == None == Predecessor(f, b)
    ensures Children(names, f, None) == [a, b]
    ensures Children(names, f, Some(a)) == [] == Children(names, f, Some(b))
  {
    hide *;
    PairIncreases(a, b);
    EmptyIncreases();
    ChildrenAre(names, f, None, [a, b]);
    ChildrenAre(names, f, Some(a), []);
    ChildrenAre(names, f, Some(b), []);
  }

  lemma PairIncreases(a: Name, b: Name)
    requires Le(a, b) && a != b
    ensures Increasing([a, b])
  {
    hide Le;
  }

  /** The one increasing enumeration of the names with that predecessor. */
  lemma ChildrenAre(names: set<Name>, f: Facts, p: Option<Name>, r: seq<Name>)
    requires Increasing(r) && forall n :: n in r <==> n in names && Predecessor(f, n) == p
    ensures Children(names, f, p) == r
  {
    var s := set n | n in names && Predecessor(f, n) == p;
    assert Children(names, f, p) == Sorted(s) by { hide Sorted, Predecessor, Le, Increasing; }
    hide *;
    SortedIs(s, r);
  }

  /** A childless name is placed alone. */
  lemma LeafStep(names: set<Name>, f: Facts, n: Name, rest: seq<Name>, visited: set<Name>)
    requires n in names && n !in visited && Children(names, f, Some(n)) == []
    ensures var others := Walk(names, f, rest, visited + {n});
            Walk(names, f, [n] + rest, visited) == ([n] + others.0, others.1)
  {
    WalkStep(names, f, [n] + rest, visited);
    WalkNone(names, f, visited + {n});
    hide Walk, Children;
    assert ([n] + rest)[1..] == rest;
    assert [n] + [] == [n];
  }

  /** Every name that reaches the root heads a contiguous block: its own anchor subtree. */
  lemma OrderKeepsSubtreesTogether(names: set<Name>, f: Facts, n: Name)
    requires Rooted(names, f, n)
    ensures HeadsBlock(names, f, Order(names, f), n)
  {
    hide Walk, Order, HeadsBlock, Rooted, UnderSome, Fresh, Sorted;
    var roots := Children(names, f, None);
    FreshRoots(names, f);
    RootedIsUnderRoot(names, f, n);
    WalkBlocks(names, f, roots, {}, 0, n);
    var placed := Walk(names, f, roots, {});
    OrderIs(names, f);
    BlockShifts(names, f, [], placed.0, Sorted(names - placed.1), n);
    assert [] + placed.0 == placed.0;
  }

  /** The name before position `i`, as an anchor records it. */
  function Before(doc: seq<Name>, i: nat): Option<Name>
    requires i < |doc|
  {
    if i == 0 then None else Some(doc[i - 1])
  }

  /** The facts of the names in `doc` say that `doc` is the document order. */
  ghost predicate FactsOf(doc: seq<Name>, f: Facts) {
    forall i :: 0 <= i < |doc| ==> Predecessor(f, doc[i]) == Before(doc, i)
  }

  lemma FactAt(doc: seq<Name>, f: Facts, i: nat)
    requires FactsOf(doc, f) && i < |doc|
    ensures Predecessor(f, doc[i]) == if i == 0 then None else Some(doc[i - 1])
  {
  }

  /** A chain of facts is replayed exactly: facts about dead names do not disturb it. */
  lemma ChainIsReplayed(doc: seq<Name>, f: Facts)
    requires Distinct(doc) && FactsOf(doc, f)
    ensures Order(Elements(doc), f) == doc
  {
    var names := Elements(doc);
    OnlyChild(names, f, doc, 0);
    WalkChain(doc, f, 0);
    assert doc[..0] == [] && doc[0..] == doc;
    assert Elements(doc[..0]) == {} && names - names == {};
    hide Walk;
    var placed := Walk(names, f, Children(names, f, None), {});
    assert placed == (doc, names);
    assert Sorted(names - placed.1) == [];
    assert doc + [] == doc;
  }

  lemma OnlyChild(names: set<Name>, f: Facts, doc: seq<Name>, i: nat)
    requires Distinct(doc) && FactsOf(doc, f) && i <= |doc| && names == Elements(doc)
    ensures Children(names, f, if i == 0 then None else Some(doc[i - 1])) == if i < |doc| then [doc[i]] else []
  {
    hide *;
    var p: Option<Name> := if i == 0 then None else Some(doc[i - 1]);
    var r := if i < |doc| then [doc[i]] else [];
    FollowsOnlyAt(doc, f, i, p);
    assert forall n :: n in r <==> n in names && Predecessor(f, n) == p;
    OneIncreases(r);
    ChildrenAre(names, f, p, r);
  }

  lemma OneIncreases(r: seq<Name>)
    requires |r| <= 1
    ensures Increasing(r)
  {
    hide Le;
  }

  /** Only the `i`-th name is preceded by `p`. */
  lemma FollowsOnlyAt(doc: seq<Name>, f: Facts, i: nat, p: Option<Name>)
    requires Distinct(doc) && FactsOf(doc, f) && i <= |doc| && p == if i == 0 then None else Some(doc[i - 1])
    ensures i < |doc| ==> Predecessor(f, doc[i]) == p
    ensures forall n :: n in doc && Predecessor(f, n) == p ==> i < |doc| && n == doc[i]
  {
    hide Predecessor, FactsOf;
    if i < |doc| { FactAt(doc, f, i); }
    forall n | n in doc && Predecessor(f, n) == p ensures i < |doc| && n == doc[i] {
      var k :| 0 <= k < |doc| && doc[k] == n;
      FactAt(doc, f, k);
      SamePlace(doc, i, k);
    }
  }

  /** Distinct names with one predecessor are in one place. */
  lemma SamePlace(doc: seq<Name>, i: nat, k: nat)
    requires Distinct(doc) && i <= |doc| && k < |doc|
    requires (if k == 0 then None else Some(doc[k - 1])) == if i == 0 then None else Some(doc[i - 1])
    ensures i == k
  {
  }

  lemma {:induction false} WalkChain(doc: seq<Name>, f: Facts, i: nat)
    requires Distinct(doc) && FactsOf(doc, f) && i <= |doc|
    ensures Walk(Elements(doc), f, if i < |doc| then [doc[i]] else [], Elements(doc[..i])) == (doc[i..], Elements(doc))
    decreases |doc| - i
  {
    hide *;
    var names := Elements(doc);
    var visited := Elements(doc[..i]);
    if i == |doc| {
      assert doc[..i] == doc && doc[i..] == [];
      WalkNone(names, f, names);
    } else {
      PrefixGrows(doc, i);
      OnlyChild(names, f, doc, i + 1);
      WalkChain(doc, f, i + 1);
      WalkOne(names, f, doc[i], visited, doc[i + 1..], names);
      assert [doc[i]] + doc[i + 1..] == doc[i..];
    }
  }

  /** A name without siblings to come: itself, then all below it. */
  lemma WalkOne(names: set<Name>, f: Facts, n: Name, visited: set<Name>, below: seq<Name>, all: set<Name>)
    requires n in names && n !in visited
    requires Walk(names, f, Children(names, f, Some(n)), visited + {n}) == (below, all)
    ensures Walk(names, f, [n], visited) == ([n] + below, all)
  {
    hide *;
    WalkStep(names, f, [n], visited);
    WalkNone(names, f, all);
    assert [n][1..] == [];
    assert [n] + below + [] == [n] + below;
  }

  // ---------------------------------------------------------------------------------------
  // The imperative placement.

  ghost predicate ChildTable(names: set<Name>, f: Facts, children: map<Option<Name>, seq<Name>>) {
    forall p :: Children(names, f, p) == if p in children then children[p] else []
  }

  lemma TableAt(names: set<Name>, f: Facts, children: map<Option<Name>, seq<Name>>, p: Option<Name>)
    requires ChildTable(names, f, children)
    ensures Children(names, f, p) == if p in children then children[p] else []
  {
  }

  /** The recursive closure of the source: `visited` and `order` grow as it descends. */
  method Visit(names: set<Name>, ghost f: Facts, children: map<Option<Name>, seq<Name>>, p: Option<Name>,
               visited0: set<Name>, order0: seq<Name>)
    returns (visited: set<Name>, order: seq<Name>)
    requires ChildTable(names, f, children)
    ensures var r := Walk(names, f, Children(names, f, p), visited0);
            order == order0 + r.0 && visited == r.1
    decreases |names - visited0|
  {
    hide Walk, ChildTable, Children, Predecessor;
    visited, order := visited0, order0;
    var todo := if p in children then children[p] else [];
    TableAt(names, f, children, p);
    ghost var all := Walk(names, f, todo, visited0);
    var i := 0;
    while i < |todo|
      invariant 0 <= i <= |todo|
      invariant visited0 <= visited
      invariant Remaining(names, f, order0, all, order, todo[i..], visited)
    {
      var name := todo[i];
      assert todo[i..][0] == name && todo[i..][1..] == todo[i + 1..];
      if name !in visited && name in names {
        ghost var before, seen := order, visited;
        WalkStep(names, f, todo[i..], visited);
        SubsetSize(names - visited, names - visited0);
        visited, order := Visit(names, f, children, Some(name), visited + {name}, order + [name]);
        RemainingStep(names, f, order0, all, before, todo[i..], seen);
      } else {
        WalkSkip(names, f, todo[i..], visited);
      }
      i := i + 1;
    }
    assert todo[i..] == [];
    WalkNone(names, f, visited);
  }

  /** What is placed so far, followed by the walk of the siblings still to do, is the whole walk. */
  ghost predicate Remaining(names: set<Name>, f: Facts, order0: seq<Name>, all: (seq<Name>, set<Name>),
                            order: seq<Name>, todo: seq<Name>, visited: set<Name>) {
    var rest := Walk(names, f, todo, visited);
    order0 + all.0 == order + rest.0 && all.1 == rest.1
  }

  lemma Regroup<T>(a: seq<T>, b: seq<T>, c: seq<T>, d: seq<T>)
    ensures a + (b + c + d) == a + b + c + d
  {
  }

  lemma RemainingStep(names: set<Name>, f: Facts, order0: seq<Name>, all: (seq<Name>, set<Name>),
                      order: seq<Name>, todo: seq<Name>, visited: set<Name>)
    requires todo != [] && todo[0] !in visited && todo[0] in names
    requires Remaining(names, f, order0, all, order, todo, visited)
    ensures var below := Walk(names, f, Children(names, f, Some(todo[0])), visited + {todo[0]});
            Remaining(names, f, order0, all, order + [todo[0]] + below.0, todo[1..], below.1)
  {
    WalkStep(names, f, todo, visited);
    hide Walk, Children;
    var n := todo[0];
    var below := Walk(names, f, Children(names, f, Some(n)), visited + {n});
    var others := Walk(names, f, todo[1..], below.1);
    Regroup(order, [n], below.0, others.0);
  }

  /** `iteration` is the order in which the set happens to be iterated: the result does not
      depend on it. */
  method OrderEntities(names: set<Name>, iteration: seq<Name>, f: Facts) returns (order: seq<Name>)
    requires Distinct(iteration) && Elements(iteration) == names
    ensures order == Order(names, f)
  {
    var children: map<Option<Name>, seq<Name>> := map[];
    var i := 0;
    while i < |iteration|
      invariant 0 <= i <= |iteration|
      invariant Grouped(iteration[..i], f, children)
    {
      var n := iteration[i];
      var p := Predecessor(f, n);
      GroupedGrows(iteration[..i], f, children, n);
      assert iteration[..i + 1] == iteration[..i] + [n];
      children := children[p := (if p in children then children[p] else []) + [n]];
      i := i + 1;
    }
    assert iteration[..i] == iteration;
    GroupedIsTable(iteration, f, children);
    children := map p | p in children :: Sorted(Elements(children[p]));
    hide Walk, Order, ChildTable, Grouped, Predecessor;
    var visited;
    visited, order := Visit(names, f, children, None, {}, []);
    assert [] + Walk(names, f, Children(names, f, None), {}).0 == Walk(names, f, Children(names, f, None), {}).0;
    OrderIs(names, f);
    order := AppendRest(names, visited, order);
  }

  /** The `setdefault(...).append(...)` table after the names in `seen`. */
  ghost predicate Grouped(seen: seq<Name>, f: Facts, table: map<Option<Name>, seq<Name>>) {
    && (forall p :: p in table ==> forall n :: n in table[p] <==> n in seen && Predecessor(f, n) == p)
    && (forall n :: n in seen ==> Predecessor(f, n) in table)
  }

  lemma GroupedGrows(seen: seq<Name>, f: Facts, table: map<Option<Name>, seq<Name>>, n: Name)
    requires Grouped(seen, f, table)
    ensures var p := Predecessor(f, n);
            Grouped(seen + [n], f, table[p := (if p in table then table[p] else []) + [n]])
  {
  }

  lemma GroupedIsTable(seen: seq<Name>, f: Facts, table: map<Option<Name>, seq<Name>>)
    requires Grouped(seen, f, table)
    ensures ChildTable(Elements(seen), f, map p | p in table :: Sorted(Elements(table[p])))
  {
    forall p ensures Children(Elements(seen), f, p) == if p in table then Sorted(Elements(table[p])) else [] {
      GroupIsChildren(seen, f, table, p);
    }
  }

  lemma GroupIsChildren(seen: seq<Name>, f: Facts, table: map<Option<Name>, seq<Name>>, p: Option<Name>)
    requires Grouped(seen, f, table)
    ensures Children(Elements(seen), f, p) == if p in table then Sorted(Elements(table[p])) else []
  {
    hide *;
    var kids := if p in table then Elements(table[p]) else {};
    forall n ensures n in kids <==> n in seen && Predecessor(f, n) == p { GroupedAt(seen, f, table, p, n); }
    NoneSorted();
    SortedIncreases(kids);
    ChildrenAre(Elements(seen), f, p, Sorted(kids));
  }

  lemma GroupedAt(seen: seq<Name>, f: Facts, table: map<Option<Name>, seq<Name>>, p: Option<Name>, n: Name)
    requires Grouped(seen, f, table)
    ensures p in table ==> (n in table[p] <==> n in seen && Predecessor(f, n) == p)
    ensures p !in table && n in seen ==> Predecessor(f, n) != p
  {
    hide Predecessor;
  }

  /** The unplaced names, in name order. */
  method AppendRest(names: set<Name>, visited: set<Name>, placed: seq<Name>) returns (order: seq<Name>)
    ensures order == placed + Sorted(names - visited)
  {
    order := placed;
    var i := 0;
    ghost var tail: seq<Name> := [];
    var all := Sorted(names);
    SortedIncreases(names);
    EmptyIncreases();
    hide *;
    while i < |all|
      invariant 0 <= i <= |all|
      invariant order == placed + tail
      invariant Increasing(tail) && Increasing(all)
      invariant forall n :: n in tail <==> n in all[..i] && n !in visited
    {
      assert all[..i + 1] == all[..i] + [all[i]];
      if all[i] !in visited {
        IncreasingAppend(all, i, tail);
        Associates(placed, tail, [all[i]]);
        order := order + [all[i]];
        tail := tail + [all[i]];
      }
      i := i + 1;
    }
    assert all[..i] == all;
    SortedIs(names - visited, tail);
  }
}
