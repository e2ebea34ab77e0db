/** Splitting a commit's touched entities into connected groups (`sgt/core/mine.py`,
    `_untangle`). */
module Untangle {
  import opened Names
  import opened UnionFind

  datatype Edge = Edge(src: Name, dst: Name)

  // ---------------------------------------------------------------------------------------
  // Connectivity, independent of the union-find.

  ghost predicate Adjacent(edges: set<Edge>, x: Name, y: Name) {
    Edge(x, y) in edges || Edge(y, x) in edges
  }

  ghost predicate IsPath(touched: set<Name>, edges: set<Edge>, p: seq<Name>) {
    && p != []
    && (forall i :: 0 <= i < |p| ==> p[i] in touched)
    && (forall i :: 0 <= i < |p| - 1 ==> StepAt(edges, p, i))
  }

  ghost predicate StepAt(edges: set<Edge>, p: seq<Name>, i: int)
    requires 0 <= i < |p| - 1
  {
    Adjacent(edges, p[i], p[i + 1])
  }

  /** A chain of edges leads from `x` to `y` inside `touched`. */
  ghost predicate Connected(touched: set<Name>, edges: set<Edge>, x: Name, y: Name) {
    exists p :: IsPath(touched, edges, p) && p[0] == x && p[|p| - 1] == y
  }

  lemma ConnectedSelf(touched: set<Name>, edges: set<Edge>, x: Name)
    requires x in touched
    ensures Connected(touched, edges, x, x)
  {
    assert IsPath(touched, edges, [x]);
  }

  lemma ConnectedJoin(touched: set<Name>, edges: set<Edge>, x: Name, y: Name, z: Name)
    requires Connected(touched, edges, x, y) && Connected(touched, edges, y, z)
    ensures Connected(touched, edges, x, z)
  {
    var p :| IsPath(touched, edges, p) && p[0] == x && p[|p| - 1] == y;
    var q :| IsPath(touched, edges, q) && q[0] == y && q[|q| - 1] == z;
    var r := p + q[1..];
    forall i | 0 <= i < |r| - 1 ensures StepAt(edges, r, i) {
      if i < |p| - 1 {
        assert StepAt(edges, p, i);
      } else {
        assert StepAt(edges, q, i - (|p| - 1));
      }
    }
    assert IsPath(touched, edges, r);
  }

  lemma ConnectedFlip(touched: set<Name>, edges: set<Edge>, x: Name, y: Name)
    requires Connected(touched, edges, x, y)
    ensures Connected(touched, edges, y, x)
  {
    var p :| IsPath(touched, edges, p) && p[0] == x && p[|p| - 1] == y;
    var r := seq(|p|, i requires 0 <= i < |p| => p[|p| - 1 - i]);
    forall i | 0 <= i < |r| - 1 ensures StepAt(edges, r, i) {
      assert StepAt(edges, p, |p| - 2 - i);
    }
    assert IsPath(touched, edges, r);
  }

  lemma ConnectedByEdge(touched: set<Name>, edges: set<Edge>, x: Name, y: Name)
    requires x in touched && y in touched && Adjacent(edges, x, y)
    ensures Connected(touched, edges, x, y)
  {
    var p := [x, y];
    assert StepAt(edges, p, 0);
    assert IsPath(touched, edges, p);
  }

  lemma ConnectedGrows(touched: set<Name>, edges: set<Edge>, more: set<Edge>, x: Name, y: Name)
    requires Connected(touched, edges, x, y) && edges <= more
    ensures Connected(touched, more, x, y)
  {
    var p :| IsPath(touched, edges, p) && p[0] == x && p[|p| - 1] == y;
    forall i | 0 <= i < |p| - 1 ensures StepAt(more, p, i) { assert StepAt(edges, p, i); }
    assert IsPath(touched, more, p);
  }

  // ---------------------------------------------------------------------------------------
  // Roots after a list of edges.

  function Identity(touched: set<Name>): (r: Parents)
    ensures r.Keys == touched && forall x :: x in r ==> r[x] == x
  {
    map x | x in touched :: x
  }

  /** Each edge inside `touched` merges its ends; the class of `src` takes the root of `dst`. */
  function RootsAfter(touched: set<Name>, edges: seq<Edge>): (r: Parents)
    ensures r.Keys == touched
  {
    if edges == [] then Identity(touched)
    else
      var before := RootsAfter(touched, edges[..|edges| - 1]);
      var e := edges[|edges| - 1];
      if e.src in touched && e.dst in touched then Merge(before, e.dst, e.src) else before
  }

  lemma RootsAppend(touched: set<Name>, edges: seq<Edge>, e: Edge)
    ensures RootsAfter(touched, edges + [e]) ==
            if e.src in touched && e.dst in touched then Merge(RootsAfter(touched, edges), e.dst, e.src)
            else RootsAfter(touched, edges)
  {
    assert (edges + [e])[..|edges|] == edges;
  }

  lemma EdgesAppend(edges: seq<Edge>, e: Edge)
    ensures Elements(edges + [e]) == Elements(edges) + {e}
  {
  }

  /** Equal roots mean a chain of edges. */
  lemma {:induction false} SameRootIsConnected(touched: set<Name>, edges: seq<Edge>, x: Name, y: Name)
    requires x in touched && y in touched && RootsAfter(touched, edges)[x] == RootsAfter(touched, edges)[y]
    ensures Connected(touched, Elements(edges), x, y)
    decreases |edges|, 0
  {
    if edges == [] {
      ConnectedSelf(touched, Elements(edges), x);
    } else {
      var e, rest := edges[|edges| - 1], edges[..|edges| - 1];
      assert edges == rest + [e];
      RootsAppend(touched, rest, e);
      EdgesAppend(rest, e);
      var es, root := Elements(edges), RootsAfter(touched, rest);
      hide RootsAfter, Connected, Elements;
      if root[x] == root[y] {
        SameRootIsConnected(touched, rest, x, y);
        ConnectedGrows(touched, Elements(rest), es, x, y);
      } else {
        MergeTouchesTwoClasses(root, e.dst, e.src, x, y);
        ReachesEnd(touched, rest, e, x);
        ReachesEnd(touched, rest, e, y);
        ConnectedFlip(touched, es, y, e.src);
        ConnectedJoin(touched, es, x, e.src, y);
      }
    }
  }

  /** A member of either merged class is connected to the edge's source. */
  lemma ReachesEnd(touched: set<Name>, rest: seq<Edge>, e: Edge, x: Name)
    requires x in touched && e.src in touched && e.dst in touched
    requires var root := RootsAfter(touched, rest); root[x] == root[e.src] || root[x] == root[e.dst]
    ensures Connected(touched, Elements(rest + [e]), x, e.src)
    decreases |rest|, 1
  {
    var root, es := RootsAfter(touched, rest), Elements(rest + [e]);
    EdgesAppend(rest, e);
    hide RootsAfter, Connected;
    if root[x] == root[e.src] {
      SameRootIsConnected(touched, rest, x, e.src);
      ConnectedGrows(touched, Elements(rest), es, x, e.src);
    } else {
      SameRootIsConnected(touched, rest, x, e.dst);
      ConnectedGrows(touched, Elements(rest), es, x, e.dst);
      assert e in es;
      ConnectedByEdge(touched, es, e.dst, e.src);
      ConnectedJoin(touched, es, x, e.dst, e.src);
    }
  }

  /** The ends of any edge inside `touched` share a root. */
  lemma {:induction false} EdgeJoinsRoots(touched: set<Name>, edges: seq<Edge>, e: Edge)
    requires e in edges && e.src in touched && e.dst in touched
    ensures RootsAfter(touched, edges)[e.src] == RootsAfter(touched, edges)[e.dst]
    decreases |edges|
  {
    var last, rest := edges[|edges| - 1], edges[..|edges| - 1];
    assert edges == rest + [last];
    RootsAppend(touched, rest, last);
    if e in rest { EdgeJoinsRoots(touched, rest, e); }
    hide RootsAfter;
  }

  lemma {:induction false} PathJoinsRoots(touched: set<Name>, edges: seq<Edge>, p: seq<Name>, i: nat)
    requires IsPath(touched, Elements(edges), p) && i < |p|
    ensures RootsAfter(touched, edges)[p[0]] == RootsAfter(touched, edges)[p[i]]
  {
    hide RootsAfter, IsPath;
    if i > 0 {
      PathJoinsRoots(touched, edges, p, i - 1);
      PathStep(touched, edges, p, i - 1);
      var a, b := p[i - 1], p[i];
      if Edge(a, b) in edges {
        EdgeJoinsRoots(touched, edges, Edge(a, b));
      } else {
        EdgeJoinsRoots(touched, edges, Edge(b, a));
      }
    }
  }

  lemma PathStep(touched: set<Name>, edges: seq<Edge>, p: seq<Name>, i: nat)
    requires IsPath(touched, Elements(edges), p) && i + 1 < |p|
    ensures p[i] in touched && p[i + 1] in touched && (Edge(p[i], p[i + 1]) in edges || Edge(p[i + 1], p[i]) in edges)
  {
    assert StepAt(Elements(edges), p, i);
  }

  /** The union-find computes connectivity: it depends on the set of edges only, not their order. */
  lemma RootsAreComponents(touched: set<Name>, edges: seq<Edge>, x: Name, y: Name)
    requires x in touched && y in touched
    ensures RootsAfter(touched, edges)[x] == RootsAfter(touched, edges)[y]
            <==> Connected(touched, Elements(edges), x, y)
  {
    if RootsAfter(touched, edges)[x] == RootsAfter(touched, edges)[y] { SameRootIsConnected(touched, edges, x, y); }
    if Connected(touched, Elements(edges), x, y) {
      var p :| IsPath(touched, Elements(edges), p) && p[0] == x && p[|p| - 1] == y;
      PathJoinsRoots(touched, edges, p, |p| - 1);
    }
  }

  // ---------------------------------------------------------------------------------------
  // The result, characterized.

  ghost function Component(touched: set<Name>, edges: set<Edge>, x: Name): set<Name> {
    set y | y in touched && Connected(touched, edges, x, y)
  }

  /** The sort key of a group: its smallest member. */
  function KeyOf(g: set<Name>): (r: Name)
    ensures g != {} ==> Least(r, g)
  {
    if g == {} then "" else Minimum(g)
  }

  function Minima(groups: seq<set<Name>>): (r: seq<Name>)
    ensures |r| == |groups| && forall i :: 0 <= i < |r| ==> r[i] == KeyOf(groups[i])
  {
    seq(|groups|, i requires 0 <= i < |groups| => KeyOf(groups[i]))
  }

  ghost predicate IsComponent(touched: set<Name>, edges: set<Edge>, g: set<Name>) {
    g != {} && g <= touched && forall x :: x in g ==> g == Component(touched, edges, x)
  }

  /** Exactly the connected components, each once, ordered by their smallest member. */
  ghost predicate IsUntangling(touched: set<Name>, edges: set<Edge>, groups: seq<set<Name>>) {
    && (forall g :: g in groups ==> IsComponent(touched, edges, g))
    && (forall x :: x in touched ==> exists g :: g in groups && x in g)
    && Increasing(Minima(groups))
  }

  lemma MinimaSame(touched: set<Name>, edges: set<Edge>, a: seq<set<Name>>, b: seq<set<Name>>, m: Name)
    requires IsUntangling(touched, edges, a) && IsUntangling(touched, edges, b) && m in Minima(a)
    ensures m in Minima(b)
  {
    hide Increasing, Component;
    var i :| 0 <= i < |a| && Minima(a)[i] == m;
    assert a[i] in a && m in a[i];
    var g :| g in b && m in g;
    assert g == Component(touched, edges, m) == a[i];
    var j :| 0 <= j < |b| && b[j] == g;
    assert Minima(b)[j] == m;
  }

  /** The components in that order are one sequence: nothing about edge order or set iteration can
      show in the result. */
  lemma UntanglingIsUnique(touched: set<Name>, edges: set<Edge>, a: seq<set<Name>>, b: seq<set<Name>>)
    requires IsUntangling(touched, edges, a) && IsUntangling(touched, edges, b)
    ensures a == b
  {
    hide Component, Increasing;
    forall m ensures m in Minima(a) <==> m in Minima(b) {
      if m in Minima(a) { MinimaSame(touched, edges, a, b, m); }
      if m in Minima(b) { MinimaSame(touched, edges, b, a, m); }
    }
    IncreasingIsUnique(Minima(a), Minima(b));
    assert |a| == |b|;
    forall i | 0 <= i < |a| ensures a[i] == b[i] {
      assert a[i] in a && b[i] in b;
      var m := Minima(a)[i];
      assert m == KeyOf(a[i]) && m == KeyOf(b[i]);
      assert a[i] == Component(touched, edges, m) == b[i];
    }
  }

  // ---------------------------------------------------------------------------------------
  // The loops.

  lemma NodeOf(parent: Parents, root: Parents, rank: map<Name, nat>, x: Name)
    requires IsForest(parent, root, rank) && x in parent
    ensures NodeOk(parent, root, rank, x)
  {
  }

  lemma HalvedNode(parent: Parents, root: Parents, rank: map<Name, nat>, x: Name, y: Name)
    requires NodeOk(parent, root, rank, x) && NodeOk(parent, root, rank, parent[x]) && NodeOk(parent, root, rank, y)
    ensures NodeOk(parent[x := parent[parent[x]]], root, rank, y)
  {
  }

  lemma HalvingKeepsForest(parent: Parents, root: Parents, rank: map<Name, nat>, x: Name)
    requires IsForest(parent, root, rank) && x in parent
    ensures parent[x] in parent && IsForest(parent[x := parent[parent[x]]], root, rank)
  {
    NodeOf(parent, root, rank, x);
    NodeOf(parent, root, rank, parent[x]);
    var halved := parent[x := parent[parent[x]]];
    assert halved.Keys == parent.Keys;
    forall y | y in halved ensures NodeOk(halved, root, rank, y) {
      NodeOf(parent, root, rank, y);
      hide *;
      HalvedNode(parent, root, rank, x, y);
    }
    hide NodeOk;
  }

  /** `find` with path halving: terminates, and moves nobody's root. */
  method FindHalving(parent0: Parents, ghost root: Parents, ghost rank: map<Name, nat>, x0: Name)
    returns (parent: Parents, r: Name)
    requires IsForest(parent0, root, rank) && x0 in parent0
    ensures IsForest(parent, root, rank) && x0 in root && r == root[x0]
    ensures r in parent && parent[r] == r
  {
    parent := parent0;
    var x := x0;
    assert NodeOk(parent, root, rank, x);
    while parent[x] != x
      invariant IsForest(parent, root, rank) && NodeOk(parent, root, rank, x) && x0 in root && root[x] == root[x0]
      decreases rank[x]
    {
      HalvingKeepsForest(parent, root, rank, x);
      assert NodeOk(parent, root, rank, parent[x]);
      parent := parent[x := parent[parent[x]]];
      x := parent[x];
      assert NodeOk(parent, root, rank, x);
    }
    r := x;
  }

  /** `union(src, dst)`: two finds, then the root of `src` hangs below the root of `dst`. */
  method UnionHalving(parent0: Parents, ghost root: Parents, ghost rank0: map<Name, nat>, a: Name, b: Name)
    returns (parent: Parents, ghost rank: map<Name, nat>)
    requires IsForest(parent0, root, rank0) && a in parent0 && b in parent0
    ensures a in root && b in root && IsForest(parent, Merge(root, b, a), rank)
  {
    hide *;
    var ra, rb;
    KeysAgree(parent0, root, rank0);
    parent, ra := FindHalving(parent0, root, rank0, a);
    KeysAgree(parent, root, rank0);
    parent, rb := FindHalving(parent, root, rank0, b);
    KeysAgree(parent, root, rank0);
    rank := Hung(parent, root, rank0, a, b);
    parent := parent[ra := rb];
  }

  /** The root of `a` under the root of `b`, or nothing done where they are one. */
  lemma Hung(parent: Parents, root: Parents, rank0: map<Name, nat>, a: Name, b: Name) returns (rank: map<Name, nat>)
    requires IsForest(parent, root, rank0) && a in parent && b in parent && a in root && b in root
    ensures IsForest(parent[root[a] := root[b]], Merge(root, b, a), rank)
  {
    hide *;
    KeysAgree(parent, root, rank0);
    rank := rank0;
    if root[a] != root[b] {
      LinkKeepsForest(parent, root, rank, b, a);
      rank := Shifted(rank, root, b, a);
    } else {
      SameRootMerge(root, b, a);
      SelfAssign(parent, root, rank, a);
    }
  }

  /** One edge: merged when both its ends were touched. */
  method UniteEdge(touched: set<Name>, ghost done: seq<Edge>, e: Edge, parent0: Parents, ghost rank0: map<Name, nat>)
    returns (parent: Parents, ghost rank: map<Name, nat>)
    requires IsForest(parent0, RootsAfter(touched, done), rank0)
    ensures IsForest(parent, RootsAfter(touched, done + [e]), rank)
  {
    hide *;
    ghost var root := RootsAfter(touched, done);
    parent, rank := parent0, rank0;
    RootsAppend(touched, done, e);
    KeysAgree(parent, root, rank);
    if e.src in touched && e.dst in touched {
      parent, rank := UnionHalving(parent, root, rank, e.src, e.dst);
    }
  }

  /** All edges merged. */
  method UniteAll(touched: set<Name>, edges: seq<Edge>) returns (parent: Parents, ghost rank: map<Name, nat>)
    ensures IsForest(parent, RootsAfter(touched, edges), rank)
  {
    parent, rank := Identity(touched), Zeros(touched);
    SingletonsAreForest(touched);
    hide *;
    ghost var done: seq<Edge> := [];
    var i := 0;
    while i < |edges|
      invariant 0 <= i <= |edges| && done == edges[..i]
      invariant IsForest(parent, RootsAfter(touched, done), rank)
    {
      parent, rank := UniteEdge(touched, done, edges[i], parent, rank);
      done := done + [edges[i]];
      i := i + 1;
    }
    assert done == edges;
  }

  ghost function Zeros(touched: set<Name>): (r: map<Name, nat>)
    ensures r.Keys == touched
  {
    map t | t in touched :: 0
  }

  lemma SingletonsAreForest(touched: set<Name>)
    ensures IsForest(Identity(touched), RootsAfter(touched, []), Zeros(touched))
  {
  }

  lemma KeysAgree(parent: Parents, root: Parents, rank: map<Name, nat>)
    requires IsForest(parent, root, rank)
    ensures parent.Keys == root.Keys == rank.Keys
    ensures forall x :: x in root ==> root[x] in rank
  {
    forall x | x in root ensures root[x] in rank { assert NodeOk(parent, root, rank, x); }
  }

  lemma SelfAssign(parent: Parents, root: Parents, rank: map<Name, nat>, x: Name)
    requires IsForest(parent, root, rank) && x in root
    ensures parent[root[x] := root[x]] == parent
  {
    assert NodeOk(parent, root, rank, x);
  }

  /** The groups by root, after the members in `seen`. */
  ghost predicate GroupedBy(root: Parents, seen: set<Name>, groups: map<Name, set<Name>>) {
    && (forall r :: r in groups ==> groups[r] != {} && groups[r] <= seen
                                    && forall x :: x in groups[r] ==> x in root && root[x] == r)
    && (forall x :: x in seen ==> x in root && root[x] in groups && x in groups[root[x]])
  }

  /** `groups.setdefault(r, set()).add(t)`. */
  method Grouped(ghost root: Parents, ghost seen: set<Name>, before: map<Name, set<Name>>, r: Name, t: Name)
    returns (groups: map<Name, set<Name>>)
    requires GroupedBy(root, seen, before) && t in root && r == root[t]
    ensures GroupedBy(root, seen + {t}, groups)
  {
    groups := before[r := (if r in before then before[r] else {}) + {t}];
    GroupMore(root, seen, before, t);
    hide *;
  }

  method Without(ghost touched: set<Name>, left: set<Name>, t: Name) returns (rest: set<Name>)
    requires t in left && left <= touched
    ensures rest < left && rest <= touched && touched - rest == touched - left + {t}
  {
    rest := left - {t};
  }

  lemma GroupMore(root: Parents, seen: set<Name>, groups: map<Name, set<Name>>, x: Name)
    requires GroupedBy(root, seen, groups) && x in root
    ensures GroupedBy(root, seen + {x}, groups[root[x] := (if root[x] in groups then groups[root[x]] else {}) + {x}])
  {
  }

  /** `_untangle`. */
  method UntangleTouched(touched: set<Name>, edges: seq<Edge>) returns (groups: seq<set<Name>>)
    ensures IsUntangling(touched, Elements(edges), groups)
  {
    hide *;
    var parent, rank := UniteAll(touched, edges);
    ghost var root := RootsAfter(touched, edges);
    var byRoot: map<Name, set<Name>> := map[];
    var left := touched;
    assert touched - left == {};
    NothingGrouped(root);
    while left != {}
      invariant left <= touched
      invariant IsForest(parent, root, rank)
      invariant GroupedBy(root, touched - left, byRoot)
      decreases left
    {
      var t :| t in left;
      KeysAgree(parent, root, rank);
      var r;
      parent, r := FindHalving(parent, root, rank, t);
      byRoot := Grouped(root, touched - left, byRoot, r, t);
      left := Without(touched, left, t);
    }
    assert touched - left == touched;
    groups := SortGroups(touched, edges, byRoot);
  }

  lemma NothingGrouped(root: Parents)
    ensures GroupedBy(root, {}, map[])
  {
  }

  lemma GroupIsComponent(touched: set<Name>, edges: seq<Edge>, byRoot: map<Name, set<Name>>, r: Name)
    requires GroupedBy(RootsAfter(touched, edges), touched, byRoot) && r in byRoot
    ensures IsComponent(touched, Elements(edges), byRoot[r])
  {
    var root, es := RootsAfter(touched, edges), Elements(edges);
    hide RootsAfter, Elements;
    forall x | x in byRoot[r] ensures byRoot[r] == Component(touched, es, x) {
      forall y ensures y in byRoot[r] <==> y in Component(touched, es, x) {
        if y in touched { RootsAreComponents(touched, edges, x, y); }
      }
    }
  }

  function KeysOf(byRoot: map<Name, set<Name>>): (r: set<Name>)
    ensures forall m :: m in r <==> exists k :: k in byRoot && KeyOf(byRoot[k]) == m
  {
    set k | k in byRoot :: KeyOf(byRoot[k])
  }

  /** Each group stands where its key does. */
  ghost predicate Placed(byRoot: map<Name, set<Name>>, order: seq<Name>, groups: seq<set<Name>>) {
    |groups| <= |order| && forall j :: 0 <= j < |groups| ==> groups[j] in byRoot.Values && KeyOf(groups[j]) == order[j]
  }

  lemma PlacedMore(byRoot: map<Name, set<Name>>, order: seq<Name>, groups: seq<set<Name>>, k: Name)
    requires Placed(byRoot, order, groups) && |groups| < |order|
    requires k in byRoot && KeyOf(byRoot[k]) == order[|groups|]
    ensures Placed(byRoot, order, groups + [byRoot[k]])
  {
    assert byRoot[k] in byRoot.Values;
    hide KeyOf;
  }

  lemma NothingPlaced(byRoot: map<Name, set<Name>>, order: seq<Name>)
    ensures Placed(byRoot, order, [])
  {
  }

  /** `sorted(groups.values(), key=smallest member)`. */
  method SortGroups(touched: set<Name>, ghost edges: seq<Edge>, byRoot: map<Name, set<Name>>)
    returns (groups: seq<set<Name>>)
    requires GroupedBy(RootsAfter(touched, edges), touched, byRoot)
    ensures IsUntangling(touched, Elements(edges), groups)
  {
    hide *;
    var order := Sorted(KeysOf(byRoot));
    groups := [];
    NothingPlaced(byRoot, order);
    while |groups| < |order|
      invariant |groups| <= |order| && Placed(byRoot, order, groups)
    {
      var m := order[|groups|];
      assert m in order;
      var k :| k in byRoot && KeyOf(byRoot[k]) == m;
      PlacedMore(byRoot, order, groups, k);
      groups := groups + [byRoot[k]];
    }
    SortedUntangles(touched, edges, byRoot, groups);
  }

  lemma SortedUntangles(touched: set<Name>, edges: seq<Edge>, byRoot: map<Name, set<Name>>, groups: seq<set<Name>>)
    requires GroupedBy(RootsAfter(touched, edges), touched, byRoot)
    requires Placed(byRoot, Sorted(KeysOf(byRoot)), groups) && |groups| == |Sorted(KeysOf(byRoot))|
    ensures IsUntangling(touched, Elements(edges), groups)
  {
    var es, order := Elements(edges), Sorted(KeysOf(byRoot));
    hide RootsAfter, GroupedBy, KeyOf, KeysOf, Sorted, Component, Placed, IsComponent, Increasing, Minima, Elements;
    PlacedInOrder(byRoot, groups);
    forall g | g in groups ensures IsComponent(touched, es, g) {
      PlacedIsGroup(byRoot, order, groups, g);
      var r :| r in byRoot && byRoot[r] == g;
      GroupIsComponent(touched, edges, byRoot, r);
    }
    forall x | x in touched ensures exists g :: g in groups && x in g {
      EveryoneIsPlaced(touched, edges, byRoot, groups, x);
    }
  }

  lemma PlacedInOrder(byRoot: map<Name, set<Name>>, groups: seq<set<Name>>)
    requires Placed(byRoot, Sorted(KeysOf(byRoot)), groups) && |groups| == |Sorted(KeysOf(byRoot))|
    ensures Increasing(Minima(groups))
  {
    SortedIncreases(KeysOf(byRoot));
    assert Minima(groups) == Sorted(KeysOf(byRoot)) by { hide KeyOf, KeysOf, Sorted, Increasing; }
  }

  lemma PlacedIsGroup(byRoot: map<Name, set<Name>>, order: seq<Name>, groups: seq<set<Name>>, g: set<Name>)
    requires Placed(byRoot, order, groups) && g in groups
    ensures exists r :: r in byRoot && byRoot[r] == g
  {
    var j :| 0 <= j < |groups| && groups[j] == g;
    assert g in byRoot.Values;
  }

  lemma GroupMember(root: Parents, seen: set<Name>, byRoot: map<Name, set<Name>>, r: Name, x: Name)
    requires GroupedBy(root, seen, byRoot) && r in byRoot && x in byRoot[r]
    ensures x in root && root[x] == r
  {
  }

  lemma GroupFor(root: Parents, seen: set<Name>, byRoot: map<Name, set<Name>>, x: Name)
    requires GroupedBy(root, seen, byRoot) && x in seen
    ensures x in root && root[x] in byRoot && x in byRoot[root[x]]
  {
  }

  lemma GroupFilled(root: Parents, seen: set<Name>, byRoot: map<Name, set<Name>>, r: Name)
    requires GroupedBy(root, seen, byRoot) && r in byRoot
    ensures byRoot[r] != {} && KeyOf(byRoot[r]) in byRoot[r]
  {
  }

  lemma EveryoneIsPlaced(touched: set<Name>, edges: seq<Edge>, byRoot: map<Name, set<Name>>, groups: seq<set<Name>>,
                         x: Name)
    requires GroupedBy(RootsAfter(touched, edges), touched, byRoot) && x in touched
    requires Placed(byRoot, Sorted(KeysOf(byRoot)), groups) && |groups| == |Sorted(KeysOf(byRoot))|
    ensures exists g :: g in groups && x in g
  {
    var root, order := RootsAfter(touched, edges), Sorted(KeysOf(byRoot));
    GroupFor(root, touched, byRoot, x);
    var r := root[x];
    var m := KeyOf(byRoot[r]);
    assert m in order;
    var j :| 0 <= j < |order| && order[j] == m;
    assert groups[j] in groups && KeyOf(groups[j]) == m;
    PlacedIsGroup(byRoot, order, groups, groups[j]);
    var r2 :| r2 in byRoot && byRoot[r2] == groups[j];
    hide *;
    GroupFilled(root, touched, byRoot, r);
    GroupFilled(root, touched, byRoot, r2);
    GroupMember(root, touched, byRoot, r, m);
    GroupMember(root, touched, byRoot, r2, m);
  }
}
