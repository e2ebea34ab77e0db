/** Rolling op counts up a feature tree whose leaves may hang in several places (`sgt/api.py`,
    `canonical_children` and `op_count` inside `map_view`). */
module Rollup {
  import opened Names

  /** A node lists its children; `parent` is the one that counts as its own. */
  datatype Node = Node(children: seq<Name>, parent: Option<Name>)

  type Nodes = map<Name, Node>

  /** Parent pointers lead upwards: every parent exists and ranks above its children. */
  ghost predicate Acyclic(nodes: Nodes, rank: map<Name, nat>) {
    && rank.Keys == nodes.Keys
    && forall n {:trigger nodes[n]} ::
         n in nodes && nodes[n].parent.Some? ==>
           nodes[n].parent.value in nodes && rank[n] < rank[nodes[n].parent.value]
  }

  /** Every child listed exists, each once per list, and every parent lists its child. */
  ghost predicate Listed(nodes: Nodes) {
    && (forall n {:trigger nodes[n]} :: n in nodes ==> Distinct(nodes[n].children)
                                                       && forall c :: c in nodes[n].children ==> c in nodes)
    && (forall n {:trigger nodes[n]} :: n in nodes && nodes[n].parent.Some?
          ==> nodes[n].parent.value in nodes && n in nodes[nodes[n].parent.value].children)
  }

  function Keep(children: seq<Name>, nodes: Nodes, n: Name): (r: seq<Name>)
    requires forall c :: c in children ==> c in nodes
    ensures forall c :: c in r <==> c in children && nodes[c].parent == Some(n)
    ensures Distinct(children) ==> Distinct(r)
  {
    if children == [] then []
    else
      var k := |children| - 1;
      var init, c := Keep(children[..k], nodes, n), children[k];
      assert children == children[..k] + [c];
      if nodes[c].parent == Some(n) then init + [c] else init
  }

  /** `canonical_children`. */
  function CanonicalChildren(nodes: Nodes, n: Name): (r: seq<Name>)
    requires Listed(nodes) && n in nodes
    ensures forall c :: c in r <==> c in nodes && nodes[c].parent == Some(n)
    ensures Distinct(r)
  {
    Keep(nodes[n].children, nodes, n)
  }

  /** `leaf_op_count`: how many ops are assigned to each node. */
  function CountOf(leaves: seq<Name>, n: Name): nat {
    if leaves == [] then 0 else CountOf(leaves[..|leaves| - 1], n) + if leaves[|leaves| - 1] == n then 1 else 0
  }

  method LeafOpCount(leaves: seq<Name>) returns (count: map<Name, nat>)
    ensures forall n :: (if n in count then count[n] else 0) == CountOf(leaves, n)
  {
    count := map[];
    for i := 0 to |leaves|
      invariant forall n {:trigger n in count} :: (if n in count then count[n] else 0) == CountOf(leaves[..i], n)
    {
      assert leaves[..i + 1][..i] == leaves[..i];
      var leaf := leaves[i];
      count := count[leaf := (if leaf in count then count[leaf] else 0) + 1];
    }
    assert leaves[..|leaves|] == leaves;
  }

  function RankOf(rank: map<Name, nat>, n: Name): nat {
    if n in rank then rank[n] else 0
  }

  /** `op_count`; terminates because children rank below. */
  function OpCount(nodes: Nodes, ghost rank: map<Name, nat>, leaves: seq<Name>, n: Name): nat
    requires Acyclic(nodes, rank) && Listed(nodes) && n in nodes
    decreases RankOf(rank, n), 1, 0
  {
    var cs := CanonicalChildren(nodes, n);
    if cs == [] then CountOf(leaves, n) else SumCounts(nodes, rank, leaves, n, cs)
  }

  function SumCounts(nodes: Nodes, ghost rank: map<Name, nat>, leaves: seq<Name>, n: Name, cs: seq<Name>): nat
    requires Acyclic(nodes, rank) && Listed(nodes) && n in nodes
             && forall c :: c in cs ==> c in nodes && nodes[c].parent == Some(n)
    decreases RankOf(rank, n), 0, |cs|
  {
    if cs == [] then 0
    else
      var k := |cs| - 1;
      assert cs[k] in cs;
      SumCounts(nodes, rank, leaves, n, cs[..k]) + OpCount(nodes, rank, leaves, cs[k])
  }

  // ---------------------------------------------------------------------------------------
  // Parent chains.

  predicate IsLeaf(nodes: Nodes, n: Name)
    requires Listed(nodes)
  {
    n in nodes && CanonicalChildren(nodes, n) == []
  }

  /** `n` is on `m`'s chain of parents. */
  ghost predicate Reaches(nodes: Nodes, rank: map<Name, nat>, m: Name, n: Name)
    requires Acyclic(nodes, rank) && m in nodes && n in nodes
    decreases if rank[m] <= rank[n] then rank[n] - rank[m] else 0
  {
    m == n || (rank[m] < rank[n] && nodes[m].parent.Some? && Reaches(nodes, rank, nodes[m].parent.value, n))
  }

  lemma {:induction false} ReachesRises(nodes: Nodes, rank: map<Name, nat>, m: Name, n: Name)
    requires Acyclic(nodes, rank) && m in nodes && n in nodes
    ensures Reaches(nodes, rank, m, n) ==> rank[m] <= rank[n]
    ensures Reaches(nodes, rank, m, n)
            <==> m == n || (nodes[m].parent.Some? && Reaches(nodes, rank, nodes[m].parent.value, n))
  {
    if m != n && nodes[m].parent.Some? {
      assert Reaches(nodes, rank, nodes[m].parent.value, n) ==> rank[nodes[m].parent.value] <= rank[n];
    }
  }

  /** Chains do not branch. */
  lemma {:induction false} ChainsAreLinear(nodes: Nodes, rank: map<Name, nat>, m: Name, a: Name, b: Name)
    requires Acyclic(nodes, rank) && m in nodes && a in nodes && b in nodes
    requires Reaches(nodes, rank, m, a) && Reaches(nodes, rank, m, b)
    ensures Reaches(nodes, rank, a, b) || Reaches(nodes, rank, b, a)
    decreases if rank[m] <= rank[a] then rank[a] - rank[m] else 0
  {
    if m != a && m != b {
      ChainsAreLinear(nodes, rank, nodes[m].parent.value, a, b);
    }
  }

  lemma SameParentSameChild(nodes: Nodes, rank: map<Name, nat>, m: Name, a: Name, b: Name)
    requires Acyclic(nodes, rank) && m in nodes && a in nodes && b in nodes && nodes[a].parent == nodes[b].parent
    requires Reaches(nodes, rank, m, a) && Reaches(nodes, rank, m, b)
    ensures a == b
  {
    ChainsAreLinear(nodes, rank, m, a, b);
    if a != b {
      var lo, hi := if Reaches(nodes, rank, a, b) then a else b, if Reaches(nodes, rank, a, b) then b else a;
      ReachesRises(nodes, rank, nodes[lo].parent.value, hi);
      assert false;
    }
  }

  /** Below an inner node, every chain comes up through one of its canonical children. */
  lemma {:induction false} ComesThroughChild(nodes: Nodes, rank: map<Name, nat>, m: Name, n: Name) returns (c: Name)
    requires Acyclic(nodes, rank) && Listed(nodes) && m in nodes && n in nodes && m != n && Reaches(nodes, rank, m, n)
    ensures c in nodes && nodes[c].parent == Some(n) && Reaches(nodes, rank, m, c)
    decreases if rank[m] <= rank[n] then rank[n] - rank[m] else 0
  {
    var p := nodes[m].parent.value;
    if p == n {
      c := m;
    } else {
      c := ComesThroughChild(nodes, rank, p, n);
      ReachesRises(nodes, rank, m, c);
    }
  }

  // ---------------------------------------------------------------------------------------
  // Each op counted once.

  /** The op counts at `n`: its node is a canonical leaf with `n` on its chain. */
  ghost predicate CountsAt(nodes: Nodes, rank: map<Name, nat>, leaf: Name, n: Name)
    requires Acyclic(nodes, rank) && Listed(nodes) && n in nodes
  {
    IsLeaf(nodes, leaf) && Reaches(nodes, rank, leaf, n)
  }

  ghost function OpsBelow(nodes: Nodes, rank: map<Name, nat>, leaves: seq<Name>, n: Name): nat
    requires Acyclic(nodes, rank) && Listed(nodes) && n in nodes
  {
    if leaves == [] then 0
    else OpsBelow(nodes, rank, leaves[..|leaves| - 1], n) + if CountsAt(nodes, rank, leaves[|leaves| - 1], n) then 1
                                                            else 0
  }

  ghost predicate CountsAmong(nodes: Nodes, rank: map<Name, nat>, leaf: Name, cs: seq<Name>)
    requires Acyclic(nodes, rank) && Listed(nodes) && forall c :: c in cs ==> c in nodes
  {
    exists c :: c in cs && CountsAt(nodes, rank, leaf, c)
  }

  lemma CountMore(leaves: seq<Name>, leaf: Name, n: Name)
    ensures CountOf(leaves + [leaf], n) == CountOf(leaves, n) + if leaf == n then 1 else 0
  {
    assert (leaves + [leaf])[..|leaves|] == leaves;
  }

  /** One more op adds one exactly at the nodes on its leaf's chain. */
  lemma {:induction false} OneMoreOp(nodes: Nodes, rank: map<Name, nat>, leaves: seq<Name>, leaf: Name, n: Name)
    requires Acyclic(nodes, rank) && Listed(nodes) && n in nodes
    ensures OpCount(nodes, rank, leaves + [leaf], n) ==
            OpCount(nodes, rank, leaves, n) + if CountsAt(nodes, rank, leaf, n) then 1 else 0
    decreases RankOf(rank, n), 1, 0
  {
    var cs := CanonicalChildren(nodes, n);
    if cs == [] {
      CountMore(leaves, leaf, n);
      LeafReachedByItself(nodes, rank, leaf, n);
    } else {
      OneMoreAmong(nodes, rank, leaves, leaf, n, cs);
      ThroughChildren(nodes, rank, leaf, n);
    }
    hide Acyclic, Listed, Reaches, CanonicalChildren;
  }

  lemma LeafReachedByItself(nodes: Nodes, rank: map<Name, nat>, leaf: Name, n: Name)
    requires Acyclic(nodes, rank) && Listed(nodes) && IsLeaf(nodes, n)
    ensures CountsAt(nodes, rank, leaf, n) <==> leaf == n
  {
    hide Acyclic, Listed;
    if CountsAt(nodes, rank, leaf, n) && leaf != n {
      var c := ComesThroughChild(nodes, rank, leaf, n);
      IsChild(nodes, n, c);
    }
  }

  lemma IsChild(nodes: Nodes, n: Name, c: Name)
    requires Listed(nodes) && n in nodes && c in nodes && nodes[c].parent == Some(n)
    ensures c in CanonicalChildren(nodes, n)
  {
  }

  lemma ThroughChildren(nodes: Nodes, rank: map<Name, nat>, leaf: Name, n: Name)
    requires Acyclic(nodes, rank) && Listed(nodes) && n in nodes && CanonicalChildren(nodes, n) != []
    ensures CountsAmong(nodes, rank, leaf, CanonicalChildren(nodes, n)) <==> CountsAt(nodes, rank, leaf, n)
  {
    var cs := CanonicalChildren(nodes, n);
    if IsLeaf(nodes, leaf) {
      if Reaches(nodes, rank, leaf, n) {
        var c := ComesThroughChild(nodes, rank, leaf, n);
        assert c in cs && CountsAt(nodes, rank, leaf, c);
      }
      if CountsAmong(nodes, rank, leaf, cs) {
        var c :| c in cs && CountsAt(nodes, rank, leaf, c);
        ClimbOn(nodes, rank, leaf, c);
      }
    }
  }

  lemma {:induction false} ClimbOn(nodes: Nodes, rank: map<Name, nat>, m: Name, c: Name)
    requires Acyclic(nodes, rank) && m in nodes && c in nodes && Reaches(nodes, rank, m, c) && nodes[c].parent.Some?
    ensures Reaches(nodes, rank, m, nodes[c].parent.value)
    decreases if rank[m] <= rank[c] then rank[c] - rank[m] else 0
  {
    var n := nodes[c].parent.value;
    ReachesRises(nodes, rank, m, n);
    if m == c {
      assert Reaches(nodes, rank, n, n);
    } else {
      ClimbOn(nodes, rank, nodes[m].parent.value, c);
    }
  }

  lemma {:induction false} OneMoreAmong(nodes: Nodes, rank: map<Name, nat>, leaves: seq<Name>, leaf: Name, n: Name,
                                        cs: seq<Name>)
    requires Acyclic(nodes, rank) && Listed(nodes) && n in nodes && Distinct(cs)
    requires forall c :: c in cs ==> c in nodes && nodes[c].parent == Some(n)
    ensures SumCounts(nodes, rank, leaves + [leaf], n, cs) ==
            SumCounts(nodes, rank, leaves, n, cs) + if CountsAmong(nodes, rank, leaf, cs) then 1 else 0
    decreases RankOf(rank, n), 0, |cs|
  {
    hide *;
    if cs == [] {
      NoneAmong(nodes, rank, leaves, leaf, n);
      NoneAmong(nodes, rank, leaves + [leaf], leaf, n);
    } else {
      var k := |cs| - 1;
      var init, c := cs[..k], cs[k];
      assert cs == init + [c] && c in cs;
      LastIsNew(cs);
      SumLast(nodes, rank, leaves, n, cs);
      SumLast(nodes, rank, leaves + [leaf], n, cs);
      ChildRanksBelow(nodes, rank, n, c);
      OneMoreAmong(nodes, rank, leaves, leaf, n, init);
      OneMoreOp(nodes, rank, leaves, leaf, c);
      AmongMore(nodes, rank, leaf, n, init, c);
    }
  }

  lemma NoneAmong(nodes: Nodes, rank: map<Name, nat>, leaves: seq<Name>, leaf: Name, n: Name)
    requires Acyclic(nodes, rank) && Listed(nodes) && n in nodes
    ensures SumCounts(nodes, rank, leaves, n, []) == 0 && !CountsAmong(nodes, rank, leaf, [])
  {
    hide Acyclic, Listed;
  }

  lemma LastIsNew(cs: seq<Name>)
    requires cs != [] && Distinct(cs)
    ensures cs[|cs| - 1] !in cs[..|cs| - 1] && Distinct(cs[..|cs| - 1])
  {
  }

  lemma ChildRanksBelow(nodes: Nodes, rank: map<Name, nat>, n: Name, c: Name)
    requires Acyclic(nodes, rank) && n in nodes && c in nodes && nodes[c].parent == Some(n)
    ensures RankOf(rank, c) < RankOf(rank, n)
  {
  }

  lemma SumLast(nodes: Nodes, rank: map<Name, nat>, leaves: seq<Name>, n: Name, cs: seq<Name>)
    requires Acyclic(nodes, rank) && Listed(nodes) && n in nodes && cs != []
    requires forall c :: c in cs ==> c in nodes && nodes[c].parent == Some(n)
    ensures var k := |cs| - 1;
            && cs[k] in nodes && (forall c :: c in cs[..k] ==> c in nodes && nodes[c].parent == Some(n))
            && SumCounts(nodes, rank, leaves, n, cs)
               == SumCounts(nodes, rank, leaves, n, cs[..k]) + OpCount(nodes, rank, leaves, cs[k])
  {
    hide OpCount;
    assert cs[|cs| - 1] in cs;
  }

  lemma AmongMore(nodes: Nodes, rank: map<Name, nat>, leaf: Name, n: Name, cs: seq<Name>, c: Name)
    requires Acyclic(nodes, rank) && Listed(nodes) && c !in cs
             && forall x :: x in cs + [c] ==> x in nodes && nodes[x].parent == Some(n)
    requires c in nodes && (forall x :: x in cs ==> x in nodes) && forall x :: x in cs + [c] ==> x in nodes
    ensures CountsAmong(nodes, rank, leaf, cs + [c])
            <==> CountsAmong(nodes, rank, leaf, cs) || CountsAt(nodes, rank, leaf, c)
    ensures !(CountsAmong(nodes, rank, leaf, cs) && CountsAt(nodes, rank, leaf, c))
  {
    if x :| x in cs && CountsAt(nodes, rank, leaf, x) {
      assert x in cs + [c];
      if CountsAt(nodes, rank, leaf, c) {
        assert nodes[x].parent == nodes[c].parent;
        SameParentSameChild(nodes, rank, leaf, x, c);
      }
    }
  }

  lemma {:induction false} NoOps(nodes: Nodes, rank: map<Name, nat>, n: Name)
    requires Acyclic(nodes, rank) && Listed(nodes) && n in nodes
    ensures OpCount(nodes, rank, [], n) == 0
    decreases RankOf(rank, n), 1, 0
  {
    var cs := CanonicalChildren(nodes, n);
    if cs != [] { NoOpsAmong(nodes, rank, n, cs); }
  }

  lemma {:induction false} NoOpsAmong(nodes: Nodes, rank: map<Name, nat>, n: Name, cs: seq<Name>)
    requires Acyclic(nodes, rank) && Listed(nodes) && n in nodes
             && forall c :: c in cs ==> c in nodes && nodes[c].parent == Some(n)
    ensures SumCounts(nodes, rank, [], n, cs) == 0
    decreases RankOf(rank, n), 0, |cs|
  {
    if cs != [] {
      var k := |cs| - 1;
      assert cs[k] in cs;
      NoOpsAmong(nodes, rank, n, cs[..k]);
      NoOps(nodes, rank, cs[k]);
    }
  }

  /** A node's count is the number of ops whose canonical leaf has the node on its chain of parents:
      each once, however many subsystems list the leaf. */
  lemma {:induction false} CountsOpsBelow(nodes: Nodes, rank: map<Name, nat>, leaves: seq<Name>, n: Name)
    requires Acyclic(nodes, rank) && Listed(nodes) && n in nodes
    ensures OpCount(nodes, rank, leaves, n) == OpsBelow(nodes, rank, leaves, n)
  {
    hide OpCount, Acyclic, Listed, CountsAt;
    if leaves == [] {
      NoOps(nodes, rank, n);
    } else {
      var k := |leaves| - 1;
      CountsOpsBelow(nodes, rank, leaves[..k], n);
      OneMoreOp(nodes, rank, leaves[..k], leaves[k], n);
      assert leaves == leaves[..k] + [leaves[k]];
    }
  }

  // ---------------------------------------------------------------------------------------
  // Over all roots.

  function SumOver(nodes: Nodes, ghost rank: map<Name, nat>, leaves: seq<Name>, roots: seq<Name>): nat
    requires Acyclic(nodes, rank) && Listed(nodes) && forall r :: r in roots ==> r in nodes
  {
    if roots == [] then 0
    else
      var k := |roots| - 1;
      assert roots[k] in roots;
      SumOver(nodes, rank, leaves, roots[..k]) + OpCount(nodes, rank, leaves, roots[k])
  }

  /** Ops assigned to a canonical leaf. */
  function OnLeaves(nodes: Nodes, leaves: seq<Name>): nat
    requires Listed(nodes)
  {
    if leaves == [] then 0
    else OnLeaves(nodes, leaves[..|leaves| - 1]) + if IsLeaf(nodes, leaves[|leaves| - 1]) then 1 else 0
  }

  lemma HasTop(ranks: set<nat>) returns (top: nat)
    ensures forall r :: r in ranks ==> r <= top
  {
    if ranks == {} {
      top := 0;
    } else {
      var r :| r in ranks;
      var t := HasTop(ranks - {r});
      top := if r > t then r else t;
      forall x | x in ranks ensures x <= top {
        if x != r { assert x in ranks - {r}; }
      }
    }
  }

  lemma {:induction false} ReachesRoot(nodes: Nodes, rank: map<Name, nat>, m: Name, top: nat) returns (r: Name)
    requires Acyclic(nodes, rank) && m in nodes && forall x :: x in rank ==> rank[x] <= top
    ensures r in nodes && nodes[r].parent.None? && Reaches(nodes, rank, m, r)
    decreases top - rank[m]
  {
    if nodes[m].parent.None? {
      r := m;
    } else {
      r := ReachesRoot(nodes, rank, nodes[m].parent.value, top);
      ReachesRises(nodes, rank, m, r);
    }
  }

  lemma {:induction false} NoOpsOver(nodes: Nodes, rank: map<Name, nat>, leaves: seq<Name>, roots: seq<Name>)
    requires Acyclic(nodes, rank) && Listed(nodes) && leaves == [] && forall r :: r in roots ==> r in nodes
    ensures SumOver(nodes, rank, leaves, roots) == 0
    decreases |roots|
  {
    hide Acyclic, Listed, OpCount;
    if roots != [] {
      var init, r := roots[..|roots| - 1], roots[|roots| - 1];
      assert r in roots;
      NoOpsOver(nodes, rank, leaves, init);
      NoOps(nodes, rank, r);
    }
  }

  lemma RootsMore(nodes: Nodes, rank: map<Name, nat>, leaf: Name, roots: seq<Name>, r: Name)
    requires Acyclic(nodes, rank) && Listed(nodes) && r !in roots && r in nodes && nodes[r].parent.None?
    requires (forall x :: x in roots ==> x in nodes && nodes[x].parent.None?)
             && forall x :: x in roots + [r] ==> x in nodes
    ensures CountsAmong(nodes, rank, leaf, roots + [r])
            <==> CountsAmong(nodes, rank, leaf, roots) || CountsAt(nodes, rank, leaf, r)
    ensures !(CountsAmong(nodes, rank, leaf, roots) && CountsAt(nodes, rank, leaf, r))
  {
    if x :| x in roots && CountsAt(nodes, rank, leaf, x) {
      assert x in roots + [r];
      if CountsAt(nodes, rank, leaf, r) {
        ChainsAreLinear(nodes, rank, leaf, x, r);
      }
    }
  }

  lemma {:induction false} OneMoreOver(nodes: Nodes, rank: map<Name, nat>, leaves: seq<Name>, leaf: Name,
                                       roots: seq<Name>)
    requires Acyclic(nodes, rank) && Listed(nodes) && Distinct(roots)
             && forall r :: r in roots ==> r in nodes && nodes[r].parent.None?
    ensures SumOver(nodes, rank, leaves + [leaf], roots) == SumOver(nodes, rank, leaves, roots)
            + if CountsAmong(nodes, rank, leaf, roots) then 1 else 0
    decreases |roots|
  {
    if roots != [] {
      var k := |roots| - 1;
      var init, r := roots[..k], roots[k];
      assert roots == init + [r] && r in roots && r !in init;
      OneMoreOver(nodes, rank, leaves, leaf, init);
      OneMoreOp(nodes, rank, leaves, leaf, r);
      RootsMore(nodes, rank, leaf, init, r);
      hide Acyclic, Listed, OpCount, CountsAt, CountsAmong;
    }
  }

  lemma EveryLeafHasARoot(nodes: Nodes, rank: map<Name, nat>, leaf: Name, roots: seq<Name>)
    requires Acyclic(nodes, rank) && Listed(nodes) && forall r :: r in roots <==> r in nodes && nodes[r].parent.None?
    ensures CountsAmong(nodes, rank, leaf, roots) <==> IsLeaf(nodes, leaf)
  {
    if IsLeaf(nodes, leaf) {
      var top := HasTop(rank.Values);
      forall x | x in rank ensures rank[x] <= top { assert rank[x] in rank.Values; }
      var r := ReachesRoot(nodes, rank, leaf, top);
      assert r in roots && CountsAt(nodes, rank, leaf, r);
    }
  }

  /** Conservation: the counts of the nodes without a parent add up to the ops on canonical leaves,
      each counted exactly once. */
  lemma {:induction false} RootsCountEveryOpOnce(nodes: Nodes, rank: map<Name, nat>, leaves: seq<Name>,
                                                 roots: seq<Name>)
    requires Acyclic(nodes, rank) && Listed(nodes) && Distinct(roots)
             && forall r :: r in roots <==> r in nodes && nodes[r].parent.None?
    ensures SumOver(nodes, rank, leaves, roots) == OnLeaves(nodes, leaves)
    decreases |leaves|
  {
    hide OpCount, Acyclic, Listed, CountsAt, CountsAmong, IsLeaf, SumOver;
    if leaves == [] {
      NoOpsOver(nodes, rank, leaves, roots);
    } else {
      var k := |leaves| - 1;
      RootsCountEveryOpOnce(nodes, rank, leaves[..k], roots);
      OneMoreOver(nodes, rank, leaves[..k], leaves[k], roots);
      EveryLeafHasARoot(nodes, rank, leaves[k], roots);
      assert leaves == leaves[..k] + [leaves[k]];
    }
  }
}
