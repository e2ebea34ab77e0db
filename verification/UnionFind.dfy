/** Rename-stable identities (`sgt/core/mine.py`, `_UnionFind`). */
module UnionFind {
  import opened Names

  type Parents = map<Name, Name>

  /** `x` sits right in the forest: its parent and root exist, its parent has its root, its root
      is a fixed point, and rank falls along parents. */
  ghost predicate NodeOk(parent: Parents, root: Parents, rank: map<Name, nat>, x: Name) {
    && x in parent && x in root && x in rank
    && parent[x] in parent && parent[x] in root && parent[x] in rank && root[x] in parent && root[x] in root
    && root[parent[x]] == root[x]
    && parent[root[x]] == root[x] && root[root[x]] == root[x]
    && (parent[x] == x ==> root[x] == x)
    && (parent[x] != x ==> rank[parent[x]] < rank[x])
  }

  /** `parent` is a forest: acyclic, with `root` naming every element's root. */
  ghost predicate IsForest(parent: Parents, root: Parents, rank: map<Name, nat>) {
    && root.Keys == parent.Keys == rank.Keys
    && forall x {:trigger NodeOk(parent, root, rank, x)} :: x in parent ==> NodeOk(parent, root, rank, x)
  }

  /** What `union(a, b)` means for roots: the class of `b` takes the root of `a`. */
  function Merge(root: Parents, a: Name, b: Name): (r: Parents)
    requires a in root && b in root
    ensures r.Keys == root.Keys
    ensures forall x :: x in r ==> r[x] == if root[x] == root[b] then root[a] else root[x]
  {
    map x | x in root :: if root[x] == root[b] then root[a] else root[x]
  }

  /** What adding an element means for roots. */
  function Include(root: Parents, x: Name): (r: Parents)
    ensures forall y :: y in r <==> y in root || y == x
    ensures forall y :: y in root ==> r[y] == root[y]
    ensures x !in root ==> r[x] == x
  {
    if x in root then root else root[x := x]
  }

  /** What renaming `a` to `b` means for roots, either of them new or not. */
  function Renamed(root: Parents, a: Name, b: Name): Parents {
    Merge(Include(Include(root, a), b), a, b)
  }

  lemma IncludeKeepsForest(parent: Parents, root: Parents, rank: map<Name, nat>, x: Name)
    requires IsForest(parent, root, rank) && x !in parent
    ensures IsForest(parent[x := x], Include(root, x), rank[x := 0])
  {
    var parent2, root2, rank2 := parent[x := x], Include(root, x), rank[x := 0];
    assert root2.Keys == parent2.Keys == rank2.Keys;
    forall y | y in parent2 ensures NodeOk(parent2, root2, rank2, y) {
      if y != x {
        assert NodeOk(parent, root, rank, y);
        hide IsForest;
      }
    }
  }

  /** Pointing an element straight at its root leaves every root where it was. */
  lemma CompressKeepsForest(parent: Parents, root: Parents, rank: map<Name, nat>, x: Name)
    requires IsForest(parent, root, rank) && x in parent
    ensures IsForest(parent[x := root[x]], root, rank)
  {
    NodeFacts(parent, root, rank, x);
    RootRanksBelow(parent, root, rank, x);
    var flat := parent[x := root[x]];
    assert flat.Keys == parent.Keys;
    forall y | y in flat ensures NodeOk(flat, root, rank, y) {
      CompressedNode(parent, root, rank, x, y);
    }
    hide NodeOk;
  }

  lemma CompressedNode(parent: Parents, root: Parents, rank: map<Name, nat>, x: Name, y: Name)
    requires IsForest(parent, root, rank) && x in parent && y in parent && x in root && x in rank && root[x] in rank
    requires parent[x] != x ==> rank[root[x]] < rank[x]
    ensures NodeOk(parent[x := root[x]], root, rank, y)
  {
    assert NodeOk(parent, root, rank, x) && NodeOk(parent, root, rank, y);
    if y == x { assert NodeOk(parent, root, rank, root[x]); }
    hide IsForest;
  }

  /** One node of a forest. */
  lemma NodeFacts(parent: Parents, root: Parents, rank: map<Name, nat>, x: Name)
    requires IsForest(parent, root, rank) && x in parent
    ensures x in root && x in rank && parent[x] in parent && parent[x] in root && parent[x] in rank
    ensures root[x] in parent && root[x] in root && root[x] in rank
    ensures root[parent[x]] == root[x] && (parent[x] == x ==> root[x] == x)
    ensures parent[x] != x ==> rank[parent[x]] < rank[x]
  {
    assert NodeOk(parent, root, rank, x);
    hide IsForest;
  }

  lemma RootRanksBelow(parent: Parents, root: Parents, rank: map<Name, nat>, x: Name)
    requires IsForest(parent, root, rank) && x in parent
    ensures root[x] in parent && x in rank && root[x] in rank
    ensures parent[x] != x ==> rank[root[x]] < rank[x]
    ensures parent[x] == x ==> root[x] == x
    decreases if x in rank then rank[x] else 0
  {
    assert NodeOk(parent, root, rank, x);
    if parent[x] != x {
      RootRanksBelow(parent, root, rank, parent[x]);
    }
  }

  function Shifted(rank: map<Name, nat>, root: Parents, a: Name, b: Name): (r: map<Name, nat>)
    requires root.Keys == rank.Keys && a in root && b in root && root[a] in rank
    ensures r.Keys == rank.Keys
    ensures forall x :: x in r ==> r[x] == if root[x] == root[b] then rank[x] + rank[root[a]] + 1 else rank[x]
  {
    map x | x in rank :: if root[x] == root[b] then rank[x] + rank[root[a]] + 1 else rank[x]
  }

  lemma SameRootMerge(root: Parents, a: Name, b: Name)
    requires a in root && b in root
    ensures root[a] == root[b] ==> Merge(root, a, b) == root
  {
  }

  lemma LinkKeepsForest(parent: Parents, root: Parents, rank: map<Name, nat>, a: Name, b: Name)
    requires IsForest(parent, root, rank) && a in parent && b in parent && root[a] != root[b] && root[a] in rank
    ensures IsForest(parent[root[b] := root[a]], Merge(root, a, b), Shifted(rank, root, a, b))
  {
    var ra, rb := root[a], root[b];
    assert NodeOk(parent, root, rank, a) && NodeOk(parent, root, rank, b);
    var linked, merged, shifted := parent[rb := ra], Merge(root, a, b), Shifted(rank, root, a, b);
    forall y | y in linked ensures NodeOk(linked, merged, shifted, y) {
      assert NodeOk(parent, root, rank, y);
      hide IsForest;
    }
  }

  class RenameForest {
    var parent: Parents
    ghost var root: Parents
    ghost var rank: map<Name, nat>

    ghost predicate Valid()
      reads this
    {
      IsForest(parent, root, rank)
    }

    constructor ()
      ensures Valid() && parent == map[] && root == map[]
    {
      parent, root, rank := map[], map[], map[];
    }

    /** A new element is its own root. */
    method Add(x: Name)
      requires Valid()
      modifies this
      ensures Valid() && root == Include(old(root), x)
      ensures x in old(parent) ==> parent == old(parent)
    {
      if x !in parent {
        IncludeKeepsForest(parent, root, rank, x);
        parent, root, rank := parent[x := x], Include(root, x), rank[x := 0];
      }
    }

    /** Returns the root; path compression changes no element's root. */
    method Find(x0: Name) returns (r: Name)
      requires Valid()
      modifies this
      ensures Valid() && root == Include(old(root), x0) && r == root[x0]
    {
      Add(x0);
      ghost var parents, roots, ranks := parent, root, rank;
      hide *;
      NamesIn(x0);
      r := x0;
      IsForestHere();
      NodeFacts(parents, roots, ranks, r);
      while parent[r] != r
        invariant Valid() && parent == parents && root == roots && rank == ranks
        invariant r in parents && r in roots && roots[r] == roots[x0] && r in ranks
        decreases ranks[r]
      {
        NodeFacts(parents, roots, ranks, r);
        r := parent[r];
      }
      NodeFacts(parents, roots, ranks, r);
      var x := x0;
      while parent[x] != r
        invariant Valid() && root == roots && rank == ranks
        invariant x in parent && x in roots && roots[x] == r && x in ranks
        decreases ranks[x]
      {
        IsForestHere();
        NodeFacts(parent, roots, ranks, x);
        CompressKeepsForest(parent, roots, ranks, x);
        var next := parent[x];
        parent := parent[x := r];
        IsValid();
        x := next;
      }
    }

    /** The older side `a` anchors the merged class. */
    method Union(a: Name, b: Name)
      requires Valid()
      modifies this
      ensures Valid() && root == Renamed(old(root), a, b)
    {
      assert Renamed(root, a, b) == Merge(Include(Include(root, a), b), a, b);
      ghost var root0 := root;
      hide *;
      var ra := Find(a);
      var rb := Find(b);
      NamesIn(a);
      NamesIn(b);
      Link(a, b, ra, rb);
      assert root == Merge(Include(Include(root0, a), b), a, b);
    }

    lemma IsForestHere()
      requires Valid()
      ensures IsForest(parent, root, rank)
    {
    }

    lemma IsValid()
      requires IsForest(parent, root, rank)
      ensures Valid()
    {
    }

    lemma NamesIn(x: Name)
      requires Valid() && x in root
      ensures x in parent
    {
    }

    /** The root `rb` of `b` goes under the root `ra` of `a`, unless they are one. */
    method Link(ghost a: Name, ghost b: Name, ra: Name, rb: Name)
      requires Valid() && a in parent && b in parent && a in root && b in root && ra == root[a] && rb == root[b]
      modifies this
      ensures Valid() && root == Merge(old(root), a, b)
    {
      IsForestHere();
      NodeFacts(parent, root, rank, a);
      SameRootMerge(root, a, b);
      if ra != rb {
        LinkKeepsForest(parent, root, rank, a, b);
        hide *;
        parent, rank, root := parent[rb := ra], Shifted(rank, root, a, b), Merge(root, a, b);
        IsValid();
      }
    }

    /** The renames of a commit, one union each. */
    method UnionAll(links: seq<Rename>)
      requires Valid()
      modifies this
      ensures Valid() && root == AfterRenames(old(root), links)
    {
      hide *;
      ghost var root0 := root;
      ghost var now := root;
      RenamesNone(root0, links);
      for i := 0 to |links|
        invariant Valid() && root == now && now == AfterRenames(root0, links[..i])
      {
        var l := links[i];
        Union(l.older, l.newer);
        RenamesStep(root0, links, i);
        now := Renamed(now, l.older, l.newer);
      }
      RenamesAll(root0, links);
    }
  }

  // ---------------------------------------------------------------------------------------
  // What a run of renames makes of the roots.

  datatype Rename = Rename(older: Name, newer: Name)

  function AfterRenames(root: Parents, links: seq<Rename>): Parents {
    if links == [] then root
    else
      var before, l := AfterRenames(root, links[..|links| - 1]), links[|links| - 1];
      Renamed(before, l.older, l.newer)
  }

  lemma RenamesAppend(root: Parents, links: seq<Rename>, l: Rename)
    ensures AfterRenames(root, links + [l]) == Renamed(AfterRenames(root, links), l.older, l.newer)
  {
    hide Renamed;
    assert (links + [l])[..|links|] == links;
  }

  lemma RenamesNone(root: Parents, links: seq<Rename>)
    ensures AfterRenames(root, links[..0]) == root
  {
  }

  lemma RenamesStep(root: Parents, links: seq<Rename>, i: nat)
    requires i < |links|
    ensures AfterRenames(root, links[..i + 1])
            == Renamed(AfterRenames(root, links[..i]), links[i].older, links[i].newer)
  {
    hide *;
    RenamesAppend(root, links[..i], links[i]);
    assert links[..i + 1] == links[..i] + [links[i]];
  }

  lemma RenamesAll(root: Parents, links: seq<Rename>)
    ensures AfterRenames(root, links[..|links|]) == AfterRenames(root, links)
  {
    assert links[..|links|] == links;
  }

  lemma {:induction false} RenamesConcat(root: Parents, a: seq<Rename>, b: seq<Rename>)
    ensures AfterRenames(root, a + b) == AfterRenames(AfterRenames(root, a), b)
    decreases |b|
  {
    if b == [] {
      assert a + b == a;
    } else {
      var init, l := b[..|b| - 1], b[|b| - 1];
      assert b == init + [l] && a + b == a + init + [l];
      hide *;
      RenamesConcat(root, a, init);
      RenamesAppend(root, a + init, l);
      RenamesAppend(AfterRenames(root, a), init, l);
    }
  }

  /** `names[0]` renamed to `names[1]`, that to `names[2]`, and so on, `i` times. */
  function Chain(names: seq<Name>, i: nat): seq<Rename>
    requires i < |names|
  {
    if i == 0 then [] else Chain(names, i - 1) + [Rename(names[i - 1], names[i])]
  }

  /** Any chain of renames -- revisited names and all -- resolves every name on it to the root the
      first one had. */
  lemma {:induction false} RenamesResolveToFirst(root: Parents, names: seq<Name>, i: nat, j: nat)
    requires j <= i < |names| && names[0] in root
    ensures names[j] in AfterRenames(root, Chain(names, i))
    ensures AfterRenames(root, Chain(names, i))[names[j]] == root[names[0]]
    decreases i
  {
    hide *;
    if i == 0 {
      ChainStart(root, names);
    } else {
      ChainStep(root, names, i);
      RenamesResolveToFirst(root, names, i - 1, i - 1);
      var before, r, last, next := AfterRenames(root, Chain(names, i - 1)), root[names[0]], names[i - 1], names[i];
      if j < i {
        RenamesResolveToFirst(root, names, i - 1, j);
        MergedChain(before, last, next, names[j], r, false);
      } else {
        MergedChain(before, last, next, next, r, true);
      }
    }
  }

  lemma ChainStart(root: Parents, names: seq<Name>)
    requires names != [] && names[0] in root
    ensures AfterRenames(root, Chain(names, 0)) == root
  {
  }

  lemma ChainStep(root: Parents, names: seq<Name>, i: nat)
    requires 0 < i < |names|
    ensures AfterRenames(root, Chain(names, i))
            == Renamed(AfterRenames(root, Chain(names, i - 1)), names[i - 1], names[i])
  {
    RenamesAppend(root, Chain(names, i - 1), Rename(names[i - 1], names[i]));
    hide AfterRenames, Renamed;
  }

  lemma MergedChain(before: Parents, last: Name, next: Name, x: Name, r: Name, isNext: bool)
    requires last in before && before[last] == r
    requires if isNext then x == next else x in before && before[x] == r
    ensures var after := Renamed(before, last, next); x in after && after[x] == r
  {
  }

  /** Elements never named by a merge keep their class: merging is about the two classes only. */
  lemma MergeTouchesTwoClasses(root: Parents, a: Name, b: Name, x: Name, y: Name)
    requires a in root && b in root && x in root && y in root
    ensures Merge(root, a, b)[x] == Merge(root, a, b)[y] <==>
            root[x] == root[y] || (root[x] in {root[a], root[b]} && root[y] in {root[a], root[b]})
  {
  }

  // ---------------------------------------------------------------------------------------
  // Resolving a name once every rename of a run is known.

  /** What `find` returns: a name never seen is its own root. */
  function Resolve(root: Parents, x: Name): Name {
    if x in root then root[x] else x
  }

  /** Where a name ends up: each rename sends the class of the newer name where the older one's goes. */
  function Canon(links: seq<Rename>, x: Name): Name
    decreases |links|
  {
    if links == [] then x
    else
      var init, l := links[..|links| - 1], links[|links| - 1];
      if Canon(init, x) == Canon(init, l.newer) then Canon(init, l.older) else Canon(init, x)
  }

  /** Roots are roots. */
  ghost predicate Settled(root: Parents) {
    forall x {:trigger SettledAt(root, x)} :: x in root ==> SettledAt(root, x)
  }

  ghost predicate SettledAt(root: Parents, x: Name) {
    x in root && root[x] in root && root[root[x]] == root[x]
  }

  lemma IncludeSettled(root: Parents, x: Name, y: Name)
    requires Settled(root)
    ensures Settled(Include(root, x)) && Resolve(Include(root, x), y) == Resolve(root, y)
  {
    var more := Include(root, x);
    forall z | z in more ensures SettledAt(more, z) {
      if z in root { assert SettledAt(root, z); }
    }
  }

  lemma MergeSettled(root: Parents, a: Name, b: Name, x: Name)
    requires Settled(root) && a in root && b in root
    ensures Settled(Merge(root, a, b))
    ensures Resolve(Merge(root, a, b), x) == if Resolve(root, x) == root[b] then root[a] else Resolve(root, x)
  {
    var merged := Merge(root, a, b);
    assert SettledAt(root, a) && SettledAt(root, b);
    forall z | z in merged ensures SettledAt(merged, z) {
      assert SettledAt(root, z);
      hide Settled;
    }
    hide Settled;
  }

  lemma RenameSettled(root: Parents, l: Rename, x: Name)
    requires Settled(root)
    ensures var after := Renamed(root, l.older, l.newer);
            && Settled(after)
            && Resolve(after, x) == if Resolve(root, x) == Resolve(root, l.newer) then Resolve(root, l.older)
                                    else Resolve(root, x)
  {
    hide Settled, Merge, Include;
    var one := Include(root, l.older);
    var two := Include(one, l.newer);
    forall y | y in [x, l.older, l.newer] ensures Settled(one) && Settled(two) && Resolve(two, y) == Resolve(root, y) {
      IncludeSettled(root, l.older, y);
      IncludeSettled(one, l.newer, y);
    }
    assert x in [x, l.older, l.newer] && l.older in [x, l.older, l.newer] && l.newer in [x, l.older, l.newer];
    MergeSettled(two, l.older, l.newer, x);
  }

  /** The forest resolves names as the renames say. */
  lemma {:induction false} RootsAreCanon(links: seq<Rename>, x: Name)
    ensures Settled(AfterRenames(map[], links)) && Resolve(AfterRenames(map[], links), x) == Canon(links, x)
    decreases |links|
  {
    if links != [] {
      var init, l := links[..|links| - 1], links[|links| - 1];
      hide Settled, Resolve, Renamed;
      RootsAreCanon(init, x);
      RootsAreCanon(init, l.older);
      RootsAreCanon(init, l.newer);
      RenameSettled(AfterRenames(map[], init), l, x);
    }
  }

  /** A resolved name resolves to itself. */
  lemma CanonIsFixed(links: seq<Rename>, x: Name)
    ensures Canon(links, Canon(links, x)) == Canon(links, x)
  {
    var root := AfterRenames(map[], links);
    RootsAreCanon(links, x);
    RootsAreCanon(links, Canon(links, x));
    assert x in root ==> SettledAt(root, x);
    hide AfterRenames, Canon, Settled;
  }

  /** The two names of a rename resolve alike. */
  lemma {:induction false} LinkedAlike(links: seq<Rename>, l: Rename)
    requires l in links
    ensures Canon(links, l.older) == Canon(links, l.newer)
    decreases |links|
  {
    var init, last := links[..|links| - 1], links[|links| - 1];
    hide Canon;
    CanonLast(links, l.older);
    CanonLast(links, l.newer);
    if l != last {
      assert links == init + [last];
      LinkedAlike(init, l);
    }
  }

  lemma CanonLast(links: seq<Rename>, x: Name)
    requires links != []
    ensures var init, l := links[..|links| - 1], links[|links| - 1];
            Canon(links, x) == if Canon(init, x) == Canon(init, l.newer) then Canon(init, l.older) else Canon(init, x)
  {
  }

  /** Knowing more renames only moves whole classes: what some renames make one, more renames keep one. */
  lemma {:induction false} CanonIsCoarser(part: seq<Rename>, whole: seq<Rename>, x: Name)
    requires forall l :: l in part ==> l in whole
    ensures Canon(whole, Canon(part, x)) == Canon(whole, x)
    decreases |part|
  {
    if part != [] {
      var init, l := part[..|part| - 1], part[|part| - 1];
      CanonLast(part, x);
      hide Canon;
      assert l in part;
      LinkedAlike(whole, l);
      CanonIsCoarser(init, whole, x);
      CanonIsCoarser(init, whole, l.older);
      CanonIsCoarser(init, whole, l.newer);
    }
  }
}
