/** Which subsystems the map folds to fit a screen (`sgt/cli/inspect.py`, `_default_collapsed`). */
module MapFold {
  import opened Names
  import Sorting

  datatype Kind = Subsystem | Feature | Other

  /** `ownSymbols` is the number of a feature's own symbols, where recorded. */
  datatype MapNode = MapNode(kind: Kind, ownSymbols: Option<nat>, parent: Option<Name>, children: seq<Name>)

  type MapNodes = map<Name, MapNode>

  const MAP_ROW_BUDGET := 24

  /** Husk features are not drawn. */
  predicate IsRow(nodes: MapNodes, n: Name) {
    n in nodes && nodes[n].kind.Feature? && (nodes[n].ownSymbols.None? || nodes[n].ownSymbols.value > 0)
  }

  function Rows(nodes: MapNodes): set<Name> {
    set n | n in nodes && (nodes[n].kind.Subsystem? || IsRow(nodes, n))
  }

  /** Subsystems below another that hold no subsystem themselves. */
  function LeafSubsystems(nodes: MapNodes): set<Name> {
    set n | n in nodes && nodes[n].kind.Subsystem? && nodes[n].parent.Some?
            && forall c :: c in nodes[n].children && c in nodes ==> !nodes[c].kind.Subsystem?
  }

  function CountRows(nodes: MapNodes, children: seq<Name>): nat {
    if children == [] then 0
    else CountRows(nodes, children[..|children| - 1]) + if IsRow(nodes, children[|children| - 1]) then 1 else 0
  }

  /** The rows a fold of this subsystem hides. */
  function Saved(nodes: MapNodes, n: Name): nat {
    if n in nodes then CountRows(nodes, nodes[n].children) else 0
  }

  function Total(nodes: MapNodes, s: set<Name>): nat {
    if s == {} then 0 else var m := Minimum(s); Total(nodes, s - {m}) + Saved(nodes, m)
  }

  lemma {:induction false} TotalWithout(nodes: MapNodes, s: set<Name>, x: Name)
    requires x in s
    ensures Total(nodes, s) == Total(nodes, s - {x}) + Saved(nodes, x)
  {
    hide Saved, Minimum;
    var m := Minimum(s);
    if x != m {
      TotalWithout(nodes, s - {m}, x);
      assert m in s - {x};
      TotalWithout(nodes, s - {x}, m);
      assert s - {m} - {x} == s - {x} - {m};
    }
  }

  /** Savings of the first `k`. */
  function Prefix(nodes: MapNodes, order: seq<Name>, k: nat): nat
    requires k <= |order|
  {
    if k == 0 then 0 else Prefix(nodes, order, k - 1) + Saved(nodes, order[k - 1])
  }

  ghost predicate Descending(nodes: MapNodes, order: seq<Name>) {
    forall i, j :: 0 <= i < j < |order| ==> Saved(nodes, order[i]) >= Saved(nodes, order[j])
  }

  lemma {:induction false} PrefixOfPrefix(nodes: MapNodes, order: seq<Name>, n: nat, k: nat)
    requires k <= n <= |order|
    ensures Prefix(nodes, order[..n], k) == Prefix(nodes, order, k)
  {
    if k > 0 { PrefixOfPrefix(nodes, order, n, k - 1); }
  }

  /** Drawn from a list. */
  ghost predicate From(s: set<Name>, order: seq<Name>) {
    forall x :: x in s ==> x in order
  }

  lemma FromInit(nodes: MapNodes, order: seq<Name>, s: set<Name>)
    requires order != [] && Descending(nodes, order) && Distinct(order) && From(s, order)
    ensures var init, e := order[..|order| - 1], order[|order| - 1];
            From(s - {e}, init) && (e !in s ==> From(s, init)) && Descending(nodes, init) && Distinct(init)
  {
    hide Saved;
    var init, e := order[..|order| - 1], order[|order| - 1];
    assert order == init + [e];
  }

  lemma LastIsLeast(nodes: MapNodes, order: seq<Name>, i: nat)
    requires Descending(nodes, order) && i < |order|
    ensures Saved(nodes, order[i]) >= Saved(nodes, order[|order| - 1])
  {
    hide Saved;
  }

  /** No set of subsystems saves more than as many of the largest. */
  lemma {:induction false} LargestSaveMost(nodes: MapNodes, order: seq<Name>, s: set<Name>)
    requires Descending(nodes, order) && Distinct(order) && From(s, order)
    ensures |s| <= |order| && Total(nodes, s) <= Prefix(nodes, order, |s|)
    decreases |order|
  {
    hide Saved, Minimum, Descending, Distinct;
    if order == [] {
      assert s == {};
    } else {
      var n := |order| - 1;
      var e := order[n];
      FromInit(nodes, order, s);
      hide From;
      if e in s {
        TotalWithout(nodes, s, e);
        LargestSaveMost(nodes, order[..n], s - {e});
        PrefixOfPrefix(nodes, order, n, |s| - 1);
        LastIsLeast(nodes, order, |s| - 1);
      } else {
        LargestSaveMost(nodes, order[..n], s);
        PrefixOfPrefix(nodes, order, n, |s|);
      }
    }
  }

  lemma {:induction false} TotalOfPrefix(nodes: MapNodes, order: seq<Name>, k: nat)
    requires Distinct(order) && k <= |order|
    ensures Total(nodes, Elements(order[..k])) == Prefix(nodes, order, k)
  {
    hide *;
    if k == 0 {
      TotalOfNone(nodes, order);
    } else {
      TotalOfPrefix(nodes, order, k - 1);
      PrefixMore(nodes, order, k - 1);
      PrefixGrows(order, k - 1);
      TotalWith(nodes, Elements(order[..k - 1]), order[k - 1]);
    }
  }

  lemma TotalWith(nodes: MapNodes, s: set<Name>, x: Name)
    requires x !in s
    ensures Total(nodes, s + {x}) == Total(nodes, s) + Saved(nodes, x)
  {
    hide *;
    assert s + {x} - {x} == s;
    TotalWithout(nodes, s + {x}, x);
  }

  lemma TotalOfNone(nodes: MapNodes, order: seq<Name>)
    ensures Total(nodes, Elements(order[..0])) == Prefix(nodes, order, 0)
  {
    assert Elements(order[..0]) == {};
  }

  lemma PrefixMore(nodes: MapNodes, order: seq<Name>, k: nat)
    requires k < |order|
    ensures Prefix(nodes, order, k + 1) == Prefix(nodes, order, k) + Saved(nodes, order[k])
  {
    hide Saved;
  }

  function SortKey(nodes: MapNodes, n: Name): int {
    -(Saved(nodes, n) as int)
  }

  /** `sorted(leaf_subs, key=(-saved, id))`: by id, then stably by savings. */
  function FoldOrder(nodes: MapNodes): seq<Name> {
    Sorting.StableSort(Sorted(LeafSubsystems(nodes)), n => SortKey(nodes, n))
  }

  lemma FoldOrderDescends(nodes: MapNodes)
    ensures Descending(nodes, FoldOrder(nodes)) && Distinct(FoldOrder(nodes))
    ensures forall x :: x in FoldOrder(nodes) <==> x in LeafSubsystems(nodes)
  {
    var ids := Sorted(LeafSubsystems(nodes));
    var key := n => SortKey(nodes, n);
    var r := Sorting.StableSort(ids, key);
    assert FoldOrder(nodes) == r;
    hide LeafSubsystems, Sorted, FoldOrder, Sorting.StableSort;
    Sorting.SortsStably(ids, key);
    Sorting.SameElements(ids, key);
    Sorting.StaysDistinct(ids, key);
    KeyDescends(nodes, r, key);
  }

  lemma KeyDescends(nodes: MapNodes, r: seq<Name>, key: Name -> int)
    requires Sorting.Ordered(r, key) && forall n :: key(n) == SortKey(nodes, n)
    ensures Descending(nodes, r)
  {
    hide Saved;
    forall i, j | 0 <= i < j < |r| ensures Saved(nodes, r[i]) >= Saved(nodes, r[j]) {
      assert key(r[i]) <= key(r[j]);
    }
  }

  /** Enough rows are hidden. */
  predicate Fits(nodes: MapNodes, folded: set<Name>) {
    |Rows(nodes)| - Total(nodes, folded) <= MAP_ROW_BUDGET
  }

  /** A choice of folds no smaller one can replace: nothing with fewer folds fits, and it fits itself
      unless folding everything does not. */
  ghost predicate Fewest(nodes: MapNodes, folded: set<Name>) {
    && folded <= LeafSubsystems(nodes)
    && (forall s {:trigger Fits(nodes, s)} :: s <= LeafSubsystems(nodes) && Fits(nodes, s)
          ==> Fits(nodes, folded) && |folded| <= |s|)
    && (!Fits(nodes, folded) ==> folded == LeafSubsystems(nodes))
  }

  /** Before `k` folds there are still too many rows; after, few enough, or nothing left to fold. */
  ghost predicate StopsAt(nodes: MapNodes, order: seq<Name>, k: nat) {
    && k <= |order|
    && StillOver(nodes, order, k)
    && (k == |order| || |Rows(nodes)| - Prefix(nodes, order, k) <= MAP_ROW_BUDGET)
  }

  lemma NoneSmaller(nodes: MapNodes, order: seq<Name>, k: nat, s: set<Name>)
    requires Descending(nodes, order) && Distinct(order) && From(s, order) && StopsAt(nodes, order, k) && Fits(nodes, s)
    ensures k <= |s| && |Rows(nodes)| - Prefix(nodes, order, k) <= MAP_ROW_BUDGET
  {
    LargestSaveMost(nodes, order, s);
    hide Rows, Total, Prefix, Distinct, Descending, From;
    assert |Rows(nodes)| - Prefix(nodes, order, |s|) <= MAP_ROW_BUDGET;
    assert k <= |s|;
    if k == |order| { assert |s| == k; }
  }

  lemma PrefixFits(nodes: MapNodes, k: nat)
    requires k <= |FoldOrder(nodes)|
    ensures var order := FoldOrder(nodes);
            var folded := Elements(order[..k]);
            && |folded| == k && folded <= LeafSubsystems(nodes) && (k == |order| ==> folded == LeafSubsystems(nodes))
            && (Fits(nodes, folded) <==> |Rows(nodes)| - Prefix(nodes, order, k) <= MAP_ROW_BUDGET)
  {
    var order := FoldOrder(nodes);
    hide FoldOrder, Rows, Total, Prefix, Distinct, Descending, LeafSubsystems, Saved;
    FoldOrderDescends(nodes);
    TotalOfPrefix(nodes, order, k);
    PrefixSize(order, k);
    if k == |order| { assert order[..k] == order; }
  }

  lemma StoppedIsFewest(nodes: MapNodes, k: nat)
    requires StopsAt(nodes, FoldOrder(nodes), k)
    ensures Fewest(nodes, Elements(FoldOrder(nodes)[..k]))
  {
    var order := FoldOrder(nodes);
    FoldOrderDescends(nodes);
    PrefixFits(nodes, k);
    hide FoldOrder, Rows, Total, Prefix, Distinct, Descending, LeafSubsystems, Fits, Elements, Saved;
    forall s {:trigger Fits(nodes, s)} | s <= LeafSubsystems(nodes) && Fits(nodes, s)
      ensures Fits(nodes, Elements(order[..k])) && |Elements(order[..k])| <= |s|
    {
      NoneSmaller(nodes, order, k, s);
    }
  }

  /** `_default_collapsed`: the fewest folds that fit, largest first; all of them only when no smaller
      choice is enough. */
  method DefaultCollapsed(nodes: MapNodes) returns (collapsed: seq<Name>)
    ensures Fewest(nodes, Elements(collapsed))
    ensures collapsed <= FoldOrder(nodes)
  {
    var order := FoldOrder(nodes);
    var rows: int := |Rows(nodes)|;
    collapsed := [];
    var k := 0;
    NotYet(nodes, order);
    hide *;
    while k < |order| && rows > MAP_ROW_BUDGET
      invariant 0 <= k <= |order| && collapsed == order[..k]
      invariant rows == |Rows(nodes)| - Prefix(nodes, order, k)
      invariant StillOver(nodes, order, k)
    {
      OverAgain(nodes, order, k);
      PrefixMore(nodes, order, k);
      collapsed := collapsed + [order[k]];
      rows := rows - Saved(nodes, order[k]);
      k := k + 1;
    }
    StopsHere(nodes, order, k);
    StoppedIsFewest(nodes, k);
  }

  /** Fewer than `k` folds leave too many rows. */
  ghost predicate StillOver(nodes: MapNodes, order: seq<Name>, k: nat)
    requires k <= |order|
  {
    forall j :: 0 <= j < k ==> |Rows(nodes)| - Prefix(nodes, order, j) > MAP_ROW_BUDGET
  }

  lemma NotYet(nodes: MapNodes, order: seq<Name>)
    ensures Prefix(nodes, order, 0) == 0 && StillOver(nodes, order, 0)
  {
  }

  lemma OverAgain(nodes: MapNodes, order: seq<Name>, k: nat)
    requires k < |order| && StillOver(nodes, order, k) && |Rows(nodes)| - Prefix(nodes, order, k) > MAP_ROW_BUDGET
    ensures StillOver(nodes, order, k + 1)
  {
    hide Rows, Prefix;
  }

  lemma StopsHere(nodes: MapNodes, order: seq<Name>, k: nat)
    requires k <= |order| && StillOver(nodes, order, k)
    requires k == |order| || |Rows(nodes)| - Prefix(nodes, order, k) <= MAP_ROW_BUDGET
    ensures StopsAt(nodes, order, k)
  {
    hide Rows, Prefix;
  }

  // ---------------------------------------------------------------------------------------
  // Where children lists make a tree, what a fold is said to save is what it hides.

  /** The rows still drawn: those below no folded subsystem. */
  function Drawn(nodes: MapNodes, folded: set<Name>): set<Name> {
    set n | n in Rows(nodes) && forall f :: f in folded && f in nodes ==> n !in nodes[f].children
  }

  /** Nobody is listed twice, neither in one list nor in two. */
  ghost predicate ListedOnce(nodes: MapNodes) {
    && (forall n :: n in nodes ==> Distinct(nodes[n].children))
    && forall n, m, c :: n in nodes && m in nodes && c in nodes[n].children && c in nodes[m].children ==> n == m
  }

  function RowsAmong(nodes: MapNodes, children: seq<Name>): set<Name> {
    set c | c in children && IsRow(nodes, c)
  }

  lemma {:induction false} CountsRows(nodes: MapNodes, children: seq<Name>)
    requires Distinct(children)
    ensures CountRows(nodes, children) == |RowsAmong(nodes, children)|
  {
    if children != [] {
      var init, last := children[..|children| - 1], children[|children| - 1];
      assert children == init + [last];
      CountsRows(nodes, init);
      assert last !in init;
      hide IsRow;
      assert RowsAmong(nodes, children) == RowsAmong(nodes, init) + if IsRow(nodes, last) then {last} else {};
    }
  }

  /** A row is drawn without one fold if it is with it or is what that fold hides. */
  lemma HidesItsOwn(nodes: MapNodes, s: set<Name>, m: Name, c: Name)
    requires ListedOnce(nodes) && s <= LeafSubsystems(nodes) && m in s
    ensures c in Drawn(nodes, s - {m}) <==> c in Drawn(nodes, s) || c in RowsAmong(nodes, nodes[m].children)
    ensures !(c in Drawn(nodes, s) && c in RowsAmong(nodes, nodes[m].children))
  {
    hide Distinct;
    if c in nodes[m].children && c in nodes {
      assert !nodes[c].kind.Subsystem?;
      assert c in Rows(nodes) <==> IsRow(nodes, c);
      assert forall f :: f in s && f in nodes && c in nodes[f].children ==> f == m;
    }
  }

  lemma OneFoldHides(nodes: MapNodes, s: set<Name>, m: Name)
    requires ListedOnce(nodes) && s <= LeafSubsystems(nodes) && m in s
    ensures |Drawn(nodes, s - {m})| == |Drawn(nodes, s)| + Saved(nodes, m)
  {
    CountsRows(nodes, nodes[m].children);
    var gone := RowsAmong(nodes, nodes[m].children);
    forall c
      ensures c in Drawn(nodes, s - {m}) <==> c in Drawn(nodes, s) || c in gone
      ensures !(c in Drawn(nodes, s) && c in gone)
    {
      HidesItsOwn(nodes, s, m, c);
    }
    hide Drawn, RowsAmong, ListedOnce, LeafSubsystems, CountRows;
    assert Drawn(nodes, s - {m}) == Drawn(nodes, s) + gone;
    assert Drawn(nodes, s) !! gone;
  }

  lemma {:induction false} FoldsHide(nodes: MapNodes, s: set<Name>)
    requires ListedOnce(nodes) && s <= LeafSubsystems(nodes)
    ensures |Drawn(nodes, s)| == |Rows(nodes)| - Total(nodes, s)
  {
    hide Rows, LeafSubsystems, ListedOnce, Saved, Minimum;
    if s == {} {
      assert Drawn(nodes, s) == Rows(nodes);
    } else {
      var m := Minimum(s);
      hide Drawn;
      FoldsHide(nodes, s - {m});
      OneFoldHides(nodes, s, m);
    }
  }

  /** The fewest folds that leave no more rows than the budget, if any choice does. */
  lemma FewestDraws(nodes: MapNodes, folded: set<Name>, s: set<Name>)
    requires ListedOnce(nodes) && Fewest(nodes, folded) && s <= LeafSubsystems(nodes)
    ensures |Drawn(nodes, s)| <= 24 ==> |Drawn(nodes, folded)| <= 24 && |folded| <= |s|
    ensures |Drawn(nodes, folded)| > 24 ==> folded == LeafSubsystems(nodes)
  {
    FoldsHide(nodes, s);
    FoldsHide(nodes, folded);
    hide Drawn, ListedOnce, Rows, Total, LeafSubsystems;
    assert Fits(nodes, s) <==> |Drawn(nodes, s)| <= 24;
  }

  /** A child listed twice is counted twice, and hidden once. */
  lemma ListedTwiceSavesTwo(nodes: MapNodes, n: Name, c: Name)
    requires n in nodes && IsRow(nodes, c) && nodes[n].children == [c, c]
    ensures Saved(nodes, n) == 2 && |RowsAmong(nodes, nodes[n].children)| == 1
  {
    hide IsRow;
    var two := [c, c];
    assert two[..1] == [c];
    assert CountRows(nodes, [c]) == 1;
    assert CountRows(nodes, two) == 2;
    assert RowsAmong(nodes, two) == {c};
  }
}
