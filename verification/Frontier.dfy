/** The frontier of a set of ops (`sgt/core/order.py`, `_ordered_chains` and `frontier`): every symbol's chain
    followed from its birth through the ops of the reduced set.

    Ops are addressed by content, so an op that is mined again is the op that is there already.  A chain that
    comes back to a version it left before therefore comes back to an op it has passed, and the walk stops;
    and where two different ops leave one version both are lost, and the walk stops there too. */
module Frontier {
  import opened Names
  import opened BuildMap
  import opened Order

  // ---------------------------------------------------------------------------------------
  // The walk.

  predicate Touches(ops: Ops, id: Name, s: Name) {
    id in ops && s in ops[id].footprint
  }

  ghost predicate Takes(ops: Ops, id: Name, s: Name, before: Option<OpVersion>) {
    Touches(ops, id, s) && ops[id].footprint[s].before == before
  }

  function AfterOf(ops: Ops, id: Name, s: Name): OpVersion
    requires Touches(ops, id, s)
  {
    ops[id].footprint[s].after
  }

  /** The op that changes `s` from that version. */
  ghost function NextStep(ops: Ops, base: set<Name>, s: Name, before: Option<OpVersion>): (r: Option<Name>)
    ensures r.Some? ==> r.value in base && Takes(ops, r.value, s, before)
    ensures r.None? ==> forall id :: id in base ==> !Takes(ops, id, s, before)
  {
    if exists id :: id in base && Takes(ops, id, s, before) then
      var id :| id in base && Takes(ops, id, s, before);
      Some(id)
    else None
  }

  /** The walk along the chain, until nothing builds on it or it comes back to where it was. */
  ghost function TipFrom(ops: Ops, base: set<Name>, s: Name, at: Name, visited: set<Name>): (tip: Name)
    requires Touches(ops, at, s)
    ensures Touches(ops, tip, s) && (tip == at || tip in base)
    decreases |base - visited|
  {
    var next := NextStep(ops, base, s, Some(AfterOf(ops, at, s)));
    if next.None? || next.value in visited then at
    else
      Shrinks(base, visited, next.value);
      TipFrom(ops, base, s, next.value, visited + {next.value})
  }

  lemma Shrinks<T>(base: set<T>, visited: set<T>, id: T)
    requires id in base && id !in visited
    ensures |base - (visited + {id})| < |base - visited|
  {
    assert base - visited == base - (visited + {id}) + {id};
  }

  /** `frontier`, for a symbol whose birth is in the set. */
  ghost function TipOf(ops: Ops, base: set<Name>, s: Name): (tip: Option<Name>)
    ensures tip.Some? ==> tip.value in base && Touches(ops, tip.value, s)
  {
    var head := NextStep(ops, base, s, None);
    if head.None? then None else Some(TipFrom(ops, base, s, head.value, {head.value}))
  }

  /** What the tip leaves; nothing when there is none. */
  ghost function TipVersion(ops: Ops, base: set<Name>, s: Name): Option<OpVersion> {
    var tip := TipOf(ops, base, s);
    if tip.None? then None else Some(AfterOf(ops, tip.value, s))
  }

  lemma TipStep(ops: Ops, base: set<Name>, s: Name, at: Name, visited: set<Name>)
    requires Touches(ops, at, s)
    ensures var next := NextStep(ops, base, s, Some(AfterOf(ops, at, s)));
            if next.None? || next.value in visited then TipFrom(ops, base, s, at, visited) == at
            else Touches(ops, next.value, s)
                 && TipFrom(ops, base, s, at, visited) == TipFrom(ops, base, s, next.value, visited + {next.value})
  {
    hide NextStep;
  }

  lemma TipStarts(ops: Ops, base: set<Name>, s: Name)
    ensures var head := NextStep(ops, base, s, None);
            && (head.None? ==> TipVersion(ops, base, s) == None)
            && (head.Some? ==> Touches(ops, head.value, s)
                               && TipVersion(ops, base, s)
                                  == Some(AfterOf(ops, TipFrom(ops, base, s, head.value, {head.value}), s)))
  {
    hide NextStep, TipFrom, AfterOf;
  }

  // ---------------------------------------------------------------------------------------
  // When nothing is lost.

  /** Every need is met by an op of lower rank. */
  ghost predicate RanksDown(ops: Ops, declared: set<Declared>, all: set<Name>, rank: map<Name, nat>) {
    && all <= ops.Keys && all <= rank.Keys
    && forall id, key :: id in all && key in NeededBy(ops, declared, id) ==> MetBelow(ops, all, rank, id, key)
  }

  ghost predicate MetBelow(ops: Ops, all: set<Name>, rank: map<Name, nat>, id: Name, key: Key)
    requires all <= ops.Keys && all <= rank.Keys && id in all
  {
    exists p :: p in all && Produces(ops, p, key) && rank[p] < rank[id]
  }

  lemma {:induction false} RankedIsGrounded(ops: Ops, declared: set<Declared>, all: set<Name>, within: set<Name>,
                                            rank: map<Name, nat>, id: Name)
    requires RanksDown(ops, declared, all, rank) && all <= within <= ops.Keys && id in all
    ensures id in Grounded(ops, declared, within)
    decreases rank[id]
  {
    var g := Grounded(ops, declared, within);
    forall key | key in NeededBy(ops, declared, id) ensures Met(ops, g, key) {
      assert MetBelow(ops, all, rank, id, key);
      hide Grounded, NeededBy, Produces;
      var p :| p in all && Produces(ops, p, key) && rank[p] < rank[id];
      RankedIsGrounded(ops, declared, all, within, rank, p);
    }
    hide *;
    AllMetIsReady(ops, declared, g, id);
    ReadyIsGrounded(ops, declared, within, id);
  }

  lemma AllMetIsReady(ops: Ops, declared: set<Declared>, base: set<Name>, id: Name)
    requires base <= ops.Keys && id in ops && forall key :: key in NeededBy(ops, declared, id) ==> Met(ops, base, key)
    ensures IsReady(ops, declared, base, id)
  {
    hide NeededBy, Met;
  }

  lemma ReadyIsGrounded(ops: Ops, declared: set<Declared>, within: set<Name>, id: Name)
    requires within <= ops.Keys && id in within && id in ops
             && IsReady(ops, declared, Grounded(ops, declared, within), id)
    ensures id in Grounded(ops, declared, within)
  {
    GroundedIsGrounding(ops, declared, within);
    hide Grounded, IsReady;
  }

  /** What bottoms out has all it needs, and has it there. */
  lemma GroundedIsMet(ops: Ops, declared: set<Declared>, within: set<Name>, id: Name, key: Key)
    requires within <= ops.Keys && id in Grounded(ops, declared, within) && key in NeededBy(ops, declared, id)
    ensures Met(ops, Grounded(ops, declared, within), key)
  {
    var g := Grounded(ops, declared, within);
    GroundedIsGrounding(ops, declared, within);
    var less := set d | d in g && IsReady(ops, declared, g, d);
    assert Closed(ops, declared, within, less) by {
      hide Grounded;
      forall d | d in within && IsReady(ops, declared, less, d) ensures d in less {
        ReadyGrows(ops, declared, less, g, d);
        hide IsReady;
      }
    }
    hide Grounded, Closed;
    assert id in less;
  }

  ghost predicate BornIn(ops: Ops, base: set<Name>, s: Name) {
    exists id :: id in base && Takes(ops, id, s, None)
  }

  ghost predicate AllBorn(ops: Ops, base: set<Name>, id: Name) {
    forall s :: Touches(ops, id, s) ==> BornIn(ops, base, s)
  }

  lemma ReadyIsBorn(ops: Ops, declared: set<Declared>, base: set<Name>, born: set<Name>, id: Name)
    requires born <= base <= ops.Keys && id in base && IsReady(ops, declared, born, id)
    requires forall d :: d in born ==> AllBorn(ops, base, d)
    ensures AllBorn(ops, base, id)
  {
    forall s | Touches(ops, id, s) ensures BornIn(ops, base, s) {
      var before := ops[id].footprint[s].before;
      if before.None? {
        assert Takes(ops, id, s, None);
      } else {
        var key := Made(Pin(s, before.value));
        assert key in NeededBy(ops, declared, id);
        assert Met(ops, born, key);
        var p :| p in born && Produces(ops, p, key);
        assert AllBorn(ops, base, p) && Touches(ops, p, s);
      }
    }
  }

  /** A reduced set that touches a symbol holds a birth of it: the walk always has its head, and never starts from
      a link in the middle of a chain. */
  lemma ReducedHasBirth(ops: Ops, declared: set<Declared>, ids: set<Name>, id: Name, s: Name)
    requires id in Reduce(ops, declared, ids) && Touches(ops, id, s)
    ensures BornIn(ops, Reduce(ops, declared, ids), s)
    ensures TipOf(ops, Reduce(ops, declared, ids), s).Some?
  {
    var r := Reduce(ops, declared, ids);
    ReduceIsIdeal(ops, declared, ids);
    GroundedIsGrounding(ops, declared, r);
    hide Reduce, Grounded, NeededBy, ForkFree, IsReady, Touches, BornIn, Takes;
    var born := set d | d in r && AllBorn(ops, r, d);
    forall d | d in r && IsReady(ops, declared, born, d) ensures d in born {
      hide AllBorn;
      ReadyIsBorn(ops, declared, r, born, d);
    }
    assert Closed(ops, declared, r, born);
    assert id in born;
    TipWhenBorn(ops, r, s);
  }

  lemma TipWhenBorn(ops: Ops, base: set<Name>, s: Name)
    requires BornIn(ops, base, s)
    ensures TipOf(ops, base, s).Some?
  {
    hide Takes;
  }

  /** A set of ops reduces to itself, none lost, if and only if all of it bottoms out and no two of its ops
      change one symbol from one version. */
  lemma ReducesToItselfExactlyWhen(ops: Ops, declared: set<Declared>, all: set<Name>)
    requires all <= ops.Keys
    ensures Reduce(ops, declared, all) == all <==> Grounded(ops, declared, all) == all && ForkFree(ops, all)
  {
    if Reduce(ops, declared, all) == all { ReduceIsIdeal(ops, declared, all); }
    if Grounded(ops, declared, all) == all && ForkFree(ops, all) { IdealIsKept(ops, declared, all); }
    hide Grounded, ForkFree, Reduce;
  }

  // ---------------------------------------------------------------------------------------
  // A chain, op by op.

  /** The ops in the order they changed `s`, each from what the one before left; one may occur again. */
  ghost predicate IsChain(ops: Ops, s: Name, c: seq<Name>) {
    && (forall i :: 0 <= i < |c| ==> Touches(ops, c[i], s))
    && (forall i :: 0 <= i < |c| ==> ops[c[i]].footprint[s].before == LeftBefore(ops, s, c, i))
  }

  /** What the first `k` ops of the chain leave. */
  ghost function LeftBefore(ops: Ops, s: Name, c: seq<Name>, k: nat): Option<OpVersion>
    requires k <= |c| && forall i :: 0 <= i < |c| ==> Touches(ops, c[i], s)
  {
    if k == 0 then None else Some(AfterOf(ops, c[k - 1], s))
  }

  /** No two ops of the set leave one version of `s`. */
  ghost predicate StepsOnce(ops: Ops, base: set<Name>, s: Name) {
    forall a, b, v :: a in base && b in base && Takes(ops, a, s, v) && Takes(ops, b, s, v) ==> a == b
  }

  /** The first `k` ops of the chain are there and new; the next one, if any, is lost or was there before. */
  ghost predicate FirstLost(base: set<Name>, c: seq<Name>, k: nat) {
    && k <= |c|
    && (forall i :: 0 <= i < k ==> c[i] in base && c[i] !in c[..i])
    && (k < |c| ==> c[k] !in base || c[k] in c[..k])
  }

  /** Nothing else of the set takes a lost op's place, and only the chain's ops touch the symbol. */
  ghost predicate OnlyChain(ops: Ops, base: set<Name>, s: Name, c: seq<Name>, k: nat)
    requires k <= |c| && IsChain(ops, s, c)
  {
    && (forall id :: id in base && Touches(ops, id, s) ==> id in c)
    && (k < |c| && c[k] !in base ==> forall id :: id in base ==> !Takes(ops, id, s, LeftBefore(ops, s, c, k)))
  }

  lemma NextInChain(ops: Ops, base: set<Name>, s: Name, c: seq<Name>, k: nat, i: nat)
    requires IsChain(ops, s, c) && FirstLost(base, c, k) && StepsOnce(ops, base, s)
    requires i <= k <= |c| && OnlyChain(ops, base, s, c, k)
    ensures var next := NextStep(ops, base, s, LeftBefore(ops, s, c, i));
            if i < k then next == Some(c[i]) && c[i] !in c[..i]
            else next.Some? ==> next.value in c[..k]
  {
    hide *;
    ChainTouches(ops, s, c);
    var v := LeftBefore(ops, s, c, i);
    if i < k {
      ChainTakes(ops, s, c, i);
      LostAfter(base, c, k, i);
      OnlyStep(ops, base, s, v, c[i]);
    } else {
      NextAtCut(ops, base, s, c, k, v);
    }
  }

  lemma NextAtCut(ops: Ops, base: set<Name>, s: Name, c: seq<Name>, k: nat, v: Option<OpVersion>)
    requires IsChain(ops, s, c) && FirstLost(base, c, k) && StepsOnce(ops, base, s)
    requires k <= |c| && OnlyChain(ops, base, s, c, k) && v == LeftBefore(ops, s, c, k)
    ensures var next := NextStep(ops, base, s, v);
            next.Some? ==> next.value in c[..k]
  {
    hide *;
    var next := NextStep(ops, base, s, v);
    if next.Some? {
      if k < |c| {
        ChainTakes(ops, s, c, k);
        NextPasses(ops, base, s, c, k, v, next.value);
      } else {
        OnlyOfChain(ops, base, s, c, k, v, next.value);
        assert c[..k] == c;
      }
    }
  }

  lemma ChainTakes(ops: Ops, s: Name, c: seq<Name>, i: nat)
    requires IsChain(ops, s, c) && i < |c|
    ensures Takes(ops, c[i], s, LeftBefore(ops, s, c, i))
  {
    hide LeftBefore;
  }

  lemma OnlyOfChain(ops: Ops, base: set<Name>, s: Name, c: seq<Name>, k: nat, v: Option<OpVersion>, id: Name)
    requires k <= |c| && IsChain(ops, s, c) && OnlyChain(ops, base, s, c, k) && id in base && Takes(ops, id, s, v)
    ensures id in c
  {
    hide LeftBefore, IsChain;
  }

  lemma LostAfter(base: set<Name>, c: seq<Name>, k: nat, i: nat)
    requires FirstLost(base, c, k) && i < k
    ensures c[i] in base && c[i] !in c[..i]
  {
  }

  lemma OnlyStep(ops: Ops, base: set<Name>, s: Name, v: Option<OpVersion>, id: Name)
    requires StepsOnce(ops, base, s) && id in base && Takes(ops, id, s, v)
    ensures NextStep(ops, base, s, v) == Some(id)
  {
    hide Takes;
  }

  /** What goes on from where the chain is cut is an op the walk has passed. */
  lemma NextPasses(ops: Ops, base: set<Name>, s: Name, c: seq<Name>, k: nat, v: Option<OpVersion>, next: Name)
    requires IsChain(ops, s, c) && FirstLost(base, c, k) && StepsOnce(ops, base, s) && OnlyChain(ops, base, s, c, k)
    requires k < |c| && v == LeftBefore(ops, s, c, k) && Takes(ops, c[k], s, v)
    requires next in base && Takes(ops, next, s, v)
    ensures next in c[..k]
  {
    hide Takes, IsChain, LeftBefore;
  }

  lemma {:induction false} WalkStopsAt(ops: Ops, base: set<Name>, s: Name, c: seq<Name>, k: nat, i: nat)
    requires IsChain(ops, s, c) && FirstLost(base, c, k) && StepsOnce(ops, base, s)
    requires i < k <= |c| && OnlyChain(ops, base, s, c, k)
    ensures Touches(ops, c[i], s)
    ensures Some(AfterOf(ops, TipFrom(ops, base, s, c[i], Elements(c[..i + 1])), s)) == LeftBefore(ops, s, c, k)
    decreases k - i
  {
    hide *;
    ChainTouches(ops, s, c);
    LeftNext(ops, s, c, i);
    NextInChain(ops, base, s, c, k, i + 1);
    TipStep(ops, base, s, c[i], Elements(c[..i + 1]));
    if i + 1 < k {
      PrefixGrows(c, i + 1);
      WalkStopsAt(ops, base, s, c, k, i + 1);
    }
  }

  lemma ChainTouches(ops: Ops, s: Name, c: seq<Name>)
    requires IsChain(ops, s, c)
    ensures forall i :: 0 <= i < |c| ==> Touches(ops, c[i], s)
  {
  }

  /** The frontier stops before the first op of the chain that is lost or occurs again: that is the version the
      tip leaves, whatever was written later. */
  lemma ChainStops(ops: Ops, base: set<Name>, s: Name, c: seq<Name>, k: nat)
    requires IsChain(ops, s, c) && FirstLost(base, c, k) && StepsOnce(ops, base, s)
    requires k <= |c| && OnlyChain(ops, base, s, c, k)
    ensures TipVersion(ops, base, s) == LeftBefore(ops, s, c, k)
  {
    hide *;
    ChainTouches(ops, s, c);
    NextInChain(ops, base, s, c, k, 0);
    LeftFirst(ops, s, c);
    TipStarts(ops, base, s);
    if k > 0 {
      WalkStopsAt(ops, base, s, c, k, 0);
      OneElement(c);
    }
  }

  lemma LeftNext(ops: Ops, s: Name, c: seq<Name>, i: nat)
    requires i < |c| && forall j :: 0 <= j < |c| ==> Touches(ops, c[j], s)
    ensures LeftBefore(ops, s, c, i + 1) == Some(AfterOf(ops, c[i], s))
  {
    hide Touches, AfterOf;
  }

  lemma LeftFirst(ops: Ops, s: Name, c: seq<Name>)
    requires forall i :: 0 <= i < |c| ==> Touches(ops, c[i], s)
    ensures LeftBefore(ops, s, c, 0) == None && c[..0] == []
  {
    hide Touches, AfterOf;
  }

  lemma ChainMore(ops: Ops, s: Name, c: seq<Name>, id: Name)
    requires IsChain(ops, s, c) && Touches(ops, id, s)
    requires ops[id].footprint[s].before == LeftBefore(ops, s, c, |c|)
    ensures IsChain(ops, s, c + [id])
    ensures LeftBefore(ops, s, c + [id], |c| + 1) == Some(AfterOf(ops, id, s))
  {
    var d := c + [id];
    TakesIs(ops, id, s, LeftBefore(ops, s, c, |c|));
    hide *;
    ChainTouches(ops, s, c);
    forall i | 0 <= i < |d| ensures Touches(ops, d[i], s) { }
    forall i | 0 <= i <= |c| ensures LeftBefore(ops, s, d, i) == LeftBefore(ops, s, c, i) {
      LeftLonger(ops, s, c, id, i);
    }
    forall i | 0 <= i < |d| ensures Takes(ops, d[i], s, LeftBefore(ops, s, d, i)) {
      if i < |c| { ChainTakes(ops, s, c, i); }
    }
    ChainIs(ops, s, d);
    LeftLast(ops, s, c, id);
  }

  lemma TakesIs(ops: Ops, id: Name, s: Name, v: Option<OpVersion>)
    requires Touches(ops, id, s) && ops[id].footprint[s].before == v
    ensures Takes(ops, id, s, v)
  {
  }

  lemma LeftLonger(ops: Ops, s: Name, c: seq<Name>, id: Name, i: nat)
    requires i <= |c| && Touches(ops, id, s) && forall j :: 0 <= j < |c| ==> Touches(ops, c[j], s)
    ensures forall j :: 0 <= j < |c + [id]| ==> Touches(ops, (c + [id])[j], s)
    ensures LeftBefore(ops, s, c + [id], i) == LeftBefore(ops, s, c, i)
  {
    hide Touches, AfterOf;
  }

  lemma LeftLast(ops: Ops, s: Name, c: seq<Name>, id: Name)
    requires forall j :: 0 <= j < |c + [id]| ==> Touches(ops, (c + [id])[j], s)
    ensures Touches(ops, id, s) && LeftBefore(ops, s, c + [id], |c| + 1) == Some(AfterOf(ops, id, s))
  {
    assert (c + [id])[|c|] == id;
    hide Touches, AfterOf;
  }

  lemma ChainIs(ops: Ops, s: Name, c: seq<Name>)
    requires forall i :: 0 <= i < |c| ==> Touches(ops, c[i], s)
    requires forall i :: 0 <= i < |c| ==> Takes(ops, c[i], s, LeftBefore(ops, s, c, i))
    ensures IsChain(ops, s, c)
  {
    hide LeftBefore;
  }

  lemma NoChain(ops: Ops, s: Name)
    ensures IsChain(ops, s, []) && LeftBefore(ops, s, [], 0) == None
  {
  }

  lemma NoneLost(base: set<Name>)
    ensures FirstLost(base, [], 0)
  {
  }

  lemma LeftAlike(ops: Ops, s: Name, a: seq<Name>, b: seq<Name>)
    requires IsChain(ops, s, a) && IsChain(ops, s, b) && |a| <= |b| && b[..|a|] == a
    ensures LeftBefore(ops, s, a, |a|) == LeftBefore(ops, s, b, |a|)
  {
    if a != [] { assert a[|a| - 1] == b[|a| - 1]; }
  }

  lemma LostMore(base: set<Name>, c: seq<Name>, id: Name)
    requires FirstLost(base, c, |c|) && id in base && id !in c
    ensures FirstLost(base, c + [id], |c| + 1)
  {
    var d := c + [id];
    forall i | 0 <= i < |c| + 1 ensures d[i] in base && d[i] !in d[..i] {
      assert d[..i] == if i < |c| then c[..i] else c;
    }
  }

  lemma LostAt(base: set<Name>, a: seq<Name>, c: seq<Name>)
    requires FirstLost(base, a, |a|) && |a| < |c| && c[..|a|] == a && (c[|a|] !in base || c[|a|] in a)
    ensures FirstLost(base, c, |a|)
  {
    forall i | 0 <= i < |a| ensures c[i] in base && c[i] !in c[..i] {
      assert c[i] == a[i] && c[..i] == a[..i];
    }
  }

  lemma OnlyChainIs(ops: Ops, base: set<Name>, s: Name, c: seq<Name>, k: nat)
    requires k <= |c| && IsChain(ops, s, c) && forall id :: id in base && Touches(ops, id, s) ==> id in c
    requires k < |c| && c[k] !in base ==> forall id :: id in base ==> !Takes(ops, id, s, LeftBefore(ops, s, c, k))
    ensures OnlyChain(ops, base, s, c, k)
  {
  }

  lemma OneElement(c: seq<Name>)
    ensures c != [] ==> Elements(c[..1]) == {c[0]}
  {
  }

  // ---------------------------------------------------------------------------------------
  // Forks, symbol by symbol.

  /** Of a grounded op, a reduced set holds no rival: if the op is lost, so is every other that takes its step. */
  lemma LostTogether(ops: Ops, declared: set<Declared>, all: set<Name>, id: Name, other: Name, s: Name,
                     v: Option<OpVersion>)
    requires all <= ops.Keys && id in Grounded(ops, declared, all) && id !in Reduce(ops, declared, all)
    requires Takes(ops, id, s, v) && Takes(ops, other, s, v)
    ensures other !in Reduce(ops, declared, all)
  {
    if id != other && other in Grounded(ops, declared, all) {
      assert Clash(ops, other, id);
      assert other in Tips(ops, Grounded(ops, declared, all));
      hide *;
      TipsAreLost(ops, declared, all, other);
    } else {
      KeptIsGrounded(ops, declared, all, other);
    }
  }

  lemma KeptIsGrounded(ops: Ops, declared: set<Declared>, all: set<Name>, id: Name)
    requires all <= ops.Keys
    ensures id in Reduce(ops, declared, all) ==> id in Grounded(ops, declared, all)
  {
    assert all * ops.Keys == all;
    hide Grounded, Tips;
  }

  /** What is kept: what bottoms out, where nothing else that does changes a symbol from the same version, and
      whose every need -- versions changed, versions required, ops declared before it -- is kept. */
  lemma KeptExactlyWhen(ops: Ops, declared: set<Declared>, all: set<Name>, id: Name)
    requires all <= ops.Keys
    ensures id in Reduce(ops, declared, all)
            <==> id in Grounded(ops, declared, all) && Unrivalled(ops, Grounded(ops, declared, all), id)
                 && HasAll(ops, declared, Reduce(ops, declared, all), id)
  {
    var g, r := Grounded(ops, declared, all), Reduce(ops, declared, all);
    KeptIsGrounded(ops, declared, all, id);
    ReduceIsIdeal(ops, declared, all);
    if id in g {
      TipIsRivalled(ops, g, id);
      ReadyExactlyWhen(ops, declared, r, id);
    }
    hide Reduce, Grounded, Tips, NeededBy, ForkFree, HasAll, Unrivalled;
    if id in r {
      if id in Tips(ops, g) { TipsAreLost(ops, declared, all, id); }
      forall key | key in NeededBy(ops, declared, id) ensures Met(ops, r, key) {
        GroundedIsMet(ops, declared, r, id, key);
      }
    } else if id in g && id !in Tips(ops, g) && IsReady(ops, declared, r, id) {
      KeptWhenReady(ops, declared, all, id);
    }
  }

  /** No other op of the set changes a symbol from the version this one does. */
  ghost predicate Unrivalled(ops: Ops, base: set<Name>, id: Name)
    requires base <= ops.Keys && id in ops
  {
    forall other, s ::
      other in base && s in ops[id].footprint && s in ops[other].footprint
      && ops[id].footprint[s].before == ops[other].footprint[s].before ==>
        other == id
  }

  lemma TipIsRivalled(ops: Ops, base: set<Name>, id: Name)
    requires base <= ops.Keys && id in base
    ensures id in Tips(ops, base) <==> !Unrivalled(ops, base, id)
  {
    if id in Tips(ops, base) {
      var b :| b in base && Clash(ops, id, b);
    }
    if !Unrivalled(ops, base, id) {
      var other, s :| other in base && s in ops[id].footprint && s in ops[other].footprint
                      && ops[id].footprint[s].before == ops[other].footprint[s].before && other != id;
      assert Clash(ops, id, other);
    }
  }

  lemma ReducedStepsOnce(ops: Ops, declared: set<Declared>, all: set<Name>, s: Name)
    requires all <= ops.Keys
    ensures StepsOnce(ops, Reduce(ops, declared, all), s)
  {
    var r := Reduce(ops, declared, all);
    ReduceIsIdeal(ops, declared, all);
    hide Grounded, Reduce;
    forall a, b, v | a in r && b in r && Takes(ops, a, s, v) && Takes(ops, b, s, v) ensures a == b {
      assert !Clash(ops, a, b);
    }
  }

  /** Every op that touches `s` touches nothing else and needs nothing else. */
  ghost predicate Solo(ops: Ops, declared: set<Declared>, all: set<Name>, s: Name) {
    forall id :: id in all && Touches(ops, id, s) ==> AloneAt(ops, declared, id, s)
  }

  ghost predicate AloneAt(ops: Ops, declared: set<Declared>, id: Name, s: Name) {
    id in ops && ops[id].footprint.Keys == {s} && ops[id].needs == {} && forall e :: e in declared ==> e.then_ != id
  }

  ghost predicate Splits(ops: Ops, all: set<Name>, s: Name, v: Option<OpVersion>) {
    exists a, b :: a in all && b in all && a != b && Takes(ops, a, s, v) && Takes(ops, b, s, v)
  }

  /** The versions ops of the set leave. */
  ghost function Lefts(ops: Ops, all: set<Name>, s: Name): set<Option<OpVersion>> {
    set id | id in all && Touches(ops, id, s) :: ops[id].footprint[s].before
  }

  /** The walk over all that was mined: it stops where nothing goes on, where two different ops do, and where it
      has been. */
  ghost function StopFrom(ops: Ops, all: set<Name>, s: Name, v: Option<OpVersion>, seen: set<Option<OpVersion>>)
    : Option<OpVersion>
    decreases |Lefts(ops, all, s) - seen|
  {
    var next := NextStep(ops, all, s, v);
    if next.None? || Splits(ops, all, s, v) || v in seen then v
    else
      assert v in Lefts(ops, all, s);
      Shrinks(Lefts(ops, all, s), seen, v);
      StopFrom(ops, all, s, Some(AfterOf(ops, next.value, s)), seen + {v})
  }

  lemma AloneNeeds(ops: Ops, declared: set<Declared>, id: Name, s: Name, key: Key)
    requires AloneAt(ops, declared, id, s) && key in NeededBy(ops, declared, id)
    ensures ops[id].footprint[s].before.Some? && key == Made(Pin(s, ops[id].footprint[s].before.value))
  {
  }

  /** Whether the reduced set produces a version, or it is the one before birth. */
  ghost predicate Reached(ops: Ops, base: set<Name>, s: Name, v: Option<OpVersion>)
    requires base <= ops.Keys
  {
    v.Some? ==> Met(ops, base, Made(Pin(s, v.value)))
  }

  lemma AloneIsReady(ops: Ops, declared: set<Declared>, base: set<Name>, id: Name, s: Name, v: Option<OpVersion>)
    requires base <= ops.Keys && AloneAt(ops, declared, id, s) && Takes(ops, id, s, v) && Reached(ops, base, s, v)
    ensures IsReady(ops, declared, base, id)
  {
    forall key | key in NeededBy(ops, declared, id) ensures Met(ops, base, key) {
      AloneNeeds(ops, declared, id, s, key);
    }
    hide NeededBy, Met;
    AllMetIsReady(ops, declared, base, id);
  }

  /** A lone op on a version the reduced set produces bottoms out. */
  lemma AloneIsGrounded(ops: Ops, declared: set<Declared>, all: set<Name>, id: Name, s: Name, v: Option<OpVersion>)
    requires all <= ops.Keys && id in all && AloneAt(ops, declared, id, s) && Takes(ops, id, s, v)
    requires Reached(ops, Reduce(ops, declared, all), s, v)
    ensures id in Grounded(ops, declared, all)
  {
    var r, g := Reduce(ops, declared, all), Grounded(ops, declared, all);
    assert all * ops.Keys == all;
    assert r <= g;
    hide Reduce, Grounded, AloneAt, Takes;
    if v.Some? { MetMore(ops, r, g, Made(Pin(s, v.value))); }
    AloneIsReady(ops, declared, g, id, s, v);
    ReadyIsGrounded(ops, declared, all, id);
  }

  lemma MetMore(ops: Ops, less: set<Name>, more: set<Name>, key: Key)
    requires less <= more <= ops.Keys && Met(ops, less, key)
    ensures Met(ops, more, key)
  {
    var p :| p in less && Produces(ops, p, key);
    assert p in more;
  }

  /** Where two different lone ops leave one version, none that does is kept. */
  lemma SplitIsLost(ops: Ops, declared: set<Declared>, all: set<Name>, s: Name, v: Option<OpVersion>, id: Name)
    requires all <= ops.Keys && Solo(ops, declared, all, s) && Reached(ops, Reduce(ops, declared, all), s, v)
    requires Splits(ops, all, s, v) && id in all && Takes(ops, id, s, v)
    ensures id !in Reduce(ops, declared, all)
  {
    var a, b :| a in all && b in all && a != b && Takes(ops, a, s, v) && Takes(ops, b, s, v);
    var other := if id == a then b else a;
    var g := Grounded(ops, declared, all);
    hide Reduce, Grounded;
    AloneIsGrounded(ops, declared, all, id, s, v);
    AloneIsGrounded(ops, declared, all, other, s, v);
    assert Clash(ops, id, other);
    assert id in Tips(ops, g);
    TipsAreLost(ops, declared, all, id);
  }

  lemma TipsAreLost(ops: Ops, declared: set<Declared>, all: set<Name>, id: Name)
    requires all <= ops.Keys && id in Tips(ops, Grounded(ops, declared, all))
    ensures id !in Reduce(ops, declared, all)
  {
    assert all * ops.Keys == all;
    hide Grounded, Tips;
  }

  /** An op that touches one symbol clashes only over that one. */
  lemma AloneClash(ops: Ops, declared: set<Declared>, id: Name, s: Name, v: Option<OpVersion>, other: Name)
    requires AloneAt(ops, declared, id, s) && Takes(ops, id, s, v) && other in ops
    ensures Clash(ops, id, other) <==> other != id && Takes(ops, other, s, v)
  {
  }

  /** Elsewhere the one that does is. */
  lemma LoneIsKept(ops: Ops, declared: set<Declared>, all: set<Name>, s: Name, v: Option<OpVersion>, id: Name)
    requires all <= ops.Keys && Solo(ops, declared, all, s) && Reached(ops, Reduce(ops, declared, all), s, v)
    requires !Splits(ops, all, s, v) && id in all && Takes(ops, id, s, v)
    ensures id in Reduce(ops, declared, all)
  {
    var g, r := Grounded(ops, declared, all), Reduce(ops, declared, all);
    AloneIsGrounded(ops, declared, all, id, s, v);
    assert id !in Tips(ops, g) by {
      hide Grounded, Reduce;
      forall b | b in g ensures !Clash(ops, id, b) {
        AloneClash(ops, declared, id, s, v, b);
      }
    }
    hide Splits;
    AloneIsReady(ops, declared, r, id, s, v);
    KeptWhenReady(ops, declared, all, id);
  }

  lemma KeptWhenReady(ops: Ops, declared: set<Declared>, all: set<Name>, id: Name)
    requires all <= ops.Keys && id in Grounded(ops, declared, all) && id !in Tips(ops, Grounded(ops, declared, all))
    requires IsReady(ops, declared, Reduce(ops, declared, all), id)
    ensures id in Reduce(ops, declared, all)
  {
    var g := Grounded(ops, declared, all);
    assert all * ops.Keys == all;
    if Tips(ops, g) != {} {
      assert Reduce(ops, declared, all) == Grounded(ops, declared, g - Tips(ops, g));
      hide Grounded, Tips, IsReady, Reduce;
      ReadyIsGrounded(ops, declared, g - Tips(ops, g), id);
    }
  }

  /** Visited ops are those that leave the versions seen. */
  ghost predicate SameSeen(ops: Ops, base: set<Name>, s: Name, visited: set<Name>, seen: set<Option<OpVersion>>) {
    forall id :: id in base && Touches(ops, id, s) ==> (id in visited <==> ops[id].footprint[s].before in seen)
  }

  /** Wherever the kept ops can get to, they have somewhere to go exactly when all have one way to. */
  ghost predicate Alike(ops: Ops, kept: set<Name>, all: set<Name>, s: Name) {
    kept <= ops.Keys && forall v: Option<OpVersion> :: Reached(ops, kept, s, v) ==> AlikeAt(ops, kept, all, s, v)
  }

  ghost predicate AlikeAt(ops: Ops, kept: set<Name>, all: set<Name>, s: Name, v: Option<OpVersion>) {
    var next, any := NextStep(ops, kept, s, v), NextStep(ops, all, s, v);
    if any.None? || Splits(ops, all, s, v) then next.None? else next == any
  }

  lemma SoloIsAlike(ops: Ops, declared: set<Declared>, all: set<Name>, s: Name)
    requires all <= ops.Keys && Solo(ops, declared, all, s)
    ensures Alike(ops, Reduce(ops, declared, all), all, s)
  {
    var r := Reduce(ops, declared, all);
    assert r <= all;
    ReducedStepsOnce(ops, declared, all, s);
    hide *;
    forall v: Option<OpVersion> | Reached(ops, r, s, v) ensures AlikeAt(ops, r, all, s, v) {
      SoloAlikeAt(ops, declared, all, s, v);
    }
    AllReachedAlike(ops, r, all, s);
  }

  lemma AllReachedAlike(ops: Ops, kept: set<Name>, all: set<Name>, s: Name)
    requires kept <= ops.Keys
    requires forall v: Option<OpVersion> :: Reached(ops, kept, s, v) ==> AlikeAt(ops, kept, all, s, v)
    ensures Alike(ops, kept, all, s)
  {
    hide AlikeAt, Reached;
  }

  lemma SoloAlikeAt(ops: Ops, declared: set<Declared>, all: set<Name>, s: Name, v: Option<OpVersion>)
    requires all <= ops.Keys && Solo(ops, declared, all, s) && Reached(ops, Reduce(ops, declared, all), s, v)
    requires StepsOnce(ops, Reduce(ops, declared, all), s)
    ensures AlikeAt(ops, Reduce(ops, declared, all), all, s, v)
  {
    var r := Reduce(ops, declared, all);
    var next, any := NextStep(ops, r, s, v), NextStep(ops, all, s, v);
    assert next.Some? ==> next.value in all;
    hide Reduce, Solo, Reached, Splits, Takes, StepsOnce, NextStep;
    if any.Some? {
      if Splits(ops, all, s, v) {
        if next.Some? { SplitIsLost(ops, declared, all, s, v, next.value); }
      } else {
        LoneIsKept(ops, declared, all, s, v, any.value);
        OnlyStep(ops, r, s, v, any.value);
      }
    }
  }

  lemma OnceIsAlike(ops: Ops, base: set<Name>, s: Name)
    requires base <= ops.Keys && StepsOnce(ops, base, s)
    ensures Alike(ops, base, base, s)
  {
    hide *;
    forall v: Option<OpVersion> ensures AlikeAt(ops, base, base, s, v) {
      OnceNoSplit(ops, base, s, v);
      SelfAlike(ops, base, s, v);
    }
    AllReachedAlike(ops, base, base, s);
  }

  lemma OnceNoSplit(ops: Ops, base: set<Name>, s: Name, v: Option<OpVersion>)
    requires StepsOnce(ops, base, s)
    ensures !Splits(ops, base, s, v)
  {
    hide Takes;
  }

  lemma SelfAlike(ops: Ops, base: set<Name>, s: Name, v: Option<OpVersion>)
    requires !Splits(ops, base, s, v)
    ensures AlikeAt(ops, base, base, s, v)
  {
    hide NextStep, Splits;
  }

  lemma {:induction false} AlikeWalk(ops: Ops, kept: set<Name>, all: set<Name>, s: Name, at: Name, visited: set<Name>,
                                     seen: set<Option<OpVersion>>)
    requires kept <= all <= ops.Keys && StepsOnce(ops, kept, s) && Alike(ops, kept, all, s)
    requires at in kept && Touches(ops, at, s) && SameSeen(ops, kept, s, visited, seen)
    ensures Some(AfterOf(ops, TipFrom(ops, kept, s, at, visited), s))
            == StopFrom(ops, all, s, Some(AfterOf(ops, at, s)), seen)
    decreases |Lefts(ops, all, s) - seen|
  {
    var v := Some(AfterOf(ops, at, s));
    LeavesReached(ops, kept, s, at);
    assert AlikeAt(ops, kept, all, s, v);
    hide *;
    AlikeThere(ops, kept, all, s, v);
    TipStep(ops, kept, s, at, visited);
    StopStep(ops, all, s, v, seen);
    var next := NextStep(ops, kept, s, v);
    if next.Some? {
      SeenAt(ops, kept, s, visited, seen, next.value, v);
      if v !in seen {
        SeenMore(ops, kept, s, visited, seen, next.value, v);
        SeenShrinks(ops, all, s, seen, next.value, v);
        AlikeWalk(ops, kept, all, s, next.value, visited + {next.value}, seen + {v});
      }
    }
  }

  lemma LeavesReached(ops: Ops, base: set<Name>, s: Name, at: Name)
    requires base <= ops.Keys && at in base && Touches(ops, at, s)
    ensures Reached(ops, base, s, Some(AfterOf(ops, at, s)))
  {
    assert Produces(ops, at, Made(Pin(s, AfterOf(ops, at, s))));
  }

  lemma AlikeThere(ops: Ops, kept: set<Name>, all: set<Name>, s: Name, v: Option<OpVersion>)
    requires AlikeAt(ops, kept, all, s, v)
    ensures var next, any := NextStep(ops, kept, s, v), NextStep(ops, all, s, v);
            && (next.None? <==> any.None? || Splits(ops, all, s, v))
            && (next.Some? ==> next == any && next.value in kept && Takes(ops, next.value, s, v)
                               && Touches(ops, next.value, s))
  {
    hide Splits;
  }

  lemma SeenAt(ops: Ops, base: set<Name>, s: Name, visited: set<Name>, seen: set<Option<OpVersion>>, id: Name,
               v: Option<OpVersion>)
    requires SameSeen(ops, base, s, visited, seen) && id in base && Takes(ops, id, s, v)
    ensures id in visited <==> v in seen
  {
  }

  lemma SeenMore(ops: Ops, base: set<Name>, s: Name, visited: set<Name>, seen: set<Option<OpVersion>>, id: Name,
                 v: Option<OpVersion>)
    requires SameSeen(ops, base, s, visited, seen) && StepsOnce(ops, base, s) && id in base && Takes(ops, id, s, v)
    ensures SameSeen(ops, base, s, visited + {id}, seen + {v})
  {
    forall o | o in base && Touches(ops, o, s)
      ensures o in visited + {id} <==> ops[o].footprint[s].before in seen + {v}
    {
      if ops[o].footprint[s].before == v { assert Takes(ops, o, s, v); }
    }
  }

  lemma SeenShrinks(ops: Ops, all: set<Name>, s: Name, seen: set<Option<OpVersion>>, id: Name, v: Option<OpVersion>)
    requires id in all && Takes(ops, id, s, v) && v !in seen
    ensures |Lefts(ops, all, s) - (seen + {v})| < |Lefts(ops, all, s) - seen|
  {
    assert v in Lefts(ops, all, s);
    hide Lefts;
    Shrinks(Lefts(ops, all, s), seen, v);
  }

  lemma StopStep(ops: Ops, all: set<Name>, s: Name, v: Option<OpVersion>, seen: set<Option<OpVersion>>)
    ensures var next := NextStep(ops, all, s, v);
            if next.None? || Splits(ops, all, s, v) || v in seen then StopFrom(ops, all, s, v, seen) == v
            else next.value in all && Takes(ops, next.value, s, v) && Touches(ops, next.value, s)
                 && StopFrom(ops, all, s, v, seen)
                    == StopFrom(ops, all, s, Some(AfterOf(ops, next.value, s)), seen + {v})
  {
    hide NextStep, Splits, Lefts;
  }

  lemma AlikeStops(ops: Ops, kept: set<Name>, all: set<Name>, s: Name)
    requires kept <= all <= ops.Keys && StepsOnce(ops, kept, s) && Alike(ops, kept, all, s)
    ensures TipVersion(ops, kept, s) == StopFrom(ops, all, s, None, {})
  {
    assert Reached(ops, kept, s, None);
    assert AlikeAt(ops, kept, all, s, None);
    assert SameSeen(ops, kept, s, {}, {});
    hide *;
    AlikeThere(ops, kept, all, s, None);
    TipStarts(ops, kept, s);
    StopStep(ops, all, s, None, {});
    var head := NextStep(ops, kept, s, None);
    if head.Some? {
      SeenMore(ops, kept, s, {}, {}, head.value, None);
      assert {} + {head.value} == {head.value};
      AlikeWalk(ops, kept, all, s, head.value, {head.value}, {} + {None});
    }
  }

  /** The frontier of any symbol is where the walk over the kept ops stops. */
  lemma KeptStops(ops: Ops, declared: set<Declared>, all: set<Name>, s: Name)
    requires all <= ops.Keys
    ensures TipVersion(ops, Reduce(ops, declared, all), s) == StopFrom(ops, Reduce(ops, declared, all), s, None, {})
  {
    ReducedStepsOnce(ops, declared, all, s);
    OnceIsAlike(ops, Reduce(ops, declared, all), s);
    hide *;
    AlikeStops(ops, Reduce(ops, declared, all), Reduce(ops, declared, all), s);
  }

  /** For a symbol whose ops stand alone the frontier can be read off all that was mined, whatever else was: it
      is where the walk from birth first finds nothing to go on with, two ways to go on, or a version it has
      left before. */
  lemma SoloStops(ops: Ops, declared: set<Declared>, all: set<Name>, s: Name)
    requires all <= ops.Keys && Solo(ops, declared, all, s)
    ensures TipVersion(ops, Reduce(ops, declared, all), s) == StopFrom(ops, all, s, None, {})
  {
    ReducedStepsOnce(ops, declared, all, s);
    SoloIsAlike(ops, declared, all, s);
    hide *;
    AlikeStops(ops, Reduce(ops, declared, all), all, s);
  }
}
