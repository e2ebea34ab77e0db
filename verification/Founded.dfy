/** What the reduction of an op set guarantees, said of the ops themselves (`sgt/core/order.py`): of what each
    changes, what it requires and what is declared to come before it. */
module Founded {
  import opened Names
  import opened BuildMap
  import opened Order
  import Frontier

  // ---------------------------------------------------------------------------------------
  // What is kept has what it needs.

  lemma KeptHasAll(ops: Ops, declared: set<Declared>, ids: set<Name>, id: Name)
    requires id in Reduce(ops, declared, ids)
    ensures HasAll(ops, declared, Reduce(ops, declared, ids), id)
  {
    var r := Reduce(ops, declared, ids);
    ReduceIsIdeal(ops, declared, ids);
    hide Reduce, Grounded, NeededBy, ForkFree, HasAll;
    forall key | key in NeededBy(ops, declared, id) ensures Met(ops, r, key) {
      Frontier.GroundedIsMet(ops, declared, r, id, key);
    }
    hide Met;
    Frontier.AllMetIsReady(ops, declared, r, id);
    ReadyExactlyWhen(ops, declared, r, id);
  }

  /** An op declared to come before a kept one is kept. */
  lemma DeclaredIsKept(ops: Ops, declared: set<Declared>, ids: set<Name>, e: Declared)
    requires e in declared && e.then_ in Reduce(ops, declared, ids)
    ensures e.first in Reduce(ops, declared, ids)
  {
    hide Reduce;
    KeptHasAll(ops, declared, ids, e.then_);
  }

  /** What a kept op changes a kept op left. */
  lemma ChangedIsKept(ops: Ops, declared: set<Declared>, ids: set<Name>, id: Name, s: Name)
    requires id in Reduce(ops, declared, ids) && s in ops[id].footprint && ops[id].footprint[s].before.Some?
    ensures exists p :: p in Reduce(ops, declared, ids) && s in ops[p].footprint
              && ops[p].footprint[s].after == ops[id].footprint[s].before.value
  {
    hide Reduce;
    KeptHasAll(ops, declared, ids, id);
    assert LeftBy(ops, Reduce(ops, declared, ids), s, ops[id].footprint[s].before.value);
  }

  /** And so is what it requires. */
  lemma RequiredIsKept(ops: Ops, declared: set<Declared>, ids: set<Name>, id: Name, pin: Pin)
    requires id in Reduce(ops, declared, ids) && pin in ops[id].needs
    ensures exists p :: p in Reduce(ops, declared, ids) && pin.sym in ops[p].footprint
              && ops[p].footprint[pin.sym].after == pin.version
  {
    hide Reduce;
    KeptHasAll(ops, declared, ids, id);
    assert LeftBy(ops, Reduce(ops, declared, ids), pin.sym, pin.version);
  }

  /** And nothing else that is kept changes the symbol from that version. */
  lemma StepIsOnlyKept(ops: Ops, declared: set<Declared>, ids: set<Name>, a: Name, b: Name, s: Name)
    requires a in Reduce(ops, declared, ids) && b in Reduce(ops, declared, ids)
    requires s in ops[a].footprint && s in ops[b].footprint
             && ops[a].footprint[s].before == ops[b].footprint[s].before
    ensures a == b
  {
    ReduceIsIdeal(ops, declared, ids);
    hide Reduce, Grounded;
    assert !Clash(ops, a, b);
  }

  // ---------------------------------------------------------------------------------------
  // Bottoming out, by rank.

  /** A version is left by an op of the set that ranks below. */
  ghost predicate LeftBelow(ops: Ops, base: set<Name>, rank: map<Name, nat>, s: Name, v: OpVersion, n: nat)
    requires base <= ops.Keys && base <= rank.Keys
  {
    exists p :: p in base && s in ops[p].footprint && ops[p].footprint[s].after == v && rank[p] < n
  }

  /** Everything an op of the set waits for ranks below it. */
  ghost predicate RestsBelow(ops: Ops, declared: set<Declared>, base: set<Name>, rank: map<Name, nat>, id: Name)
    requires base <= ops.Keys && base <= rank.Keys && id in base
  {
    && (forall s :: s in ops[id].footprint && ops[id].footprint[s].before.Some?
          ==> LeftBelow(ops, base, rank, s, ops[id].footprint[s].before.value, rank[id]))
    && (forall p :: p in ops[id].needs ==> LeftBelow(ops, base, rank, p.sym, p.version, rank[id]))
    && (forall e :: e in declared && e.then_ == id ==> e.first in base && rank[e.first] < rank[id])
  }

  ghost predicate IsFounded(ops: Ops, declared: set<Declared>, base: set<Name>, rank: map<Name, nat>) {
    && base <= ops.Keys && base <= rank.Keys
    && forall id :: id in base ==> RestsBelow(ops, declared, base, rank, id)
  }

  lemma FoundedRanksDown(ops: Ops, declared: set<Declared>, base: set<Name>, rank: map<Name, nat>)
    requires IsFounded(ops, declared, base, rank)
    ensures Frontier.RanksDown(ops, declared, base, rank)
  {
    hide NeededBy, Produces, RestsBelow;
    forall id, key | id in base && key in NeededBy(ops, declared, id)
      ensures Frontier.MetBelow(ops, base, rank, id, key)
    {
      assert RestsBelow(ops, declared, base, rank, id);
      NeedRanksDown(ops, declared, base, rank, id, key);
    }
  }

  lemma NeedRanksDown(ops: Ops, declared: set<Declared>, base: set<Name>, rank: map<Name, nat>, id: Name, key: Key)
    requires base <= ops.Keys && base <= rank.Keys && id in base && RestsBelow(ops, declared, base, rank, id)
    requires key in NeededBy(ops, declared, id)
    ensures Frontier.MetBelow(ops, base, rank, id, key)
  {
    match key
    case Made(pin) =>
      assert LeftBelow(ops, base, rank, pin.sym, pin.version, rank[id]);
      var p :| p in base && pin.sym in ops[p].footprint && ops[p].footprint[pin.sym].after == pin.version
               && rank[p] < rank[id];
      assert Produces(ops, p, key);
    case After(q) =>
      assert Produces(ops, q, key);
  }

  /** New ops put on top of those that are founded already. */
  lemma LayerIsFounded(ops: Ops, declared: set<Declared>, s: set<Name>, next: set<Name>, rank: map<Name, nat>, n: nat)
    returns (more: map<Name, nat>)
    requires s <= next <= ops.Keys && IsFounded(ops, declared, s, rank) && forall d :: d in s ==> rank[d] < n
    requires forall d :: d in next && d !in s ==> HasAll(ops, declared, s, d)
    ensures IsFounded(ops, declared, next, more) && forall d :: d in next ==> more[d] < n + 1
  {
    more := map d | d in next :: if d in s then rank[d] else n;
    forall id | id in next ensures RestsBelow(ops, declared, next, more, id) {
      if id in s {
        StaysFounded(ops, declared, s, next, rank, more, id);
      } else {
        assert HasAll(ops, declared, s, id);
        hide HasAll, IsFounded;
        NewIsFounded(ops, declared, s, next, more, id);
      }
    }
  }

  lemma StaysFounded(ops: Ops, declared: set<Declared>, s: set<Name>, next: set<Name>, rank: map<Name, nat>,
                     more: map<Name, nat>, id: Name)
    requires s <= next <= ops.Keys && IsFounded(ops, declared, s, rank) && next <= more.Keys && id in s
    requires forall d :: d in s ==> more[d] == rank[d]
    ensures RestsBelow(ops, declared, next, more, id)
  {
    assert RestsBelow(ops, declared, s, rank, id);
    hide IsFounded;
    forall t, v | LeftBelow(ops, s, rank, t, v, rank[id]) ensures LeftBelow(ops, next, more, t, v, more[id]) {
      var p :| p in s && t in ops[p].footprint && ops[p].footprint[t].after == v && rank[p] < rank[id];
      assert p in next && more[p] < more[id];
    }
    hide LeftBelow;
  }

  lemma NewIsFounded(ops: Ops, declared: set<Declared>, s: set<Name>, next: set<Name>, more: map<Name, nat>, id: Name)
    requires s <= next <= ops.Keys && next <= more.Keys && id in next && HasAll(ops, declared, s, id)
    requires forall d :: d in s ==> more[d] < more[id]
    ensures RestsBelow(ops, declared, next, more, id)
  {
    forall t, v | LeftBy(ops, s, t, v) ensures LeftBelow(ops, next, more, t, v, more[id]) {
      var p :| p in s && t in ops[p].footprint && ops[p].footprint[t].after == v;
      assert p in next && more[p] < more[id];
    }
    hide LeftBelow, LeftBy;
  }

  lemma {:induction false} GrowIsFounded(ops: Ops, declared: set<Declared>, within: set<Name>, s: set<Name>,
                                         rank: map<Name, nat>, n: nat)
    returns (more: map<Name, nat>)
    requires s <= within <= ops.Keys && IsFounded(ops, declared, s, rank) && forall d :: d in s ==> rank[d] < n
    ensures IsFounded(ops, declared, Grow(ops, declared, within, s), more)
    decreases within - s
  {
    var next := s + set d | d in within && IsReady(ops, declared, s, d);
    hide IsReady, IsFounded;
    if next == s { return rank; }
    forall d | d in next && d !in s ensures HasAll(ops, declared, s, d) {
      ReadyExactlyWhen(ops, declared, s, d);
      hide HasAll;
    }
    hide HasAll;
    var layer := LayerIsFounded(ops, declared, s, next, rank, n);
    more := GrowIsFounded(ops, declared, within, next, layer, n + 1);
  }

  /** An op of a set bottoms out within it if and only if it is in a part of the set that can be ranked so that
      every version changed, every version required and every op declared before comes from below. */
  lemma GroundedExactlyWhenFounded(ops: Ops, declared: set<Declared>, within: set<Name>, id: Name)
    requires within <= ops.Keys
    ensures id in Grounded(ops, declared, within)
            <==> exists base, rank :: id in base && base <= within && IsFounded(ops, declared, base, rank)
  {
    if id in Grounded(ops, declared, within) {
      var rank := GrowIsFounded(ops, declared, within, {}, map[], 0);
      assert IsFounded(ops, declared, Grounded(ops, declared, within), rank);
    }
    if base, rank :| id in base && base <= within && IsFounded(ops, declared, base, rank) {
      FoundedRanksDown(ops, declared, base, rank);
      hide Grounded, IsFounded, Frontier.RanksDown;
      Frontier.RankedIsGrounded(ops, declared, base, within, rank, id);
    }
  }

  // ---------------------------------------------------------------------------------------
  // One declared edge.

  /** Two births of different symbols. */
  const BIRTHS: Ops := map["a" := OrderedOp(map["f" := Change(None, Hash("1"))], {}),
                           "b" := OrderedOp(map["g" := Change(None, Hash("2"))], {})]

  /** Declared to follow `a`, `b` does not stay without it; undeclared it does. */
  lemma DeclaredEdgeHolds()
    ensures Reduce(BIRTHS, {Declared("a", "b")}, {"b"}) == {}
    ensures Reduce(BIRTHS, {}, {"b"}) == {"b"}
  {
    var e := Declared("a", "b");
    assert "a" != "b" && "b" in BIRTHS;
    var r := Reduce(BIRTHS, {e}, {"b"});
    assert r <= {"b"};
    if "b" in r {
      DeclaredIsKept(BIRTHS, {e}, {"b"}, e);
      assert false;
    }
    AloneIsKept();
  }

  lemma AloneIsKept()
    ensures Reduce(BIRTHS, {}, {"b"}) == {"b"}
  {
    assert NeededBy(BIRTHS, {}, "b") == {} by { assert BIRTHS["b"].footprint.Keys == {"g"}; }
    hide NeededBy;
    Rootless(BIRTHS, {}, {"b"});
    ClashIsMutual(BIRTHS, "b", "b");
    assert IsIdeal(BIRTHS, {}, {"b"}) by { hide Grounded, Clash; }
    hide Reduce, IsIdeal;
    IdealIsKept(BIRTHS, {}, {"b"});
  }
}
