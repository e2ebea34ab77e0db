/** Which op sets are ideals, and how a set is reduced to one (`sgt/core/order.py`).

    An op set is an ideal when every op bottoms out, through ops of the set, at ops that need nothing,
    and no two of its ops claim the same step of a symbol's chain. */
module Order {
  import opened Names
  import opened BuildMap
  import Remap

  datatype Pin = Pin(sym: Name, version: OpVersion)

  datatype OrderedOp = OrderedOp(footprint: map<Name, Change>, needs: set<Pin>)

  /** Ops by id. */
  type Ops = map<Name, OrderedOp>

  datatype Declared = Declared(first: Name, then_: Name)

  /** What an op may need: a version somebody produces, or a particular op before it. */
  datatype Key = Made(pin: Pin) | After(op: Name)

  function NeededBy(ops: Ops, declared: set<Declared>, id: Name): set<Key>
    requires id in ops
  {
    (set s | s in ops[id].footprint
     && ops[id].footprint[s].before.Some? :: Made(Pin(s, ops[id].footprint[s].before.value)))
    + (set p | p in ops[id].needs :: Made(p))
    + (set e | e in declared && e.then_ == id :: After(e.first))
  }

  predicate Produces(ops: Ops, id: Name, key: Key)
    requires id in ops
  {
    match key
    case Made(p) => p.sym in ops[id].footprint && ops[id].footprint[p.sym].after == p.version
    case After(q) => id == q
  }

  predicate Met(ops: Ops, base: set<Name>, key: Key)
    requires base <= ops.Keys
  {
    exists p :: p in base && Produces(ops, p, key)
  }

  /** Everything the op needs is produced within `base`. */
  predicate IsReady(ops: Ops, declared: set<Declared>, base: set<Name>, id: Name)
    requires base <= ops.Keys && id in ops
  {
    forall k :: k in NeededBy(ops, declared, id) ==> Met(ops, base, k)
  }

  /** An op of the set leaves that version of the symbol. */
  ghost predicate LeftBy(ops: Ops, base: set<Name>, s: Name, v: OpVersion)
    requires base <= ops.Keys
  {
    exists p :: p in base && s in ops[p].footprint && ops[p].footprint[s].after == v
  }

  /** Every version the op changes, and every version it requires, is left by an op of the set, and every op
      declared to come before it is in the set. */
  ghost predicate HasAll(ops: Ops, declared: set<Declared>, base: set<Name>, id: Name)
    requires base <= ops.Keys && id in ops
  {
    && (forall s :: s in ops[id].footprint && ops[id].footprint[s].before.Some?
          ==> LeftBy(ops, base, s, ops[id].footprint[s].before.value))
    && (forall p :: p in ops[id].needs ==> LeftBy(ops, base, p.sym, p.version))
    && (forall e :: e in declared && e.then_ == id ==> e.first in base)
  }

  /** What an op waits for, said of footprints, requirements and declared order. */
  lemma ReadyExactlyWhen(ops: Ops, declared: set<Declared>, base: set<Name>, id: Name)
    requires base <= ops.Keys && id in ops
    ensures IsReady(ops, declared, base, id) <==> HasAll(ops, declared, base, id)
  {
    if IsReady(ops, declared, base, id) {
      ReadyHasAll(ops, declared, base, id);
    }
    if HasAll(ops, declared, base, id) {
      forall key | key in NeededBy(ops, declared, id) ensures Met(ops, base, key) {
        AllIsMet(ops, declared, base, id, key);
      }
      hide NeededBy, Met, HasAll;
    }
  }

  lemma ReadyHasAll(ops: Ops, declared: set<Declared>, base: set<Name>, id: Name)
    requires base <= ops.Keys && id in ops && IsReady(ops, declared, base, id)
    ensures HasAll(ops, declared, base, id)
  {
    forall s | s in ops[id].footprint && ops[id].footprint[s].before.Some?
      ensures LeftBy(ops, base, s, ops[id].footprint[s].before.value)
    {
      var key := Made(Pin(s, ops[id].footprint[s].before.value));
      assert key in NeededBy(ops, declared, id);
      hide NeededBy;
      MetIsLeft(ops, base, key);
    }
    forall p | p in ops[id].needs ensures LeftBy(ops, base, p.sym, p.version) {
      assert Made(p) in NeededBy(ops, declared, id);
      hide NeededBy;
      MetIsLeft(ops, base, Made(p));
    }
    forall e | e in declared && e.then_ == id ensures e.first in base {
      assert After(e.first) in NeededBy(ops, declared, id);
      hide NeededBy;
      MetIsThere(ops, base, e.first);
    }
  }

  lemma MetIsLeft(ops: Ops, base: set<Name>, key: Key)
    requires base <= ops.Keys && key.Made?
    ensures Met(ops, base, key) <==> LeftBy(ops, base, key.pin.sym, key.pin.version)
  {
    if Met(ops, base, key) {
      var p :| p in base && Produces(ops, p, key);
      assert ops[p].footprint[key.pin.sym].after == key.pin.version;
    }
    if LeftBy(ops, base, key.pin.sym, key.pin.version) {
      var p :| p in base && key.pin.sym in ops[p].footprint && ops[p].footprint[key.pin.sym].after == key.pin.version;
      assert Produces(ops, p, key);
    }
  }

  lemma MetIsThere(ops: Ops, base: set<Name>, first: Name)
    requires base <= ops.Keys
    ensures Met(ops, base, After(first)) <==> first in base
  {
    if first in base { assert Produces(ops, first, After(first)); }
  }

  lemma AllIsMet(ops: Ops, declared: set<Declared>, base: set<Name>, id: Name, key: Key)
    requires base <= ops.Keys && id in ops && HasAll(ops, declared, base, id) && key in NeededBy(ops, declared, id)
    ensures Met(ops, base, key)
  {
    match key
    case Made(p) => MetIsLeft(ops, base, key);
    case After(q) => MetIsThere(ops, base, q);
  }

  ghost predicate Closed(ops: Ops, declared: set<Declared>, within: set<Name>, s: set<Name>)
    requires within <= ops.Keys
  {
    s <= ops.Keys && forall d {:trigger d in within} :: d in within && IsReady(ops, declared, s, d) ==> d in s
  }

  /** The least set closed under readiness: what bottoms out within `within`. */
  ghost predicate IsGrounding(ops: Ops, declared: set<Declared>, within: set<Name>, s: set<Name>)
    requires within <= ops.Keys
  {
    && s <= within && Closed(ops, declared, within, s)
    && forall t {:trigger Closed(ops, declared, within, t)} :: Closed(ops, declared, within, t) ==> s <= t
  }

  function Grow(ops: Ops, declared: set<Declared>, within: set<Name>, s: set<Name>): (r: set<Name>)
    requires within <= ops.Keys && s <= within
    ensures s <= r <= within
    decreases within - s
  {
    var next := s + set d | d in within && IsReady(ops, declared, s, d);
    if next == s then s else Grow(ops, declared, within, next)
  }

  function Grounded(ops: Ops, declared: set<Declared>, within: set<Name>): (r: set<Name>)
    requires within <= ops.Keys
    ensures r <= within
  {
    Grow(ops, declared, within, {})
  }

  lemma ReadyGrows(ops: Ops, declared: set<Declared>, s: set<Name>, t: set<Name>, id: Name)
    requires s <= t <= ops.Keys && id in ops && IsReady(ops, declared, s, id)
    ensures IsReady(ops, declared, t, id)
  {
    forall k | k in NeededBy(ops, declared, id) ensures Met(ops, t, k) {
      assert Met(ops, s, k);
    }
  }

  lemma {:induction false} GrowIsLeast(ops: Ops, declared: set<Declared>, within: set<Name>, s: set<Name>, t: set<Name>)
    requires within <= ops.Keys && s <= within && s <= t && Closed(ops, declared, within, t)
    ensures Grow(ops, declared, within, s) <= t
    decreases within - s
  {
    var next := s + set d | d in within && IsReady(ops, declared, s, d);
    forall d | d in next ensures d in t {
      if d !in s { ReadyGrows(ops, declared, s, t, d); }
    }
    if next != s { GrowIsLeast(ops, declared, within, next, t); }
  }

  lemma {:induction false} GrowCloses(ops: Ops, declared: set<Declared>, within: set<Name>, s: set<Name>)
    requires within <= ops.Keys && s <= within
    ensures Closed(ops, declared, within, Grow(ops, declared, within, s))
    decreases within - s
  {
    hide IsReady;
    var next := s + set d | d in within && IsReady(ops, declared, s, d);
    if next != s {
      GrowCloses(ops, declared, within, next);
    } else {
      forall d | d in within && IsReady(ops, declared, s, d) ensures d in s { assert d in next; }
    }
  }

  lemma GroundedIsGrounding(ops: Ops, declared: set<Declared>, within: set<Name>)
    requires within <= ops.Keys
    ensures IsGrounding(ops, declared, within, Grounded(ops, declared, within))
  {
    GrowCloses(ops, declared, within, {});
    forall t {:trigger Closed(ops, declared, within, t)} | Closed(ops, declared, within, t)
      ensures Grounded(ops, declared, within) <= t
    {
      GrowIsLeast(ops, declared, within, {}, t);
    }
    hide Closed;
  }

  lemma GroundingIsUnique(ops: Ops, declared: set<Declared>, within: set<Name>, s: set<Name>, t: set<Name>)
    requires within <= ops.Keys && IsGrounding(ops, declared, within, s) && IsGrounding(ops, declared, within, t)
    ensures s == t
  {
    hide Closed;
    assert s <= t && t <= s;
  }

  /** What bottoms out still bottoms out on its own. */
  lemma GroundedIsStable(ops: Ops, declared: set<Declared>, within: set<Name>)
    requires within <= ops.Keys
    ensures Grounded(ops, declared, Grounded(ops, declared, within)) == Grounded(ops, declared, within)
  {
    var g := Grounded(ops, declared, within);
    var gg := Grounded(ops, declared, g);
    GroundedIsGrounding(ops, declared, within);
    GroundedIsGrounding(ops, declared, g);
    assert Closed(ops, declared, within, gg) by {
      forall d | d in within && IsReady(ops, declared, gg, d) ensures d in gg {
        ReadyGrows(ops, declared, gg, g, d);
        assert d in g;
      }
    }
  }

  // ---------------------------------------------------------------------------------------
  // Forks.

  /** Two ops claim the same step: the same symbol from the same version. */
  predicate Clash(ops: Ops, a: Name, b: Name)
    requires a in ops && b in ops
  {
    a != b && exists s :: s in ops[a].footprint && s in ops[b].footprint
                && ops[a].footprint[s].before == ops[b].footprint[s].before
  }

  predicate ForkFree(ops: Ops, s: set<Name>)
    requires s <= ops.Keys
  {
    forall a, b :: a in s && b in s ==> !Clash(ops, a, b)
  }

  /** Every op that clashes with another of the set. */
  function Tips(ops: Ops, s: set<Name>): set<Name>
    requires s <= ops.Keys
  {
    set a | a in s && exists b :: b in s && Clash(ops, a, b)
  }

  /** `fork_free`. */
  function WithoutForks(ops: Ops, declared: set<Declared>, s: set<Name>): (r: set<Name>)
    requires s <= ops.Keys
    ensures r <= s
  {
    if Tips(ops, s) == {} then s else Grounded(ops, declared, s - Tips(ops, s))
  }

  /** `reduce_to_ideal`: the ids that are there, grounded, forks taken out. */
  function Reduce(ops: Ops, declared: set<Declared>, ids: set<Name>): (r: set<Name>)
    ensures r <= ids && r <= ops.Keys
  {
    WithoutForks(ops, declared, Grounded(ops, declared, ids * ops.Keys))
  }

  /** `is_valid_ideal`. */
  predicate IsIdeal(ops: Ops, declared: set<Declared>, s: set<Name>) {
    s <= ops.Keys && Grounded(ops, declared, s) == s && ForkFree(ops, s)
  }

  lemma NoTips(ops: Ops, s: set<Name>)
    requires s <= ops.Keys
    ensures Tips(ops, s) == {} <==> ForkFree(ops, s)
  {
    hide Clash;
    if Tips(ops, s) == {} {
      forall a, b | a in s && b in s ensures !Clash(ops, a, b) { assert a !in Tips(ops, s); }
    }
  }

  lemma RestIsForkFree(ops: Ops, s: set<Name>, r: set<Name>)
    requires s <= ops.Keys && r <= s - Tips(ops, s)
    ensures ForkFree(ops, r)
  {
    hide Clash;
    forall a, b | a in r && b in r ensures !Clash(ops, a, b) { assert a !in Tips(ops, s); }
  }

  /** Whatever it is given, the reduction is an ideal. */
  lemma ReduceIsIdeal(ops: Ops, declared: set<Declared>, ids: set<Name>)
    ensures IsIdeal(ops, declared, Reduce(ops, declared, ids))
  {
    var g := Grounded(ops, declared, ids * ops.Keys);
    GroundedIsStable(ops, declared, ids * ops.Keys);
    NoTips(ops, g);
    if Tips(ops, g) != {} {
      GroundedIsStable(ops, declared, g - Tips(ops, g));
      RestIsForkFree(ops, g, Reduce(ops, declared, ids));
    }
    hide Grounded, ForkFree, Tips;
  }

  /** An ideal reduces to itself. */
  lemma IdealIsKept(ops: Ops, declared: set<Declared>, s: set<Name>)
    requires IsIdeal(ops, declared, s)
    ensures Reduce(ops, declared, s) == s
  {
    assert s * ops.Keys == s;
    NoTips(ops, s);
    hide Grounded, ForkFree, Tips;
  }

  /** So the reduction has the two properties the version crossing relies on. */
  lemma ReductionIsLawful(ops: Ops, declared: set<Declared>)
    ensures Remap.Reduces(ids => Reduce(ops, declared, ids))
  {
    var f := ids => Reduce(ops, declared, ids);
    forall s: set<Name> {:trigger f(s)} ensures f(s) <= s && f(f(s)) == f(s) {
      hide Reduce;
      ReduceIsIdeal(ops, declared, s);
      IdealIsKept(ops, declared, f(s));
    }
  }

  // ---------------------------------------------------------------------------------------
  // How much of the input it keeps.

  /** No larger ideal within the same input. */
  ghost predicate IsMaximal(ops: Ops, declared: set<Declared>, ids: set<Name>, r: set<Name>) {
    forall s {:trigger IsIdeal(ops, declared, s)} :: r <= s <= ids && IsIdeal(ops, declared, s) ==> s == r
  }

  lemma IdealsAreGrounded(ops: Ops, declared: set<Declared>, ids: set<Name>, s: set<Name>)
    requires s <= ids && IsIdeal(ops, declared, s)
    ensures s <= Grounded(ops, declared, ids * ops.Keys)
  {
    var all := ids * ops.Keys;
    var g := Grounded(ops, declared, all);
    GroundedIsGrounding(ops, declared, s);
    GroundedIsGrounding(ops, declared, all);
    assert Closed(ops, declared, s, g) by {
      hide Grounded, IsReady;
      forall d | d in s && IsReady(ops, declared, g, d) ensures d in g { assert d in all; }
    }
  }

  lemma SomeTipIsReady(ops: Ops, declared: set<Declared>, within: set<Name>)
    requires within <= ops.Keys
    requires var g := Grounded(ops, declared, within);
             forall u :: u in Tips(ops, g)
               ==> u in g && !IsReady(ops, declared, Grounded(ops, declared, g - Tips(ops, g)), u)
    ensures Tips(ops, Grounded(ops, declared, within)) == {}
  {
    var g := Grounded(ops, declared, within);
    var tips := Tips(ops, g);
    var r := Grounded(ops, declared, g - tips);
    GroundedIsGrounding(ops, declared, within);
    GroundedIsGrounding(ops, declared, g - tips);
    hide Grounded, Tips, IsReady;
    assert Closed(ops, declared, within, r) by {
      forall d | d in within && IsReady(ops, declared, r, d) ensures d in r {
        ReadyGrows(ops, declared, r, g, d);
        assert d in g - tips;
      }
    }
    assert g <= r;
  }

  /** With a fork there is an op left out that could have stayed: a first tip needs only what is kept,
      and clashes only with what is not. */
  lemma FirstTip(ops: Ops, declared: set<Declared>, within: set<Name>) returns (t: Name)
    requires within <= ops.Keys && Tips(ops, Grounded(ops, declared, within)) != {}
    ensures var g := Grounded(ops, declared, within);
            t in Tips(ops, g) && t in g && IsReady(ops, declared, WithoutForks(ops, declared, g), t)
  {
    var g := Grounded(ops, declared, within);
    var r := Grounded(ops, declared, g - Tips(ops, g));
    assert forall u :: u in Tips(ops, g) ==> u in g;
    hide Grounded, Tips, IsReady;
    if forall u :: u in Tips(ops, g) ==> !IsReady(ops, declared, r, u) {
      SomeTipIsReady(ops, declared, within);
    }
    t :| t in Tips(ops, g) && IsReady(ops, declared, r, t);
  }

  lemma TipsWithin(ops: Ops, s: set<Name>, t: Name)
    requires s <= ops.Keys && t in Tips(ops, s)
    ensures t in s
  {
  }

  lemma KeptClashWithNoTip(ops: Ops, g: set<Name>, r: set<Name>, t: Name, b: Name)
    requires g <= ops.Keys && r <= g - Tips(ops, g) && t in g && b in r
    ensures !Clash(ops, t, b) && !Clash(ops, b, t)
  {
    assert b !in Tips(ops, g);
    assert !Clash(ops, b, t);
    ClashIsMutual(ops, t, b);
  }

  lemma ClashIsMutual(ops: Ops, a: Name, b: Name)
    requires a in ops && b in ops
    ensures Clash(ops, a, b) <==> Clash(ops, b, a)
    ensures !Clash(ops, a, a)
  {
  }

  lemma OneMoreIsIdeal(ops: Ops, declared: set<Declared>, g: set<Name>, r: set<Name>, t: Name)
    requires g <= ops.Keys && IsIdeal(ops, declared, r) && r <= g - Tips(ops, g) && t in g
             && IsReady(ops, declared, r, t)
    ensures IsIdeal(ops, declared, r + {t})
  {
    var s := r + {t};
    GroundedIsGrounding(ops, declared, s);
    GroundedIsGrounding(ops, declared, r);
    var gs := Grounded(ops, declared, s);
    hide Grounded, IsReady, Clash, Tips;
    assert Closed(ops, declared, r, gs) by {
      forall d | d in r && IsReady(ops, declared, gs, d) ensures d in gs { assert d in s; }
    }
    assert r <= gs;
    ReadyGrows(ops, declared, r, gs, t);
    assert t in s && t in gs;
    forall a, b | a in s && b in s ensures !Clash(ops, a, b) {
      if a == t && b == t { ClashIsMutual(ops, t, t); }
      else if a == t { KeptClashWithNoTip(ops, g, r, t, b); }
      else if b == t { KeptClashWithNoTip(ops, g, r, t, a); }
    }
  }

  /** The reduction is a maximal ideal of its input exactly when what bottoms out there has no fork: it
      drops both tips of every fork and all that rests on them, where keeping one would still be an
      ideal. */
  lemma ReduceIsMaximalExactlyWhen(ops: Ops, declared: set<Declared>, ids: set<Name>)
    ensures IsMaximal(ops, declared, ids, Reduce(ops, declared, ids))
            <==> ForkFree(ops, Grounded(ops, declared, ids * ops.Keys))
  {
    var g, r := Grounded(ops, declared, ids * ops.Keys), Reduce(ops, declared, ids);
    NoTips(ops, g);
    ReduceIsIdeal(ops, declared, ids);
    if Tips(ops, g) == {} {
      hide IsIdeal, Grounded, ForkFree, Tips;
      forall s {:trigger IsIdeal(ops, declared, s)} | r <= s <= ids && IsIdeal(ops, declared, s) ensures s == r {
        IdealsAreGrounded(ops, declared, ids, s);
      }
    } else {
      var t := FirstTip(ops, declared, ids * ops.Keys);
      TipsWithin(ops, g, t);
      hide IsIdeal, Grounded, ForkFree, Tips, IsReady;
      OneMoreIsIdeal(ops, declared, g, r, t);
      assert t !in r;
      assert r <= r + {t} <= ids;
    }
  }

  /** `s` holds every ideal within `within`. */
  ghost predicate HoldsAllIdeals(ops: Ops, declared: set<Declared>, within: set<Name>, s: set<Name>) {
    forall i {:trigger IsIdeal(ops, declared, i)} :: i <= within && IsIdeal(ops, declared, i) ==> i <= s
  }

  /** Taking forks out of a downward-closed set leaves the largest ideal in it if and only if there is no fork
      to take out: with one, a first tip could have stayed. */
  lemma ForkFreeIsLargestExactlyWhen(ops: Ops, declared: set<Declared>, s: set<Name>)
    requires s <= ops.Keys && Grounded(ops, declared, s) == s
    ensures IsIdeal(ops, declared, WithoutForks(ops, declared, s))
    ensures HoldsAllIdeals(ops, declared, s, WithoutForks(ops, declared, s)) <==> ForkFree(ops, s)
  {
    NoTips(ops, s);
    ReduceIsIdeal(ops, declared, s);
    assert s * ops.Keys == s;
    var r := WithoutForks(ops, declared, s);
    assert Reduce(ops, declared, s) == r;
    if Tips(ops, s) != {} {
      var t := FirstTip(ops, declared, s);
      TipsWithin(ops, s, t);
      assert r <= s - Tips(ops, s);
      hide IsIdeal, Grounded, ForkFree, Tips, IsReady;
      OneMoreIsIdeal(ops, declared, s, r, t);
      assert r + {t} <= s && t !in r;
    }
    hide IsIdeal, Grounded, ForkFree, Tips, IsReady;
  }

  lemma Rootless(ops: Ops, declared: set<Declared>, within: set<Name>)
    requires within <= ops.Keys && forall d :: d in within ==> NeededBy(ops, declared, d) == {}
    ensures Grounded(ops, declared, within) == within
  {
    var g := Grounded(ops, declared, within);
    GroundedIsGrounding(ops, declared, within);
    hide Grounded, NeededBy;
    forall d | d in within ensures d in g { assert IsReady(ops, declared, g, d); }
  }

  lemma BothAreTips(ops: Ops, a: Name, b: Name)
    requires a in ops && b in ops && Clash(ops, a, b)
    ensures Tips(ops, {a, b}) == {a, b}
  {
    ClashIsMutual(ops, a, b);
    var all := {a, b};
    hide Clash;
    forall x | x in all ensures x in Tips(ops, all) {
      if x == a { assert b in all; } else { assert a in all; }
    }
  }

  lemma TwoRoots(ops: Ops, a: Name, b: Name)
    requires ops.Keys == {a, b} && Clash(ops, a, b) && NeededBy(ops, {}, a) == {} && NeededBy(ops, {}, b) == {}
    ensures Reduce(ops, {}, {a, b}) == {} && IsIdeal(ops, {}, {a})
  {
    var all := {a, b};
    hide Grounded, NeededBy, Clash, Tips;
    Rootless(ops, {}, all);
    Rootless(ops, {}, {a});
    ClashIsMutual(ops, a, a);
    BothAreTips(ops, a, b);
    assert all * ops.Keys == all;
    assert all - all == {};
  }

  /** The smallest case: two births of one symbol.  Nothing survives, though either alone is an ideal. */
  lemma TwoBirthsLeaveNothing()
    ensures var ops := map["a" := OrderedOp(map["f" := Change(None, Hash("1"))], {}),
                           "b" := OrderedOp(map["f" := Change(None, Hash("2"))], {})];
            Reduce(ops, {}, {"a", "b"}) == {} && IsIdeal(ops, {}, {"a"})
  {
    var ops: Ops := map["a" := OrderedOp(map["f" := Change(None, Hash("1"))], {}),
                        "b" := OrderedOp(map["f" := Change(None, Hash("2"))], {})];
    assert ops.Keys == {"a", "b"};
    assert "f" in ops["a"].footprint && "f" in ops["b"].footprint && "a" != "b";
    assert Clash(ops, "a", "b");
    assert NeededBy(ops, {}, "a") == {} && NeededBy(ops, {}, "b") == {};
    hide Clash, NeededBy, Reduce, IsIdeal;
    TwoRoots(ops, "a", "b");
  }
}
