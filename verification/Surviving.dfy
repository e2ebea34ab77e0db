/** Which of a path's ops survive the reduction, read off its history (`sgt/core/order.py`, `reduce_to_ideal`, over
    the ops of `sgt/core/mine.py`): a reference for the reduction that knows commits, symbols and versions, and
    neither names nor ids. */
module Surviving {
  import opened Names
  import opened Symbols
  import opened Chains
  import opened Codecs
  import opened MinedOps
  import opened PathOps
  import opened Rooting
  import Apart
  import Order
  import Frontier

  // ---------------------------------------------------------------------------------------
  // Bottoming out, level by level.

  /** The op rests on ops of the set, within that many steps. */
  ghost predicate RestsOn(ops: Order.Ops, within: set<Name>, id: Name, j: nat)
    requires within <= ops.Keys
    decreases j, 1
  {
    id in within && forall key :: key in Order.NeededBy(ops, {}, id) ==> RestedOn(ops, within, key, j)
  }

  ghost predicate RestedOn(ops: Order.Ops, within: set<Name>, key: Order.Key, j: nat)
    requires within <= ops.Keys
    decreases j, 0
  {
    j > 0 && exists p :: p in within && Order.Produces(ops, p, key) && RestsOn(ops, within, p, j - 1)
  }

  lemma {:induction false} RestsLonger(ops: Order.Ops, within: set<Name>, id: Name, j: nat, k: nat)
    requires within <= ops.Keys && j <= k && RestsOn(ops, within, id, j)
    ensures RestsOn(ops, within, id, k)
    decreases j, 1
  {
    forall key | key in Order.NeededBy(ops, {}, id) ensures RestedOn(ops, within, key, k) {
      assert RestedOn(ops, within, key, j);
      hide *;
      RestedLonger(ops, within, key, j, k);
    }
    hide Order.NeededBy, RestedOn;
  }

  lemma {:induction false} RestedLonger(ops: Order.Ops, within: set<Name>, key: Order.Key, j: nat, k: nat)
    requires within <= ops.Keys && j <= k && RestedOn(ops, within, key, j)
    ensures RestedOn(ops, within, key, k)
    decreases j, 0
  {
    hide *;
    var p := RestedBy(ops, within, key, j);
    RestsLonger(ops, within, p, j - 1, k - 1);
    RestedBelow(ops, within, key, p, k);
  }

  lemma {:induction false} RestsIsGrounded(ops: Order.Ops, within: set<Name>, id: Name, j: nat)
    requires within <= ops.Keys && RestsOn(ops, within, id, j)
    ensures id in Order.Grounded(ops, {}, within)
    decreases j
  {
    var g := Order.Grounded(ops, {}, within);
    forall key | key in Order.NeededBy(ops, {}, id) ensures Order.Met(ops, g, key) {
      assert RestedOn(ops, within, key, j);
      hide Order.NeededBy, Order.Produces, Order.Grounded;
      var p :| p in within && Order.Produces(ops, p, key) && RestsOn(ops, within, p, j - 1);
      RestsIsGrounded(ops, within, p, j - 1);
    }
    hide Order.NeededBy, Order.Grounded, RestedOn, Order.Met;
    Frontier.AllMetIsReady(ops, {}, g, id);
    Frontier.ReadyIsGrounded(ops, {}, within, id);
  }

  ghost predicate RestedSome(ops: Order.Ops, within: set<Name>, key: Order.Key)
    requires within <= ops.Keys
  {
    exists j: nat :: RestedOn(ops, within, key, j)
  }

  /** One level will do for finitely many needs. */
  lemma {:induction false} OneLevel(ops: Order.Ops, within: set<Name>, keys: set<Order.Key>) returns (j: nat)
    requires within <= ops.Keys && forall key :: key in keys ==> RestedSome(ops, within, key)
    ensures forall key :: key in keys ==> RestedOn(ops, within, key, j)
    decreases |keys|
  {
    if keys == {} { return 0; }
    var key :| key in keys;
    assert RestedSome(ops, within, key);
    var i: nat :| RestedOn(ops, within, key, i);
    var rest := keys - {key};
    hide RestedOn, RestsOn, RestedSome;
    var k := OneLevel(ops, within, rest);
    j := if i < k then k else i;
    forall x | x in keys ensures RestedOn(ops, within, x, j) {
      if x == key { RestedLonger(ops, within, x, i, j); } else { RestedLonger(ops, within, x, k, j); }
    }
  }

  ghost predicate Rests(ops: Order.Ops, within: set<Name>, id: Name)
    requires within <= ops.Keys
  {
    exists j: nat :: RestsOn(ops, within, id, j)
  }

  lemma ReadyRests(ops: Order.Ops, within: set<Name>, base: set<Name>, id: Name)
    requires base <= within <= ops.Keys && id in within && Order.IsReady(ops, {}, base, id)
    requires forall p :: p in base ==> Rests(ops, within, p)
    ensures Rests(ops, within, id)
  {
    var keys := Order.NeededBy(ops, {}, id);
    forall key | key in keys ensures RestedSome(ops, within, key) {
      assert Order.Met(ops, base, key);
      hide RestsOn, Order.NeededBy, Order.Produces;
      var p :| p in base && Order.Produces(ops, p, key);
      assert Rests(ops, within, p);
      var j: nat :| RestsOn(ops, within, p, j);
      assert RestedOn(ops, within, key, j + 1);
    }
    hide Order.NeededBy, RestedOn, RestedSome;
    var j := OneLevel(ops, within, keys);
    assert RestsOn(ops, within, id, j);
  }

  /** Bottoming out is resting on something, however far down. */
  lemma GroundedExactlyWhenRests(ops: Order.Ops, within: set<Name>, id: Name)
    requires within <= ops.Keys
    ensures id in Order.Grounded(ops, {}, within) <==> Rests(ops, within, id)
  {
    var g := Order.Grounded(ops, {}, within);
    var base := set d | d in within && Rests(ops, within, d);
    Order.GroundedIsGrounding(ops, {}, within);
    hide Order.Grounded, Order.IsReady, RestsOn, Order.NeededBy;
    forall d | d in within && Order.IsReady(ops, {}, base, d) ensures d in base {
      hide Rests;
      ReadyRests(ops, within, base, d);
    }
    assert Order.Closed(ops, {}, within, base);
    if Rests(ops, within, id) {
      var j: nat :| RestsOn(ops, within, id, j);
      RestsIsGrounded(ops, within, id, j);
    }
  }

  // ---------------------------------------------------------------------------------------
  // The same of what ops say.

  /** The versions an op's content builds on or requires. */
  function Needs(d: Deed): (r: set<Want>)
    ensures forall w :: w in r <==> w in d.wants || (w.sym in d.hops && d.hops[w.sym].before == Some(w.version))
  {
    (set s | s in d.hops && d.hops[s].before.Some? :: Want(s, d.hops[s].before.value)) + d.wants
  }

  predicate Leaves(d: Deed, w: Want) {
    w.sym in d.hops && d.hops[w.sym].after == w.version
  }

  /** Within that many steps it rests on others of the set. */
  ghost predicate DeedRests(deeds: set<Deed>, d: Deed, j: nat)
    decreases j, 1
  {
    d in deeds && forall w :: w in Needs(d) ==> WantRests(deeds, w, j)
  }

  ghost predicate WantRests(deeds: set<Deed>, w: Want, j: nat)
    decreases j, 0
  {
    j > 0 && exists e :: e in deeds && Leaves(e, w) && DeedRests(deeds, e, j - 1)
  }

  ghost predicate HasDepth(deeds: set<Deed>, d: Deed) {
    exists j: nat :: DeedRests(deeds, d, j)
  }

  ghost function Resting(deeds: set<Deed>): (r: set<Deed>)
    ensures forall d :: d in r <==> d in deeds && HasDepth(deeds, d)
  {
    set d | d in deeds && HasDepth(deeds, d)
  }

  /** Another of the set changes a symbol from the same version. */
  ghost predicate Rivals(d: Deed, e: Deed) {
    d != e && exists s :: s in d.hops && s in e.hops && d.hops[s].before == e.hops[s].before
  }

  ghost function Splitting(deeds: set<Deed>): (r: set<Deed>)
    ensures forall d :: d in r <==> d in deeds && exists e :: e in deeds && Rivals(d, e)
  {
    set d | d in deeds && exists e :: e in deeds && Rivals(d, e)
  }

  /** What survives: of what rests on something down to births, that which has no rival, as far as it rests on its
      like. */
  ghost function Surviving(deeds: set<Deed>): set<Deed> {
    Resting(Resting(deeds) - Splitting(Resting(deeds)))
  }

  function KeyOf(c: Codec, w: Want): Order.Key {
    Order.Made(Order.Pin(c.name(w.sym), c.version(w.version)))
  }

  lemma NeedKeys(c: Codec, ops: Order.Ops, id: Name, d: Deed, key: Order.Key)
    requires IsCodec(c) && id in ops && ops[id] == OpFor(c, d)
    ensures key in Order.NeededBy(ops, {}, id) <==> exists w :: w in Needs(d) && key == KeyOf(c, w)
  {
    if key in Order.NeededBy(ops, {}, id) {
      hide IsCodec, OpFor, Order.NeededBy;
      NeedsOf(c, ops, id, d, key);
      if s :| HopNeeds(c, d, s, key) {
        assert Want(s, d.hops[s].before.value) in Needs(d);
        assert key == KeyOf(c, Want(s, d.hops[s].before.value));
      } else {
        var w :| WantNeeds(c, d, w, key);
        assert w in Needs(d) && key == KeyOf(c, w);
      }
    }
    if w :| w in Needs(d) && key == KeyOf(c, w) {
      NeedIsKey(c, ops, id, d, w);
    }
  }

  lemma NeedIsKey(c: Codec, ops: Order.Ops, id: Name, d: Deed, w: Want)
    requires IsCodec(c) && id in ops && ops[id] == OpFor(c, d) && w in Needs(d)
    ensures KeyOf(c, w) in Order.NeededBy(ops, {}, id)
  {
    if w in d.wants {
      assert Order.Pin(c.name(w.sym), c.version(w.version)) in ops[id].needs;
    } else {
      FootprintAt(c, d.hops, w.sym);
      hide Footprint;
      assert c.name(w.sym) in ops[id].footprint;
      assert ops[id].footprint[c.name(w.sym)].before == Some(c.version(w.version));
    }
  }

  lemma MakesKey(c: Codec, ops: Order.Ops, id: Name, d: Deed, w: Want)
    requires IsCodec(c) && id in ops && ops[id] == OpFor(c, d)
    ensures Order.Produces(ops, id, KeyOf(c, w)) <==> Leaves(d, w)
  {
    FootprintAt(c, d.hops, w.sym);
    hide Footprint;
  }

  lemma DeedOp(c: Codec, all: set<Deed>, d: Deed)
    requires IsCodec(c) && d in all
    ensures var ops := OpsFor(c, all);
            IdFor(c, d) in ops && ops[IdFor(c, d)] == OpFor(c, d)
  {
    hide *;
    OpsForAt(c, all, d);
  }

  lemma IdIn(c: Codec, deeds: set<Deed>, d: Deed)
    requires IsCodec(c)
    ensures IdFor(c, d) in AllIds(c, deeds) <==> d in deeds
  {
    if IdFor(c, d) in AllIds(c, deeds) {
      var e :| e in deeds && IdFor(c, e) == IdFor(c, d);
      hide *;
      IdsAreContent(c, d, e);
    }
  }

  lemma IdFrom(c: Codec, deeds: set<Deed>, id: Name) returns (d: Deed)
    requires id in AllIds(c, deeds)
    ensures d in deeds && IdFor(c, d) == id
  {
    hide IdFor;
    d :| d in deeds && IdFor(c, d) == id;
  }

  lemma IdsWithin(c: Codec, all: set<Deed>, deeds: set<Deed>)
    requires deeds <= all
    ensures AllIds(c, deeds) <= OpsFor(c, all).Keys
  {
    hide IdFor, OpFor, DeedNamed;
  }

  lemma {:induction false} RestsAlike(c: Codec, all: set<Deed>, deeds: set<Deed>, d: Deed, j: nat)
    requires IsCodec(c) && deeds <= all && d in all
    ensures AllIds(c, deeds) <= OpsFor(c, all).Keys
    ensures RestsOn(OpsFor(c, all), AllIds(c, deeds), IdFor(c, d), j) <==> DeedRests(deeds, d, j)
    decreases j, 1
  {
    hide *;
    var ops, ids, id := OpsFor(c, all), AllIds(c, deeds), IdFor(c, d);
    IdsWithin(c, all, deeds);
    IdIn(c, deeds, d);
    DeedOp(c, all, d);
    forall w | w in Needs(d) ensures RestedOn(ops, ids, KeyOf(c, w), j) <==> WantRests(deeds, w, j) {
      WantAlike(c, all, deeds, w, j);
    }
    forall key ensures key in Order.NeededBy(ops, {}, id) <==> exists w :: w in Needs(d) && key == KeyOf(c, w) {
      NeedKeys(c, ops, id, d, key);
    }
    RestsByWants(c, ops, ids, id, deeds, d, j);
  }

  lemma RestsByWants(c: Codec, ops: Order.Ops, ids: set<Name>, id: Name, deeds: set<Deed>, d: Deed, j: nat)
    requires ids <= ops.Keys && id in ops && (id in ids <==> d in deeds)
    requires forall w :: w in Needs(d) ==> (RestedOn(ops, ids, KeyOf(c, w), j) <==> WantRests(deeds, w, j))
    requires forall key :: key in Order.NeededBy(ops, {}, id) <==> exists w :: w in Needs(d) && key == KeyOf(c, w)
    ensures RestsOn(ops, ids, id, j) <==> DeedRests(deeds, d, j)
  {
    hide RestedOn, WantRests, Order.NeededBy, Needs, KeyOf;
    if RestsOn(ops, ids, id, j) {
      forall w | w in Needs(d) ensures WantRests(deeds, w, j) {
        assert KeyOf(c, w) in Order.NeededBy(ops, {}, id);
      }
    }
    if DeedRests(deeds, d, j) {
      forall key | key in Order.NeededBy(ops, {}, id) ensures RestedOn(ops, ids, key, j) {
        var w :| w in Needs(d) && key == KeyOf(c, w);
      }
    }
  }

  lemma {:induction false} WantAlike(c: Codec, all: set<Deed>, deeds: set<Deed>, w: Want, j: nat)
    requires IsCodec(c) && deeds <= all
    ensures AllIds(c, deeds) <= OpsFor(c, all).Keys
    ensures RestedOn(OpsFor(c, all), AllIds(c, deeds), KeyOf(c, w), j) <==> WantRests(deeds, w, j)
    decreases j, 0
  {
    hide *;
    var ops, ids := OpsFor(c, all), AllIds(c, deeds);
    IdsWithin(c, all, deeds);
    if RestedOn(ops, ids, KeyOf(c, w), j) {
      var p := RestedBy(ops, ids, KeyOf(c, w), j);
      var e := IdFrom(c, deeds, p);
      DeedOp(c, all, e);
      MakesKey(c, ops, p, e, w);
      RestsAlike(c, all, deeds, e, j - 1);
      WantRestsOn(deeds, w, e, j);
    }
    if WantRests(deeds, w, j) {
      var e := WantBy(deeds, w, j);
      IdIn(c, deeds, e);
      DeedOp(c, all, e);
      MakesKey(c, ops, IdFor(c, e), e, w);
      RestsAlike(c, all, deeds, e, j - 1);
      RestedBelow(ops, ids, KeyOf(c, w), IdFor(c, e), j);
    }
  }

  lemma RestedBy(ops: Order.Ops, ids: set<Name>, key: Order.Key, j: nat) returns (p: Name)
    requires ids <= ops.Keys && RestedOn(ops, ids, key, j)
    ensures j > 0 && p in ids && Order.Produces(ops, p, key) && RestsOn(ops, ids, p, j - 1)
  {
    hide RestsOn, Order.Produces;
    p :| p in ids && Order.Produces(ops, p, key) && RestsOn(ops, ids, p, j - 1);
  }

  lemma RestedBelow(ops: Order.Ops, ids: set<Name>, key: Order.Key, p: Name, j: nat)
    requires ids <= ops.Keys && j > 0 && p in ids && Order.Produces(ops, p, key) && RestsOn(ops, ids, p, j - 1)
    ensures RestedOn(ops, ids, key, j)
  {
    hide RestsOn, Order.Produces;
  }

  lemma WantBy(deeds: set<Deed>, w: Want, j: nat) returns (e: Deed)
    requires WantRests(deeds, w, j)
    ensures j > 0 && e in deeds && Leaves(e, w) && DeedRests(deeds, e, j - 1)
  {
    hide DeedRests, Leaves;
    e :| e in deeds && Leaves(e, w) && DeedRests(deeds, e, j - 1);
  }

  lemma WantRestsOn(deeds: set<Deed>, w: Want, e: Deed, j: nat)
    requires j > 0 && e in deeds && Leaves(e, w) && DeedRests(deeds, e, j - 1)
    ensures WantRests(deeds, w, j)
  {
    hide DeedRests, Leaves;
  }

  /** What bottoms out is what rests. */
  lemma GroundedIsResting(c: Codec, all: set<Deed>, deeds: set<Deed>)
    requires IsCodec(c) && deeds <= all
    ensures AllIds(c, deeds) <= OpsFor(c, all).Keys
    ensures Order.Grounded(OpsFor(c, all), {}, AllIds(c, deeds)) == AllIds(c, Resting(deeds))
  {
    hide *;
    var ops, ids := OpsFor(c, all), AllIds(c, deeds);
    IdsWithin(c, all, deeds);
    RestingWithin(deeds);
    GroundedWithin(ops, ids);
    IdsLess(c, Resting(deeds), deeds);
    forall id | id in ids ensures id in Order.Grounded(ops, {}, ids) <==> id in AllIds(c, Resting(deeds)) {
      var d := IdFrom(c, deeds, id);
      IdIn(c, Resting(deeds), d);
      GroundedExactlyWhenRests(ops, ids, id);
      forall j: nat ensures RestsOn(ops, ids, id, j) <==> DeedRests(deeds, d, j) { RestsAlike(c, all, deeds, d, j); }
      RestsSome(ops, ids, id, deeds, d);
    }
  }

  lemma RestsSome(ops: Order.Ops, ids: set<Name>, id: Name, deeds: set<Deed>, d: Deed)
    requires ids <= ops.Keys && d in deeds
    requires forall j: nat :: RestsOn(ops, ids, id, j) <==> DeedRests(deeds, d, j)
    ensures Rests(ops, ids, id) <==> d in Resting(deeds)
  {
    hide RestsOn, DeedRests;
    assert HasDepth(deeds, d) <==> Rests(ops, ids, id);
  }

  lemma RestingWithin(deeds: set<Deed>)
    ensures Resting(deeds) <= deeds
  {
    hide DeedRests;
  }

  lemma IdsLess(c: Codec, less: set<Deed>, more: set<Deed>)
    requires less <= more
    ensures AllIds(c, less) <= AllIds(c, more)
  {
    hide IdFor;
  }

  lemma GroundedWithin(ops: Order.Ops, ids: set<Name>)
    requires ids <= ops.Keys
    ensures Order.Grounded(ops, {}, ids) <= ids
  {
    hide Order.Grounded;
  }

  lemma TipsAreSplitting(c: Codec, all: set<Deed>, deeds: set<Deed>)
    requires IsCodec(c) && deeds <= all
    ensures AllIds(c, deeds) <= OpsFor(c, all).Keys
    ensures AllIds(c, deeds) - Order.Tips(OpsFor(c, all), AllIds(c, deeds)) == AllIds(c, deeds - Splitting(deeds))
  {
    hide *;
    var ops, ids := OpsFor(c, all), AllIds(c, deeds);
    IdsWithin(c, all, deeds);
    IdsLess(c, deeds - Splitting(deeds), deeds);
    forall id | id in ids ensures id in Order.Tips(ops, ids) <==> id !in AllIds(c, deeds - Splitting(deeds)) {
      var d := IdFrom(c, deeds, id);
      IdIn(c, deeds - Splitting(deeds), d);
      TipIsSplitting(c, all, deeds, d);
    }
  }

  lemma TipIsSplitting(c: Codec, all: set<Deed>, deeds: set<Deed>, d: Deed)
    requires IsCodec(c) && deeds <= all && d in deeds
    ensures AllIds(c, deeds) <= OpsFor(c, all).Keys
    ensures IdFor(c, d) in Order.Tips(OpsFor(c, all), AllIds(c, deeds)) <==> d in Splitting(deeds)
  {
    hide *;
    var ops, ids := OpsFor(c, all), AllIds(c, deeds);
    IdsWithin(c, all, deeds);
    IdIn(c, deeds, d);
    DeedOp(c, all, d);
    if IdFor(c, d) in Order.Tips(ops, ids) {
      var b := TipRival(ops, ids, IdFor(c, d));
      var e := IdFrom(c, deeds, b);
      DeedOp(c, all, e);
      ClashIsTwoWays(c, ops, d, e);
      RivalsIs(d, e);
      SplitsBy(deeds, d, e);
    }
    if d in Splitting(deeds) {
      var e := RivalOf(deeds, d);
      IdIn(c, deeds, e);
      DeedOp(c, all, e);
      RivalsIs(d, e);
      ClashIsTwoWays(c, ops, d, e);
      IsTip(ops, ids, IdFor(c, d), IdFor(c, e));
    }
  }

  lemma TipRival(ops: Order.Ops, ids: set<Name>, a: Name) returns (b: Name)
    requires ids <= ops.Keys && a in Order.Tips(ops, ids)
    ensures a in ops && b in ids && Order.Clash(ops, a, b)
  {
    hide Order.Clash;
    b :| b in ids && Order.Clash(ops, a, b);
  }

  lemma IsTip(ops: Order.Ops, ids: set<Name>, a: Name, b: Name)
    requires ids <= ops.Keys && a in ids && b in ids && Order.Clash(ops, a, b)
    ensures a in Order.Tips(ops, ids)
  {
    hide Order.Clash;
  }

  lemma RivalsIs(d: Deed, e: Deed)
    ensures Rivals(d, e) <==> d != e && exists s :: s in d.hops && s in e.hops && d.hops[s].before == e.hops[s].before
  {
  }

  lemma SplitsBy(deeds: set<Deed>, d: Deed, e: Deed)
    requires d in deeds && e in deeds && Rivals(d, e)
    ensures d in Splitting(deeds)
  {
    hide Rivals;
  }

  lemma RivalOf(deeds: set<Deed>, d: Deed) returns (e: Deed)
    requires d in Splitting(deeds)
    ensures e in deeds && Rivals(d, e)
  {
    hide Rivals;
    e :| e in deeds && Rivals(d, e);
  }

  /** The reduction of a path's ops, read off its history. */
  lemma ReducedIsSurviving(c: Codec, h: Timeline, cuts: seq<Cut>)
    requires IsCodec(c) && AreCuts(h, cuts)
    ensures Reduced(PathStore(c, h, cuts)) == AllIds(c, Surviving(AllDeeds(h, cuts)))
  {
    hide *;
    var st, all := PathStore(c, h, cuts), AllDeeds(h, cuts);
    var resting := Resting(all);
    PathIsAddressed(c, h, cuts);
    ReducedIs(st);
    Apart.ReduceIs(st.ops, {}, st.held);
    GroundedIsResting(c, all, all);
    RestingWithin(all);
    TipsAreSplitting(c, all, resting);
    GroundedIsResting(c, all, resting - Splitting(resting));
    SurvivingIs(all);
  }

  lemma SurvivingIs(deeds: set<Deed>)
    ensures Surviving(deeds) == Resting(Resting(deeds) - Splitting(Resting(deeds)))
  {
    hide Resting, Splitting;
  }

  // ---------------------------------------------------------------------------------------
  // Which survive, one at a time.

  /** An op survives if and only if it rests on something down to births, no other that does rivals it, and all it
      needs is left by a survivor. */
  lemma SurvivesExactlyWhen(h: Timeline, cuts: seq<Cut>, d: Deed)
    requires AreCuts(h, cuts)
    ensures var all := AllDeeds(h, cuts);
            d in Surviving(all)
            <==> d in Resting(all) && d !in Splitting(Resting(all))
                 && forall w :: w in Needs(d) ==> LeftBy(Surviving(all), w)
  {
    var all := AllDeeds(h, cuts);
    var within := Resting(all) - Splitting(Resting(all));
    assert Surviving(all) == Resting(within);
    hide *;
    if d in Surviving(all) {
      RestingWithin(within);
      forall w | w in Needs(d) ensures LeftBy(Surviving(all), w) { RestingIsLeft(within, d, w); }
    } else if d in within && forall w :: w in Needs(d) ==> LeftBy(Surviving(all), w) {
      LeftIsResting(within, d);
    }
  }

  /** One of the set leaves that version. */
  ghost predicate LeftBy(deeds: set<Deed>, w: Want) {
    exists e :: e in deeds && Leaves(e, w)
  }

  lemma RestingIsLeft(within: set<Deed>, d: Deed, w: Want)
    requires d in Resting(within) && w in Needs(d)
    ensures LeftBy(Resting(within), w)
  {
    assert HasDepth(within, d);
    var j: nat :| DeedRests(within, d, j);
    assert WantRests(within, w, j);
    hide Needs, DeedRests, Leaves;
    var e := WantBy(within, w, j);
    assert HasDepth(within, e);
  }

  lemma LeftIsResting(within: set<Deed>, d: Deed)
    requires d in within && forall w :: w in Needs(d) ==> LeftBy(Resting(within), w)
    ensures d in Resting(within)
  {
    hide *;
    forall w | w in Needs(d) ensures WantRestsSome(within, w) {
      var e := LeaverOf(Resting(within), w);
      var j := LevelOf(within, e);
      WantRestsOn(within, w, e, j + 1);
      WantSome(within, w, j + 1);
    }
    var j := OneDepth(within, Needs(d));
    RestsAtDepth(within, d, j);
  }

  lemma LeaverOf(deeds: set<Deed>, w: Want) returns (e: Deed)
    requires LeftBy(deeds, w)
    ensures e in deeds && Leaves(e, w)
  {
    hide Leaves;
    e :| e in deeds && Leaves(e, w);
  }

  lemma LevelOf(within: set<Deed>, d: Deed) returns (j: nat)
    requires d in Resting(within)
    ensures d in within && DeedRests(within, d, j)
  {
    assert HasDepth(within, d);
    hide DeedRests;
    j :| DeedRests(within, d, j);
  }

  ghost predicate WantRestsSome(within: set<Deed>, w: Want) {
    exists j: nat :: WantRests(within, w, j)
  }

  lemma WantSome(within: set<Deed>, w: Want, j: nat)
    requires WantRests(within, w, j)
    ensures WantRestsSome(within, w)
  {
    hide WantRests;
  }

  lemma {:induction false} DeedLonger(within: set<Deed>, d: Deed, j: nat, k: nat)
    requires j <= k && DeedRests(within, d, j)
    ensures DeedRests(within, d, k)
    decreases j, 1
  {
    forall w | w in Needs(d) ensures WantRests(within, w, k) {
      assert WantRests(within, w, j);
      hide *;
      WantLonger(within, w, j, k);
    }
    hide WantRests;
  }

  lemma {:induction false} WantLonger(within: set<Deed>, w: Want, j: nat, k: nat)
    requires j <= k && WantRests(within, w, j)
    ensures WantRests(within, w, k)
    decreases j, 0
  {
    hide *;
    var e := WantBy(within, w, j);
    DeedLonger(within, e, j - 1, k - 1);
    WantRestsOn(within, w, e, k);
  }

  lemma {:induction false} OneDepth(within: set<Deed>, wants: set<Want>) returns (j: nat)
    requires forall w :: w in wants ==> WantRestsSome(within, w)
    ensures forall w :: w in wants ==> WantRests(within, w, j)
    decreases |wants|
  {
    if wants == {} { return 0; }
    var w :| w in wants;
    assert WantRestsSome(within, w);
    var i: nat :| WantRests(within, w, i);
    hide WantRests, WantRestsSome;
    var k := OneDepth(within, wants - {w});
    j := if i < k then k else i;
    forall x | x in wants ensures WantRests(within, x, j) {
      if x == w { WantLonger(within, x, i, j); } else { WantLonger(within, x, k, j); }
    }
  }

  lemma RestsAtDepth(within: set<Deed>, d: Deed, j: nat)
    requires d in within && forall w :: w in Needs(d) ==> WantRests(within, w, j)
    ensures d in Resting(within)
  {
    hide WantRests, Needs;
    assert DeedRests(within, d, j);
    assert HasDepth(within, d);
  }

  // ---------------------------------------------------------------------------------------
  // Along a symbol.

  /** What the op says that a commit's touch of a symbol is in. */
  ghost function TouchDeed(h: Timeline, cuts: seq<Cut>, k: nat, s: Sym): Deed
    requires AreCuts(h, cuts) && k < |h| && s in Touches(h, k)
  {
    CutAt(h, cuts, k);
    DeedOf(h, k, BucketOf(h, k, cuts[k], s))
  }

  lemma MadeIsDeed(c: Codec, h: Timeline, cuts: seq<Cut>, k: nat, s: Sym)
    requires IsCodec(c) && AreCuts(h, cuts) && k < |h| && s in Touches(h, k)
    ensures var st := PathStore(c, h, cuts);
            && |st.made| == |h| && s in st.made[k] && st.made[k][s] == IdFor(c, TouchDeed(h, cuts, k, s))
    ensures TouchDeed(h, cuts, k, s) in AllDeeds(h, cuts)
  {
    CutAt(h, cuts, k);
    hide AreCuts, IsCut, Touches, DeedOf, IdFor, BucketOf, IsCodec, AllDeeds, IdsMade;
    MadeIs(c, h, cuts, k, s);
    DeedAt(h, cuts, k, BucketOf(h, k, cuts[k], s));
  }

  /** The touch's op survives, and no earlier touch of the symbol is in it. */
  ghost predicate Goes(h: Timeline, cuts: seq<Cut>, k: nat, s: Sym)
    requires AreCuts(h, cuts) && k < |h| && s in Touches(h, k)
  {
    && TouchDeed(h, cuts, k, s) in Surviving(AllDeeds(h, cuts))
    && forall j :: 0 <= j < k && s in Touches(h, j) ==> TouchDeed(h, cuts, j, s) != TouchDeed(h, cuts, k, s)
  }

  /** The first commit whose touch does not, read off the history. */
  ghost predicate StopsFirst(h: Timeline, cuts: seq<Cut>, k: nat, s: Sym)
    requires AreCuts(h, cuts)
  {
    && k <= |h| && (forall i :: 0 <= i < k && s in Touches(h, i) ==> Goes(h, cuts, i, s))
    && (k < |h| ==> s in Touches(h, k) && !Goes(h, cuts, k, s))
  }

  lemma GoesIsPasses(c: Codec, h: Timeline, cuts: seq<Cut>, k: nat, s: Sym)
    requires IsCodec(c) && AreCuts(h, cuts) && k < |h| && s in Touches(h, k)
    ensures Passes(h, PathStore(c, h, cuts), k, s) <==> Goes(h, cuts, k, s)
  {
    hide *;
    var st, all := PathStore(c, h, cuts), AllDeeds(h, cuts);
    MadeIsDeed(c, h, cuts, k, s);
    var d := TouchDeed(h, cuts, k, s);
    PathIsMined(c, h, cuts);
    PassesIs(h, st, k, s);
    ReducedIsSurviving(c, h, cuts);
    IdIn(c, Surviving(all), d);
    TrailHolds(c, h, st, k, s, IdFor(c, d));
    forall j | 0 <= j < k && s in Touches(h, j)
      ensures TouchDeed(h, cuts, j, s) == d <==> MadeIn(h, st, j, s, IdFor(c, d))
    {
      MadeIsDeed(c, h, cuts, j, s);
      MadeInAt(h, st, j, s, IdFor(c, d));
      IdsAreContent(c, TouchDeed(h, cuts, j, s), d);
    }
    if j: nat :| j < k && MadeIn(h, st, j, s, IdFor(c, d)) { MadeEarly(h, st, j, s, IdFor(c, d)); }
    GoesIs(h, cuts, k, s, IdFor(c, d) in Trail(h, st, k, s));
  }

  lemma GoesIs(h: Timeline, cuts: seq<Cut>, k: nat, s: Sym, before: bool)
    requires AreCuts(h, cuts) && k < |h| && s in Touches(h, k)
    requires before <==> exists j :: 0 <= j < k && s in Touches(h, j)
                           && TouchDeed(h, cuts, j, s) == TouchDeed(h, cuts, k, s)
    ensures Goes(h, cuts, k, s) <==> TouchDeed(h, cuts, k, s) in Surviving(AllDeeds(h, cuts)) && !before
  {
    hide Touches, TouchDeed, Surviving, AllDeeds, AreCuts;
  }

  lemma StopsFirstIs(c: Codec, h: Timeline, cuts: seq<Cut>, k: nat, s: Sym)
    requires IsCodec(c) && AreCuts(h, cuts) && StopsFirst(h, cuts, k, s)
    ensures FirstStop(h, PathStore(c, h, cuts), k, s)
  {
    var st := PathStore(c, h, cuts);
    hide Touches, Passes, Goes, PathStore, AreCuts, IsCodec;
    forall i | 0 <= i < |h| && s in Touches(h, i) ensures Passes(h, st, i, s) <==> Goes(h, cuts, i, s) {
      GoesIsPasses(c, h, cuts, i, s);
    }
  }

  /** Every symbol has such a commit, or goes through. */
  lemma HasStopsFirst(h: Timeline, cuts: seq<Cut>, s: Sym, i: nat) returns (k: nat)
    requires AreCuts(h, cuts) && i <= |h| && forall j :: 0 <= j < i && s in Touches(h, j) ==> Goes(h, cuts, j, s)
    ensures StopsFirst(h, cuts, k, s)
    decreases |h| - i
  {
    hide Touches, Goes, AreCuts;
    if i == |h| || (s in Touches(h, i) && !Goes(h, cuts, i, s)) {
      k := i;
    } else {
      k := HasStopsFirst(h, cuts, s, i + 1);
    }
  }

  /** An entity or a whole file, in any history without bookkeeping commits and however its entities are grouped:
      the frontier has what replaying gives up to the first touch whose op does not survive or was there before --
      the last writer's version if and only if what came after brought the symbol back to that.  All of it is read
      off touches and cuts. */
  lemma EntityTipExactlyWhen(c: Codec, h: Timeline, cuts: seq<Cut>, k: nat, s: Sym)
    requires IsCodec(c) && ValidTimeline(h) && AreCuts(h, cuts) && forall d :: 0 <= d < |h| ==> !h[d].bookkeeping
    requires (s.Entity? || s.Nested? || s.Whole?) && StopsFirst(h, cuts, k, s)
    ensures k <= |h| && Tip(c, PathStore(c, h, cuts), s) == Written(c, ReplayedVersion(h, k, s))
    ensures Tip(c, PathStore(c, h, cuts), s) == Written(c, ReplayedVersion(h, |h|, s))
            <==> ReplayedVersion(h, k, s) == ReplayedVersion(h, |h|, s)
  {
    hide *;
    StopsFirstIs(c, h, cuts, k, s);
    EntityTipIsReplayExactlyWhen(c, h, cuts, k, s);
  }

  /** And its op always rests on something, so it is lost only to a rival, or with what it needs. */
  lemma EntitySurvivesExactlyWhen(h: Timeline, cuts: seq<Cut>, k: nat, s: Sym)
    requires ValidTimeline(h) && AreCuts(h, cuts) && k < |h| && s in Touches(h, k)
    requires s.Entity? || s.Nested? || s.Whole?
    ensures var all, d := AllDeeds(h, cuts), TouchDeed(h, cuts, k, s);
            d in Surviving(all)
            <==> (forall e :: e in all ==> !Rivals(d, e)) && forall w :: w in Needs(d) ==> LeftBy(Surviving(all), w)
  {
    hide *;
    var all, d := AllDeeds(h, cuts), TouchDeed(h, cuts, k, s);
    EntityRests(h, cuts, k, s);
    SurvivesExactlyWhen(h, cuts, d);
    RestingWithin(all);
    if d in Splitting(Resting(all)) {
      var e := RivalOf(Resting(all), d);
    }
    if e :| e in all && Rivals(d, e) {
      RivalRests(h, cuts, k, s, e);
      SplitsBy(Resting(all), d, e);
    }
  }

  lemma EntityRests(h: Timeline, cuts: seq<Cut>, k: nat, s: Sym)
    requires ValidTimeline(h) && AreCuts(h, cuts) && k < |h| && s in Touches(h, k)
    requires s.Entity? || s.Nested? || s.Whole?
    ensures TouchDeed(h, cuts, k, s) in AllDeeds(h, cuts) && TouchDeed(h, cuts, k, s) in Resting(AllDeeds(h, cuts))
  {
    hide *;
    PlainIsCodec();
    EntitiesAreGrounded(PLAIN, h, cuts, k, s);
    MadeIsDeed(PLAIN, h, cuts, k, s);
    BottomingIs(PathStore(PLAIN, h, cuts));
    GroundedIsResting(PLAIN, AllDeeds(h, cuts), AllDeeds(h, cuts));
    IdIn(PLAIN, Resting(AllDeeds(h, cuts)), TouchDeed(h, cuts, k, s));
  }

  /** A rival of an entity's op is an entity's op too. */
  lemma RivalRests(h: Timeline, cuts: seq<Cut>, k: nat, s: Sym, e: Deed)
    requires ValidTimeline(h) && AreCuts(h, cuts) && k < |h| && s in Touches(h, k)
    requires s.Entity? || s.Nested? || s.Whole?
    requires e in AllDeeds(h, cuts) && Rivals(TouchDeed(h, cuts, k, s), e)
    ensures e in Resting(AllDeeds(h, cuts))
  {
    hide *;
    var t := SharedSym(TouchDeed(h, cuts, k, s), e);
    EntityShares(h, cuts, k, s, t);
    var i, b := DeedFrom(h, cuts, e);
    DeedTouch(h, i, b, t);
    CutAt(h, cuts, i);
    DeedIs(h, cuts, i, b, t);
    EntityRests(h, cuts, i, t);
  }

  lemma SharedSym(d: Deed, e: Deed) returns (s: Sym)
    requires Rivals(d, e)
    ensures s in d.hops && s in e.hops
  {
    s :| s in d.hops && s in e.hops && d.hops[s].before == e.hops[s].before;
  }

  lemma EntityShares(h: Timeline, cuts: seq<Cut>, k: nat, s: Sym, t: Sym)
    requires AreCuts(h, cuts) && k < |h| && s in Touches(h, k) && (s.Entity? || s.Nested? || s.Whole?)
    requires t in TouchDeed(h, cuts, k, s).hops
    ensures t.Entity? || t.Nested? || t.Whole?
  {
    CutAt(h, cuts, k);
    var b := BucketOf(h, k, cuts[k], s);
    assert TouchDeed(h, cuts, k, s) == DeedOf(h, k, b);
    hide Touches, AreCuts;
    BucketAt(h, k, cuts[k], b);
    hide IsCut, IsCurrent;
    DeedTouch(h, k, b, t);
    if !IsGrouped(t) { UngroupedBucket(h, k, b, t); }
  }

  lemma DeedIs(h: Timeline, cuts: seq<Cut>, k: nat, b: Bucket, s: Sym)
    requires AreCuts(h, cuts) && k < |h| && k < |cuts| && b in cuts[k] && s in b.syms && s in Touches(h, k)
    ensures TouchDeed(h, cuts, k, s) == DeedOf(h, k, b)
  {
    CutAt(h, cuts, k);
    hide Touches, AreCuts, IsCut, DeedOf;
    OneBucket(h, k, cuts[k], b, BucketOf(h, k, cuts[k], s), s);
  }
}
