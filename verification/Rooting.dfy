/** When a path's mined history loses none of its ops (`sgt/core/order.py`, `reduce_to_ideal`, over the ops of
    `sgt/core/mine.py`). */
module Rooting {
  import opened Names
  import opened Symbols
  import opened Tables
  import opened Chains
  import opened Codecs
  import opened MinedOps
  import opened PathOps
  import Order
  import Frontier

  // ---------------------------------------------------------------------------------------
  // What a touch builds on, and who made it.

  /** The touch was chained onto the removal of its symbol at a commit that left the symbol in the file: a gap
      that was only emptied there. */
  ghost predicate Unrooted(h: Timeline, k: nat, s: Sym) {
    && k < |h| && s in Touches(h, k)
    && exists d: nat :: d < |h| && s in h[d].table && Touches(h, k)[s].before == Some(Bottom(d))
  }

  ghost predicate AllRooted(h: Timeline) {
    forall k: nat, s: Sym :: !Unrooted(h, k, s)
  }

  lemma BeforeIs(h: Timeline, k: nat, s: Sym)
    requires k < |h| && s in Touches(h, k)
    ensures h[k].listed && (s in Prior(h, k) || s in h[k].table) && IsTouched(Prior(h, k), h[k], s)
    ensures Touches(h, k)[s].before ==
            if s in Prior(h, k) then Some(Prior(h, k)[s].version)
            else if s.Anchor? || LastClosing(h, k, s).None? then None
            else Some(Bottom(LastClosing(h, k, s).value))
    ensures Touches(h, k)[s].after == if s in h[k].table then h[k].table[s].version else Bottom(k)
  {
    hide IsTouched, LastClosing;
  }

  /** Whatever the state holds of a symbol some touch left there. */
  lemma {:induction false} StateIsMade(h: Timeline, k: nat, s: Sym) returns (j: nat)
    requires k <= |h| && s in Replay(h, k)
    ensures j < k && s in Touches(h, j) && Touches(h, j)[s].after == Replay(h, k)[s].version
    decreases k
  {
    if k == 0 { NothingYet(h); }
    hide *;
    ReplayUnfolds(h, k - 1);
    if s in Touches(h, k - 1) {
      j := k - 1;
    } else {
      j := StateIsMade(h, k - 1, s);
    }
  }

  /** What a touch builds on was made before it, unless it was never made. */
  lemma BeforeIsMade(h: Timeline, k: nat, s: Sym) returns (j: nat)
    requires ValidTimeline(h) && k < |h| && s in Touches(h, k) && Touches(h, k)[s].before.Some?
    requires !Unrooted(h, k, s)
    ensures j < k && s in Touches(h, j) && Touches(h, k)[s].before == Some(Touches(h, j)[s].after)
  {
    BeforeIs(h, k, s);
    if s in Prior(h, k) {
      ReplayIsFaithful(h, k);
      hide *;
      FaithfulAt(Prior(h, k), Replay(h, k), s);
      j := StateIsMade(h, k, s);
    } else {
      j := LastClosing(h, k, s).value;
      ClosingExits(h, j, s);
      hide *;
      RootedLeft(h, k, s, j);
      ExitIsTouched(h, j, s);
    }
  }

  lemma FaithfulAt(t: Table, state: Table, s: Sym)
    requires Faithful(t, state) && s in t
    ensures s in state && state[s] == t[s]
  {
  }

  lemma ClosingExits(h: Timeline, d: nat, s: Sym)
    requires d < |h| && SeenClosing(h, d, s)
    ensures s in Prior(h, d) && Closes(Prior(h, d), h[d].flip, s)
  {
  }

  lemma RootedLeft(h: Timeline, k: nat, s: Sym, d: nat)
    requires !Unrooted(h, k, s) && k < |h| && s in Touches(h, k) && d < |h|
    requires Touches(h, k)[s].before == Some(Bottom(d))
    ensures s !in h[d].table
  {
    hide Touches;
  }

  lemma NotBottom(t: Table, s: Sym)
    requires Coherent(t) && s in t
    ensures !t[s].version.Bottom?
  {
    assert CoherentAt(t, s);
  }

  /** A removal at a commit that kept the symbol is in no touch. */
  lemma NeverMade(h: Timeline, d: nat, j: nat, s: Sym)
    requires ValidTimeline(h) && d < |h| && j < |h| && s in h[d].table && s in Touches(h, j)
    ensures Touches(h, j)[s].after != Bottom(d)
  {
    BeforeIs(h, j, s);
    ValidAt(h, j);
    hide *;
    if s in h[j].table { NotBottom(h[j].table, s); }
  }

  /** What an op requires of an entity was made before it. */
  lemma WantIsMade(h: Timeline, k: nat, w: Want) returns (j: nat)
    requires ValidTimeline(h) && k < |h| && IsCurrent(h, k, w)
    ensures j < k && w.sym in Touches(h, j) && Touches(h, j)[w.sym].after == w.version
  {
    ReplayIsFaithful(h, k + 1);
    ReplayUnfolds(h, k);
    assert Prior(h, k + 1) == h[k].table;
    assert w.sym !in Touches(h, k) && w.sym in h[k].table && h[k].table[w.sym].version == w.version;
    hide *;
    FaithfulAt(h[k].table, Replay(h, k + 1), w.sym);
    j := StateIsMade(h, k, w.sym);
  }

  // ---------------------------------------------------------------------------------------
  // Bottoming out.

  ghost predicate OccursAt(c: Codec, h: Timeline, cuts: seq<Cut>, k: nat, id: Name) {
    k < |h| && k < |cuts| && exists b :: b in cuts[k] && IdFor(c, DeedOf(h, k, b)) == id
  }

  /** The first commit an op occurs at, from `k` on. */
  ghost function FirstFrom(c: Codec, h: Timeline, cuts: seq<Cut>, k: nat, id: Name): (r: nat)
    ensures forall j :: k <= j < |h| && OccursAt(c, h, cuts, j, id) ==> OccursAt(c, h, cuts, r, id) && r <= j
    decreases |h| - k
  {
    if k >= |h| || OccursAt(c, h, cuts, k, id) then k else FirstFrom(c, h, cuts, k + 1, id)
  }

  ghost function Ranks(c: Codec, h: Timeline, cuts: seq<Cut>, ids: set<Name>): map<Name, nat> {
    map id | id in ids :: FirstFrom(c, h, cuts, 0, id)
  }

  lemma RankAt(c: Codec, h: Timeline, cuts: seq<Cut>, ids: set<Name>, k: nat, b: Bucket)
    requires k < |h| && k < |cuts| && b in cuts[k] && IdFor(c, DeedOf(h, k, b)) in ids
    ensures var id := IdFor(c, DeedOf(h, k, b));
            id in Ranks(c, h, cuts, ids) && Ranks(c, h, cuts, ids)[id] <= k
  {
    hide DeedOf, IdFor;
    assert OccursAt(c, h, cuts, k, IdFor(c, DeedOf(h, k, b)));
  }

  lemma RankKeys(c: Codec, h: Timeline, cuts: seq<Cut>, ids: set<Name>)
    ensures Ranks(c, h, cuts, ids).Keys == ids
    ensures forall id :: id in ids ==> Ranks(c, h, cuts, ids)[id] == FirstFrom(c, h, cuts, 0, id)
  {
    hide FirstFrom;
  }

  lemma FirstOccurs(c: Codec, h: Timeline, cuts: seq<Cut>, j: nat, a: Bucket, id: Name) returns (b: Bucket)
    requires j < |h| && j < |cuts| && a in cuts[j] && IdFor(c, DeedOf(h, j, a)) == id
    ensures var k := FirstFrom(c, h, cuts, 0, id);
            k < |h| && k < |cuts| && b in cuts[k] && IdFor(c, DeedOf(h, k, b)) == id
  {
    hide DeedOf, IdFor, FirstFrom;
    assert OccursAt(c, h, cuts, j, id);
    var k := FirstFrom(c, h, cuts, 0, id);
    b :| b in cuts[k] && IdFor(c, DeedOf(h, k, b)) == id;
  }

  /** All symbols, or all but gaps and anchors. */
  predicate Counted(entities: bool, s: Sym) {
    entities ==> !s.Residue? && !s.Anchor?
  }

  predicate DeedCounted(entities: bool, d: Deed) {
    (forall s :: s in d.hops ==> Counted(entities, s)) && (forall w :: w in d.wants ==> Counted(entities, w.sym))
  }

  ghost function CountedIds(c: Codec, h: Timeline, cuts: seq<Cut>, entities: bool): set<Name> {
    AllIds(c, set d | d in AllDeeds(h, cuts) && DeedCounted(entities, d))
  }

  lemma CountedFrom(c: Codec, h: Timeline, cuts: seq<Cut>, entities: bool, id: Name) returns (d: Deed)
    requires id in CountedIds(c, h, cuts, entities)
    ensures d in AllDeeds(h, cuts) && DeedCounted(entities, d) && id == IdFor(c, d)
  {
    hide AllDeeds, DeedCounted, IdFor;
    d :| d in AllDeeds(h, cuts) && DeedCounted(entities, d) && IdFor(c, d) == id;
  }

  lemma CountedAt(c: Codec, h: Timeline, cuts: seq<Cut>, entities: bool, d: Deed)
    requires d in AllDeeds(h, cuts) && DeedCounted(entities, d)
    ensures IdFor(c, d) in CountedIds(c, h, cuts, entities)
  {
    hide AllDeeds, DeedCounted, IdFor;
  }

  lemma CountedAreHeld(c: Codec, h: Timeline, cuts: seq<Cut>, entities: bool)
    requires IsCodec(c) && AreCuts(h, cuts)
    ensures var st := PathStore(c, h, cuts);
            CountedIds(c, h, cuts, entities) <= st.held && st.held == st.ops.Keys
  {
    hide *;
    PathIsAddressed(c, h, cuts);
    forall id | id in CountedIds(c, h, cuts, entities) ensures id in PathStore(c, h, cuts).held {
      var d := CountedFrom(c, h, cuts, entities, id);
      OpsForAt(c, AllDeeds(h, cuts), d);
    }
  }

  /** The op of a counted symbol is counted: entities share ops with entities only. */
  lemma BucketCounted(h: Timeline, k: nat, b: Bucket, s: Sym, entities: bool)
    requires k < |h| && IsBucket(h, k, b) && s in b.syms && Counted(entities, s)
    ensures DeedCounted(entities, DeedOf(h, k, b))
  {
    hide Touches;
    if entities {
      forall t | t in b.syms ensures Counted(entities, t) {
        if !IsGrouped(t) { assert b == Bucket({t}, {}); }
      }
      assert forall w :: w in b.wants ==> IsCurrent(h, k, w);
    }
  }

  lemma RankIs(c: Codec, h: Timeline, cuts: seq<Cut>, entities: bool, id: Name) returns (k: nat, b: Bucket)
    requires IsCodec(c) && AreCuts(h, cuts) && id in CountedIds(c, h, cuts, entities)
    ensures k < |h| && k < |cuts| && b in cuts[k] && IsBucket(h, k, b) && DeedCounted(entities, DeedOf(h, k, b))
    ensures var st, ids := PathStore(c, h, cuts), CountedIds(c, h, cuts, entities);
            && id in st.ops && st.ops[id] == OpFor(c, DeedOf(h, k, b))
            && id in Ranks(c, h, cuts, ids) && Ranks(c, h, cuts, ids)[id] == k
  {
    hide *;
    var d := CountedFrom(c, h, cuts, entities, id);
    OpsForAt(c, AllDeeds(h, cuts), d);
    var j, a := DeedFrom(h, cuts, d);
    k := FirstFrom(c, h, cuts, 0, id);
    b := FirstOccurs(c, h, cuts, j, a, id);
    CutAt(h, cuts, k);
    BucketAt(h, k, cuts[k], b);
    IdsAreContent(c, DeedOf(h, k, b), d);
    RankKeys(c, h, cuts, CountedIds(c, h, cuts, entities));
  }

  /** An earlier touch's op ranks lower. */
  lemma EarlierRanksLower(c: Codec, h: Timeline, cuts: seq<Cut>, entities: bool, j: nat, k: nat, s: Sym, id: Name)
    requires IsCodec(c) && AreCuts(h, cuts) && j < k && j < |h| && s in Touches(h, j) && Counted(entities, s)
    requires var ids := CountedIds(c, h, cuts, entities);
             id in ids && id in Ranks(c, h, cuts, ids) && Ranks(c, h, cuts, ids)[id] == k
    ensures var st, ids := PathStore(c, h, cuts), CountedIds(c, h, cuts, entities);
            && ids <= st.ops.Keys && ids <= Ranks(c, h, cuts, ids).Keys
            && Frontier.MetBelow(st.ops, ids, Ranks(c, h, cuts, ids), id,
                                 Order.Made(Order.Pin(c.name(s), c.version(Touches(h, j)[s].after))))
  {
    hide *;
    var st, ids := PathStore(c, h, cuts), CountedIds(c, h, cuts, entities);
    var b := TouchIsIn(c, h, cuts, j, s);
    CutAt(h, cuts, j);
    BucketAt(h, j, cuts[j], b);
    BucketCounted(h, j, b, s, entities);
    DeedAt(h, cuts, j, b);
    CountedAt(c, h, cuts, entities, DeedOf(h, j, b));
    RankAt(c, h, cuts, ids, j, b);
    RankKeys(c, h, cuts, ids);
    CountedAreHeld(c, h, cuts, entities);
    DeedHops(c, st.ops, IdFor(c, DeedOf(h, j, b)), DeedOf(h, j, b), s);
    HopProduces(c, st.ops, IdFor(c, DeedOf(h, j, b)), s, Touches(h, j)[s]);
    BelowIs(st.ops, ids, Ranks(c, h, cuts, ids), id, IdFor(c, DeedOf(h, j, b)),
            Order.Made(Order.Pin(c.name(s), c.version(Touches(h, j)[s].after))));
  }

  lemma HopProduces(c: Codec, ops: Order.Ops, id: Name, s: Sym, t: Touch)
    requires DoesHop(c, ops, id, s, HopOf(t))
    ensures id in ops && Order.Produces(ops, id, Order.Made(Order.Pin(c.name(s), c.version(t.after))))
  {
  }

  lemma BelowIs(ops: Order.Ops, all: set<Name>, rank: map<Name, nat>, id: Name, p: Name, key: Order.Key)
    requires all <= ops.Keys && all <= rank.Keys && id in all && p in all
    requires Order.Produces(ops, p, key) && rank[p] < rank[id]
    ensures Frontier.MetBelow(ops, all, rank, id, key)
  {
  }

  /** What an op needs: what its touches build on and what it requires. */
  lemma NeedsOf(c: Codec, ops: Order.Ops, id: Name, d: Deed, key: Order.Key)
    requires IsCodec(c) && id in ops && ops[id] == OpFor(c, d) && key in Order.NeededBy(ops, {}, id)
    ensures (exists s :: HopNeeds(c, d, s, key)) || (exists w :: WantNeeds(c, d, w, key))
  {
    if n :| n in ops[id].footprint && ops[id].footprint[n].before.Some?
            && key == Order.Made(Order.Pin(n, ops[id].footprint[n].before.value)) {
      var s := FootprintFrom(c, d.hops, n);
      FootprintAt(c, d.hops, s);
      assert HopNeeds(c, d, s, key);
    } else {
      assert key.Made? && key.pin in Pins(c, d.wants);
      var w :| w in d.wants && Order.Pin(c.name(w.sym), c.version(w.version)) == key.pin;
      assert WantNeeds(c, d, w, key);
    }
  }

  ghost predicate HopNeeds(c: Codec, d: Deed, s: Sym, key: Order.Key) {
    s in d.hops && d.hops[s].before.Some? && key == Order.Made(Order.Pin(c.name(s), c.version(d.hops[s].before.value)))
  }

  ghost predicate WantNeeds(c: Codec, d: Deed, w: Want, key: Order.Key) {
    w in d.wants && key == Order.Made(Order.Pin(c.name(w.sym), c.version(w.version)))
  }

  /** No touch of a counted symbol is unrooted. */
  ghost predicate CountedRooted(h: Timeline, entities: bool) {
    forall k: nat, s: Sym :: Counted(entities, s) ==> !Unrooted(h, k, s)
  }

  lemma MetEarlier(c: Codec, h: Timeline, cuts: seq<Cut>, entities: bool, id: Name, key: Order.Key)
    requires IsCodec(c) && ValidTimeline(h) && AreCuts(h, cuts) && CountedRooted(h, entities)
    requires id in CountedIds(c, h, cuts, entities)
    requires var st := PathStore(c, h, cuts);
             id in st.ops && key in Order.NeededBy(st.ops, {}, id)
    ensures var st, ids := PathStore(c, h, cuts), CountedIds(c, h, cuts, entities);
            && ids <= st.ops.Keys && ids <= Ranks(c, h, cuts, ids).Keys
            && Frontier.MetBelow(st.ops, ids, Ranks(c, h, cuts, ids), id, key)
  {
    hide *;
    var st := PathStore(c, h, cuts);
    var k, b := RankIs(c, h, cuts, entities, id);
    var d := DeedOf(h, k, b);
    NeedsOf(c, st.ops, id, d, key);
    if s :| HopNeeds(c, d, s, key) {
      HopNeedsTouch(c, h, k, b, s, key);
      HopCounted(c, entities, d, s, key);
      NoneUnrooted(h, entities, k, s);
      var j := BeforeIsMade(h, k, s);
      EarlierRanksLower(c, h, cuts, entities, j, k, s, id);
    } else {
      var w :| WantNeeds(c, d, w, key);
      WantNeedsCurrent(c, h, k, b, w, key);
      WantCounted(c, entities, d, w, key);
      var j := WantIsMade(h, k, w);
      EarlierRanksLower(c, h, cuts, entities, j, k, w.sym, id);
    }
  }

  lemma HopCounted(c: Codec, entities: bool, d: Deed, s: Sym, key: Order.Key)
    requires DeedCounted(entities, d) && HopNeeds(c, d, s, key)
    ensures Counted(entities, s)
  {
  }

  lemma WantCounted(c: Codec, entities: bool, d: Deed, w: Want, key: Order.Key)
    requires DeedCounted(entities, d) && WantNeeds(c, d, w, key)
    ensures Counted(entities, w.sym)
  {
  }

  lemma HopNeedsTouch(c: Codec, h: Timeline, k: nat, b: Bucket, s: Sym, key: Order.Key)
    requires k < |h| && HopNeeds(c, DeedOf(h, k, b), s, key)
    ensures s in Touches(h, k) && Touches(h, k)[s].before.Some?
            && key == Order.Made(Order.Pin(c.name(s), c.version(Touches(h, k)[s].before.value)))
  {
    hide Touches;
  }

  lemma NoneUnrooted(h: Timeline, entities: bool, k: nat, s: Sym)
    requires CountedRooted(h, entities) && Counted(entities, s)
    ensures !Unrooted(h, k, s)
  {
    hide Unrooted;
  }

  lemma WantNeedsCurrent(c: Codec, h: Timeline, k: nat, b: Bucket, w: Want, key: Order.Key)
    requires k < |h| && IsBucket(h, k, b) && WantNeeds(c, DeedOf(h, k, b), w, key)
    ensures IsCurrent(h, k, w) && key == Order.Made(Order.Pin(c.name(w.sym), c.version(w.version)))
  {
    hide Touches, IsCurrent;
  }

  lemma CountedIsGrounded(c: Codec, h: Timeline, cuts: seq<Cut>, entities: bool)
    requires IsCodec(c) && ValidTimeline(h) && AreCuts(h, cuts) && CountedRooted(h, entities)
    ensures var st := PathStore(c, h, cuts);
            st.held <= st.ops.Keys && CountedIds(c, h, cuts, entities) <= Bottoming(st)
  {
    var st, ids := PathStore(c, h, cuts), CountedIds(c, h, cuts, entities);
    hide *;
    CountedAreHeld(c, h, cuts, entities);
    var rank := Ranks(c, h, cuts, ids);
    RankKeys(c, h, cuts, ids);
    BottomingIs(st);
    forall id, key | id in ids && key in Order.NeededBy(st.ops, {}, id)
      ensures Frontier.MetBelow(st.ops, ids, rank, id, key)
    {
      MetEarlier(c, h, cuts, entities, id, key);
    }
    RanksDownIs(st.ops, ids, rank);
    forall id | id in ids ensures id in Bottoming(st) {
      Frontier.RankedIsGrounded(st.ops, {}, ids, st.held, rank, id);
    }
  }

  lemma RootedIsGrounded(c: Codec, h: Timeline, cuts: seq<Cut>)
    requires IsCodec(c) && ValidTimeline(h) && AreCuts(h, cuts) && AllRooted(h)
    ensures var st := PathStore(c, h, cuts);
            st.held <= st.ops.Keys && Bottoming(st) == st.held
  {
    hide *;
    RootedIsCounted(h);
    CountedIsGrounded(c, h, cuts, false);
    AllCounted(c, h, cuts);
    PathIsAddressed(c, h, cuts);
    BottomingIs(PathStore(c, h, cuts));
  }

  lemma RootedIsCounted(h: Timeline)
    requires AllRooted(h)
    ensures CountedRooted(h, false)
  {
    hide Unrooted;
  }

  lemma AllCounted(c: Codec, h: Timeline, cuts: seq<Cut>)
    requires IsCodec(c) && AreCuts(h, cuts)
    ensures PathStore(c, h, cuts).held <= CountedIds(c, h, cuts, false)
  {
    hide *;
    forall id | id in PathStore(c, h, cuts).held ensures id in CountedIds(c, h, cuts, false) {
      var d := OpsForFrom(c, AllDeeds(h, cuts), id);
      AnyCounted(d);
      CountedAt(c, h, cuts, false, d);
    }
  }

  lemma AnyCounted(d: Deed)
    ensures DeedCounted(false, d)
  {
  }

  lemma RanksDownIs(ops: Order.Ops, all: set<Name>, rank: map<Name, nat>)
    requires all <= ops.Keys && all <= rank.Keys
    requires forall id, key :: id in all && key in Order.NeededBy(ops, {}, id)
               ==> Frontier.MetBelow(ops, all, rank, id, key)
    ensures Frontier.RanksDown(ops, {}, all, rank)
  {
    hide Frontier.MetBelow, Order.NeededBy;
  }

  lemma UnrootedAt(h: Timeline, k: nat, s: Sym) returns (d: nat)
    requires Unrooted(h, k, s)
    ensures k < |h| && d < |h| && s in Touches(h, k) && s in h[d].table && Touches(h, k)[s].before == Some(Bottom(d))
  {
    hide Touches;
    d :| d < |h| && s in h[d].table && Touches(h, k)[s].before == Some(Bottom(d));
  }

  /** An op chained onto a removal nobody made does not bottom out. */
  lemma UnrootedIsLost(c: Codec, h: Timeline, cuts: seq<Cut>, k: nat, s: Sym)
    requires IsCodec(c) && ValidTimeline(h) && AreCuts(h, cuts) && Unrooted(h, k, s)
    ensures var st := PathStore(c, h, cuts);
            && k < |st.made| && s in st.made[k] && st.made[k][s] in st.held && st.held <= st.ops.Keys
            && st.made[k][s] !in Bottoming(st)
  {
    var st := PathStore(c, h, cuts);
    hide *;
    var d := UnrootedAt(h, k, s);
    PathIsMined(c, h, cuts);
    MinedSizes(c, h, st);
    MadeAt(c, h, st, k, s);
    NeverGrounds(c, h, st, k, s, d, st.made[k][s]);
  }

  lemma NeverGrounds(c: Codec, h: Timeline, st: Store, k: nat, s: Sym, d: nat, id: Name)
    requires IsCodec(c) && ValidTimeline(h) && Mined(c, h, st) && st.held <= st.ops.Keys
    requires k < |h| && d < |h| && s in Touches(h, k) && s in h[d].table && Touches(h, k)[s].before == Some(Bottom(d))
    requires DoesHop(c, st.ops, id, s, HopOf(Touches(h, k)[s]))
    ensures id !in Bottoming(st)
  {
    hide *;
    BottomingIs(st);
    if id in Bottoming(st) {
      var key := Order.Made(Order.Pin(c.name(s), c.version(Bottom(d))));
      HopIsNeed(c, st.ops, st.declared, id, s, Touches(h, k)[s], d);
      Frontier.GroundedIsMet(st.ops, st.declared, st.held, id, key);
      var p := MetBy(st.ops, Bottoming(st), key);
      MakerTouches(c, h, st, p, s, d);
    }
  }

  lemma HopIsNeed(c: Codec, ops: Order.Ops, declared: set<Order.Declared>, id: Name, s: Sym, t: Touch, d: nat)
    requires DoesHop(c, ops, id, s, HopOf(t)) && t.before == Some(Bottom(d))
    ensures id in ops && Order.Made(Order.Pin(c.name(s), c.version(Bottom(d)))) in Order.NeededBy(ops, declared, id)
  {
  }

  lemma MetBy(ops: Order.Ops, base: set<Name>, key: Order.Key) returns (p: Name)
    requires base <= ops.Keys && Order.Met(ops, base, key)
    ensures p in base && Order.Produces(ops, p, key)
  {
    p :| p in base && Order.Produces(ops, p, key);
  }

  lemma MakerTouches(c: Codec, h: Timeline, st: Store, p: Name, s: Sym, d: nat)
    requires IsCodec(c) && ValidTimeline(h) && Mined(c, h, st) && p in st.held && p in st.ops
    requires Order.Produces(st.ops, p, Order.Made(Order.Pin(c.name(s), c.version(Bottom(d)))))
    ensures !(d < |h| && s in h[d].table)
  {
    assert Frontier.Touches(st.ops, p, c.name(s));
    var j := MadeBy(c, h, st, p, s);
    MadeEarly(h, st, j, s, p);
    assert c.version(Touches(h, j)[s].after) == c.version(Bottom(d));
    hide ValidTimeline, Touches;
    if d < |h| && s in h[d].table { NeverMade(h, d, j, s); }
  }

  /** All of a path's ops bottom out exactly when none of its touches was chained onto a removal that never took
      place. */
  lemma GroundedExactlyWhen(c: Codec, h: Timeline, cuts: seq<Cut>)
    requires IsCodec(c) && ValidTimeline(h) && AreCuts(h, cuts)
    ensures var st := PathStore(c, h, cuts);
            st.held <= st.ops.Keys && (Bottoming(st) == st.held <==> AllRooted(h))
  {
    PathIsAddressed(c, h, cuts);
    hide *;
    if AllRooted(h) {
      RootedIsGrounded(c, h, cuts);
    } else {
      var k, s := SomeUnrooted(h);
      UnrootedIsLost(c, h, cuts, k, s);
    }
  }

  lemma SomeUnrooted(h: Timeline) returns (k: nat, s: Sym)
    requires !AllRooted(h)
    ensures Unrooted(h, k, s)
  {
    hide Unrooted;
    k, s :| Unrooted(h, k, s);
  }

  // ---------------------------------------------------------------------------------------
  // Forks.

  /** No two different ops of the history change one symbol from one version. */
  ghost predicate NoTwoWays(h: Timeline, cuts: seq<Cut>) {
    forall d, e, s ::
      d in AllDeeds(h, cuts) && e in AllDeeds(h, cuts) && s in d.hops && s in e.hops
      && d.hops[s].before == e.hops[s].before ==>
        d == e
  }

  lemma ClashIsTwoWays(c: Codec, ops: Order.Ops, d: Deed, e: Deed)
    requires IsCodec(c) && IdFor(c, d) in ops && ops[IdFor(c, d)] == OpFor(c, d)
    requires IdFor(c, e) in ops && ops[IdFor(c, e)] == OpFor(c, e)
    ensures Order.Clash(ops, IdFor(c, d), IdFor(c, e))
            <==> d != e && exists s :: s in d.hops && s in e.hops && d.hops[s].before == e.hops[s].before
  {
    var a, b := IdFor(c, d), IdFor(c, e);
    IdsAreContent(c, d, e);
    hide IsCodec, IdFor, Footprint, Pins, ChangeOf;
    if Order.Clash(ops, a, b) {
      var n :| n in ops[a].footprint && n in ops[b].footprint
          && ops[a].footprint[n].before == ops[b].footprint[n].before;
      var s := FootprintFrom(c, d.hops, n);
      SameBefore(c, d, e, s);
    }
    if d != e && exists s :: s in d.hops && s in e.hops && d.hops[s].before == e.hops[s].before {
      var s :| s in d.hops && s in e.hops && d.hops[s].before == e.hops[s].before;
      SameBefore(c, d, e, s);
    }
  }

  lemma SameBefore(c: Codec, d: Deed, e: Deed, s: Sym)
    requires IsCodec(c) && s in d.hops
    ensures c.name(s) in Footprint(c, d.hops)
    ensures c.name(s) in Footprint(c, e.hops) <==> s in e.hops
    ensures s in e.hops ==>
      var a, b := Footprint(c, d.hops)[c.name(s)], Footprint(c, e.hops)[c.name(s)];
      a.before == b.before <==> d.hops[s].before == e.hops[s].before
  {
    FootprintAt(c, d.hops, s);
    FootprintAt(c, e.hops, s);
    hide Footprint;
    if s in e.hops { WrittenApart(c, d.hops[s].before, e.hops[s].before); }
  }

  lemma ForkFreeExactlyWhen(c: Codec, h: Timeline, cuts: seq<Cut>)
    requires IsCodec(c) && AreCuts(h, cuts)
    ensures var st := PathStore(c, h, cuts);
            st.held <= st.ops.Keys && (Order.ForkFree(st.ops, st.held) <==> NoTwoWays(h, cuts))
  {
    hide *;
    PathIsAddressed(c, h, cuts);
    var st, deeds := PathStore(c, h, cuts), AllDeeds(h, cuts);
    if NoTwoWays(h, cuts) {
      forall a, b | a in st.held && b in st.held ensures !Order.Clash(st.ops, a, b) {
        var d := OpsForFrom(c, deeds, a);
        var e := OpsForFrom(c, deeds, b);
        ClashIsTwoWays(c, st.ops, d, e);
        if d != e { OneWayFrom(h, cuts, d, e); }
      }
      ForkFreeIs(st.ops, st.held);
    } else {
      var d, e := TwoWays(h, cuts);
      OpsForAt(c, deeds, d);
      OpsForAt(c, deeds, e);
      ClashIsTwoWays(c, st.ops, d, e);
      ForkIs(st.ops, st.held, IdFor(c, d), IdFor(c, e));
    }
  }

  lemma ForkFreeIs(ops: Order.Ops, s: set<Name>)
    requires s <= ops.Keys && forall a, b :: a in s && b in s ==> !Order.Clash(ops, a, b)
    ensures Order.ForkFree(ops, s)
  {
    hide Order.Clash;
  }

  lemma ForkIs(ops: Order.Ops, s: set<Name>, a: Name, b: Name)
    requires s <= ops.Keys && a in s && b in s && Order.Clash(ops, a, b)
    ensures !Order.ForkFree(ops, s)
  {
    hide Order.Clash;
  }

  lemma OneWayFrom(h: Timeline, cuts: seq<Cut>, d: Deed, e: Deed)
    requires NoTwoWays(h, cuts) && d in AllDeeds(h, cuts) && e in AllDeeds(h, cuts) && d != e
    ensures forall s :: s in d.hops && s in e.hops ==> d.hops[s].before != e.hops[s].before
  {
    hide AllDeeds;
  }

  lemma TwoWays(h: Timeline, cuts: seq<Cut>) returns (d: Deed, e: Deed)
    requires !NoTwoWays(h, cuts)
    ensures d in AllDeeds(h, cuts) && e in AllDeeds(h, cuts) && d != e
    ensures exists s :: s in d.hops && s in e.hops && d.hops[s].before == e.hops[s].before
  {
    var s;
    hide AllDeeds;
    d, e, s :| d in AllDeeds(h, cuts) && e in AllDeeds(h, cuts) && s in d.hops && s in e.hops
               && d.hops[s].before == e.hops[s].before && d != e;
  }

  /** The ops of any path's history reduce to themselves, none lost, if and only if no touch was chained onto a
      removal that never took place and no two different ops change one symbol from one version. */
  lemma HistoryReducesToItselfExactlyWhen(c: Codec, h: Timeline, cuts: seq<Cut>)
    requires IsCodec(c) && ValidTimeline(h) && AreCuts(h, cuts)
    ensures Reduced(PathStore(c, h, cuts)) == PathStore(c, h, cuts).held <==> AllRooted(h) && NoTwoWays(h, cuts)
  {
    hide *;
    var st := PathStore(c, h, cuts);
    PathIsAddressed(c, h, cuts);
    ReducedIs(st);
    BottomingIs(st);
    GroundedExactlyWhen(c, h, cuts);
    ForkFreeExactlyWhen(c, h, cuts);
    Frontier.ReducesToItselfExactlyWhen(st.ops, st.declared, st.held);
  }

  // ---------------------------------------------------------------------------------------
  // Entities.

  /** An entity's touch is never unrooted: it leaves the file only by being closed. */
  lemma EntityIsRooted(h: Timeline, k: nat, s: Sym)
    requires ValidTimeline(h) && (s.Entity? || s.Nested? || s.Whole?)
    ensures !Unrooted(h, k, s)
  {
    hide *;
    if Unrooted(h, k, s) {
      var d := UnrootedAt(h, k, s);
      BeforeIs(h, k, s);
      if s in Prior(h, k) {
        ValidAt(h, k);
        NotBottom(Prior(h, k), s);
      } else {
        EntityLeaves(h, d, s);
      }
    }
  }

  /** Where the lookback sees it close, it is gone. */
  lemma EntityLeaves(h: Timeline, d: nat, s: Sym)
    requires d < |h| && (s.Entity? || s.Nested? || s.Whole?)
    ensures SeenClosing(h, d, s) ==> s !in h[d].table
  {
  }

  /** So the ops of entities and whole files always bottom out, whatever becomes of the gaps. */
  lemma EntitiesAreGrounded(c: Codec, h: Timeline, cuts: seq<Cut>, k: nat, s: Sym)
    requires IsCodec(c) && ValidTimeline(h) && AreCuts(h, cuts) && k < |h| && s in Touches(h, k)
    requires s.Entity? || s.Nested? || s.Whole?
    ensures var st := PathStore(c, h, cuts);
            && st.held <= st.ops.Keys && k < |st.made| && s in st.made[k] && st.made[k][s] in Bottoming(st)
  {
    hide *;
    forall j: nat, t: Sym | Counted(true, t) ensures !Unrooted(h, j, t) {
      CountedIsEntity(t);
      EntityIsRooted(h, j, t);
    }
    CountedRootedIs(h);
    CountedIsGrounded(c, h, cuts, true);
    CountedIsEntity(s);
    var b := TouchIsIn(c, h, cuts, k, s);
    CutAt(h, cuts, k);
    BucketAt(h, k, cuts[k], b);
    BucketCounted(h, k, b, s, true);
    DeedAt(h, cuts, k, b);
    CountedAt(c, h, cuts, true, DeedOf(h, k, b));
  }

  lemma CountedIsEntity(s: Sym)
    ensures Counted(true, s) <==> s.Entity? || s.Nested? || s.Whole?
  {
  }

  lemma CountedRootedIs(h: Timeline)
    requires forall k: nat, s: Sym :: Counted(true, s) ==> !Unrooted(h, k, s)
    ensures CountedRooted(h, true)
  {
    hide Unrooted;
  }

  /** An entity or a whole file, in any history without bookkeeping commits and however its entities are grouped:
      the frontier has what replaying gives up to the first op that is lost or occurred before -- the last writer's
      version if and only if what came after brought the symbol back to that. */
  lemma EntityTipIsReplayExactlyWhen(c: Codec, h: Timeline, cuts: seq<Cut>, k: nat, s: Sym)
    requires IsCodec(c) && ValidTimeline(h) && AreCuts(h, cuts) && forall d :: 0 <= d < |h| ==> !h[d].bookkeeping
    requires (s.Entity? || s.Nested? || s.Whole?) && FirstStop(h, PathStore(c, h, cuts), k, s)
    ensures k <= |h| && Tip(c, PathStore(c, h, cuts), s) == Written(c, ReplayedVersion(h, k, s))
    ensures Tip(c, PathStore(c, h, cuts), s) == Written(c, ReplayedVersion(h, |h|, s))
            <==> ReplayedVersion(h, k, s) == ReplayedVersion(h, |h|, s)
  {
    hide *;
    var st := PathStore(c, h, cuts);
    EntityIsLinked(h, s);
    PathIsMined(c, h, cuts);
    StopIs(h, st, k, s);
    if k < |h| { EntitiesAreGrounded(c, h, cuts, k, s); }
    EntityStops(c, h, st, k, s);
  }

  lemma EntityStops(c: Codec, h: Timeline, st: Store, k: nat, s: Sym)
    requires IsCodec(c) && Mined(c, h, st) && st.held <= st.ops.Keys && AllLinkedAt(h, s) && FirstStop(h, st, k, s)
    requires k < |h| ==> k < |st.made| && s in st.made[k] && st.made[k][s] in Bottoming(st)
    ensures k <= |h| && Tip(c, st, s) == Written(c, ReplayedVersion(h, k, s))
    ensures Tip(c, st, s) == Written(c, ReplayedVersion(h, |h|, s))
            <==> ReplayedVersion(h, k, s) == ReplayedVersion(h, |h|, s)
  {
    hide *;
    StopIs(h, st, k, s);
    FrontierStopsAtFirstLost(c, h, st, k, s);
    TipIsReplayExactlyWhen(c, h, st, k, s);
  }

  /** Every entity's touches are linked where no commit is bookkeeping. */
  lemma EntityIsLinked(h: Timeline, s: Sym)
    requires ValidTimeline(h) && (s.Entity? || s.Nested? || s.Whole?) && forall d :: 0 <= d < |h| ==> !h[d].bookkeeping
    ensures AllLinkedAt(h, s)
  {
    hide *;
    forall k | 0 <= k < |h| && s in Touches(h, k) ensures Touches(h, k)[s].before == ReplayedVersion(h, k, s) {
      EntityChainsAreLinked(h, k, s);
      LinkedIs(h, k, s);
      ReplayedIs(h, k, s);
    }
    AllLinkedIs(h, s);
  }

  lemma ReplayedIs(h: Timeline, k: nat, s: Sym)
    requires k <= |h|
    ensures ReplayedVersion(h, k, s) == if s in Replay(h, k) then Some(Replay(h, k)[s].version) else None
  {
    hide Replay;
  }

  lemma AllLinkedIs(h: Timeline, s: Sym)
    requires forall k :: 0 <= k < |h| && s in Touches(h, k) ==> Touches(h, k)[s].before == ReplayedVersion(h, k, s)
    ensures AllLinkedAt(h, s)
  {
    hide Touches, ReplayedVersion;
  }

  // ---------------------------------------------------------------------------------------
  // Histories that lose nothing.

  /** No symbol is changed twice from the same version. */
  ghost predicate NoStepTwice(h: Timeline) {
    forall i, k, s :: 0 <= i < k < |h| && s in Touches(h, i) && s in Touches(h, k) ==>
      Touches(h, i)[s].before != Touches(h, k)[s].before
  }

  lemma StepsApart(h: Timeline, i: nat, k: nat, s: Sym)
    requires NoStepTwice(h) && i < |h| && k < |h| && s in Touches(h, i) && s in Touches(h, k)
    requires Touches(h, i)[s].before == Touches(h, k)[s].before
    ensures i == k
  {
    hide Touches;
  }

  lemma LinkedIsRooted(h: Timeline)
    requires ValidTimeline(h) && AllLinked(h)
    ensures AllRooted(h)
  {
    hide *;
    forall k: nat, s: Sym ensures !Unrooted(h, k, s) {
      if Unrooted(h, k, s) {
        var d := UnrootedAt(h, k, s);
        LinkedSymbol(h, s);
        LinkedAtIs(h, k, s);
        var j := VersionIsMade(h, k, s);
        NeverMade(h, d, j, s);
      }
    }
    RootedIs(h);
  }

  lemma LinkedSymbol(h: Timeline, s: Sym)
    requires AllLinked(h)
    ensures AllLinkedAt(h, s)
  {
    hide AllLinkedAt;
  }

  lemma RootedIs(h: Timeline)
    requires forall k: nat, s: Sym :: !Unrooted(h, k, s)
    ensures AllRooted(h)
  {
    hide Unrooted;
  }

  lemma VersionIsMade(h: Timeline, k: nat, s: Sym) returns (j: nat)
    requires k <= |h| && ReplayedVersion(h, k, s).Some?
    ensures j < k && s in Touches(h, j) && Some(Touches(h, j)[s].after) == ReplayedVersion(h, k, s)
  {
    hide Replay, Touches;
    j := StateIsMade(h, k, s);
  }

  lemma OnceIsOneWay(h: Timeline, cuts: seq<Cut>)
    requires AreCuts(h, cuts) && NoStepTwice(h)
    ensures NoTwoWays(h, cuts)
  {
    hide *;
    if !NoTwoWays(h, cuts) {
      var d, e := TwoWays(h, cuts);
      var s :| s in d.hops && s in e.hops && d.hops[s].before == e.hops[s].before;
      var i, a := DeedFrom(h, cuts, d);
      var k, b := DeedFrom(h, cuts, e);
      DeedTouch(h, i, a, s);
      DeedTouch(h, k, b, s);
      StepsApart(h, i, k, s);
      CutAt(h, cuts, k);
      OneBucket(h, k, cuts[k], a, b, s);
    }
  }

  lemma DeedTouch(h: Timeline, k: nat, b: Bucket, s: Sym)
    requires k < |h| && s in DeedOf(h, k, b).hops
    ensures s in b.syms && s in Touches(h, k) && DeedOf(h, k, b).hops[s].before == Touches(h, k)[s].before
  {
    hide Touches;
  }

  /** Then every touch's op is kept and is in no earlier one. */
  lemma OncePasses(c: Codec, h: Timeline, cuts: seq<Cut>, s: Sym)
    requires IsCodec(c) && ValidTimeline(h) && AreCuts(h, cuts) && AllLinked(h) && NoStepTwice(h)
    ensures FirstStop(h, PathStore(c, h, cuts), |h|, s)
  {
    hide *;
    var st := PathStore(c, h, cuts);
    LinkedIsRooted(h);
    OnceIsOneWay(h, cuts);
    HistoryReducesToItselfExactlyWhen(c, h, cuts);
    PathIsMined(c, h, cuts);
    forall i | 0 <= i < |h| && s in Touches(h, i) ensures Passes(h, st, i, s) {
      MadeAt(c, h, st, i, s);
      OnceIsNew(c, h, st, i, s);
      PassesIs(h, st, i, s);
    }
    AllPass(h, st, s);
  }

  lemma AllPass(h: Timeline, st: Store, s: Sym)
    requires forall i :: 0 <= i < |h| && s in Touches(h, i) ==> Passes(h, st, i, s)
    ensures FirstStop(h, st, |h|, s)
  {
    hide Touches, Passes;
  }

  lemma OnceIsNew(c: Codec, h: Timeline, st: Store, i: nat, s: Sym)
    requires IsCodec(c) && Mined(c, h, st) && NoStepTwice(h) && i < |h| && s in Touches(h, i)
    requires i < |st.made| && s in st.made[i]
    ensures st.made[i][s] !in Trail(h, st, i, s)
  {
    hide *;
    var id := st.made[i][s];
    if id in Trail(h, st, i, s) {
      TrailHolds(c, h, st, i, s, id);
      var j: nat :| j < i && MadeIn(h, st, j, s, id);
      MadeInAt(h, st, j, s, id);
      MadeAt(c, h, st, j, s);
      MadeAt(c, h, st, i, s);
      HopsApart(c, st.ops, id, s, HopOf(Touches(h, j)[s]), HopOf(Touches(h, i)[s]));
      SameHop(Touches(h, j)[s], Touches(h, i)[s]);
      StepsApart(h, j, i, s);
    }
  }

  lemma SameHop(a: Touch, b: Touch)
    requires HopOf(a) == HopOf(b)
    ensures a.before == b.before
  {
  }
}
