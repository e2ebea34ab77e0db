/** The store one path's mined history makes on its own (`sgt/core/mine.py`, `_untangle`, `_build_ops`), and when
    none of its ops is lost.

    How a commit's entities are grouped into ops is left open, as is what those ops require; whatever it is, the
    history reduces to itself exactly when nothing was chained onto a removal that never took place and no two
    different ops change one symbol from one version. */
module PathOps {
  import opened Names
  import opened Symbols
  import opened Chains
  import opened Codecs
  import opened MinedOps
  import BuildMap
  import Order
  import Frontier

  /** A version of a symbol an op requires. */
  datatype Want = Want(sym: Sym, version: Version)

  /** Touches of one commit that go into one op, with what that op requires. */
  datatype Bucket = Bucket(syms: set<Sym>, wants: set<Want>)

  type Cut = set<Bucket>

  /** Entities may share an op. */
  predicate IsGrouped(s: Sym) {
    s.Entity? || s.Nested?
  }

  /** What is no entity is by itself and requires nothing; entities require entities of the commit's file that
      the commit did not touch. */
  ghost predicate IsBucket(h: Timeline, k: nat, b: Bucket)
    requires k < |h|
  {
    && b.syms != {} && b.syms <= Touches(h, k).Keys
    && (forall s :: s in b.syms && !IsGrouped(s) ==> b == Bucket({s}, {}))
    && (forall w :: w in b.wants ==> IsCurrent(h, k, w))
  }

  ghost predicate IsCurrent(h: Timeline, k: nat, w: Want)
    requires k < |h|
  {
    && IsGrouped(w.sym) && w.sym !in Touches(h, k)
    && w.sym in h[k].table && h[k].table[w.sym].version == w.version
  }

  /** Every touch is in one bucket. */
  ghost predicate IsCut(h: Timeline, k: nat, cut: Cut)
    requires k < |h|
  {
    && (forall b :: b in cut ==> IsBucket(h, k, b))
    && (forall s :: s in Touches(h, k) ==> exists b :: b in cut && s in b.syms)
    && (forall a, b, s :: a in cut && b in cut && s in a.syms && s in b.syms ==> a == b)
  }

  ghost predicate AreCuts(h: Timeline, cuts: seq<Cut>) {
    |cuts| == |h| && forall k :: 0 <= k < |h| ==> IsCut(h, k, cuts[k])
  }

  lemma CutAt(h: Timeline, cuts: seq<Cut>, k: nat)
    requires AreCuts(h, cuts) && k < |h|
    ensures k < |cuts| && IsCut(h, k, cuts[k])
  {
    hide IsCut;
  }

  lemma BucketAt(h: Timeline, k: nat, cut: Cut, b: Bucket)
    requires k < |h| && IsCut(h, k, cut) && b in cut
    ensures IsBucket(h, k, b)
  {
    hide IsBucket, Touches;
  }

  /** The bucket of a touch. */
  ghost function BucketOf(h: Timeline, k: nat, cut: Cut, s: Sym): (b: Bucket)
    requires k < |h| && IsCut(h, k, cut) && s in Touches(h, k)
    ensures b in cut && s in b.syms
  {
    hide Touches, IsBucket;
    var b :| b in cut && s in b.syms;
    b
  }

  /** Symbols in ops of their own throughout. */
  ghost predicate IsAlone(h: Timeline, cuts: seq<Cut>, s: Sym) {
    forall k, b :: 0 <= k < |h| && k < |cuts| && b in cuts[k] && s in b.syms ==> b == Bucket({s}, {})
  }

  lemma UngroupedIsAlone(h: Timeline, cuts: seq<Cut>, s: Sym)
    requires AreCuts(h, cuts) && !IsGrouped(s)
    ensures IsAlone(h, cuts, s)
  {
    hide *;
    forall k, b | 0 <= k < |h| && k < |cuts| && b in cuts[k] && s in b.syms ensures b == Bucket({s}, {}) {
      CutAt(h, cuts, k);
      BucketAt(h, k, cuts[k], b);
      UngroupedBucket(h, k, b, s);
    }
    AloneIs(h, cuts, s);
  }

  lemma UngroupedBucket(h: Timeline, k: nat, b: Bucket, s: Sym)
    requires k < |h| && IsBucket(h, k, b) && s in b.syms && !IsGrouped(s)
    ensures b == Bucket({s}, {})
  {
    hide IsCurrent, Touches, IsGrouped;
  }

  lemma AloneIs(h: Timeline, cuts: seq<Cut>, s: Sym)
    requires forall k, b :: 0 <= k < |h| && k < |cuts| && b in cuts[k] && s in b.syms ==> b == Bucket({s}, {})
    ensures IsAlone(h, cuts, s)
  {
  }

  // ---------------------------------------------------------------------------------------
  // Content and id.

  /** All that an op says: what it does to each symbol, and what it requires. */
  datatype Deed = Deed(hops: map<Sym, Hop>, wants: set<Want>)

  function DeedOf(h: Timeline, k: nat, b: Bucket): (r: Deed)
    requires k < |h|
    ensures forall s :: s in r.hops <==> s in b.syms && s in Touches(h, k)
    ensures forall s :: s in r.hops ==> r.hops[s] == HopOf(Touches(h, k)[s])
  {
    Deed(map s | s in b.syms && s in Touches(h, k) :: HopOf(Touches(h, k)[s]), b.wants)
  }

  ghost function SymNamed(c: Codec, hops: map<Sym, Hop>, n: Name): (s: Sym)
    requires exists s :: s in hops && c.name(s) == n
    ensures s in hops && c.name(s) == n
  {
    var s :| s in hops && c.name(s) == n;
    s
  }

  ghost function Footprint(c: Codec, hops: map<Sym, Hop>): map<Name, BuildMap.Change> {
    map n | n in (set s | s in hops :: c.name(s)) :: ChangeOf(c, hops[SymNamed(c, hops, n)])
  }

  function Pins(c: Codec, wants: set<Want>): set<Order.Pin> {
    set w | w in wants :: Order.Pin(c.name(w.sym), c.version(w.version))
  }

  ghost function OpFor(c: Codec, d: Deed): Order.OrderedOp {
    Order.OrderedOp(Footprint(c, d.hops), Pins(c, d.wants))
  }

  ghost function IdFor(c: Codec, d: Deed): Name {
    c.id(OpFor(c, d))
  }

  lemma FootprintAt(c: Codec, hops: map<Sym, Hop>, s: Sym)
    requires IsCodec(c)
    ensures c.name(s) in Footprint(c, hops) <==> s in hops
    ensures s in hops ==> Footprint(c, hops)[c.name(s)] == ChangeOf(c, hops[s])
  {
    hide ChangeOf;
  }

  lemma FootprintFrom(c: Codec, hops: map<Sym, Hop>, n: Name) returns (s: Sym)
    requires n in Footprint(c, hops)
    ensures s in hops && c.name(s) == n
  {
    s :| s in hops && c.name(s) == n;
  }

  lemma HopsFromFootprint(c: Codec, a: map<Sym, Hop>, b: map<Sym, Hop>)
    requires IsCodec(c) && Footprint(c, a) == Footprint(c, b)
    ensures a == b
  {
    forall s ensures (s in a <==> s in b) && (s in a ==> a[s] == b[s]) {
      hide *;
      FootprintAt(c, a, s);
      FootprintAt(c, b, s);
      if s in a { ChangesApart(c, a[s], b[s]); }
    }
    assert a.Keys == b.Keys;
  }

  lemma WantsFromPins(c: Codec, a: set<Want>, b: set<Want>)
    requires IsCodec(c) && Pins(c, a) <= Pins(c, b)
    ensures a <= b
  {
    forall w | w in a ensures w in b {
      assert Order.Pin(c.name(w.sym), c.version(w.version)) in Pins(c, b);
      var v :| v in b && Order.Pin(c.name(v.sym), c.version(v.version))
          == Order.Pin(c.name(w.sym), c.version(w.version));
    }
  }

  /** Content addressing: one id for what says the same, different ids for what does not. */
  lemma IdsAreContent(c: Codec, a: Deed, b: Deed)
    requires IsCodec(c)
    ensures IdFor(c, a) == IdFor(c, b) <==> a == b
  {
    if IdFor(c, a) == IdFor(c, b) {
      assert OpFor(c, a) == OpFor(c, b);
      HopsFromFootprint(c, a.hops, b.hops);
      WantsFromPins(c, a.wants, b.wants);
      WantsFromPins(c, b.wants, a.wants);
    }
  }

  // ---------------------------------------------------------------------------------------
  // The store.

  ghost function AllDeeds(h: Timeline, cuts: seq<Cut>): (r: set<Deed>)
    ensures forall d :: d in r <==> exists k, b :: 0 <= k < |h| && k < |cuts| && b in cuts[k] && DeedOf(h, k, b) == d
  {
    set k, b | 0 <= k < |h| && k < |cuts| && b in cuts[k] :: DeedOf(h, k, b)
  }

  ghost function AllIds(c: Codec, deeds: set<Deed>): set<Name> {
    set d | d in deeds :: IdFor(c, d)
  }

  ghost function DeedNamed(c: Codec, deeds: set<Deed>, id: Name): (d: Deed)
    requires id in AllIds(c, deeds)
    ensures d in deeds && IdFor(c, d) == id
  {
    var d :| d in deeds && IdFor(c, d) == id;
    d
  }

  ghost function OpsFor(c: Codec, deeds: set<Deed>): (r: Order.Ops)
    ensures r.Keys == AllIds(c, deeds)
  {
    map id | id in AllIds(c, deeds) :: OpFor(c, DeedNamed(c, deeds, id))
  }

  lemma OpsForAt(c: Codec, deeds: set<Deed>, d: Deed)
    requires IsCodec(c) && d in deeds
    ensures IdFor(c, d) in AllIds(c, deeds) && IdFor(c, d) in OpsFor(c, deeds)
    ensures OpsFor(c, deeds)[IdFor(c, d)] == OpFor(c, d)
  {
    var id := IdFor(c, d);
    assert id in AllIds(c, deeds);
    IdsAreContent(c, d, DeedNamed(c, deeds, id));
  }

  lemma OpsForFrom(c: Codec, deeds: set<Deed>, id: Name) returns (d: Deed)
    requires IsCodec(c) && id in AllIds(c, deeds)
    ensures d in deeds && IdFor(c, d) == id && id in OpsFor(c, deeds) && OpsFor(c, deeds)[id] == OpFor(c, d)
  {
    d := DeedNamed(c, deeds, id);
    OpsForAt(c, deeds, d);
  }

  ghost function IdsMade(c: Codec, h: Timeline, cuts: seq<Cut>, k: nat): map<Sym, Name>
    requires k < |h| && AreCuts(h, cuts)
  {
    CutAt(h, cuts, k);
    map s | s in Touches(h, k) :: IdFor(c, DeedOf(h, k, BucketOf(h, k, cuts[k], s)))
  }

  /** All its ops and nothing else. */
  ghost function PathStore(c: Codec, h: Timeline, cuts: seq<Cut>): (st: Store)
    requires AreCuts(h, cuts)
    ensures st.held == AllIds(c, AllDeeds(h, cuts)) && st.ops == OpsFor(c, AllDeeds(h, cuts)) && st.declared == {}
    ensures |st.made| == |h| && forall k :: 0 <= k < |h| ==> st.made[k] == IdsMade(c, h, cuts, k)
  {
    Store(OpsFor(c, AllDeeds(h, cuts)), {}, AllIds(c, AllDeeds(h, cuts)),
          seq(|h|, k requires 0 <= k < |h| => IdsMade(c, h, cuts, k)))
  }

  lemma DeedAt(h: Timeline, cuts: seq<Cut>, k: nat, b: Bucket)
    requires k < |h| && k < |cuts| && b in cuts[k]
    ensures DeedOf(h, k, b) in AllDeeds(h, cuts)
  {
    hide DeedOf;
  }

  lemma DeedFrom(h: Timeline, cuts: seq<Cut>, d: Deed) returns (k: nat, b: Bucket)
    requires d in AllDeeds(h, cuts)
    ensures k < |h| && k < |cuts| && b in cuts[k] && DeedOf(h, k, b) == d
  {
    hide DeedOf;
    k, b :| 0 <= k < |h| && k < |cuts| && b in cuts[k] && DeedOf(h, k, b) == d;
  }

  /** The op a touch is in, with what it says. */
  lemma TouchIsIn(c: Codec, h: Timeline, cuts: seq<Cut>, k: nat, s: Sym) returns (b: Bucket)
    requires IsCodec(c) && AreCuts(h, cuts) && k < |h| && s in Touches(h, k)
    ensures k < |cuts| && b in cuts[k] && s in b.syms
    ensures var st, d := PathStore(c, h, cuts), DeedOf(h, k, b);
            && |st.made| == |h| && s in st.made[k] && st.made[k][s] == IdFor(c, d)
            && IdFor(c, d) in st.held && IdFor(c, d) in st.ops && st.ops[IdFor(c, d)] == OpFor(c, d)
            && s in d.hops && d.hops[s] == HopOf(Touches(h, k)[s])
  {
    CutAt(h, cuts, k);
    b := BucketOf(h, k, cuts[k], s);
    MadeIs(c, h, cuts, k, s);
    var st := PathStore(c, h, cuts);
    assert st.made[k] == IdsMade(c, h, cuts, k);
    hide *;
    DeedAt(h, cuts, k, b);
    OpsForAt(c, AllDeeds(h, cuts), DeedOf(h, k, b));
  }

  lemma MadeIs(c: Codec, h: Timeline, cuts: seq<Cut>, k: nat, s: Sym)
    requires AreCuts(h, cuts) && k < |h| && s in Touches(h, k)
    ensures k < |cuts| && IsCut(h, k, cuts[k]) && s in IdsMade(c, h, cuts, k)
    ensures IdsMade(c, h, cuts, k)[s] == IdFor(c, DeedOf(h, k, BucketOf(h, k, cuts[k], s)))
  {
    CutAt(h, cuts, k);
    hide AreCuts, IsCut, Touches, DeedOf, IdFor, BucketOf;
  }

  lemma OpIsFor(c: Codec, h: Timeline, cuts: seq<Cut>, id: Name) returns (k: nat, b: Bucket)
    requires IsCodec(c) && AreCuts(h, cuts) && id in PathStore(c, h, cuts).held
    ensures k < |h| && k < |cuts| && b in cuts[k] && IsBucket(h, k, b) && id == IdFor(c, DeedOf(h, k, b))
    ensures var st := PathStore(c, h, cuts);
            id in st.ops && st.ops[id] == OpFor(c, DeedOf(h, k, b))
  {
    hide *;
    var d := OpsForFrom(c, AllDeeds(h, cuts), id);
    k, b := DeedFrom(h, cuts, d);
    CutAt(h, cuts, k);
    BucketAt(h, k, cuts[k], b);
  }

  lemma DeedHops(c: Codec, ops: Order.Ops, id: Name, d: Deed, s: Sym)
    requires IsCodec(c) && id in ops && ops[id] == OpFor(c, d)
    ensures Frontier.Touches(ops, id, c.name(s)) <==> s in d.hops
    ensures s in d.hops ==> DoesHop(c, ops, id, s, d.hops[s])
  {
    FootprintAt(c, d.hops, s);
    hide Footprint;
  }

  lemma PathIsMined(c: Codec, h: Timeline, cuts: seq<Cut>)
    requires IsCodec(c) && AreCuts(h, cuts)
    ensures Mined(c, h, PathStore(c, h, cuts))
  {
    var st := PathStore(c, h, cuts);
    hide *;
    forall k: nat, s: Sym | k < |h| && s in Touches(h, k) ensures IsMade(c, h, st, k, s) {
      var b := TouchIsIn(c, h, cuts, k, s);
      DeedHops(c, st.ops, st.made[k][s], DeedOf(h, k, b), s);
      MadeNow(c, h, st, k, s);
    }
    forall id, s: Sym | id in st.held && Frontier.Touches(st.ops, id, c.name(s))
      ensures exists k: nat :: MadeIn(h, st, k, s, id)
    {
      TouchedIsMade(c, h, cuts, id, s);
    }
    PathIsAddressed(c, h, cuts);
    MinedIs(c, h, st);
  }

  lemma MadeNow(c: Codec, h: Timeline, st: Store, k: nat, s: Sym)
    requires k < |h| && s in Touches(h, k) && k < |st.made| && s in st.made[k] && st.made[k][s] in st.held
    requires DoesHop(c, st.ops, st.made[k][s], s, HopOf(Touches(h, k)[s]))
    ensures IsMade(c, h, st, k, s)
  {
  }

  lemma MinedIs(c: Codec, h: Timeline, st: Store)
    requires |st.made| == |h| && st.held <= st.ops.Keys && Addressed(st.ops)
    requires forall k: nat, s: Sym :: k < |h| && s in Touches(h, k) ==> IsMade(c, h, st, k, s)
    requires forall id, s: Sym :: id in st.held && Frontier.Touches(st.ops, id, c.name(s))
               ==> exists k: nat :: MadeIn(h, st, k, s, id)
    ensures Mined(c, h, st)
  {
    hide Touches, IsMade, MadeIn, Frontier.Touches, Addressed;
  }

  lemma TouchedIsMade(c: Codec, h: Timeline, cuts: seq<Cut>, id: Name, s: Sym)
    requires IsCodec(c) && AreCuts(h, cuts) && id in PathStore(c, h, cuts).held
    requires Frontier.Touches(PathStore(c, h, cuts).ops, id, c.name(s))
    ensures exists k: nat :: MadeIn(h, PathStore(c, h, cuts), k, s, id)
  {
    hide *;
    var st := PathStore(c, h, cuts);
    var k, b := OpIsFor(c, h, cuts, id);
    DeedHops(c, st.ops, id, DeedOf(h, k, b), s);
    var other := TouchIsIn(c, h, cuts, k, s);
    CutAt(h, cuts, k);
    OneBucket(h, k, cuts[k], b, other, s);
    MadeInAt(h, st, k, s, id);
  }

  lemma OneBucket(h: Timeline, k: nat, cut: Cut, a: Bucket, b: Bucket, s: Sym)
    requires k < |h| && IsCut(h, k, cut) && a in cut && b in cut && s in a.syms && s in b.syms
    ensures a == b
  {
    hide IsBucket, Touches;
  }

  lemma PathIsAddressed(c: Codec, h: Timeline, cuts: seq<Cut>)
    requires IsCodec(c) && AreCuts(h, cuts)
    ensures var st := PathStore(c, h, cuts);
            st.held == st.ops.Keys && Addressed(st.ops)
  {
    var deeds := AllDeeds(h, cuts);
    var ops := OpsFor(c, deeds);
    assert PathStore(c, h, cuts).ops == ops;
    hide AreCuts, PathStore, OpFor, AllDeeds, OpsFor;
    forall a, b | a in ops && b in ops && ops[a] == ops[b] ensures a == b {
      var d := OpsForFrom(c, deeds, a);
      var e := OpsForFrom(c, deeds, b);
    }
  }

  /** Alone in the cuts is alone in the store. */
  lemma PathIsAlone(c: Codec, h: Timeline, cuts: seq<Cut>, s: Sym)
    requires IsCodec(c) && AreCuts(h, cuts) && IsAlone(h, cuts, s)
    ensures Alone(c, PathStore(c, h, cuts), s)
  {
    var st, n := PathStore(c, h, cuts), c.name(s);
    assert st.declared == {};
    hide *;
    forall id | id in st.held && Frontier.Touches(st.ops, id, n) ensures Frontier.AloneAt(st.ops, st.declared, id, n) {
      var k, b := OpIsFor(c, h, cuts, id);
      DeedHops(c, st.ops, id, DeedOf(h, k, b), s);
      AloneBucket(h, cuts, k, b, s);
      AloneDeed(c, st.ops, id, DeedOf(h, k, b), s);
    }
    SoloIs(c, st, s);
  }

  lemma SoloIs(c: Codec, st: Store, s: Sym)
    requires forall id :: id in st.held && Frontier.Touches(st.ops, id, c.name(s))
               ==> Frontier.AloneAt(st.ops, st.declared, id, c.name(s))
    ensures Alone(c, st, s)
  {
    hide Frontier.AloneAt, Frontier.Touches;
  }

  lemma AloneBucket(h: Timeline, cuts: seq<Cut>, k: nat, b: Bucket, s: Sym)
    requires IsAlone(h, cuts, s) && k < |h| && k < |cuts| && b in cuts[k] && s in DeedOf(h, k, b).hops
    ensures DeedOf(h, k, b).hops.Keys == {s} && DeedOf(h, k, b).wants == {}
  {
    hide Touches;
    assert s in b.syms;
    assert b == Bucket({s}, {});
  }

  lemma AloneDeed(c: Codec, ops: Order.Ops, id: Name, d: Deed, s: Sym)
    requires id in ops && ops[id] == OpFor(c, d) && d.hops.Keys == {s} && d.wants == {}
    ensures Frontier.AloneAt(ops, {}, id, c.name(s))
  {
    assert Pins(c, {}) == {};
    assert Footprint(c, d.hops).Keys == {c.name(s)};
  }

  /** However the entities are grouped, what the frontier says of a gap, an anchor or a whole file is where its own
      touches lead from birth. */
  lemma UngroupedFollows(c: Codec, h: Timeline, cuts: seq<Cut>, s: Sym)
    requires IsCodec(c) && AreCuts(h, cuts) && !IsGrouped(s)
    ensures Tip(c, PathStore(c, h, cuts), s) == Written(c, Follow(AllHops(h, s), None, {}))
  {
    hide *;
    PathIsMined(c, h, cuts);
    UngroupedIsAlone(h, cuts, s);
    PathIsAlone(c, h, cuts, s);
    FrontierFollowsMined(c, h, PathStore(c, h, cuts), s);
  }

  // ---------------------------------------------------------------------------------------
  // Every touch in an op of its own: what comes out where nothing a commit does hangs together.

  ghost function SingleAt(h: Timeline, k: nat): Cut
    requires k < |h|
  {
    set s | s in Touches(h, k) :: Bucket({s}, {})
  }

  lemma SingleAtHas(h: Timeline, k: nat)
    requires k < |h|
    ensures forall s :: s in Touches(h, k) ==> Bucket({s}, {}) in SingleAt(h, k)
    ensures forall b :: b in SingleAt(h, k) ==> b.syms != {}
    ensures forall b, s :: b in SingleAt(h, k) && s in b.syms ==> b == Bucket({s}, {}) && s in Touches(h, k)
  {
    hide Touches;
  }

  ghost function Singles(h: Timeline): (r: seq<Cut>)
    ensures |r| == |h| && forall k :: 0 <= k < |h| ==> r[k] == SingleAt(h, k)
  {
    seq(|h|, k requires 0 <= k < |h| => SingleAt(h, k))
  }

  lemma SingleIsCut(h: Timeline, k: nat)
    requires k < |h|
    ensures IsCut(h, k, SingleAt(h, k))
  {
    hide *;
    var cut := SingleAt(h, k);
    SingleAtHas(h, k);
    forall b | b in cut ensures IsBucket(h, k, b) {
      var s :| s in b.syms;
      SingleIsBucket(h, k, s);
    }
    CutIs(h, k, cut);
  }

  lemma SingleIsBucket(h: Timeline, k: nat, s: Sym)
    requires k < |h| && s in Touches(h, k)
    ensures IsBucket(h, k, Bucket({s}, {}))
  {
    hide Touches, IsCurrent;
  }

  lemma CutIs(h: Timeline, k: nat, cut: Cut)
    requires k < |h| && forall b :: b in cut ==> IsBucket(h, k, b)
    requires forall s :: s in Touches(h, k) ==> Bucket({s}, {}) in cut
    requires forall b, s :: b in cut && s in b.syms ==> b == Bucket({s}, {})
    ensures IsCut(h, k, cut)
  {
    hide Touches, IsBucket;
    forall s | s in Touches(h, k) ensures exists b :: b in cut && s in b.syms {
      var b: Bucket := Bucket({s}, {});
      assert b in cut && s in b.syms;
    }
    forall a, b, s | a in cut && b in cut && s in a.syms && s in b.syms ensures a == b {
      var one: Bucket := Bucket({s}, {});
      assert a == one && b == one;
    }
  }

  lemma SinglesAreCuts(h: Timeline)
    ensures AreCuts(h, Singles(h))
  {
    hide IsCut, SingleAt, Singles;
    forall k | 0 <= k < |h| ensures IsCut(h, k, Singles(h)[k]) { SingleIsCut(h, k); }
  }

  lemma SinglesAreAlone(h: Timeline, s: Sym)
    ensures IsAlone(h, Singles(h), s)
  {
    hide *;
    forall k, b | 0 <= k < |h| && k < |Singles(h)| && b in Singles(h)[k] && s in b.syms ensures b == Bucket({s}, {}) {
      SingleAtHas(h, k);
    }
    AloneIs(h, Singles(h), s);
  }
}
