/** The ops of one path's mined history in a store (`sgt/core/mine.py`, `sgt/core/store.py`), and the frontier the
    fold reads of them: the chain theorems and the order theorems put together.

    A commit's touches go into ops, several entities to one where they were changed together, every gap, anchor
    and whole file to one of its own.  Ops are addressed by content, so a change made again is the op that is
    there already.  A store may hold the ops of other paths beside them. */
module MinedOps {
  import opened Names
  import opened Symbols
  import opened Chains
  import opened Codecs
  import BuildMap
  import Order
  import Frontier

  function Written(c: Codec, v: Option<Version>): Option<BuildMap.OpVersion> {
    if v.Some? then Some(c.version(v.value)) else None
  }

  lemma WrittenApart(c: Codec, a: Option<Version>, b: Option<Version>)
    requires IsCodec(c)
    ensures Written(c, a) == Written(c, b) <==> a == b
  {
  }

  /** What one touch does to its symbol. */
  datatype Hop = Hop(before: Option<Version>, after: Version)

  function HopOf(t: Touch): Hop {
    Hop(t.before, t.after)
  }

  function ChangeOf(c: Codec, p: Hop): BuildMap.Change {
    BuildMap.Change(Written(c, p.before), c.version(p.after))
  }

  lemma ChangesApart(c: Codec, p: Hop, q: Hop)
    requires IsCodec(c)
    ensures ChangeOf(c, p) == ChangeOf(c, q) <==> p == q
  {
  }

  /** Ops by id, the order declared between them, the ids held, and for every commit of the path the op each
      of its touches is in. */
  datatype Store = Store(ops: Order.Ops, declared: set<Order.Declared>, held: set<Name>, made: seq<map<Sym, Name>>)

  ghost function Reduced(st: Store): set<Name> {
    Order.Reduce(st.ops, st.declared, st.held)
  }

  ghost function Bottoming(st: Store): set<Name>
    requires st.held <= st.ops.Keys
  {
    Order.Grounded(st.ops, st.declared, st.held)
  }

  /** What the frontier of the reduced store says of a symbol. */
  ghost function Tip(c: Codec, st: Store, s: Sym): Option<BuildMap.OpVersion> {
    Frontier.TipVersion(st.ops, Reduced(st), c.name(s))
  }

  lemma BottomingIs(st: Store)
    requires st.held <= st.ops.Keys
    ensures Bottoming(st) == Order.Grounded(st.ops, st.declared, st.held) && Bottoming(st) <= st.held
  {
    hide Order.Grounded;
  }

  lemma ReducedIs(st: Store)
    ensures Reduced(st) == Order.Reduce(st.ops, st.declared, st.held)
  {
    hide Order.Reduce;
  }

  lemma TipIs(c: Codec, st: Store, s: Sym)
    ensures Tip(c, st, s) == Frontier.TipVersion(st.ops, Reduced(st), c.name(s))
  {
    hide Reduced, Frontier.TipVersion;
  }

  ghost predicate DoesHop(c: Codec, ops: Order.Ops, id: Name, s: Sym, p: Hop) {
    Frontier.Touches(ops, id, c.name(s)) && ops[id].footprint[c.name(s)] == ChangeOf(c, p)
  }

  /** Commit `k`'s touch of `s` is in that op. */
  ghost predicate MadeIn(h: Timeline, st: Store, k: nat, s: Sym, id: Name) {
    k < |h| && k < |st.made| && s in Touches(h, k) && s in st.made[k] && st.made[k][s] == id
  }

  ghost predicate IsMade(c: Codec, h: Timeline, st: Store, k: nat, s: Sym)
    requires k < |h| && s in Touches(h, k)
  {
    k < |st.made| && s in st.made[k] && st.made[k][s] in st.held
    && DoesHop(c, st.ops, st.made[k][s], s, HopOf(Touches(h, k)[s]))
  }

  /** Same content, same id. */
  ghost predicate Addressed(ops: Order.Ops) {
    forall a, b :: a in ops && b in ops && ops[a] == ops[b] ==> a == b
  }

  /** A store that holds the ops of a path's history: they, and no others, touch its symbols. */
  ghost predicate Mined(c: Codec, h: Timeline, st: Store) {
    && |st.made| == |h| && st.held <= st.ops.Keys && Addressed(st.ops)
    && (forall k, s :: 0 <= k < |h| && s in Touches(h, k) ==> IsMade(c, h, st, k, s))
    && (forall id, s :: id in st.held && Frontier.Touches(st.ops, id, c.name(s))
          ==> exists k: nat :: MadeIn(h, st, k, s, id))
  }

  lemma MinedSizes(c: Codec, h: Timeline, st: Store)
    requires Mined(c, h, st)
    ensures |st.made| == |h| && st.held <= st.ops.Keys && Addressed(st.ops) && Reduced(st) <= st.held
  {
    hide Touches, Addressed;
  }

  lemma MadeAt(c: Codec, h: Timeline, st: Store, k: nat, s: Sym)
    requires Mined(c, h, st) && k < |h| && s in Touches(h, k)
    ensures k < |st.made| && s in st.made[k] && st.made[k][s] in st.held && MadeIn(h, st, k, s, st.made[k][s])
    ensures DoesHop(c, st.ops, st.made[k][s], s, HopOf(Touches(h, k)[s]))
  {
    assert IsMade(c, h, st, k, s);
    hide Touches, DoesHop, Mined;
  }

  lemma MadeBy(c: Codec, h: Timeline, st: Store, id: Name, s: Sym) returns (k: nat)
    requires Mined(c, h, st) && id in st.held && Frontier.Touches(st.ops, id, c.name(s))
    ensures MadeIn(h, st, k, s, id) && DoesHop(c, st.ops, id, s, HopOf(Touches(h, k)[s]))
  {
    hide Touches, DoesHop, Frontier.Touches;
    k :| MadeIn(h, st, k, s, id);
    assert IsMade(c, h, st, k, s);
  }

  // ---------------------------------------------------------------------------------------
  // A walk over versions.

  ghost predicate OnlyWay(hops: set<Hop>, v: Option<Version>, w: Version) {
    Hop(v, w) in hops && forall x :: Hop(v, x) in hops ==> x == w
  }

  /** Where the hops lead from a version, if to one place only. */
  ghost function Onward(hops: set<Hop>, v: Option<Version>): (r: Option<Version>)
    ensures r.Some? ==> OnlyWay(hops, v, r.value)
    ensures r.None? ==> forall w :: !OnlyWay(hops, v, w)
  {
    if exists w :: OnlyWay(hops, v, w) then
      var w :| OnlyWay(hops, v, w);
      Some(w)
    else None
  }

  ghost function Befores(hops: set<Hop>): set<Option<Version>> {
    set p | p in hops :: p.before
  }

  /** Where one gets from a version: until there is nothing to go on with, or two ways to, or one has been
      there before. */
  ghost function Follow(hops: set<Hop>, v: Option<Version>, seen: set<Option<Version>>): Option<Version>
    decreases |Befores(hops) - seen|
  {
    if v in seen || Onward(hops, v).None? then v
    else
      assert v in Befores(hops) by { assert Hop(v, Onward(hops, v).value) in hops; }
      Frontier.Shrinks(Befores(hops), seen, v);
      Follow(hops, Some(Onward(hops, v).value), seen + {v})
  }

  lemma OnwardIs(hops: set<Hop>, v: Option<Version>, w: Version)
    requires OnlyWay(hops, v, w)
    ensures Onward(hops, v) == Some(w)
  {
  }

  lemma Follows(hops: set<Hop>, v: Option<Version>, w: Version, seen: set<Option<Version>>)
    requires v !in seen && OnlyWay(hops, v, w)
    ensures Follow(hops, v, seen) == Follow(hops, Some(w), seen + {v})
    ensures |Befores(hops) - (seen + {v})| < |Befores(hops) - seen|
  {
    OnwardIs(hops, v, w);
    assert v in Befores(hops) by { assert Hop(v, w) in hops; }
    hide Befores, OnlyWay, Onward;
    Frontier.Shrinks(Befores(hops), seen, v);
  }

  lemma FollowEnds(hops: set<Hop>, v: Option<Version>, seen: set<Option<Version>>)
    requires v in seen || forall w :: !OnlyWay(hops, v, w)
    ensures Follow(hops, v, seen) == v
  {
    hide OnlyWay;
  }

  /** The ops of `base` that touch `s` make just those hops, one each. */
  ghost predicate Mirrors(c: Codec, ops: Order.Ops, base: set<Name>, s: Sym, hops: set<Hop>) {
    && (forall p :: p in hops ==> exists id :: id in base && DoesHop(c, ops, id, s, p))
    && (forall id :: id in base && Frontier.Touches(ops, id, c.name(s)) ==>
          exists p :: p in hops && DoesHop(c, ops, id, s, p))
    && (forall a, b, p :: a in base && b in base && DoesHop(c, ops, a, s, p) && DoesHop(c, ops, b, s, p) ==> a == b)
  }

  ghost predicate NextIs(c: Codec, ops: Order.Ops, base: set<Name>, s: Sym, hops: set<Hop>, v: Option<Version>) {
    var next, onward := Frontier.NextStep(ops, base, c.name(s), Written(c, v)), Onward(hops, v);
    if onward.None? then next.None? || Frontier.Splits(ops, base, c.name(s), Written(c, v))
    else next.Some? && !Frontier.Splits(ops, base, c.name(s), Written(c, v))
         && Frontier.Touches(ops, next.value, c.name(s))
         && Frontier.AfterOf(ops, next.value, c.name(s)) == c.version(onward.value)
  }

  lemma HopTakes(c: Codec, ops: Order.Ops, id: Name, s: Sym, p: Hop, v: Option<Version>)
    requires IsCodec(c) && DoesHop(c, ops, id, s, p)
    ensures Frontier.Takes(ops, id, c.name(s), Written(c, v)) <==> p.before == v
    ensures Frontier.Touches(ops, id, c.name(s)) && Frontier.AfterOf(ops, id, c.name(s)) == c.version(p.after)
  {
    WrittenApart(c, p.before, v);
  }

  lemma TakesHop(c: Codec, ops: Order.Ops, base: set<Name>, s: Sym, hops: set<Hop>, v: Option<Version>, id: Name)
    returns (w: Version)
    requires IsCodec(c) && Mirrors(c, ops, base, s, hops) && id in base
    requires Frontier.Takes(ops, id, c.name(s), Written(c, v))
    ensures Hop(v, w) in hops && DoesHop(c, ops, id, s, Hop(v, w))
    ensures Frontier.Touches(ops, id, c.name(s)) && Frontier.AfterOf(ops, id, c.name(s)) == c.version(w)
  {
    assert Frontier.Touches(ops, id, c.name(s));
    var p :| p in hops && DoesHop(c, ops, id, s, p);
    hide *;
    HopTakes(c, ops, id, s, p, v);
    w := p.after;
    assert p == Hop(v, w);
  }

  lemma HopTaken(c: Codec, ops: Order.Ops, base: set<Name>, s: Sym, hops: set<Hop>, v: Option<Version>, w: Version)
    returns (id: Name)
    requires IsCodec(c) && Mirrors(c, ops, base, s, hops) && Hop(v, w) in hops
    ensures id in base && DoesHop(c, ops, id, s, Hop(v, w)) && Frontier.Takes(ops, id, c.name(s), Written(c, v))
  {
    id :| id in base && DoesHop(c, ops, id, s, Hop(v, w));
    hide *;
    HopTakes(c, ops, id, s, Hop(v, w), v);
  }

  lemma NextMirrors(c: Codec, ops: Order.Ops, base: set<Name>, s: Sym, hops: set<Hop>, v: Option<Version>)
    requires IsCodec(c) && Mirrors(c, ops, base, s, hops)
    ensures NextIs(c, ops, base, s, hops, v)
  {
    hide *;
    if w :| OnlyWay(hops, v, w) {
      OnwardIs(hops, v, w);
      OneWay(c, ops, base, s, hops, v, w);
    } else {
      NoWay(c, ops, base, s, hops, v);
    }
  }

  lemma OneWay(c: Codec, ops: Order.Ops, base: set<Name>, s: Sym, hops: set<Hop>, v: Option<Version>, w: Version)
    requires IsCodec(c) && Mirrors(c, ops, base, s, hops) && OnlyWay(hops, v, w) && Onward(hops, v) == Some(w)
    ensures NextIs(c, ops, base, s, hops, v)
  {
    var n, x := c.name(s), Written(c, v);
    assert forall a, b, p :: a in base && b in base && DoesHop(c, ops, a, s, p) && DoesHop(c, ops, b, s, p) ==> a == b;
    hide DoesHop, Mirrors, IsCodec, Frontier.Takes, Frontier.Touches, Frontier.AfterOf, Frontier.NextStep, Onward,
         Written;
    var id := HopTaken(c, ops, base, s, hops, v, w);
    var next := Frontier.NextStep(ops, base, n, x);
    var y := TakesHop(c, ops, base, s, hops, v, next.value);
    assert y == w;
    forall a, b | a in base && b in base && Frontier.Takes(ops, a, n, x) && Frontier.Takes(ops, b, n, x)
      ensures a == b
    {
      var p := TakesHop(c, ops, base, s, hops, v, a);
      var q := TakesHop(c, ops, base, s, hops, v, b);
      assert p == w == q;
    }
  }

  lemma NoWay(c: Codec, ops: Order.Ops, base: set<Name>, s: Sym, hops: set<Hop>, v: Option<Version>)
    requires IsCodec(c) && Mirrors(c, ops, base, s, hops) && forall w :: !OnlyWay(hops, v, w)
    ensures NextIs(c, ops, base, s, hops, v)
  {
    var n, x := c.name(s), Written(c, v);
    hide DoesHop, Mirrors, IsCodec, Frontier.Takes, Frontier.Touches, Frontier.AfterOf, Frontier.NextStep, Onward,
         Written;
    var next := Frontier.NextStep(ops, base, n, x);
    if next.Some? {
      var w := TakesHop(c, ops, base, s, hops, v, next.value);
      assert !OnlyWay(hops, v, w);
      var y :| Hop(v, y) in hops && y != w;
      var other := HopTaken(c, ops, base, s, hops, v, y);
      if other == next.value { HopsApart(c, ops, other, s, Hop(v, w), Hop(v, y)); }
    }
  }

  lemma HopsApart(c: Codec, ops: Order.Ops, id: Name, s: Sym, p: Hop, q: Hop)
    requires IsCodec(c) && DoesHop(c, ops, id, s, p) && DoesHop(c, ops, id, s, q)
    ensures p == q
  {
    ChangesApart(c, p, q);
  }

  ghost function WrittenAll(c: Codec, seen: set<Option<Version>>): set<Option<BuildMap.OpVersion>> {
    set v | v in seen :: Written(c, v)
  }

  lemma SeenWritten(c: Codec, seen: set<Option<Version>>, v: Option<Version>)
    requires IsCodec(c)
    ensures Written(c, v) in WrittenAll(c, seen) <==> v in seen
    ensures WrittenAll(c, seen + {v}) == WrittenAll(c, seen) + {Written(c, v)}
  {
    hide IsCodec, Written;
    forall w ensures Written(c, w) == Written(c, v) <==> w == v { WrittenApart(c, w, v); }
  }

  /** The two walks keep step. */
  lemma {:induction false} StopIsFollow(c: Codec, ops: Order.Ops, base: set<Name>, s: Sym, hops: set<Hop>,
                                        v: Option<Version>, seen: set<Option<Version>>)
    requires IsCodec(c) && Mirrors(c, ops, base, s, hops)
    ensures Frontier.StopFrom(ops, base, c.name(s), Written(c, v), WrittenAll(c, seen))
            == Written(c, Follow(hops, v, seen))
    decreases |Befores(hops) - seen|
  {
    var n, x, all := c.name(s), Written(c, v), WrittenAll(c, seen);
    NextMirrors(c, ops, base, s, hops, v);
    NextUnfolds(c, ops, base, s, hops, v);
    hide *;
    SeenWritten(c, seen, v);
    Frontier.StopStep(ops, base, n, x, all);
    if v in seen {
      FollowEnds(hops, v, seen);
    } else if w :| OnlyWay(hops, v, w) {
      OnwardIs(hops, v, w);
      Follows(hops, v, w, seen);
      StopIsFollow(c, ops, base, s, hops, Some(w), seen + {v});
      IsWritten(c, w);
    } else {
      FollowEnds(hops, v, seen);
    }
  }

  lemma NextUnfolds(c: Codec, ops: Order.Ops, base: set<Name>, s: Sym, hops: set<Hop>, v: Option<Version>)
    requires NextIs(c, ops, base, s, hops, v)
    ensures var next, split := Frontier.NextStep(ops, base, c.name(s), Written(c, v)),
                               Frontier.Splits(ops, base, c.name(s), Written(c, v));
            && ((forall w :: !OnlyWay(hops, v, w)) ==> next.None? || split)
            && (forall w :: OnlyWay(hops, v, w) ==>
                  next.Some? && !split && Frontier.Touches(ops, next.value, c.name(s))
                  && Frontier.AfterOf(ops, next.value, c.name(s)) == c.version(w))
  {
    hide OnlyWay, Frontier.Touches, Frontier.AfterOf, Frontier.NextStep, Frontier.Splits;
    forall w | OnlyWay(hops, v, w) ensures Onward(hops, v) == Some(w) { OnwardIs(hops, v, w); }
  }

  lemma IsWritten(c: Codec, w: Version)
    ensures Written(c, Some(w)) == Some(c.version(w))
  {
  }

  // ---------------------------------------------------------------------------------------
  // The frontier of a symbol.

  /** The hops of a symbol over a history; */
  ghost function AllHops(h: Timeline, s: Sym): set<Hop> {
    set k | 0 <= k < |h| && s in Touches(h, k) :: HopOf(Touches(h, k)[s])
  }

  /** and those of kept ops. */
  ghost function KeptHops(h: Timeline, st: Store, s: Sym): set<Hop> {
    set k | 0 <= k < |h| && IsKept(h, st, k, s) :: HopOf(Touches(h, k)[s])
  }

  ghost predicate IsKept(h: Timeline, st: Store, k: nat, s: Sym) {
    k < |h| && k < |st.made| && s in Touches(h, k) && s in st.made[k] && st.made[k][s] in Reduced(st)
  }

  lemma HopsAt(h: Timeline, s: Sym, k: nat)
    requires k < |h| && s in Touches(h, k)
    ensures HopOf(Touches(h, k)[s]) in AllHops(h, s)
  {
    hide Touches;
  }

  lemma HopFrom(h: Timeline, s: Sym, p: Hop) returns (k: nat)
    requires p in AllHops(h, s)
    ensures k < |h| && s in Touches(h, k) && HopOf(Touches(h, k)[s]) == p
  {
    hide Touches;
    k :| 0 <= k < |h| && s in Touches(h, k) && HopOf(Touches(h, k)[s]) == p;
  }

  /** Commit `k` does that to the symbol. */
  ghost predicate Makes(h: Timeline, k: nat, s: Sym, p: Hop) {
    k < |h| && s in Touches(h, k) && HopOf(Touches(h, k)[s]) == p
  }

  lemma MakesHop(h: Timeline, k: nat, s: Sym, p: Hop)
    requires Makes(h, k, s, p)
    ensures p in AllHops(h, s)
  {
    hide Touches, AllHops;
    HopsAt(h, s, k);
  }

  lemma HopMade(h: Timeline, s: Sym, p: Hop) returns (k: nat)
    requires p in AllHops(h, s)
    ensures k < |h| && s in Touches(h, k) && Makes(h, k, s, p)
  {
    hide Touches, AllHops;
    k := HopFrom(h, s, p);
  }

  lemma MakesOne(h: Timeline, k: nat, s: Sym, p: Hop, q: Hop)
    requires Makes(h, k, s, p) && Makes(h, k, s, q)
    ensures p == q
  {
  }

  lemma KeptMirrors(c: Codec, h: Timeline, st: Store, s: Sym)
    requires IsCodec(c) && Mined(c, h, st)
    ensures Mirrors(c, st.ops, Reduced(st), s, KeptHops(h, st, s))
  {
    MinedSizes(c, h, st);
    var hops, r := KeptHops(h, st, s), Reduced(st);
    hide *;
    forall p | p in hops ensures exists id :: id in r && DoesHop(c, st.ops, id, s, p) {
      var k := KeptFrom(h, st, s, p);
      MadeAt(c, h, st, k, s);
    }
    forall id | id in r && Frontier.Touches(st.ops, id, c.name(s))
      ensures exists p :: p in hops && DoesHop(c, st.ops, id, s, p)
    {
      var k := MadeBy(c, h, st, id, s);
      KeptAt(h, st, s, k, id);
    }
    forall a, b, p | a in r && b in r && DoesHop(c, st.ops, a, s, p) && DoesHop(c, st.ops, b, s, p) ensures a == b {
      KeptOnce(c, h, st, s, p, a, b);
    }
    MirrorsIs(c, st.ops, r, s, hops);
  }

  lemma MirrorsIs(c: Codec, ops: Order.Ops, base: set<Name>, s: Sym, hops: set<Hop>)
    requires forall p :: p in hops ==> exists id :: id in base && DoesHop(c, ops, id, s, p)
    requires forall id :: id in base && Frontier.Touches(ops, id, c.name(s)) ==>
               exists p :: p in hops && DoesHop(c, ops, id, s, p)
    requires forall a, b, p :: a in base && b in base && DoesHop(c, ops, a, s, p) && DoesHop(c, ops, b, s, p) ==> a == b
    ensures Mirrors(c, ops, base, s, hops)
  {
  }

  lemma KeptFrom(h: Timeline, st: Store, s: Sym, p: Hop) returns (k: nat)
    requires p in KeptHops(h, st, s)
    ensures k < |h| && s in Touches(h, k) && k < |st.made| && s in st.made[k] && st.made[k][s] in Reduced(st)
    ensures HopOf(Touches(h, k)[s]) == p
  {
    hide Touches, Reduced;
    k :| 0 <= k < |h| && IsKept(h, st, k, s) && HopOf(Touches(h, k)[s]) == p;
  }

  lemma KeptAt(h: Timeline, st: Store, s: Sym, k: nat, id: Name)
    requires MadeIn(h, st, k, s, id) && id in Reduced(st)
    ensures k < |h| && s in Touches(h, k) && HopOf(Touches(h, k)[s]) in KeptHops(h, st, s)
  {
    hide Touches, Reduced;
    assert IsKept(h, st, k, s);
  }

  lemma KeptOnce(c: Codec, h: Timeline, st: Store, s: Sym, p: Hop, a: Name, b: Name)
    requires IsCodec(c) && Mined(c, h, st) && a in Reduced(st) && b in Reduced(st)
    requires DoesHop(c, st.ops, a, s, p) && DoesHop(c, st.ops, b, s, p)
    ensures a == b
  {
    MinedSizes(c, h, st);
    Frontier.ReducedStepsOnce(st.ops, st.declared, st.held, c.name(s));
    hide Order.Reduce, DoesHop, Mined, IsCodec, Frontier.Takes;
    HopTakes(c, st.ops, a, s, p, p.before);
    HopTakes(c, st.ops, b, s, p, p.before);
  }

  lemma NothingWritten(c: Codec)
    ensures WrittenAll(c, {}) == {} && Written(c, None) == None
  {
  }

  /** Whatever the history and whatever else the store holds: what the frontier says of a symbol is where the
      kept ops lead from birth. */
  lemma FrontierFollowsKept(c: Codec, h: Timeline, st: Store, s: Sym)
    requires IsCodec(c) && Mined(c, h, st)
    ensures Tip(c, st, s) == Written(c, Follow(KeptHops(h, st, s), None, {}))
  {
    hide *;
    MinedSizes(c, h, st);
    ReducedIs(st);
    TipIs(c, st, s);
    KeptMirrors(c, h, st, s);
    StopIsFollow(c, st.ops, Reduced(st), s, KeptHops(h, st, s), None, {});
    NothingWritten(c);
    Frontier.KeptStops(st.ops, st.declared, st.held, c.name(s));
  }

  /** Gaps, anchors and whole files -- and entities changed by themselves -- are in ops of their own, and no
      order is declared for those. */
  ghost predicate Alone(c: Codec, st: Store, s: Sym) {
    Frontier.Solo(st.ops, st.declared, st.held, c.name(s))
  }

  lemma AloneIsFixed(c: Codec, st: Store, s: Sym, p: Hop, a: Name, b: Name)
    requires Alone(c, st, s) && Addressed(st.ops) && a in st.held && b in st.held
    requires DoesHop(c, st.ops, a, s, p) && DoesHop(c, st.ops, b, s, p)
    ensures a == b
  {
    assert Frontier.AloneAt(st.ops, st.declared, a, c.name(s)) && Frontier.AloneAt(st.ops, st.declared, b, c.name(s));
    assert st.ops[a].footprint == st.ops[b].footprint;
    assert st.ops[a] == st.ops[b];
  }

  lemma AloneMirrors(c: Codec, h: Timeline, st: Store, s: Sym)
    requires IsCodec(c) && Mined(c, h, st) && Alone(c, st, s)
    ensures Mirrors(c, st.ops, st.held, s, AllHops(h, s))
  {
    MinedSizes(c, h, st);
    var hops := AllHops(h, s);
    hide *;
    forall p | p in hops ensures exists id :: id in st.held && DoesHop(c, st.ops, id, s, p) {
      var k := HopFrom(h, s, p);
      MadeAt(c, h, st, k, s);
    }
    forall id | id in st.held && Frontier.Touches(st.ops, id, c.name(s))
      ensures exists p :: p in hops && DoesHop(c, st.ops, id, s, p)
    {
      var k := MadeBy(c, h, st, id, s);
      MadeEarly(h, st, k, s, id);
      HopsAt(h, s, k);
    }
    forall a, b, p | a in st.held && b in st.held && DoesHop(c, st.ops, a, s, p) && DoesHop(c, st.ops, b, s, p)
      ensures a == b
    {
      AloneIsFixed(c, st, s, p, a, b);
    }
    MirrorsIs(c, st.ops, st.held, s, hops);
  }

  /** For a symbol in ops of its own that can be read off its touches: follow them from birth, and stop where
      two different ones start or where one has been before. */
  lemma FrontierFollowsMined(c: Codec, h: Timeline, st: Store, s: Sym)
    requires IsCodec(c) && Mined(c, h, st) && Alone(c, st, s)
    ensures Tip(c, st, s) == Written(c, Follow(AllHops(h, s), None, {}))
  {
    assert Frontier.Solo(st.ops, st.declared, st.held, c.name(s));
    hide *;
    MinedSizes(c, h, st);
    ReducedIs(st);
    TipIs(c, st, s);
    AloneMirrors(c, h, st, s);
    StopIsFollow(c, st.ops, st.held, s, AllHops(h, s), None, {});
    NothingWritten(c);
    Frontier.SoloStops(st.ops, st.declared, st.held, c.name(s));
  }

  // ---------------------------------------------------------------------------------------
  // Linked touches: what the last writer left, unless an op is lost or occurs again.

  function ReplayedVersion(h: Timeline, k: nat, s: Sym): Option<Version>
    requires k <= |h|
  {
    if s in Replay(h, k) then Some(Replay(h, k)[s].version) else None
  }

  lemma ReplayedNext(h: Timeline, k: nat, s: Sym)
    requires k < |h|
    ensures ReplayedVersion(h, k + 1, s) == if s in Touches(h, k) then Some(Touches(h, k)[s].after)
                                            else ReplayedVersion(h, k, s)
  {
    ReplayUnfolds(h, k);
    hide Touches, Replay;
  }

  lemma ReplayedFirst(h: Timeline, s: Sym)
    ensures ReplayedVersion(h, 0, s) == None
  {
  }

  /** Every touch of the symbol builds on what the last one left. */
  ghost predicate AllLinkedAt(h: Timeline, s: Sym) {
    forall k :: 0 <= k < |h| && s in Touches(h, k) ==> Touches(h, k)[s].before == ReplayedVersion(h, k, s)
  }

  /** Every touch of the path does. */
  ghost predicate AllLinked(h: Timeline) {
    forall s: Sym :: AllLinkedAt(h, s)
  }

  /** Every touch is linked exactly when every symbol that came back had left in a way the lookback
      recognizes. */
  lemma AllLinkedExactlyWhen(h: Timeline)
    requires ValidTimeline(h)
    ensures AllLinked(h) <==>
            forall k, s :: 0 <= k < |h| && s in Touches(h, k) ==>
              s in Prior(h, k) || LastExit(h, k, s).None? || CleanExit(h, LastExit(h, k, s).value, s)
  {
    hide ValidTimeline, Touches, Replay, LastExit, CleanExit, Prior;
    forall k, s | 0 <= k < |h| && s in Touches(h, k)
      ensures Touches(h, k)[s].before == ReplayedVersion(h, k, s)
              <==> s in Prior(h, k) || LastExit(h, k, s).None? || CleanExit(h, LastExit(h, k, s).value, s)
    {
      LinkedExactlyWhen(h, k, s);
    }
    LinkedSymByTouch(h);
  }

  lemma LinkedSymByTouch(h: Timeline)
    ensures AllLinked(h) <==> forall k, s :: 0 <= k < |h| && s in Touches(h, k) ==>
              Touches(h, k)[s].before == ReplayedVersion(h, k, s)
  {
    hide Touches, ReplayedVersion;
    if AllLinked(h) {
      forall k, s | 0 <= k < |h| && s in Touches(h, k) ensures Touches(h, k)[s].before == ReplayedVersion(h, k, s) {
        assert AllLinkedAt(h, s);
      }
    }
  }

  /** The ops of a symbol's touches before commit `k`, in order. */
  function Trail(h: Timeline, st: Store, k: nat, s: Sym): seq<Name>
    requires k <= |h|
  {
    if k == 0 then []
    else if s in Touches(h, k - 1) && k <= |st.made| && s in st.made[k - 1]
    then Trail(h, st, k - 1, s) + [st.made[k - 1][s]]
    else Trail(h, st, k - 1, s)
  }

  lemma TrailNext(c: Codec, h: Timeline, st: Store, k: nat, s: Sym)
    requires Mined(c, h, st) && k < |h|
    ensures s in Touches(h, k) ==> k < |st.made| && s in st.made[k]
    ensures Trail(h, st, k + 1, s) == if s in Touches(h, k) then Trail(h, st, k, s) + [st.made[k][s]]
                                      else Trail(h, st, k, s)
  {
    if s in Touches(h, k) { MadeAt(c, h, st, k, s); }
    hide Touches, Mined;
  }

  lemma TrailFirst(h: Timeline, st: Store, s: Sym)
    ensures Trail(h, st, 0, s) == []
  {
  }

  lemma LinkedAtIs(h: Timeline, k: nat, s: Sym)
    requires AllLinkedAt(h, s) && k < |h|
    ensures s in Touches(h, k) ==> Touches(h, k)[s].before == ReplayedVersion(h, k, s)
  {
    hide Touches, ReplayedVersion;
  }

  lemma IsWrittenNone(c: Codec)
    ensures Written(c, None) == None
  {
  }

  /** The trail is a chain that leads to the version replaying gives. */
  lemma {:induction false} TrailIsChain(c: Codec, h: Timeline, st: Store, k: nat, s: Sym)
    requires IsCodec(c) && Mined(c, h, st) && AllLinkedAt(h, s) && k <= |h|
    ensures var t := Trail(h, st, k, s);
            && Frontier.IsChain(st.ops, c.name(s), t)
            && Frontier.LeftBefore(st.ops, c.name(s), t, |t|) == Written(c, ReplayedVersion(h, k, s))
    decreases k
  {
    hide *;
    if k == 0 {
      TrailFirst(h, st, s);
      ReplayedFirst(h, s);
      IsWrittenNone(c);
      Frontier.NoChain(st.ops, c.name(s));
    } else {
      TrailIsChain(c, h, st, k - 1, s);
      TrailNext(c, h, st, k - 1, s);
      LinkedAtIs(h, k - 1, s);
      ReplayedNext(h, k - 1, s);
      if s in Touches(h, k - 1) {
        MadeAt(c, h, st, k - 1, s);
        HopLeaves(c, st.ops, st.made[k - 1][s], s, HopOf(Touches(h, k - 1)[s]), Touches(h, k - 1)[s]);
        Frontier.ChainMore(st.ops, c.name(s), Trail(h, st, k - 1, s), st.made[k - 1][s]);
      }
    }
  }

  lemma HopLeaves(c: Codec, ops: Order.Ops, id: Name, s: Sym, p: Hop, t: Touch)
    requires DoesHop(c, ops, id, s, p) && p == HopOf(t)
    ensures Frontier.Touches(ops, id, c.name(s)) && ops[id].footprint[c.name(s)].before == Written(c, t.before)
    ensures Some(Frontier.AfterOf(ops, id, c.name(s))) == Written(c, Some(t.after))
  {
  }

  lemma {:induction false} TrailHolds(c: Codec, h: Timeline, st: Store, k: nat, s: Sym, id: Name)
    requires Mined(c, h, st) && k <= |h|
    ensures id in Trail(h, st, k, s) <==> exists j: nat :: j < k && MadeIn(h, st, j, s, id)
    decreases k
  {
    hide *;
    if k == 0 {
      TrailFirst(h, st, s);
    } else {
      TrailHolds(c, h, st, k - 1, s, id);
      TrailNext(c, h, st, k - 1, s);
      MadeInAt(h, st, k - 1, s, id);
    }
  }

  lemma MadeInAt(h: Timeline, st: Store, k: nat, s: Sym, id: Name)
    requires k < |h|
    ensures MadeIn(h, st, k, s, id)
            <==> k < |st.made| && s in Touches(h, k) && s in st.made[k] && st.made[k][s] == id
  {
  }

  lemma {:induction false} TrailGrows(c: Codec, h: Timeline, st: Store, k: nat, n: nat, s: Sym)
    requires Mined(c, h, st) && k <= n <= |h|
    ensures var a, b := Trail(h, st, k, s), Trail(h, st, n, s);
            && |a| <= |b| && b[..|a|] == a
            && (k < n && s in Touches(h, k)
                ==> k < |st.made| && s in st.made[k] && |a| < |b| && b[|a|] == st.made[k][s])
    decreases n
  {
    hide *;
    if k < n {
      TrailGrows(c, h, st, k, n - 1, s);
      TrailNext(c, h, st, n - 1, s);
      TrailNext(c, h, st, k, s);
    }
  }

  /** The op of the commit's touch is kept, and no earlier touch is in it. */
  ghost predicate Passes(h: Timeline, st: Store, k: nat, s: Sym) {
    IsKept(h, st, k, s) && st.made[k][s] !in Trail(h, st, k, s)
  }

  ghost predicate PassesUpTo(h: Timeline, st: Store, k: nat, s: Sym)
    requires k <= |h|
  {
    forall i :: 0 <= i < k && s in Touches(h, i) ==> Passes(h, st, i, s)
  }

  /** `k` is the first commit whose touch of `s` does not pass; past the end when all do. */
  ghost predicate FirstStop(h: Timeline, st: Store, k: nat, s: Sym) {
    k <= |h| && PassesUpTo(h, st, k, s) && (k < |h| ==> s in Touches(h, k) && !Passes(h, st, k, s))
  }

  lemma FewerPass(h: Timeline, st: Store, k: nat, s: Sym)
    requires k < |h| && PassesUpTo(h, st, k + 1, s)
    ensures PassesUpTo(h, st, k, s) && (s in Touches(h, k) ==> Passes(h, st, k, s))
  {
    hide Touches, Passes;
  }

  lemma StopIs(h: Timeline, st: Store, k: nat, s: Sym)
    requires FirstStop(h, st, k, s)
    ensures k <= |h| && PassesUpTo(h, st, k, s) && (k < |h| ==> s in Touches(h, k) && !Passes(h, st, k, s))
  {
    hide Touches, Passes, PassesUpTo;
  }

  /** There is one. */
  lemma HasFirstStop(h: Timeline, st: Store, s: Sym, i: nat) returns (k: nat)
    requires i <= |h| && PassesUpTo(h, st, i, s)
    ensures FirstStop(h, st, k, s)
    decreases |h| - i
  {
    hide *;
    if i == |h| || (s in Touches(h, i) && !Passes(h, st, i, s)) {
      k := i;
      FirstStopIs(h, st, k, s);
    } else {
      PassMore(h, st, i, s);
      k := HasFirstStop(h, st, s, i + 1);
    }
  }

  lemma FirstStopIs(h: Timeline, st: Store, k: nat, s: Sym)
    requires k <= |h| && PassesUpTo(h, st, k, s) && (k < |h| ==> s in Touches(h, k) && !Passes(h, st, k, s))
    ensures FirstStop(h, st, k, s)
  {
  }

  lemma PassMore(h: Timeline, st: Store, k: nat, s: Sym)
    requires k < |h| && PassesUpTo(h, st, k, s) && (s in Touches(h, k) ==> Passes(h, st, k, s))
    ensures PassesUpTo(h, st, k + 1, s)
  {
    hide Touches, Passes;
  }

  lemma {:induction false} PassedUpTo(c: Codec, h: Timeline, st: Store, k: nat, s: Sym)
    requires k <= |h| && Mined(c, h, st) && PassesUpTo(h, st, k, s)
    ensures var t := Trail(h, st, k, s);
            Frontier.FirstLost(Reduced(st), t, |t|)
    decreases k
  {
    hide *;
    if k == 0 {
      TrailFirst(h, st, s);
      Frontier.NoneLost(Reduced(st));
    } else {
      FewerPass(h, st, k - 1, s);
      PassedUpTo(c, h, st, k - 1, s);
      TrailNext(c, h, st, k - 1, s);
      if s in Touches(h, k - 1) {
        PassesIs(h, st, k - 1, s);
        Frontier.LostMore(Reduced(st), Trail(h, st, k - 1, s), st.made[k - 1][s]);
      }
    }
  }

  lemma PassesIs(h: Timeline, st: Store, k: nat, s: Sym)
    requires k < |h| && k < |st.made| && s in Touches(h, k) && s in st.made[k]
    ensures Passes(h, st, k, s) <==> st.made[k][s] in Reduced(st) && st.made[k][s] !in Trail(h, st, k, s)
  {
    hide Touches, Reduced, Trail;
  }

  lemma TrailStops(c: Codec, h: Timeline, st: Store, k: nat, s: Sym)
    requires Mined(c, h, st) && FirstStop(h, st, k, s)
    ensures Frontier.FirstLost(Reduced(st), Trail(h, st, |h|, s), |Trail(h, st, k, s)|)
  {
    hide *;
    StopIs(h, st, k, s);
    PassedUpTo(c, h, st, k, s);
    TrailGrows(c, h, st, k, |h|, s);
    if k < |h| {
      PassesIs(h, st, k, s);
      Frontier.LostAt(Reduced(st), Trail(h, st, k, s), Trail(h, st, |h|, s));
    }
  }

  /** A symbol all of whose touches are linked: the frontier is what replaying gives up to the first op that is
      lost, or that occurred before. */
  lemma FrontierStopsAtFirstLost(c: Codec, h: Timeline, st: Store, k: nat, s: Sym)
    requires IsCodec(c) && Mined(c, h, st) && AllLinkedAt(h, s) && FirstStop(h, st, k, s)
    requires k < |h| ==> k < |st.made| && s in st.made[k] && st.made[k][s] in Bottoming(st)
    ensures Tip(c, st, s) == Written(c, ReplayedVersion(h, k, s))
  {
    hide *;
    MinedSizes(c, h, st);
    ReducedIs(st);
    TipIs(c, st, s);
    StopIs(h, st, k, s);
    TrailIsChain(c, h, st, |h|, s);
    TrailIsChain(c, h, st, k, s);
    TrailGrows(c, h, st, k, |h|, s);
    TrailStops(c, h, st, k, s);
    var t, i, n := Trail(h, st, |h|, s), |Trail(h, st, k, s)|, c.name(s);
    Frontier.ReducedStepsOnce(st.ops, st.declared, st.held, n);
    OnlyTrail(c, h, st, k, s);
    Frontier.ChainStops(st.ops, Reduced(st), n, t, i);
    Frontier.LeftAlike(st.ops, n, Trail(h, st, k, s), t);
  }

  lemma OnlyTrail(c: Codec, h: Timeline, st: Store, k: nat, s: Sym)
    requires IsCodec(c) && Mined(c, h, st) && FirstStop(h, st, k, s)
    requires k < |h| ==> k < |st.made| && s in st.made[k] && st.made[k][s] in Bottoming(st)
    requires Frontier.IsChain(st.ops, c.name(s), Trail(h, st, |h|, s))
             && |Trail(h, st, k, s)| <= |Trail(h, st, |h|, s)|
    ensures Frontier.OnlyChain(st.ops, Reduced(st), c.name(s), Trail(h, st, |h|, s), |Trail(h, st, k, s)|)
  {
    hide *;
    StopIs(h, st, k, s);
    MinedSizes(c, h, st);
    BottomingIs(st);
    ReducedIs(st);
    var t, i, n := Trail(h, st, |h|, s), |Trail(h, st, k, s)|, c.name(s);
    TrailGrows(c, h, st, k, |h|, s);
    Frontier.ChainTouches(st.ops, n, t);
    forall id | id in Reduced(st) && Frontier.Touches(st.ops, id, n) ensures id in t {
      var j := MadeBy(c, h, st, id, s);
      MadeEarly(h, st, j, s, id);
      TrailHolds(c, h, st, |h|, s, id);
    }
    if i < |t| && t[i] !in Reduced(st) {
      assert k < |h| && t[i] == st.made[k][s];
      Frontier.ChainTakes(st.ops, n, t, i);
      forall id | id in Reduced(st) ensures !Frontier.Takes(st.ops, id, n, Frontier.LeftBefore(st.ops, n, t, i)) {
        if Frontier.Takes(st.ops, id, n, Frontier.LeftBefore(st.ops, n, t, i)) {
          Frontier.LostTogether(st.ops, st.declared, st.held, t[i], id, n, Frontier.LeftBefore(st.ops, n, t, i));
        }
      }
    }
    Frontier.OnlyChainIs(st.ops, Reduced(st), n, t, i);
  }

  lemma MadeEarly(h: Timeline, st: Store, k: nat, s: Sym, id: Name)
    requires MadeIn(h, st, k, s, id)
    ensures k < |h| && s in Touches(h, k)
  {
  }

  /** So the frontier says of the symbol what replaying says if and only if everything after that first op
      brought the symbol back to where it was. */
  lemma TipIsReplayExactlyWhen(c: Codec, h: Timeline, st: Store, k: nat, s: Sym)
    requires IsCodec(c) && Mined(c, h, st) && AllLinkedAt(h, s) && FirstStop(h, st, k, s)
    requires k < |h| ==> k < |st.made| && s in st.made[k] && st.made[k][s] in Bottoming(st)
    ensures Tip(c, st, s) == Written(c, ReplayedVersion(h, |h|, s))
            <==> ReplayedVersion(h, k, s) == ReplayedVersion(h, |h|, s)
  {
    hide *;
    StopIs(h, st, k, s);
    FrontierStopsAtFirstLost(c, h, st, k, s);
    WrittenApart(c, ReplayedVersion(h, k, s), ReplayedVersion(h, |h|, s));
  }
}
