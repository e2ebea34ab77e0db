/** The store a repository's mined paths make together (`sgt/core/mine.py`, `sgt/core/store.py`): the ops of every
    path's history, each writing its symbols under its own path.  In it every path is reduced as if it were alone. */
module TreeOps {
  import opened Names
  import opened Symbols
  import opened Snapshots
  import opened Chains
  import opened History
  import opened Codecs
  import opened MinedOps
  import opened PathOps
  import opened ReadBack
  import opened Materialize
  import opened TreeReadBack
  import Apart
  import Order
  import Frontier
  import Fold

  // ---------------------------------------------------------------------------------------
  // Symbols written under their path.

  function NameWithin(path: Name, s: Sym): Name {
    Quoted(path) + SymName(s)
  }

  /** `path::symbol`; versions and ids are written alike for all paths. */
  function CodecFor(path: Name): Codec {
    Codec(s => NameWithin(path, s), VersionName, OpId)
  }

  lemma NamesWithinApart(p: Name, q: Name, a: Sym, b: Sym)
    requires NameWithin(p, a) == NameWithin(q, b)
    ensures p == q && a == b
  {
    hide Quoted, SymName;
    QuotedReads(p, q, SymName(a), SymName(b));
    SymNamesApart(a, b);
  }

  lemma CodecIsCodec(path: Name)
    ensures IsCodec(CodecFor(path))
    ensures forall s: Sym :: CodecFor(path).name(s) == NameWithin(path, s)
    ensures forall op: Order.OrderedOp :: CodecFor(path).id(op) == OpId(op)
  {
    PlainIsCodec();
    var c := CodecFor(path);
    hide NameWithin, OpId, VersionName, SymName;
    forall a, b | c.name(a) == c.name(b) ensures a == b { NamesWithinApart(path, path, a, b); }
    forall a, b | c.version(a) == c.version(b) ensures a == b { assert PLAIN.version(a) == PLAIN.version(b); }
    forall a, b | c.id(a) == c.id(b) ensures a == b { assert PLAIN.id(a) == PLAIN.id(b); }
  }

  // ---------------------------------------------------------------------------------------
  // The union.

  /** How each path's commits were cut into ops. */
  ghost predicate AreTreeCuts(repo: Repo, n: nat, cuts: map<Name, seq<Cut>>) {
    ValidRepo(repo, n) && repo.Keys <= cuts.Keys && forall p :: p in repo ==> AreCuts(PathLine(repo, n, p), cuts[p])
  }

  /** One path's ops alone. */
  ghost function OwnStore(repo: Repo, n: nat, cuts: map<Name, seq<Cut>>, p: Name): Store
    requires AreTreeCuts(repo, n, cuts) && p in repo
  {
    PathStore(CodecFor(p), PathLine(repo, n, p), cuts[p])
  }

  lemma OwnIsMined(repo: Repo, n: nat, cuts: map<Name, seq<Cut>>, p: Name)
    requires AreTreeCuts(repo, n, cuts) && p in repo
    ensures var st := OwnStore(repo, n, cuts, p);
            && IsCodec(CodecFor(p)) && Mined(CodecFor(p), PathLine(repo, n, p), st)
            && st.held == st.ops.Keys && st.declared == {} && Addressed(st.ops)
  {
    hide AreCuts, PathLine, ValidRepo, PathStore, Mined, IsCodec, CodecFor, Addressed;
    CodecIsCodec(p);
    PathIsMined(CodecFor(p), PathLine(repo, n, p), cuts[p]);
    PathIsAddressed(CodecFor(p), PathLine(repo, n, p), cuts[p]);
  }

  /** Every op's id is its content's. */
  lemma OwnIdIs(repo: Repo, n: nat, cuts: map<Name, seq<Cut>>, p: Name, id: Name)
    requires AreTreeCuts(repo, n, cuts) && p in repo && id in OwnStore(repo, n, cuts, p).held
    ensures id in OwnStore(repo, n, cuts, p).ops && id == OpId(OwnStore(repo, n, cuts, p).ops[id])
  {
    CodecIsCodec(p);
    hide AreCuts, PathLine, ValidRepo, PathStore, IsCodec, OpId, OpFor, CodecFor, IsBucket;
    var k, b := OpIsFor(CodecFor(p), PathLine(repo, n, p), cuts[p], id);
  }

  ghost function MergedIds(owns: map<Name, Store>): set<Name> {
    set p, id | p in owns && id in owns[p].held && id in owns[p].ops :: id
  }

  ghost function OpIn(owns: map<Name, Store>, id: Name): Order.OrderedOp
    requires id in MergedIds(owns)
  {
    var p :| p in owns && id in owns[p].held && id in owns[p].ops;
    owns[p].ops[id]
  }

  ghost function Merged(owns: map<Name, Store>): (r: Order.Ops)
    ensures r.Keys == MergedIds(owns)
  {
    map id | id in MergedIds(owns) :: OpIn(owns, id)
  }

  lemma MergedFrom(owns: map<Name, Store>, id: Name) returns (p: Name)
    requires id in MergedIds(owns)
    ensures p in owns && id in owns[p].held && id in owns[p].ops
    ensures id in Merged(owns) && Merged(owns)[id] == owns[p].ops[id]
  {
    p :| p in owns && id in owns[p].held && id in owns[p].ops && OpIn(owns, id) == owns[p].ops[id];
  }

  lemma MergedHas(owns: map<Name, Store>, p: Name, id: Name)
    requires p in owns && id in owns[p].held && id in owns[p].ops
    ensures id in MergedIds(owns) && id in Merged(owns)
  {
  }

  ghost function Owns(repo: Repo, n: nat, cuts: map<Name, seq<Cut>>): (r: map<Name, Store>)
    requires AreTreeCuts(repo, n, cuts)
    ensures r.Keys == repo.Keys
  {
    hide OwnStore, AreTreeCuts;
    map p | p in repo :: OwnStore(repo, n, cuts, p)
  }

  lemma OwnsAt(repo: Repo, n: nat, cuts: map<Name, seq<Cut>>, p: Name)
    requires AreTreeCuts(repo, n, cuts) && p in repo
    ensures p in Owns(repo, n, cuts) && Owns(repo, n, cuts)[p] == OwnStore(repo, n, cuts, p)
  {
    hide OwnStore, AreTreeCuts;
  }

  ghost function AllHeld(repo: Repo, n: nat, cuts: map<Name, seq<Cut>>): set<Name>
    requires AreTreeCuts(repo, n, cuts)
  {
    MergedIds(Owns(repo, n, cuts))
  }

  ghost function AllOps(repo: Repo, n: nat, cuts: map<Name, seq<Cut>>): (r: Order.Ops)
    requires AreTreeCuts(repo, n, cuts)
    ensures r.Keys == AllHeld(repo, n, cuts)
  {
    hide AreTreeCuts, MergedIds, Merged, Owns;
    Merged(Owns(repo, n, cuts))
  }

  lemma AllOpsFrom(repo: Repo, n: nat, cuts: map<Name, seq<Cut>>, id: Name) returns (p: Name)
    requires AreTreeCuts(repo, n, cuts) && id in AllHeld(repo, n, cuts)
    ensures p in repo && id in OwnStore(repo, n, cuts, p).held && id in OwnStore(repo, n, cuts, p).ops
    ensures id in AllOps(repo, n, cuts) && AllOps(repo, n, cuts)[id] == OwnStore(repo, n, cuts, p).ops[id]
  {
    hide OwnStore, AreTreeCuts, MergedIds, Merged, Owns;
    p := MergedFrom(Owns(repo, n, cuts), id);
    OwnsAt(repo, n, cuts, p);
  }

  lemma HeldByOne(repo: Repo, n: nat, cuts: map<Name, seq<Cut>>, p: Name, id: Name)
    requires AreTreeCuts(repo, n, cuts) && p in repo && id in OwnStore(repo, n, cuts, p).held
    ensures id in AllHeld(repo, n, cuts)
  {
    hide OwnStore, AreTreeCuts, MergedIds, Merged, Owns, OpId;
    OwnIdIs(repo, n, cuts, p, id);
    OwnsAt(repo, n, cuts, p);
    MergedHas(Owns(repo, n, cuts), p, id);
  }

  ghost function AllMade(repo: Repo, n: nat, cuts: map<Name, seq<Cut>>): map<Name, seq<map<Sym, Name>>>
    requires AreTreeCuts(repo, n, cuts)
  {
    map p | p in repo :: OwnStore(repo, n, cuts, p).made
  }

  ghost function Union(repo: Repo, n: nat, cuts: map<Name, seq<Cut>>): TreeStore
    requires AreTreeCuts(repo, n, cuts)
  {
    TreeStore(AllOps(repo, n, cuts), {}, AllHeld(repo, n, cuts), map p | p in repo :: CodecFor(p),
              AllMade(repo, n, cuts))
  }

  lemma UnionIs(repo: Repo, n: nat, cuts: map<Name, seq<Cut>>)
    requires AreTreeCuts(repo, n, cuts)
    ensures var ts := Union(repo, n, cuts);
            && ts.ops == AllOps(repo, n, cuts) && ts.declared == {} && ts.held == AllHeld(repo, n, cuts)
            && ts.held == ts.ops.Keys && ts.codecs.Keys == repo.Keys == ts.made.Keys
            && (forall p :: p in repo ==> ts.codecs[p] == CodecFor(p))
            && (forall p :: p in repo ==> ts.made[p] == OwnStore(repo, n, cuts, p).made)
  {
    hide AllHeld, AllOps, AreTreeCuts, OwnStore, CodecFor;
  }

  /** An op is the same whichever path is asked for it. */
  lemma OpInUnion(repo: Repo, n: nat, cuts: map<Name, seq<Cut>>, p: Name, id: Name)
    requires AreTreeCuts(repo, n, cuts) && p in repo && id in OwnStore(repo, n, cuts, p).held
    ensures var ops := OwnStore(repo, n, cuts, p).ops;
            && id in AllHeld(repo, n, cuts) && id in AllOps(repo, n, cuts) && id in ops
            && AllOps(repo, n, cuts)[id] == ops[id]
  {
    hide *;
    HeldByOne(repo, n, cuts, p, id);
    var q := AllOpsFrom(repo, n, cuts, id);
    OwnIdIs(repo, n, cuts, p, id);
    OwnIdIs(repo, n, cuts, q, id);
    IdsReadBack(OwnStore(repo, n, cuts, p).ops[id], OwnStore(repo, n, cuts, q).ops[id]);
  }

  lemma IdsReadBack(a: Order.OrderedOp, b: Order.OrderedOp)
    requires OpId(a) == OpId(b)
    ensures a == b
  {
    hide OpId;
    OpIdsApart(a, b);
  }

  /** A name written under the path. */
  ghost predicate IsUnder(path: Name, m: Name) {
    exists s: Sym :: NameWithin(path, s) == m
  }

  lemma UnderOne(p: Name, q: Name, m: Name)
    requires IsUnder(p, m) && IsUnder(q, m)
    ensures p == q
  {
    hide NameWithin;
    var a: Sym :| NameWithin(p, a) == m;
    var b: Sym :| NameWithin(q, b) == m;
    NamesWithinApart(p, q, a, b);
  }

  /** An op speaks of its own path alone. */
  ghost predicate SpeaksOf(path: Name, op: Order.OrderedOp) {
    && (forall m :: m in op.footprint ==> IsUnder(path, m))
    && (forall pin :: pin in op.needs ==> IsUnder(path, pin.sym))
  }

  lemma DeedSpeaks(p: Name, d: Deed)
    ensures SpeaksOf(p, OpFor(CodecFor(p), d))
  {
    var c := CodecFor(p);
    CodecIsCodec(p);
    var op := OpFor(c, d);
    assert op.footprint == Footprint(c, d.hops) && op.needs == Pins(c, d.wants);
    hide NameWithin, CodecFor, IsCodec, OpFor, Footprint;
    forall m | m in op.footprint ensures IsUnder(p, m) {
      var s := FootprintFrom(c, d.hops, m);
      assert NameWithin(p, s) == m;
    }
    forall pin | pin in op.needs ensures IsUnder(p, pin.sym) {
      var w :| w in d.wants && Order.Pin(c.name(w.sym), c.version(w.version)) == pin;
      assert NameWithin(p, w.sym) == pin.sym;
    }
  }

  lemma OwnSpeaks(repo: Repo, n: nat, cuts: map<Name, seq<Cut>>, p: Name, id: Name)
    requires AreTreeCuts(repo, n, cuts) && p in repo && id in OwnStore(repo, n, cuts, p).held
    ensures id in OwnStore(repo, n, cuts, p).ops && SpeaksOf(p, OwnStore(repo, n, cuts, p).ops[id])
  {
    CodecIsCodec(p);
    hide AreCuts, PathLine, ValidRepo, PathStore, IsCodec, OpId, OpFor, CodecFor, IsBucket, SpeaksOf;
    var k, b := OpIsFor(CodecFor(p), PathLine(repo, n, p), cuts[p], id);
    DeedSpeaks(p, DeedOf(PathLine(repo, n, p), k, b));
  }

  /** What speaks of a path is of that path. */
  lemma SpeakerIsOwn(repo: Repo, n: nat, cuts: map<Name, seq<Cut>>, p: Name, id: Name, m: Name)
    requires AreTreeCuts(repo, n, cuts) && p in repo && id in AllHeld(repo, n, cuts) && IsUnder(p, m)
    requires id in AllOps(repo, n, cuts) && m in AllOps(repo, n, cuts)[id].footprint
    ensures id in OwnStore(repo, n, cuts, p).held
  {
    hide *;
    var q := AllOpsFrom(repo, n, cuts, id);
    OpInUnion(repo, n, cuts, q, id);
    OwnSpeaks(repo, n, cuts, q, id);
    SpokenUnder(q, OwnStore(repo, n, cuts, q).ops[id], m);
    UnderOne(p, q, m);
  }

  lemma SpokenUnder(q: Name, op: Order.OrderedOp, m: Name)
    requires SpeaksOf(q, op) && m in op.footprint
    ensures IsUnder(q, m)
  {
  }

  /** The union holds every path's ops: whatever a commit touches in however many files, each file's gaps, anchors
      and whole files are in ops of their own. */
  lemma UnionHoldsTree(repo: Repo, n: nat, cuts: map<Name, seq<Cut>>)
    requires AreTreeCuts(repo, n, cuts)
    ensures HoldsTree(Union(repo, n, cuts), repo, n)
  {
    UnionIs(repo, n, cuts);
    var ts := Union(repo, n, cuts);
    hide Union, AllHeld, AllOps, HoldsPath, PathLine, OwnStore, CodecFor, AreCuts, ValidRepo;
    forall p | p in repo ensures HoldsPath(ts, repo, n, p) {
      hide *;
      UnionHoldsPath(repo, n, cuts, p);
    }
  }

  lemma UnionHoldsPath(repo: Repo, n: nat, cuts: map<Name, seq<Cut>>, p: Name)
    requires AreTreeCuts(repo, n, cuts) && p in repo
    ensures var ts := Union(repo, n, cuts);
            && ValidRepo(repo, n) && p in ts.codecs && p in ts.made && HoldsPath(ts, repo, n, p)
  {
    hide *;
    TreeCutsAt(repo, n, cuts, p);
    UnionIs(repo, n, cuts);
    OwnIsMined(repo, n, cuts, p);
    CodecIsCodec(p);
    var ts, h, own := Union(repo, n, cuts), PathLine(repo, n, p), OwnStore(repo, n, cuts, p);
    var st, c := View(ts, p), CodecFor(p);
    ViewIs(ts, p);
    MinedSizes(c, h, own);
    forall k: nat, s: Sym | k < |h| && s in Touches(h, k) ensures IsMade(c, h, st, k, s) {
      MadeAt(c, h, own, k, s);
      OpInUnion(repo, n, cuts, p, own.made[k][s]);
      SameHop(c, own.ops, st.ops, own.made[k][s], s, HopOf(Touches(h, k)[s]));
      MadeNow(c, h, st, k, s);
    }
    forall id, s: Sym | id in st.held && Frontier.Touches(st.ops, id, c.name(s))
      ensures exists k: nat :: MadeIn(h, st, k, s, id)
    {
      TouchesName(st.ops, id, c.name(s));
      UnderItself(p, s);
      SpeakerIsOwn(repo, n, cuts, p, id, c.name(s));
      OpInUnion(repo, n, cuts, p, id);
      SameTouch(own.ops, st.ops, id, c.name(s));
      var k := MadeBy(c, h, own, id, s);
      SameMade(h, own, st, k, s, id);
    }
    UnionIsAddressed(repo, n, cuts);
    MinedIs(c, h, st);
    HoldsPathIs(ts, repo, n, p);
  }

  lemma TreeCutsAt(repo: Repo, n: nat, cuts: map<Name, seq<Cut>>, p: Name)
    requires AreTreeCuts(repo, n, cuts) && p in repo
    ensures ValidRepo(repo, n) && p in cuts && AreCuts(PathLine(repo, n, p), cuts[p])
  {
    hide ValidRepo, AreCuts, PathLine;
  }

  lemma ViewIs(ts: TreeStore, p: Name)
    requires p in ts.made
    ensures var st := View(ts, p);
            st.ops == ts.ops && st.declared == ts.declared && st.held == ts.held && st.made == ts.made[p]
  {
  }

  lemma SameHop(c: Codec, a: Order.Ops, b: Order.Ops, id: Name, s: Sym, p: Hop)
    requires id in a && id in b && a[id] == b[id] && DoesHop(c, a, id, s, p)
    ensures DoesHop(c, b, id, s, p)
  {
  }

  lemma TouchesName(ops: Order.Ops, id: Name, m: Name)
    ensures Frontier.Touches(ops, id, m) <==> id in ops && m in ops[id].footprint
  {
  }

  lemma UnderItself(p: Name, s: Sym)
    ensures IsUnder(p, NameWithin(p, s))
  {
  }

  lemma SameTouch(a: Order.Ops, b: Order.Ops, id: Name, m: Name)
    requires id in a && id in b && a[id] == b[id]
    ensures Frontier.Touches(a, id, m) <==> Frontier.Touches(b, id, m)
  {
  }

  lemma SameMade(h: Timeline, a: Store, b: Store, k: nat, s: Sym, id: Name)
    requires a.made == b.made && MadeIn(h, a, k, s, id)
    ensures MadeIn(h, b, k, s, id)
  {
    hide Touches;
  }

  lemma HoldsPathIs(ts: TreeStore, repo: Repo, n: nat, p: Name)
    requires ValidRepo(repo, n) && p in repo && p in ts.codecs && p in ts.made
    requires IsCodec(ts.codecs[p]) && Mined(ts.codecs[p], PathLine(repo, n, p), View(ts, p))
    ensures HoldsPath(ts, repo, n, p)
  {
    hide IsCodec, Mined, PathLine, View, ValidRepo;
  }

  lemma UnionIsAddressed(repo: Repo, n: nat, cuts: map<Name, seq<Cut>>)
    requires AreTreeCuts(repo, n, cuts)
    ensures Addressed(AllOps(repo, n, cuts))
  {
    hide *;
    var ops := AllOps(repo, n, cuts);
    forall a, b | a in ops && b in ops && ops[a] == ops[b] ensures a == b {
      UnionIdIs(repo, n, cuts, a);
      UnionIdIs(repo, n, cuts, b);
    }
    AddressedIs(ops);
  }

  lemma AddressedIs(ops: Order.Ops)
    requires forall a, b :: a in ops && b in ops && ops[a] == ops[b] ==> a == b
    ensures Addressed(ops)
  {
  }

  lemma UnionIdIs(repo: Repo, n: nat, cuts: map<Name, seq<Cut>>, id: Name)
    requires AreTreeCuts(repo, n, cuts) && id in AllOps(repo, n, cuts)
    ensures id == OpId(AllOps(repo, n, cuts)[id])
  {
    hide *;
    var p := AllOpsFrom(repo, n, cuts, id);
    OpInUnion(repo, n, cuts, p, id);
    OwnIdIs(repo, n, cuts, p, id);
  }

  /** Ops of a symbol's own are so in the union: what another file's commit did is in other ops. */
  lemma UnionIsAlone(repo: Repo, n: nat, cuts: map<Name, seq<Cut>>, p: Name, s: Sym)
    requires AreTreeCuts(repo, n, cuts) && p in repo
    requires p in cuts && ValidRepo(repo, n) && IsAlone(PathLine(repo, n, p), cuts[p], s)
    ensures p in Union(repo, n, cuts).made && Alone(CodecFor(p), View(Union(repo, n, cuts), p), s)
  {
    hide *;
    var ts, own, c := Union(repo, n, cuts), OwnStore(repo, n, cuts, p), CodecFor(p);
    UnionIs(repo, n, cuts);
    ViewIs(ts, p);
    CodecIsCodec(p);
    TreeCutsAt(repo, n, cuts, p);
    OwnStoreIs(repo, n, cuts, p);
    OwnIsMined(repo, n, cuts, p);
    PathIsAlone(c, PathLine(repo, n, p), cuts[p], s);
    var st := View(ts, p);
    forall id | id in st.held && Frontier.Touches(st.ops, id, c.name(s))
      ensures Frontier.AloneAt(st.ops, st.declared, id, c.name(s))
    {
      TouchesName(st.ops, id, c.name(s));
      UnderItself(p, s);
      SpeakerIsOwn(repo, n, cuts, p, id, c.name(s));
      OpInUnion(repo, n, cuts, p, id);
      SameTouch(own.ops, st.ops, id, c.name(s));
      AloneThere(c, own, st, s, id);
    }
    SoloIs(c, st, s);
  }

  lemma AloneThere(c: Codec, own: Store, st: Store, s: Sym, id: Name)
    requires Alone(c, own, s) && id in own.held && Frontier.Touches(own.ops, id, c.name(s))
    requires id in own.ops && id in st.ops && own.ops[id] == st.ops[id] && own.declared == st.declared
    ensures Frontier.AloneAt(st.ops, st.declared, id, c.name(s))
  {
    assert Frontier.AloneAt(own.ops, own.declared, id, c.name(s));
  }

  // ---------------------------------------------------------------------------------------
  // Every path by itself.

  lemma NeedSpeaks(ops: Order.Ops, id: Name, p: Name, key: Order.Key)
    requires id in ops && SpeaksOf(p, ops[id]) && key in Order.NeededBy(ops, {}, id)
    ensures key.Made? && IsUnder(p, key.pin.sym)
  {
    hide IsUnder;
  }

  lemma MakerSays(ops: Order.Ops, id: Name, key: Order.Key)
    requires id in ops && key.Made? && Order.Produces(ops, id, key)
    ensures key.pin.sym in ops[id].footprint
  {
  }

  lemma ClashSays(ops: Order.Ops, a: Name, b: Name) returns (m: Name)
    requires a in ops && b in ops && Order.Clash(ops, a, b)
    ensures m in ops[a].footprint && m in ops[b].footprint
  {
    m :| m in ops[a].footprint && m in ops[b].footprint;
  }

  lemma UnionSpeaks(repo: Repo, n: nat, cuts: map<Name, seq<Cut>>, p: Name, id: Name)
    requires AreTreeCuts(repo, n, cuts) && p in repo && id in OwnStore(repo, n, cuts, p).held
    ensures id in AllOps(repo, n, cuts) && SpeaksOf(p, AllOps(repo, n, cuts)[id])
  {
    hide *;
    OpInUnion(repo, n, cuts, p, id);
    OwnSpeaks(repo, n, cuts, p, id);
  }

  /** What a path's ops need its own produce, and only its own can claim their steps. */
  lemma PathIsApart(repo: Repo, n: nat, cuts: map<Name, seq<Cut>>, p: Name)
    requires AreTreeCuts(repo, n, cuts) && p in repo
    ensures Apart.Within(AllOps(repo, n, cuts), {}, AllHeld(repo, n, cuts), OwnStore(repo, n, cuts, p).held)
  {
    hide *;
    var ops, all, part := AllOps(repo, n, cuts), AllHeld(repo, n, cuts), OwnStore(repo, n, cuts, p).held;
    forall id | id in part ensures id in all { HeldByOne(repo, n, cuts, p, id); }
    forall id, key, q | id in part && key in Order.NeededBy(ops, {}, id) && q in all && Order.Produces(ops, q, key)
      ensures q in part
    {
      UnionSpeaks(repo, n, cuts, p, id);
      NeedSpeaks(ops, id, p, key);
      MakerSays(ops, q, key);
      SpeakerIsOwn(repo, n, cuts, p, q, key.pin.sym);
    }
    forall a, b | a in part && b in all && Order.Clash(ops, a, b) ensures b in part {
      UnionSpeaks(repo, n, cuts, p, a);
      var m := ClashSays(ops, a, b);
      SpokenUnder(p, ops[a], m);
      SpeakerIsOwn(repo, n, cuts, p, b, m);
    }
    ApartIs(ops, all, part);
  }

  lemma ApartIs(ops: Order.Ops, all: set<Name>, part: set<Name>)
    requires part <= all <= ops.Keys
    requires forall id, key, p ::
               id in part && key in Order.NeededBy(ops, {}, id) && p in all && Order.Produces(ops, p, key) ==> p in part
    requires forall a, b :: a in part && b in all && Order.Clash(ops, a, b) ==> b in part
    ensures Apart.Within(ops, {}, all, part)
  {
    hide Order.NeededBy, Order.Produces, Order.Clash;
  }

  /** Of a path's ops the union keeps those the path would keep alone. */
  lemma PathReducesAlone(repo: Repo, n: nat, cuts: map<Name, seq<Cut>>, p: Name)
    requires AreTreeCuts(repo, n, cuts) && p in repo
    ensures p in Union(repo, n, cuts).made
    ensures var own := OwnStore(repo, n, cuts, p);
            Reduced(View(Union(repo, n, cuts), p)) * own.held == Reduced(own)
  {
    hide *;
    var ts, own := Union(repo, n, cuts), OwnStore(repo, n, cuts, p);
    UnionIs(repo, n, cuts);
    ViewIs(ts, p);
    ReducedIs(View(ts, p));
    ReducedIs(own);
    OwnIsMined(repo, n, cuts, p);
    PathIsApart(repo, n, cuts, p);
    Apart.ReducedApart(ts.ops, {}, ts.held, own.held);
    forall id | id in own.held ensures id in ts.ops && id in own.ops && ts.ops[id] == own.ops[id] {
      OpInUnion(repo, n, cuts, p, id);
    }
    AgreeIs(ts.ops, own.ops, own.held);
    Apart.ReducedAlike(ts.ops, own.ops, {}, own.held);
  }

  lemma AgreeIs(a: Order.Ops, b: Order.Ops, s: set<Name>)
    requires forall id :: id in s ==> id in a && id in b && a[id] == b[id]
    ensures Apart.AgreeOn(a, b, s)
  {
  }

  lemma SameKept(h: Timeline, a: Store, b: Store, s: Sym)
    requires a.made == b.made
    requires forall k: nat :: k < |h| && k < |a.made| && s in Touches(h, k) && s in a.made[k] ==>
               (a.made[k][s] in Reduced(a) <==> a.made[k][s] in Reduced(b))
    ensures KeptHops(h, a, s) == KeptHops(h, b, s)
  {
    hide Touches, Reduced, HopOf;
    forall k: nat ensures IsKept(h, a, k, s) <==> IsKept(h, b, k, s) { }
    hide IsKept;
  }

  /** So what the frontier of the whole store says of a path is what the path's own says: the theorems on single
      paths hold in a tree, whatever the other paths' histories are. */
  lemma TipIsOwn(repo: Repo, n: nat, cuts: map<Name, seq<Cut>>, p: Name, s: Sym)
    requires AreTreeCuts(repo, n, cuts) && p in repo
    ensures p in Union(repo, n, cuts).made
    ensures MinedOps.Tip(CodecFor(p), View(Union(repo, n, cuts), p), s)
            == MinedOps.Tip(CodecFor(p), OwnStore(repo, n, cuts, p), s)
  {
    hide *;
    var ts, own, h := Union(repo, n, cuts), OwnStore(repo, n, cuts, p), LineAt(repo, n, cuts, p);
    UnionIs(repo, n, cuts);
    ViewIs(ts, p);
    OwnIsMined(repo, n, cuts, p);
    UnionHoldsPath(repo, n, cuts, p);
    PathIsHeld(ts, repo, n, p);
    PathReducesAlone(repo, n, cuts, p);
    forall k: nat | k < |h| && k < |own.made| && s in Touches(h, k) && s in own.made[k]
      ensures own.made[k][s] in Reduced(View(ts, p)) <==> own.made[k][s] in Reduced(own)
    {
      MadeAt(CodecFor(p), h, own, k, s);
    }
    SameKept(h, View(ts, p), own, s);
    FrontierFollowsKept(CodecFor(p), h, View(ts, p), s);
    FrontierFollowsKept(CodecFor(p), h, own, s);
  }

  ghost function LineAt(repo: Repo, n: nat, cuts: map<Name, seq<Cut>>, p: Name): (h: Timeline)
    requires AreTreeCuts(repo, n, cuts) && p in repo
    ensures ValidRepo(repo, n) && h == PathLine(repo, n, p)
  {
    PathLine(repo, n, p)
  }

  lemma PathIsHeld(ts: TreeStore, repo: Repo, n: nat, p: Name)
    requires ValidRepo(repo, n) && p in repo && p in ts.codecs && p in ts.made && HoldsPath(ts, repo, n, p)
    ensures IsCodec(ts.codecs[p]) && Mined(ts.codecs[p], PathLine(repo, n, p), View(ts, p))
  {
  }

  lemma TipValueIsOwn(repo: Repo, n: nat, cuts: map<Name, seq<Cut>>, p: Name, s: Sym)
    requires AreTreeCuts(repo, n, cuts) && p in repo
    ensures var ts := Union(repo, n, cuts);
            && p in ts.codecs && p in ts.made
            && TipThere(ts, p, s) == TipValue(CodecFor(p), OwnStore(repo, n, cuts, p), s)
  {
    hide *;
    var ts, own, h := Union(repo, n, cuts), OwnStore(repo, n, cuts, p), LineAt(repo, n, cuts, p);
    UnionIs(repo, n, cuts);
    OwnIsMined(repo, n, cuts, p);
    TipIsOwn(repo, n, cuts, p, s);
    FrontierFollowsKept(CodecFor(p), h, own, s);
    var v := Follow(KeptHops(h, own, s), None, {});
    TipValueIs(CodecFor(p), own, s, v);
    TipValueIs(CodecFor(p), View(ts, p), s, v);
    TipThereIs(ts, p, s);
  }

  lemma TipThereIs(ts: TreeStore, p: Name, s: Sym)
    requires p in ts.codecs && p in ts.made
    ensures TipThere(ts, p, s) == TipValue(ts.codecs[p], View(ts, p), s)
  {
    hide TipValue;
  }

  /** A path has live in the tree what it has live alone. */
  lemma LiveIsOwn(repo: Repo, n: nat, cuts: map<Name, seq<Cut>>, p: Name)
    requires AreTreeCuts(repo, n, cuts) && p in repo
    ensures HoldsTree(Union(repo, n, cuts), repo, n)
    ensures LiveThere(Union(repo, n, cuts), repo, n, p)
            == FrontierLive(CodecFor(p), LineAt(repo, n, cuts, p), OwnStore(repo, n, cuts, p))
  {
    hide *;
    var ts, own, h := Union(repo, n, cuts), OwnStore(repo, n, cuts, p), LineAt(repo, n, cuts, p);
    UnionHoldsTree(repo, n, cuts);
    OwnIsMined(repo, n, cuts, p);
    HeldPath(ts, repo, n, p);
    UnionIs(repo, n, cuts);
    var live, alone := LiveThere(ts, repo, n, p), FrontierLive(CodecFor(p), h, own);
    LiveThereIs(ts, repo, n, p);
    forall s ensures (s in live <==> s in alone) && (s in live ==> live[s] == alone[s]) {
      LiveByTip(CodecFor(p), h, own, s);
      LiveByTip(CodecFor(p), h, View(ts, p), s);
      TipValueIsOwn(repo, n, cuts, p, s);
      TipThereIs(ts, p, s);
    }
    SameMap(live, alone);
  }

  lemma LiveThereIs(ts: TreeStore, repo: Repo, n: nat, p: Name)
    requires HoldsTree(ts, repo, n) && p in repo
    ensures p in ts.codecs && p in ts.made && ValidRepo(repo, n)
    ensures LiveThere(ts, repo, n, p) == FrontierLive(ts.codecs[p], PathLine(repo, n, p), View(ts, p))
  {
    hide HoldsPath, FrontierLive, PathLine, View, ValidRepo;
  }

  /** The folded tree, path by path: each as its own ops alone would give it. */
  lemma TreeIsItsPaths(repo: Repo, n: nat, cuts: map<Name, seq<Cut>>, p: Name)
    requires AreTreeCuts(repo, n, cuts)
    ensures HoldsTree(Union(repo, n, cuts), repo, n)
    ensures var code := Code(FrontierTip(Union(repo, n, cuts), repo, n), None);
            && (p in code ==> p in repo)
            && (p in repo ==>
                  var live := FrontierLive(CodecFor(p), LineAt(repo, n, cuts, p), OwnStore(repo, n, cuts, p));
                  (p in code <==> Materializes(live)) && (p in code ==> code[p] == Fold.FoldFile(live)))
  {
    hide *;
    UnionHoldsTree(repo, n, cuts);
    if p in repo { LiveIsOwn(repo, n, cuts, p); }
    CodeByLive(Union(repo, n, cuts), repo, n, p);
  }

  lemma CodeByLive(ts: TreeStore, repo: Repo, n: nat, p: Name)
    requires HoldsTree(ts, repo, n)
    ensures var code := Code(FrontierTip(ts, repo, n), None);
            && (p in code ==> p in repo)
            && (p in repo ==>
                  var live := LiveThere(ts, repo, n, p);
                  (p in code <==> Materializes(live)) && (p in code ==> code[p] == Fold.FoldFile(live)))
  {
    LiveInTree(ts, repo, n, p);
    assert Wanted(None, p);
    hide HoldsTree, FrontierTip, LiveThere, Fold.FoldFile;
  }

  /** A path of which the frontier says what the last writer says, symbol by symbol, is in the folded tree exactly
      when it is in the replayed one, and with the same bytes -- whatever becomes of the others. */
  lemma TreeRoundTripThroughStore(repo: Repo, n: nat, cuts: map<Name, seq<Cut>>, p: Name)
    requires AreTreeCuts(repo, n, cuts) && ValidRepo(repo, n) && p in repo
    requires var h, st := LineAt(repo, n, cuts, p), OwnStore(repo, n, cuts, p);
             forall s :: SameLeft(TipValue(CodecFor(p), st, s), ReplayedVersion(h, |h|, s))
    ensures HoldsTree(Union(repo, n, cuts), repo, n)
    ensures var code, replayed := Code(FrontierTip(Union(repo, n, cuts), repo, n), None),
                                  Code(TipAfter(repo, n, n), None);
            (p in code <==> p in replayed) && (p in code ==> code[p] == replayed[p])
  {
    hide *;
    var h, st := LineAt(repo, n, cuts, p), OwnStore(repo, n, cuts, p);
    TreeIsItsPaths(repo, n, cuts, p);
    OwnIsMined(repo, n, cuts, p);
    LineIsValid(repo, n, p);
    FrontierIsReplayExactlyWhen(CodecFor(p), h, st);
    ReplayedCode(repo, n, p);
  }

  lemma LineIsValid(repo: Repo, n: nat, p: Name)
    requires ValidRepo(repo, n) && p in repo
    ensures ValidTimeline(PathLine(repo, n, p)) && |PathLine(repo, n, p)| == n
  {
    TimelineIsValid(repo[p].tier, repo[p].commits);
    hide ValidHistory, TimelineOf, ValidTimeline;
  }

  lemma ReplayedCode(repo: Repo, n: nat, p: Name)
    requires ValidRepo(repo, n) && p in repo
    ensures |PathLine(repo, n, p)| == n
    ensures var live, code := LiveOf(Replay(PathLine(repo, n, p), n)), Code(TipAfter(repo, n, n), None);
            (p in code <==> Materializes(live)) && (p in code ==> code[p] == Fold.FoldFile(live))
  {
    LineIsValid(repo, n, p);
    LiveOfPath(repo, n, n, p);
    StateIsReplay(repo[p].tier, repo[p].commits, n);
    assert Wanted(None, p);
    hide TipAfter, LiveOf, StateAfter, Replay, Fold.FoldFile, TimelineOf, ValidHistory;
  }

  /** An opaque path of the tree is there if and only if its touches, followed from birth, lead to something, and
      then with those bytes -- whether or not the last commit has it. */
  lemma OpaqueInTree(repo: Repo, n: nat, cuts: map<Name, seq<Cut>>, p: Name)
    requires AreTreeCuts(repo, n, cuts) && p in repo && repo[p].tier.OpaqueTier?
    ensures HoldsTree(Union(repo, n, cuts), repo, n)
    ensures var v := Follow(AllHops(LineAt(repo, n, cuts, p), Whole), None, {});
            var code := Code(FrontierTip(Union(repo, n, cuts), repo, n), None);
            (p in code <==> IsLeft(v)) && (p in code ==> v.Some? && v.value.Blob? && code[p] == v.value.data)
  {
    hide *;
    TreeIsItsPaths(repo, n, cuts, p);
    OwnIsMined(repo, n, cuts, p);
    TreeCutsAt(repo, n, cuts, p);
    OpaqueLine(repo, n, p);
    WholeIsUngrouped();
    UngroupedIsAlone(PathLine(repo, n, p), cuts[p], Whole);
    PathIsAlone(CodecFor(p), PathLine(repo, n, p), cuts[p], Whole);
    OwnStoreIs(repo, n, cuts, p);
    OpaqueFold(CodecFor(p), repo[p].commits, OwnStore(repo, n, cuts, p));
    OpaqueMaterializesExactlyWhen(CodecFor(p), repo[p].commits, OwnStore(repo, n, cuts, p));
    LeftIs(Follow(AllHops(LineAt(repo, n, cuts, p), Whole), None, {}));
  }

  lemma OpaqueLine(repo: Repo, n: nat, p: Name)
    requires ValidRepo(repo, n) && p in repo && repo[p].tier.OpaqueTier?
    ensures ValidHistory(repo[p].commits) && PathLine(repo, n, p) == TimelineOf(OpaqueTier, repo[p].commits)
  {
    hide ValidHistory, TimelineOf;
  }

  lemma WholeIsUngrouped()
    ensures !IsGrouped(Whole)
  {
  }

  lemma OwnStoreIs(repo: Repo, n: nat, cuts: map<Name, seq<Cut>>, p: Name)
    requires AreTreeCuts(repo, n, cuts) && p in repo
    ensures ValidRepo(repo, n) && p in cuts && AreCuts(PathLine(repo, n, p), cuts[p])
    ensures OwnStore(repo, n, cuts, p) == PathStore(CodecFor(p), PathLine(repo, n, p), cuts[p])
  {
    hide PathStore, PathLine, AreCuts, ValidRepo, CodecFor;
  }

  // ---------------------------------------------------------------------------------------
  // Every valid repository has such a store.

  ghost function TreeSingles(repo: Repo, n: nat): (cuts: map<Name, seq<Cut>>)
    requires ValidRepo(repo, n)
  {
    map p | p in repo :: Singles(PathLine(repo, n, p))
  }

  lemma SinglesAreTreeCuts(repo: Repo, n: nat)
    requires ValidRepo(repo, n)
    ensures AreTreeCuts(repo, n, TreeSingles(repo, n))
  {
    hide PathLine, Singles, AreCuts, ValidRepo;
    forall p | p in repo ensures AreCuts(PathLine(repo, n, p), TreeSingles(repo, n)[p]) {
      SinglesAreCuts(PathLine(repo, n, p));
    }
  }

  /** So no valid repository, however many files its commits touch, is without one. */
  lemma EveryTreeIsHeld(repo: Repo, n: nat)
    requires ValidRepo(repo, n)
    ensures exists ts: TreeStore :: HoldsTree(ts, repo, n)
  {
    hide *;
    SinglesAreTreeCuts(repo, n);
    UnionHoldsTree(repo, n, TreeSingles(repo, n));
  }
}
