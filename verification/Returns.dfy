/** Concrete histories that come back to what they left, mined and read back through the store. */
module Returns {
  import opened Names
  import opened Symbols
  import opened Snapshots
  import opened Tables
  import opened Chains
  import opened History
  import opened Codecs
  import opened MinedOps
  import opened PathOps
  import opened Rooting
  import opened ReadBack
  import Fold

  /** The store of a history each of whose touches is an op of its own, written out plainly. */
  ghost function PlainStore(h: Timeline): Store {
    SinglesAreCuts(h);
    PathStore(PLAIN, h, Singles(h))
  }

  lemma PlainStoreIs(h: Timeline)
    ensures IsCodec(PLAIN) && AreCuts(h, Singles(h)) && PlainStore(h) == PathStore(PLAIN, h, Singles(h))
    ensures Mined(PLAIN, h, PlainStore(h)) && forall s: Sym :: Alone(PLAIN, PlainStore(h), s)
  {
    PlainIsCodec();
    SinglesAreCuts(h);
    PathIsMined(PLAIN, h, Singles(h));
    hide *;
    PlainUnfolds(h);
    forall s: Sym ensures Alone(PLAIN, PlainStore(h), s) {
      SinglesAreAlone(h, s);
      PathIsAlone(PLAIN, h, Singles(h), s);
    }
  }

  lemma PlainUnfolds(h: Timeline)
    requires AreCuts(h, Singles(h))
    ensures PlainStore(h) == PathStore(PLAIN, h, Singles(h))
  {
    hide PathStore, Singles, AreCuts;
  }

  // ---------------------------------------------------------------------------------------
  // Opaque files.

  /** An opaque file that goes through these contents. */
  function Contents(raws: seq<Bytes>): (r: Commits)
    ensures |r| == |raws| && forall k :: 0 <= k < |r| ==> r[k] == Commit(Present(raws[k], [], false), true, false)
  {
    seq(|raws|, k requires 0 <= k < |raws| => Commit(Present(raws[k], [], false), true, false))
  }

  lemma ContentsAreValid(raws: seq<Bytes>)
    ensures ValidHistory(Contents(raws))
  {
    assert NamesOf([]) == [];
    hide NamesOf, Contents;
  }

  function Line(raws: seq<Bytes>): Timeline {
    ContentsAreValid(raws);
    TimelineOf(OpaqueTier, Contents(raws))
  }

  lemma LineIs(raws: seq<Bytes>)
    ensures ValidHistory(Contents(raws)) && Line(raws) == TimelineOf(OpaqueTier, Contents(raws))
    ensures |Line(raws)| == |raws| && ValidTimeline(Line(raws))
  {
    ContentsAreValid(raws);
    TimelineIsValid(OpaqueTier, Contents(raws));
    hide ValidHistory, TimelineOf, ValidTimeline, Contents;
  }

  lemma LineAt(raws: seq<Bytes>, k: nat)
    requires k < |raws|
    ensures k < |Line(raws)| && Line(raws)[k].listed
    ensures Line(raws)[k].table == map[Whole := Entry(Blob(raws[k]), Data(raws[k]))]
  {
    LineIs(raws);
    OpaqueTable(Contents(raws), k);
    hide ValidHistory;
  }

  /** The content before the `k`-th. */
  function Was(raws: seq<Bytes>, k: nat): Option<Version>
    requires k < |raws|
  {
    if k == 0 then None else Some(Blob(raws[k - 1]))
  }

  lemma LineTouches(raws: seq<Bytes>, k: nat)
    requires k < |raws|
    ensures k < |Line(raws)| && Whole in Touches(Line(raws), k)
    ensures forall s :: s in Touches(Line(raws), k) ==> s == Whole
    ensures HopOf(Touches(Line(raws), k)[Whole]) == Hop(Was(raws, k), Blob(raws[k]))
  {
    var h := Line(raws);
    LineAt(raws, k);
    if k > 0 { LineAt(raws, k - 1); }
    assert Whole in Step(Prior(h, k), h[k], k);
    hide Line;
    BeforeIs(h, k, Whole);
    if k == 0 { assert LastClosing(h, 0, Whole) == None; }
    hide Touches, LastClosing;
    forall s | s in Touches(h, k) ensures s == Whole { BeforeIs(h, k, s); }
  }

  lemma LineHops(raws: seq<Bytes>, p: Hop)
    ensures p in AllHops(Line(raws), Whole) <==> exists k :: 0 <= k < |raws| && p == Hop(Was(raws, k), Blob(raws[k]))
  {
    LineIs(raws);
    hide *;
    if p in AllHops(Line(raws), Whole) {
      var k := HopFrom(Line(raws), Whole, p);
      LineTouches(raws, k);
    }
    if k :| 0 <= k < |raws| && p == Hop(Was(raws, k), Blob(raws[k])) {
      LineTouches(raws, k);
      HopsAt(Line(raws), Whole, k);
    }
  }

  /** The op set of contents loses nothing exactly when no content is followed by two different ones; removals
      play no part. */
  lemma ContentsReduceExactlyWhen(raws: seq<Bytes>)
    ensures Reduced(PlainStore(Line(raws))) == PlainStore(Line(raws)).held
            <==> forall i, k :: 0 <= i < |raws| && 0 <= k < |raws| && Was(raws, i) == Was(raws, k)
                   ==> raws[i] == raws[k]
  {
    hide *;
    var h := Line(raws);
    LineIs(raws);
    PlainStoreIs(h);
    HistoryReducesToItselfExactlyWhen(PLAIN, h, Singles(h));
    LineIsRooted(raws);
    LineOneWay(raws);
  }

  lemma LineIsRooted(raws: seq<Bytes>)
    ensures AllRooted(Line(raws))
  {
    hide *;
    var h := Line(raws);
    LineIs(raws);
    forall k: nat, s: Sym ensures !Unrooted(h, k, s) {
      if Unrooted(h, k, s) {
        var d := UnrootedAt(h, k, s);
        LineTouches(raws, k);
        WasIsBlob(raws, k, Touches(h, k)[Whole], d);
      }
    }
    RootedIs(h);
  }

  lemma WasIsBlob(raws: seq<Bytes>, k: nat, t: Touch, d: nat)
    requires k < |raws| && HopOf(t) == Hop(Was(raws, k), Blob(raws[k]))
    ensures t.before != Some(Bottom(d))
  {
  }

  lemma LineOneWay(raws: seq<Bytes>)
    ensures NoTwoWays(Line(raws), Singles(Line(raws)))
            <==> forall i, k :: 0 <= i < |raws| && 0 <= k < |raws| && Was(raws, i) == Was(raws, k)
                   ==> raws[i] == raws[k]
  {
    hide *;
    var h, cuts := Line(raws), Singles(Line(raws));
    LineIs(raws);
    if NoTwoWays(h, cuts) {
      forall i, k | 0 <= i < |raws| && 0 <= k < |raws| && Was(raws, i) == Was(raws, k) ensures raws[i] == raws[k] {
        SameDeed(raws, i, k);
      }
    } else {
      var d, e := TwoWays(h, cuts);
      var i, k := DeedsOfLine(raws, d, e);
      LineDeed(raws, i);
      LineDeed(raws, k);
    }
  }

  /** What the `k`-th content's op says. */
  function ContentDeed(raws: seq<Bytes>, k: nat): Deed
    requires k < |raws|
  {
    Deed(map[Whole := Hop(Was(raws, k), Blob(raws[k]))], {})
  }

  lemma LineDeed(raws: seq<Bytes>, k: nat)
    requires k < |raws|
    ensures ContentDeed(raws, k) in AllDeeds(Line(raws), Singles(Line(raws)))
    ensures forall b :: k < |Line(raws)| && b in Singles(Line(raws))[k]
              ==> DeedOf(Line(raws), k, b) == ContentDeed(raws, k)
  {
    var h, cuts := Line(raws), Singles(Line(raws));
    LineTouches(raws, k);
    assert cuts[k] == SingleAt(h, k);
    SingleAtHas(h, k);
    hide Line, Touches, Singles, SingleAt, AllDeeds, Was, HopOf;
    forall b | b in cuts[k] ensures DeedOf(h, k, b) == ContentDeed(raws, k) {
      var s :| s in b.syms;
      assert s == Whole && b == Bucket({Whole}, {});
      assert DeedOf(h, k, b).hops == map[Whole := Hop(Was(raws, k), Blob(raws[k]))];
    }
    DeedAt(h, cuts, k, Bucket({Whole}, {}));
  }

  lemma DeedsOfLine(raws: seq<Bytes>, d: Deed, e: Deed) returns (i: nat, k: nat)
    requires d in AllDeeds(Line(raws), Singles(Line(raws))) && e in AllDeeds(Line(raws), Singles(Line(raws))) && d != e
    requires exists s :: s in d.hops && s in e.hops && d.hops[s].before == e.hops[s].before
    ensures i < |raws| && k < |raws| && Was(raws, i) == Was(raws, k) && raws[i] != raws[k]
  {
    var h, cuts := Line(raws), Singles(Line(raws));
    LineIs(raws);
    hide Line, Singles, AllDeeds, DeedOf, Was;
    var a, b;
    i, a := DeedFrom(h, cuts, d);
    k, b := DeedFrom(h, cuts, e);
    LineDeed(raws, i);
    LineDeed(raws, k);
  }

  lemma SameDeed(raws: seq<Bytes>, i: nat, k: nat)
    requires NoTwoWays(Line(raws), Singles(Line(raws))) && i < |raws| && k < |raws| && Was(raws, i) == Was(raws, k)
    ensures raws[i] == raws[k]
  {
    hide *;
    LineDeed(raws, i);
    LineDeed(raws, k);
    ContentDeedIs(raws, i);
    ContentDeedIs(raws, k);
    OneDeed(Line(raws), ContentDeed(raws, i), ContentDeed(raws, k), Whole);
  }

  lemma ContentDeedIs(raws: seq<Bytes>, k: nat)
    requires k < |raws|
    ensures Whole in ContentDeed(raws, k).hops
    ensures ContentDeed(raws, k).hops[Whole] == Hop(Was(raws, k), Blob(raws[k]))
  {
  }

  lemma OneDeed(h: Timeline, d: Deed, e: Deed, s: Sym)
    requires NoTwoWays(h, Singles(h)) && d in AllDeeds(h, Singles(h)) && e in AllDeeds(h, Singles(h))
    requires s in d.hops && s in e.hops && d.hops[s].before == e.hops[s].before
    ensures d == e
  {
    hide AllDeeds, Singles;
  }

  // ---------------------------------------------------------------------------------------
  // Content that comes back.

  const ONE: Bytes := [1]
  const TWO: Bytes := [2]
  const THREE: Bytes := [3]

  lemma WasOfFour(a: Bytes, b: Bytes, d: Bytes, e: Bytes)
    ensures Was([a, b, d, e], 0) == None && Was([a, b, d, e], 1) == Some(Blob(a))
    ensures Was([a, b, d, e], 2) == Some(Blob(b)) && Was([a, b, d, e], 3) == Some(Blob(d))
  {
  }

  lemma HopsOfFour(a: Bytes, b: Bytes, d: Bytes, e: Bytes, p: Hop)
    ensures p in AllHops(Line([a, b, d, e]), Whole) <==>
            p == Hop(None, Blob(a)) || p == Hop(Some(Blob(a)), Blob(b)) || p == Hop(Some(Blob(b)), Blob(d))
            || p == Hop(Some(Blob(d)), Blob(e))
  {
    hide *;
    LineHops([a, b, d, e], p);
    WasOfFour(a, b, d, e);
    FourOf(p, [a, b, d, e]);
  }

  lemma FourOf(p: Hop, raws: seq<Bytes>)
    requires |raws| == 4
    ensures (exists k :: 0 <= k < 4 && p == Hop(Was(raws, k), Blob(raws[k])))
            <==> p == Hop(Was(raws, 0), Blob(raws[0])) || p == Hop(Was(raws, 1), Blob(raws[1]))
                 || p == Hop(Was(raws, 2), Blob(raws[2])) || p == Hop(Was(raws, 3), Blob(raws[3]))
  {
    hide Was;
  }

  lemma LineFold(raws: seq<Bytes>, b: Bytes)
    requires Follow(AllHops(Line(raws), Whole), None, {}) == Some(Blob(b))
    ensures Fold.FoldFile(FrontierLive(PLAIN, Line(raws), PlainStore(Line(raws)))) == b
  {
    hide *;
    LineIs(raws);
    PlainStoreIs(Line(raws));
    OpaqueFold(PLAIN, Contents(raws), PlainStore(Line(raws)));
    BlobIsLeft(b);
  }

  lemma BlobIsLeft(b: Bytes)
    ensures IsLeft(Some(Blob(b)))
  {
  }

  /** 1, 2, 1, 2: the last op is the second one again, so nothing is lost -- but the walk stops where it comes back
      to it, and the file reads back as 1 where the commit holds 2. */
  lemma AlternatingStopsShort()
    ensures var h := Line([ONE, TWO, ONE, TWO]);
            && Reduced(PlainStore(h)) == PlainStore(h).held
            && Fold.FoldFile(FrontierLive(PLAIN, h, PlainStore(h))) == ONE
  {
    hide *;
    ContentsReduceExactlyWhen([ONE, TWO, ONE, TWO]);
    AlternatingIsOneWay();
    AlternatingFollows();
    LineFold([ONE, TWO, ONE, TWO], ONE);
  }

  lemma AlternatingIsOneWay()
    ensures var raws := [ONE, TWO, ONE, TWO];
            forall i, k :: 0 <= i < |raws| && 0 <= k < |raws| && Was(raws, i) == Was(raws, k) ==> raws[i] == raws[k]
  {
    assert ONE[0] != TWO[0];
  }

  lemma AlternatingFollows()
    ensures Follow(AllHops(Line([ONE, TWO, ONE, TWO]), Whole), None, {}) == Some(Blob(ONE))
  {
    var hops := AllHops(Line([ONE, TWO, ONE, TWO]), Whole);
    assert ONE[0] != TWO[0];
    hide *;
    forall p ensures p in hops <==> p == Hop(None, Blob(ONE)) || p == Hop(Some(Blob(ONE)), Blob(TWO))
                                    || p == Hop(Some(Blob(TWO)), Blob(ONE))
    {
      HopsOfFour(ONE, TWO, ONE, TWO, p);
    }
    CycleWays(hops, Blob(ONE), Blob(TWO));
    Cycles(hops, Blob(ONE), Blob(TWO));
  }

  lemma CycleWays(hops: set<Hop>, v: Version, w: Version)
    requires v != w
    requires forall p :: p in hops <==> p == Hop(None, v) || p == Hop(Some(v), w) || p == Hop(Some(w), v)
    ensures OnlyWay(hops, None, v) && OnlyWay(hops, Some(v), w) && OnlyWay(hops, Some(w), v)
  {
  }

  /** There and back again. */
  lemma Cycles(hops: set<Hop>, v: Version, w: Version)
    requires v != w && OnlyWay(hops, None, v) && OnlyWay(hops, Some(v), w) && OnlyWay(hops, Some(w), v)
    ensures Follow(hops, None, {}) == Some(v)
  {
    hide *;
    Follows(hops, None, v, {});
    var once := {} + {None};
    Follows(hops, Some(v), w, once);
    var twice := once + {Some(v)};
    Follows(hops, Some(w), v, twice);
    FollowEnds(hops, Some(v), twice + {Some(w)});
  }

  /** 1, 2, 1, 3: two different ops start from 1, so both are lost and the file reads back as 1 where the commit
      holds 3. */
  lemma ReturningContentIsLost()
    ensures var h := Line([ONE, TWO, ONE, THREE]);
            && Reduced(PlainStore(h)) != PlainStore(h).held
            && Fold.FoldFile(FrontierLive(PLAIN, h, PlainStore(h))) == ONE
  {
    hide *;
    ContentsReduceExactlyWhen([ONE, TWO, ONE, THREE]);
    ReturningIsTwoWays();
    ReturningFollows();
    LineFold([ONE, TWO, ONE, THREE], ONE);
  }

  lemma ReturningIsTwoWays()
    ensures var raws := [ONE, TWO, ONE, THREE];
            exists i, k :: 0 <= i < |raws| && 0 <= k < |raws| && Was(raws, i) == Was(raws, k) && raws[i] != raws[k]
  {
    var raws := [ONE, TWO, ONE, THREE];
    assert TWO[0] != THREE[0];
    assert Was(raws, 1) == Was(raws, 3) && raws[1] != raws[3];
  }

  lemma ReturningFollows()
    ensures Follow(AllHops(Line([ONE, TWO, ONE, THREE]), Whole), None, {}) == Some(Blob(ONE))
  {
    var hops := AllHops(Line([ONE, TWO, ONE, THREE]), Whole);
    assert TWO[0] != THREE[0];
    hide *;
    HopsOfFour(ONE, TWO, ONE, THREE, Hop(Some(Blob(ONE)), Blob(TWO)));
    HopsOfFour(ONE, TWO, ONE, THREE, Hop(Some(Blob(ONE)), Blob(THREE)));
    HopsOfFour(ONE, TWO, ONE, THREE, Hop(None, Blob(ONE)));
    forall w | Hop(None, w) in hops ensures w == Blob(ONE) { HopsOfFour(ONE, TWO, ONE, THREE, Hop(None, w)); }
    Parts(hops, Blob(ONE), Blob(TWO), Blob(THREE));
  }

  lemma Parts(hops: set<Hop>, v: Version, w: Version, x: Version)
    requires Hop(None, v) in hops && Hop(Some(v), w) in hops && Hop(Some(v), x) in hops && w != x
    requires forall y :: Hop(None, y) in hops ==> y == v
    ensures Follow(hops, None, {}) == Some(v)
  {
    assert OnlyWay(hops, None, v) && forall y :: !OnlyWay(hops, Some(v), y);
    hide *;
    Follows(hops, None, v, {});
    FollowEnds(hops, Some(v), {} + {None});
  }

  // ---------------------------------------------------------------------------------------
  // A deleted path that comes back.

  /** 1, 2, 1, 3, and then the file is deleted. */
  const DELETED: Commits := Contents([ONE, TWO, ONE, THREE]) + [Commit(Absent, true, false)]

  lemma DeletedCommits()
    ensures |DELETED| == 5 && DELETED[4] == Commit(Absent, true, false)
    ensures forall k :: 0 <= k < 4 ==> DELETED[k] == Commit(Present([ONE, TWO, ONE, THREE][k], [], false), true, false)
  {
  }

  lemma DeletedIsValid()
    ensures ValidHistory(DELETED)
  {
    DeletedCommits();
    assert NamesOf([]) == [];
    hide NamesOf;
    assert PriorFile(DELETED, 4) == DELETED[3].file;
    hide DELETED;
  }

  function DeletedLine(): Timeline {
    DeletedIsValid();
    TimelineOf(OpaqueTier, DELETED)
  }

  lemma DeletedLineIs()
    ensures ValidHistory(DELETED) && DeletedLine() == TimelineOf(OpaqueTier, DELETED)
    ensures |DeletedLine()| == 5 && ValidTimeline(DeletedLine())
  {
    DeletedIsValid();
    DeletedCommits();
    TimelineIsValid(OpaqueTier, DELETED);
    hide ValidHistory, ValidTimeline, DELETED, PointOf;
  }

  lemma DeletedAt(k: nat)
    requires k < 5
    ensures |DeletedLine()| == 5 && DeletedLine()[k].listed && !DeletedLine()[k].flip
    ensures k < 4 ==> DeletedLine()[k].table
                      == map[Whole := Entry(Blob([ONE, TWO, ONE, THREE][k]), Data([ONE, TWO, ONE, THREE][k]))]
    ensures k == 4 ==> DeletedLine()[k].table == map[]
  {
    DeletedLineIs();
    DeletedCommits();
    OpaqueTable(DELETED, k);
    assert DeletedLine()[k] == PointOf(OpaqueTier, DELETED, k);
    OpaqueIsNotParts(PriorFile(DELETED, k));
    hide ValidHistory, DELETED, DeletedLine, ONE, TWO, THREE, TableOf, RepOf, PriorFile, ValidTimeline;
  }

  lemma OpaqueIsNotParts(f: Snapshot)
    ensures RepOf(OpaqueTier, f) != ByParts
  {
  }

  /** Births, two ways on from 1, and the removal of what is lost. */
  lemma DeletedHops()
    ensures var hops := AllHops(DeletedLine(), Whole);
            && Hop(None, Blob(ONE)) in hops && Hop(Some(Blob(ONE)), Blob(TWO)) in hops
            && Hop(Some(Blob(ONE)), Blob(THREE)) in hops
            && forall w :: Hop(None, w) in hops ==> w == Blob(ONE)
  {
    DeletedLineIs();
    hide *;
    var h := DeletedLine();
    DeletedMakes(0);
    DeletedMakes(1);
    DeletedMakes(2);
    DeletedMakes(3);
    DeletedMakes(4);
    MakesHop(h, 0, Whole, DeletedHop(0));
    MakesHop(h, 1, Whole, DeletedHop(1));
    MakesHop(h, 3, Whole, DeletedHop(3));
    DeletedHopIs();
    forall w | Hop(None, w) in AllHops(h, Whole) ensures w == Blob(ONE) {
      var k := HopMade(h, Whole, Hop(None, w));
      DeletedMakes(k);
      MakesOne(h, k, Whole, Hop(None, w), DeletedHop(k));
      OnlyFirst(k, w);
    }
  }

  function DeletedHop(k: nat): Hop
    requires k < 5
  {
    Hop(if k == 0 then None else Some(Blob([ONE, TWO, ONE, THREE][k - 1])),
        if k < 4 then Blob([ONE, TWO, ONE, THREE][k]) else Bottom(4))
  }

  lemma DeletedHopIs()
    ensures DeletedHop(0) == Hop(None, Blob(ONE)) && DeletedHop(1) == Hop(Some(Blob(ONE)), Blob(TWO))
    ensures DeletedHop(3) == Hop(Some(Blob(ONE)), Blob(THREE))
  {
  }

  lemma OnlyFirst(k: nat, w: Version)
    requires k < 5 && Hop(None, w) == DeletedHop(k)
    ensures w == Blob(ONE)
  {
  }

  lemma DeletedMakes(k: nat)
    requires k < 5
    ensures Makes(DeletedLine(), k, Whole, DeletedHop(k))
  {
    var h := DeletedLine();
    DeletedAt(k);
    if k > 0 { DeletedAt(k - 1); }
    hide DeletedLine, LastClosing, ONE, TWO, THREE, Chained;
    assert Whole in Step(Prior(h, k), h[k], k);
    BeforeIs(h, k, Whole);
    if k == 0 { NoneClosed(h); }
    hide Touches;
  }

  lemma NoneClosed(h: Timeline)
    ensures LastClosing(h, 0, Whole) == None
  {
  }

  /** The removal is lost with the content it removed, so the path is back, holding what it was born with -- though
      the last commit has no file there and replaying gives none. */
  lemma DeletedComesBack()
    ensures ValidHistory(DELETED) && |DELETED| == 5 && DELETED[4].file == Absent
    ensures var h := DeletedLine();
            && Materializes(FrontierLive(PLAIN, h, PlainStore(h)))
            && Fold.FoldFile(FrontierLive(PLAIN, h, PlainStore(h))) == ONE
            && !Materializes(LiveOf(Replay(h, |h|)))
  {
    TwoIsNotThree();
    DeletedLineIs();
    DeletedCommits();
    hide *;
    var h := DeletedLine();
    PlainStoreIs(h);
    DeletedHops();
    Parts(AllHops(h, Whole), Blob(ONE), Blob(TWO), Blob(THREE));
    OpaqueFold(PLAIN, DELETED, PlainStore(h));
    OpaqueMaterializesExactlyWhen(PLAIN, DELETED, PlainStore(h));
    BlobIsLeft(ONE);
    DeletedReplays();
  }

  lemma TwoIsNotThree()
    ensures Blob(TWO) != Blob(THREE)
  {
    assert TWO[0] != THREE[0];
  }

  lemma DeletedReplays()
    ensures !Materializes(LiveOf(Replay(DeletedLine(), |DeletedLine()|)))
  {
    var h := DeletedLine();
    DeletedLineIs();
    DeletedAt(4);
    assert Prior(h, 5) == map[];
    hide *;
    ReplayIsFaithful(h, 5);
    ClosedAtLast(h);
    LiveByReplay(h, Whole);
    forall s | s in LiveOf(Replay(h, 5)) ensures s == Whole {
      LiveByReplay(h, s);
      var k := StateWasThere(h, s);
      OnlyWholeThere(k, s);
    }
    OnlyWholeMaterializes(LiveOf(Replay(h, 5)));
  }

  lemma OnlyWholeThere(k: nat, s: Sym)
    requires k < |DeletedLine()| && s in DeletedLine()[k].table
    ensures s == Whole
  {
    DeletedLineIs();
    DeletedAt(k);
    hide DeletedLine, ONE, TWO, THREE, ValidTimeline, ValidHistory;
  }

  lemma ClosedAtLast(h: Timeline)
    requires |h| == 5 && Prior(h, 5) == map[] && Faithful(Prior(h, 5), Replay(h, 5))
    ensures !IsLeft(ReplayedVersion(h, 5, Whole))
  {
    hide Replay;
  }
}
