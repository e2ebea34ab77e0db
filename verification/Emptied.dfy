/** A file without entities that is emptied, deleted and written again, mined and read back through the store: it is
    gone (`sgt/core/mine.py`, the lookback of `_apply_rebirth_chaining`). */
module Emptied {
  import opened Names
  import opened Symbols
  import opened Snapshots
  import opened Tables
  import opened Chains
  import opened History
  import opened Codecs
  import opened MinedOps
  import opened Rooting
  import opened ReadBack
  import opened Returns
  import Fold

  /** A parsed file in which nothing is extracted: it is all head gap. */
  function Plain(raw: Bytes): Snapshot {
    Present(raw, [], false)
  }

  const HEAD := Residue(None)

  /** Written, emptied, deleted, and written again as it was. */
  function Emptying(raw: Bytes): Commits {
    [Commit(Plain(raw), true, false), Commit(Plain([]), true, false), Commit(Absent, true, false),
     Commit(Plain(raw), true, false)]
  }

  lemma EmptyingIsValid(raw: Bytes)
    ensures ValidHistory(Emptying(raw))
  {
    var h := Emptying(raw);
    assert PriorFile(h, 0) == Absent && PriorFile(h, 1) == Plain(raw) && PriorFile(h, 2) == Plain([]);
    assert PriorFile(h, 3) == Absent;
    assert NamesOf([]) == [];
  }

  function EmptyingLine(raw: Bytes): Timeline {
    EmptyingIsValid(raw);
    TimelineOf(EntityTier, Emptying(raw))
  }

  lemma PlainTable(raw: Bytes)
    ensures WellFormed(Plain(raw)) && TableOf(EntityTier, Plain(raw)) == map[HEAD := GapEntry(raw)]
  {
    assert NamesOf([]) == [];
    assert WellFormed(Plain(raw)) && RepOf(EntityTier, Plain(raw)) == ByParts;
    TableUnfolds(EntityTier, Plain(raw));
    PartTableIs(raw, []);
    NothingExtracted(raw);
    hide *;
    HeadAlone(GapTable(map[None := raw]), raw);
  }

  lemma NothingExtracted(raw: Bytes)
    requires Extracted(raw, []) && LaidOut(raw, InBytes([]))
    ensures EntTable(raw, []) == map[] && Segments(raw, InBytes([])) == map[None := raw]
    ensures FactTable(AnchorFacts(InLines([]))) == map[]
  {
    assert InBytes([]) == [] && InLines([]) == [];
    assert AnchorFacts([]) == map[];
  }

  lemma HeadAlone(t: Table, raw: Bytes)
    requires t == GapTable(map[None := raw])
    ensures map[] + t + map[] == map[HEAD := GapEntry(raw)]
  {
    assert t.Keys == {HEAD};
    hide GapEntry;
  }

  /** A table with no other symbol than the head gap, or none at all. */
  ghost predicate Holds(t: Table, b: Option<Bytes>) {
    if b.Some? then t == map[HEAD := GapEntry(b.value)] else t == map[]
  }

  lemma EmptyingAt(raw: Bytes)
    ensures var h := EmptyingLine(raw);
            && |h| == 4 && ValidTimeline(h)
            && (forall k :: 0 <= k < 4 ==> h[k].listed && !h[k].flip && !h[k].bookkeeping)
            && Holds(h[0].table, Some(raw)) && Holds(h[1].table, Some([])) && Holds(h[2].table, None)
            && Holds(h[3].table, Some(raw)) && Holds(map[], None)
  {
    hide *;
    var hc := Emptying(raw);
    EmptyingCommits(raw);
    LineUnfolds(raw);
    TimelineIsValid(EntityTier, hc);
    PlainPoint(hc, 0, raw);
    PlainPoint(hc, 1, []);
    AbsentPoint(hc, 2);
    PlainPoint(hc, 3, raw);
    HoldsNothing();
  }

  lemma HoldsNothing()
    ensures Holds(map[], None)
  {
  }

  lemma EmptyingCommits(raw: Bytes)
    ensures var hc := Emptying(raw);
            && |hc| == 4 && hc[0] == Commit(Plain(raw), true, false) && hc[1] == Commit(Plain([]), true, false)
            && hc[2] == Commit(Absent, true, false) && hc[3] == Commit(Plain(raw), true, false)
  {
  }

  lemma LineUnfolds(raw: Bytes)
    ensures ValidHistory(Emptying(raw)) && EmptyingLine(raw) == TimelineOf(EntityTier, Emptying(raw))
    ensures |EmptyingLine(raw)| == |Emptying(raw)|
  {
    EmptyingIsValid(raw);
    hide ValidHistory, Emptying;
  }

  lemma PlainPoint(hc: Commits, k: nat, raw: Bytes)
    requires ValidHistory(hc) && k < |hc| && hc[k] == Commit(Plain(raw), true, false)
    ensures var p := TimelineOf(EntityTier, hc)[k];
            Holds(p.table, Some(raw)) && p.listed && !p.flip && !p.bookkeeping
  {
    PlainTable(raw);
    assert RepOf(EntityTier, Plain(raw)) == ByParts;
    assert TimelineOf(EntityTier, hc)[k] == PointOf(EntityTier, hc, k);
    hide ValidHistory, TableOf, WellFormed, RepOf, GapEntry, Plain;
  }

  lemma AbsentPoint(hc: Commits, k: nat)
    requires ValidHistory(hc) && k < |hc| && hc[k] == Commit(Absent, true, false)
    ensures var p := TimelineOf(EntityTier, hc)[k];
            Holds(p.table, None) && p.listed && !p.flip && !p.bookkeeping
  {
    assert TimelineOf(EntityTier, hc)[k] == PointOf(EntityTier, hc, k);
    hide ValidHistory;
  }

  // ---------------------------------------------------------------------------------------
  // Its touches.

  lemma OnlyHead(raw: Bytes, k: nat, s: Sym)
    requires k < |EmptyingLine(raw)| && s in Touches(EmptyingLine(raw), k)
    ensures s == HEAD
  {
    hide *;
    EmptyingAt(raw);
    BeforeIs(EmptyingLine(raw), k, s);
    PriorIs(EmptyingLine(raw), k);
    HoldsHead(EmptyingLine(raw)[0].table, Some(raw), s);
    HoldsHead(EmptyingLine(raw)[1].table, Some([]), s);
    HoldsHead(EmptyingLine(raw)[2].table, None, s);
    HoldsHead(EmptyingLine(raw)[3].table, Some(raw), s);
    FourCommits(k);
  }

  lemma HoldsHead(t: Table, b: Option<Bytes>, s: Sym)
    requires Holds(t, b)
    ensures s in t ==> s == HEAD
  {
  }

  /** What the commits do to the gap; the last is chained onto the commit that only emptied it. */
  lemma EmptyingHops(raw: Bytes)
    requires raw != []
    ensures var h := EmptyingLine(raw);
            && |h| == 4
            && Makes(h, 0, HEAD, Hop(None, Content(raw))) && Makes(h, 1, HEAD, Hop(Some(Content(raw)), Content([])))
            && Makes(h, 2, HEAD, Hop(Some(Content([])), Bottom(2)))
            && Makes(h, 3, HEAD, Hop(Some(Bottom(1)), Content(raw)))
  {
    hide *;
    var h := EmptyingLine(raw);
    EmptyingAt(raw);
    PriorIs(h, 0);
    PriorIs(h, 1);
    PriorIs(h, 2);
    PriorIs(h, 3);
    NothingClosed(h);
    ClosedWhenEmptied(h, raw);
    HeadHop(h, 0, None, Some(raw));
    HeadHop(h, 1, Some(raw), Some([]));
    HeadHop(h, 2, Some([]), None);
    HeadHop(h, 3, None, Some(raw));
  }

  /** One commit's hop of the gap, from what the gap was and is. */
  lemma HeadHop(h: Timeline, k: nat, was: Option<Bytes>, now: Option<Bytes>)
    requires k < |h| && h[k].listed && !h[k].flip && was != now && Holds(Prior(h, k), was) && Holds(h[k].table, now)
    ensures var closing := LastClosing(h, k, HEAD);
            Makes(h, k, HEAD, Hop(if was.Some? then Some(Content(was.value))
                               else if closing.None? then None else Some(Bottom(closing.value)),
                               if now.Some? then Content(now.value) else Bottom(k)))
  {
    HeadTouched(h, k, was, now);
    hide Touches, LastClosing, Prior;
    BeforeIs(h, k, HEAD);
  }

  lemma HeadTouched(h: Timeline, k: nat, was: Option<Bytes>, now: Option<Bytes>)
    requires k < |h| && h[k].listed && !h[k].flip && was != now && Holds(Prior(h, k), was) && Holds(h[k].table, now)
    ensures HEAD in Touches(h, k)
  {
    hide LastClosing, Chained, Prior;
    assert HEAD in Step(Prior(h, k), h[k], k);
  }

  lemma NothingClosed(h: Timeline)
    ensures LastClosing(h, 0, HEAD) == None
  {
  }

  /** The lookback takes the emptying for the removal: an empty gap does not count as present. */
  lemma ClosedWhenEmptied(h: Timeline, raw: Bytes)
    requires |h| == 4 && raw != [] && Holds(Prior(h, 1), Some(raw)) && !h[1].bookkeeping
    requires Holds(h[1].table, Some([])) && Holds(Prior(h, 2), Some([]))
    ensures LastClosing(h, 3, HEAD) == Some(1)
  {
    assert SeenClosing(h, 1, HEAD);
    assert !SeenClosing(h, 2, HEAD);
    hide SeenClosing, Prior;
  }

  // ---------------------------------------------------------------------------------------
  // What is left.

  lemma EmptyingFollows(raw: Bytes)
    requires raw != []
    ensures Follow(AllHops(EmptyingLine(raw), HEAD), None, {}) == Some(Bottom(2))
  {
    hide *;
    var h := EmptyingLine(raw);
    var hops := AllHops(h, HEAD);
    EmptyingHops(raw);
    MakesHop(h, 0, HEAD, Hop(None, Content(raw)));
    MakesHop(h, 1, HEAD, Hop(Some(Content(raw)), Content([])));
    MakesHop(h, 2, HEAD, Hop(Some(Content([])), Bottom(2)));
    forall p | p in hops
      ensures p == Hop(None, Content(raw)) || p == Hop(Some(Content(raw)), Content([]))
              || p == Hop(Some(Content([])), Bottom(2)) || p == Hop(Some(Bottom(1)), Content(raw))
    {
      var k := HopMade(h, HEAD, p);
      FourCommits(k);
      MadeOfHead(h, raw, k, p);
    }
    EmptyingWays(hops, raw);
    FollowsToEnd(hops, raw);
  }

  lemma MadeOfHead(h: Timeline, raw: Bytes, k: nat, p: Hop)
    requires k < 4 && Makes(h, k, HEAD, p)
    requires Makes(h, 0, HEAD, Hop(None, Content(raw))) && Makes(h, 1, HEAD, Hop(Some(Content(raw)), Content([])))
    requires Makes(h, 2, HEAD, Hop(Some(Content([])), Bottom(2)))
             && Makes(h, 3, HEAD, Hop(Some(Bottom(1)), Content(raw)))
    ensures p == Hop(None, Content(raw)) || p == Hop(Some(Content(raw)), Content([]))
            || p == Hop(Some(Content([])), Bottom(2)) || p == Hop(Some(Bottom(1)), Content(raw))
  {
    hide *;
    if k == 0 {
      MakesOne(h, 0, HEAD, p, Hop(None, Content(raw)));
    } else if k == 1 {
      MakesOne(h, 1, HEAD, p, Hop(Some(Content(raw)), Content([])));
    } else if k == 2 {
      MakesOne(h, 2, HEAD, p, Hop(Some(Content([])), Bottom(2)));
    } else {
      MakesOne(h, 3, HEAD, p, Hop(Some(Bottom(1)), Content(raw)));
    }
  }

  lemma FourCommits(k: nat)
    requires k < 4
    ensures k == 0 || k == 1 || k == 2 || k == 3
  {
  }

  lemma EmptyingWays(hops: set<Hop>, raw: Bytes)
    requires raw != [] && Hop(None, Content(raw)) in hops && Hop(Some(Content(raw)), Content([])) in hops
    requires Hop(Some(Content([])), Bottom(2)) in hops
    requires forall p :: p in hops ==>
               p == Hop(None, Content(raw)) || p == Hop(Some(Content(raw)), Content([]))
               || p == Hop(Some(Content([])), Bottom(2)) || p == Hop(Some(Bottom(1)), Content(raw))
    ensures OnlyWay(hops, None, Content(raw)) && OnlyWay(hops, Some(Content(raw)), Content([]))
    ensures OnlyWay(hops, Some(Content([])), Bottom(2)) && forall w :: !OnlyWay(hops, Some(Bottom(2)), w)
  {
  }

  lemma FollowsToEnd(hops: set<Hop>, raw: Bytes)
    requires raw != [] && OnlyWay(hops, None, Content(raw)) && OnlyWay(hops, Some(Content(raw)), Content([]))
    requires OnlyWay(hops, Some(Content([])), Bottom(2)) && forall w :: !OnlyWay(hops, Some(Bottom(2)), w)
    ensures Follow(hops, None, {}) == Some(Bottom(2))
  {
    hide *;
    Follows(hops, None, Content(raw), {});
    var once := {} + {None};
    Follows(hops, Some(Content(raw)), Content([]), once);
    var twice := once + {Some(Content(raw))};
    Follows(hops, Some(Content([])), Bottom(2), twice);
    FollowEnds(hops, Some(Bottom(2)), twice + {Some(Content([]))});
  }

  /** Whatever the bytes: the last op is chained onto a removal nobody made, so it is lost, and the path that the
      commit holds does not even materialize -- though replaying gives its bytes. */
  lemma EmptiedFileIsGone(raw: Bytes)
    requires raw != []
    ensures var h := EmptyingLine(raw);
            Unrooted(h, 3, HEAD) && !Materializes(FrontierLive(PLAIN, h, PlainStore(h)))
    ensures ValidHistory(Emptying(raw)) && Fold.FoldFile(LiveOf(StateAfter(EntityTier, Emptying(raw), 4))) == raw
  {
    hide *;
    var h := EmptyingLine(raw);
    EmptyingAt(raw);
    EmptyingHops(raw);
    ChainedOntoEmptying(h, raw);
    EmptyingReplays(raw);
    PlainStoreIs(h);
    EmptyingFollows(raw);
    AloneTip(PLAIN, h, PlainStore(h), HEAD);
    var live := FrontierLive(PLAIN, h, PlainStore(h));
    forall s ensures s !in live {
      LiveByTip(PLAIN, h, PlainStore(h), s);
      LeftIs(TipValue(PLAIN, PlainStore(h), s));
      if s in live {
        var k := TipIsTouched(PLAIN, h, PlainStore(h), s);
        OnlyHead(raw, k, s);
        RemovedIsNotLeft();
      }
    }
    NothingMaterializes(live);
  }

  lemma RemovedIsNotLeft()
    ensures !IsLeft(Some(Bottom(2)))
  {
  }

  lemma NothingMaterializes(live: Fold.LiveSet)
    requires forall s :: s !in live
    ensures !Materializes(live)
  {
  }

  lemma ChainedOntoEmptying(h: Timeline, raw: Bytes)
    requires |h| == 4 && Holds(h[1].table, Some([])) && Makes(h, 3, HEAD, Hop(Some(Bottom(1)), Content(raw)))
    ensures Unrooted(h, 3, HEAD)
  {
    hide Touches, GapEntry;
  }

  lemma EmptyingReplays(raw: Bytes)
    ensures ValidHistory(Emptying(raw)) && Fold.FoldFile(LiveOf(StateAfter(EntityTier, Emptying(raw), 4))) == raw
  {
    var hc := Emptying(raw);
    EmptyingIsValid(raw);
    assert hc[3].file == Plain(raw) && RepOf(EntityTier, Plain(raw)) == ByParts;
    assert SameLineInOrder([]) by { assert Top([]) == []; }
    hide ValidHistory, StateAfter, LiveOf, Fold.FoldFile, SameLineInOrder, RepOf;
    RoundTrip(EntityTier, hc, 3);
  }
}
