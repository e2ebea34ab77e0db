/** The rebirth pass and one whole mining step (`sgt/core/mine.py`,
    `_present_symbols_at_uncached`, `_apply_rebirth_chaining`, the loop body of `mine`). */
module Rebirth {
  import opened Names
  import opened Symbols
  import opened Snapshots
  import opened Tables
  import opened Chains
  import opened History
  import opened Mining
  import Layout

  /** `_present_symbols_at`: the symbols a file is represented by, without anchors and without
      empty gaps. */
  function PresentSymbols(tier: Tier, s: Snapshot): set<Sym>
    requires WellFormed(s)
  {
    match RepOf(tier, s)
    case NotTracked => {}
    case WholeFile => {Whole}
    case ByParts =>
      InBytesIsLaidOut(s.raw, s.ents);
      var segments := Segments(s.raw, InBytes(s.ents));
      NameSyms(s.ents) + GapsOf(segments)
  }

  lemma PresentIsInTable(tier: Tier, s: Snapshot, x: Sym)
    requires WellFormed(s)
    ensures x in PresentSymbols(tier, s) <==> IsPresent(TableOf(tier, s), x)
  {
    TableParts(tier, s, x);
    if RepOf(tier, s) == ByParts {
      PartsPresent(tier, s, x);
    } else {
      NoPartsTable(tier, s, x);
      hide TableOf;
    }
  }

  lemma PartsPresent(tier: Tier, s: Snapshot, x: Sym)
    requires WellFormed(s) && RepOf(tier, s) == ByParts
    ensures x in PresentSymbols(tier, s) <==> IsPresent(TableOf(tier, s), x)
  {
    PartsTable(tier, s, x);
    NamesPresent(s.raw, s.ents, x);
    PresentUnfolds(tier, s);
    hide *;
    PresentFromParts(TableOf(tier, s), EntTable(s.raw, s.ents), Segments(s.raw, InBytes(s.ents)),
                     AnchorFacts(InLines(s.ents)), NameSyms(s.ents), x);
  }

  lemma PresentUnfolds(tier: Tier, s: Snapshot)
    requires WellFormed(s) && RepOf(tier, s) == ByParts && LaidOut(s.raw, InBytes(s.ents))
    ensures PresentSymbols(tier, s) == NameSyms(s.ents) + GapsOf(Segments(s.raw, InBytes(s.ents)))
  {
    hide NameSyms, GapsOf, Segments, InBytes, WellFormed;
  }

  lemma PresentFromParts(t: Table, ents: Table, segments: map<Option<Name>, Bytes>, facts: Layout.Facts,
                         names: set<Sym>, x: Sym)
    requires MadeOf(t, ents, segments, facts, x)
    requires x in names <==> x in ents
    requires x in names ==> x.Entity? || x.Nested?
    ensures x in names + GapsOf(segments) <==> IsPresent(t, x)
  {
    GapsPresent(segments, x);
    hide GapsOf;
  }

  function GapsOf(segments: map<Option<Name>, Bytes>): set<Sym> {
    set a | a in segments && segments[a] != [] :: Residue(a)
  }

  lemma NamesPresent(raw: Bytes, ents: seq<Ent>, x: Sym)
    requires Extracted(raw, ents)
    ensures x in NameSyms(ents) <==> x in EntTable(raw, ents)
    ensures x in NameSyms(ents) ==> x.Entity? || x.Nested?
  {
    EntTableIs(raw, ents);
  }

  lemma GapsPresent(segments: map<Option<Name>, Bytes>, x: Sym)
    ensures x in GapsOf(segments) <==> x.Residue? && x.after in segments && segments[x.after] != []
  {
    if x.Residue? { assert x == Residue(x.after); }
  }

  /** A commit that the path's own log does not list closes nothing. */
  lemma UnlistedClosesNothing(tier: Tier, h: Commits, d: nat, s: Sym)
    requires ValidHistory(h) && d < |h|
    ensures !h[d].listed ==> !SeenClosing(TimelineOf(tier, h), d, s)
  {
    TimelineIsValid(tier, h);
    ValidAt(TimelineOf(tier, h), d);
    hide ValidTimeline, ValidHistory, TableOf;
  }

  lemma ClosingByPresence(tier: Tier, h: Commits, d: nat, s: Sym)
    requires ValidHistory(h) && d < |h|
    ensures WellFormed(PriorFile(h, d)) && WellFormed(h[d].file)
    ensures SeenClosing(TimelineOf(tier, h), d, s) <==>
            !h[d].bookkeeping && s in PresentSymbols(tier, PriorFile(h, d)) && s !in PresentSymbols(tier, h[d].file)
  {
    PresentIsInTable(tier, PriorFile(h, d), s);
    PresentIsInTable(tier, h[d].file, s);
    if d > 0 { PriorIsTable(tier, h, d - 1); }
    hide PresentSymbols, TableOf, IsPresent, WellFormed;
  }

  /** The `j`-th touch as the lookback leaves it once it has walked back to commit `d`. */
  ghost predicate WalkedTo(t: Timeline, k: nat, d: nat, raw: Touch, now: Touch, waiting: bool)
    requires d <= k <= |t|
  {
    if raw.before.Some? || raw.sym.Anchor? then now == raw && !waiting
    else
      var closing := LastClosing(t, k, raw.sym);
      if closing.Some? && closing.value >= d then now == raw.(before := Some(Bottom(closing.value))) && !waiting
      else now == raw && waiting
  }

  lemma WalkStep(t: Timeline, k: nat, d: nat, raw: Touch, now: Touch, waiting: bool)
    requires d < k <= |t| && WalkedTo(t, k, d + 1, raw, now, waiting)
    ensures waiting && SeenClosing(t, d, raw.sym) ==> WalkedTo(t, k, d, raw, now.(before := Some(Bottom(d))), false)
    ensures !(waiting && SeenClosing(t, d, raw.sym)) ==> WalkedTo(t, k, d, raw, now, waiting)
  {
    hide SeenClosing;
  }

  lemma WalkDone(t: Timeline, k: nat, d: nat, raw: Touch, now: Touch, waiting: bool)
    requires d <= k <= |t| && WalkedTo(t, k, d, raw, now, waiting) && (d == 0 || !waiting)
    ensures now == Chained(t, k, raw)
  {
  }

  /** `_apply_rebirth_chaining` for one path: walk its own history newest-first and point every
      still-waiting birth at the first commit found to have closed it. */
  method ApplyRebirth(tier: Tier, h: Commits, k: nat, raw: seq<Touch>) returns (touches: seq<Touch>)
    requires ValidHistory(h) && k < |h|
    ensures |touches| == |raw|
    ensures forall j :: 0 <= j < |raw| ==> touches[j] == Chained(TimelineOf(tier, h), k, raw[j])
  {
    touches := raw;
    ghost var t := TimelineOf(tier, h);
    var remaining := set j | 0 <= j < |raw| && raw[j].before.None? && !raw[j].sym.Anchor?;
    var d: nat := k;
    AllWaiting(t, k, raw, remaining);
    hide AllWalkedTo, ValidHistory, TimelineOf, Chained;
    while d > 0 && remaining != {}
      invariant d <= k && AllWalkedTo(t, k, d, raw, touches, remaining)
    {
      d := d - 1;
      touches, remaining := RebirthAt(tier, h, k, d, raw, touches, remaining);
    }
    AllDone(t, k, d, raw, touches, remaining);
  }

  lemma AllDone(t: Timeline, k: nat, d: nat, raw: seq<Touch>, touches: seq<Touch>, remaining: set<int>)
    requires d <= k <= |t| && AllWalkedTo(t, k, d, raw, touches, remaining) && (d == 0 || remaining == {})
    ensures forall j :: 0 <= j < |raw| ==> touches[j] == Chained(t, k, raw[j])
  {
    hide WalkedTo, Chained;
    forall j | 0 <= j < |raw| ensures touches[j] == Chained(t, k, raw[j]) {
      WalkDone(t, k, d, raw[j], touches[j], j in remaining);
    }
  }

  lemma AllWaiting(t: Timeline, k: nat, raw: seq<Touch>, remaining: set<int>)
    requires k <= |t| && remaining == set j | 0 <= j < |raw| && raw[j].before.None? && !raw[j].sym.Anchor?
    ensures AllWalkedTo(t, k, k, raw, raw, remaining)
  {
  }

  /** The waiting touches once the lookback has walked back to commit `d`. */
  ghost predicate AllWalkedTo(t: Timeline, k: nat, d: nat, raw: seq<Touch>, touches: seq<Touch>, remaining: set<int>)
    requires d <= k <= |t|
  {
    && |touches| == |raw|
    && (forall j :: j in remaining ==> 0 <= j < |raw|)
    && (forall j :: 0 <= j < |raw| ==> WalkedTo(t, k, d, raw[j], touches[j], j in remaining))
  }

  lemma NoClosingAt(tier: Tier, h: Commits, k: nat, d: nat, raw: seq<Touch>, touches: seq<Touch>, remaining: set<int>)
    requires ValidHistory(h) && d < k < |h| && (!h[d].listed || h[d].bookkeeping)
    requires AllWalkedTo(TimelineOf(tier, h), k, d + 1, raw, touches, remaining)
    ensures AllWalkedTo(TimelineOf(tier, h), k, d, raw, touches, remaining)
  {
    var t := TimelineOf(tier, h);
    hide ValidHistory, TimelineOf, SeenClosing;
    forall j | 0 <= j < |raw| ensures WalkedTo(t, k, d, raw[j], touches[j], j in remaining) {
      UnlistedClosesNothing(tier, h, d, raw[j].sym);
      ClosingByPresence(tier, h, d, raw[j].sym);
      WalkStep(t, k, d, raw[j], touches[j], j in remaining);
    }
  }

  /** Part of the way through one commit: the first `i` touches have been looked at. */
  ghost predicate PartlyWalked(t: Timeline, k: nat, d: nat, raw: seq<Touch>, i: nat, touches: seq<Touch>,
                               remaining: set<int>)
    requires d < k <= |t|
  {
    && |touches| == |raw| && i <= |raw|
    && (forall j :: j in remaining ==> 0 <= j < |raw|)
    && (forall j :: 0 <= j < i ==> WalkedTo(t, k, d, raw[j], touches[j], j in remaining))
    && (forall j :: i <= j < |raw| ==> WalkedTo(t, k, d + 1, raw[j], touches[j], j in remaining))
  }

  lemma PartlyStep(t: Timeline, k: nat, d: nat, raw: seq<Touch>, i: nat, touches: seq<Touch>, remaining: set<int>)
    requires d < k <= |t| && i < |raw| && PartlyWalked(t, k, d, raw, i, touches, remaining)
    ensures touches[i].sym == raw[i].sym
    ensures if i in remaining && SeenClosing(t, d, raw[i].sym)
            then PartlyWalked(t, k, d, raw, i + 1, touches[i := touches[i].(before := Some(Bottom(d)))],
                              remaining - {i})
            else PartlyWalked(t, k, d, raw, i + 1, touches, remaining)
  {
    WalkStep(t, k, d, raw[i], touches[i], i in remaining);
    SameSym(t, k, d + 1, raw[i], touches[i], i in remaining);
    hide WalkedTo, SeenClosing;
  }

  /** One commit of the walk. */
  method RebirthAt(tier: Tier, h: Commits, ghost k: nat, d: nat, ghost raw: seq<Touch>, touches0: seq<Touch>,
                   remaining0: set<int>)
    returns (touches: seq<Touch>, remaining: set<int>)
    requires ValidHistory(h) && d < k < |h|
    requires AllWalkedTo(TimelineOf(tier, h), k, d + 1, raw, touches0, remaining0)
    ensures AllWalkedTo(TimelineOf(tier, h), k, d, raw, touches, remaining)
  {
    touches, remaining := touches0, remaining0;
    ghost var t := TimelineOf(tier, h);
    if !h[d].listed || h[d].bookkeeping {
      hide *;
      NoClosingAt(tier, h, k, d, raw, touches, remaining);
      return;
    }
    ClosingByPresence(tier, h, d, Whole);
    WalkStarts(t, k, d, raw, touches, remaining);
    hide *;
    var before, after := PresentSymbols(tier, PriorFile(h, d)), PresentSymbols(tier, h[d].file);
    var i := 0;
    while i < |touches|
      invariant |touches| == |raw| && i <= |raw|
      invariant PartlyWalked(t, k, d, raw, i, touches, remaining)
    {
      ClosingByPresence(tier, h, d, raw[i].sym);
      PartlyStep(t, k, d, raw, i, touches, remaining);
      if i in remaining && touches[i].sym in before && touches[i].sym !in after {
        touches := touches[i := touches[i].(before := Some(Bottom(d)))];
        remaining := remaining - {i};
      }
      i := i + 1;
    }
    WalkEnds(t, k, d, raw, touches, remaining);
  }

  lemma WalkStarts(t: Timeline, k: nat, d: nat, raw: seq<Touch>, touches: seq<Touch>, remaining: set<int>)
    requires d < k <= |t| && AllWalkedTo(t, k, d + 1, raw, touches, remaining)
    ensures |touches| == |raw| && PartlyWalked(t, k, d, raw, 0, touches, remaining)
  {
    hide WalkedTo;
  }

  lemma WalkEnds(t: Timeline, k: nat, d: nat, raw: seq<Touch>, touches: seq<Touch>, remaining: set<int>)
    requires d < k <= |t| && PartlyWalked(t, k, d, raw, |raw|, touches, remaining)
    ensures AllWalkedTo(t, k, d, raw, touches, remaining)
  {
    hide WalkedTo;
  }

  lemma SameSym(t: Timeline, k: nat, d: nat, raw: Touch, now: Touch, waiting: bool)
    requires d <= k <= |t| && WalkedTo(t, k, d, raw, now, waiting)
    ensures now.sym == raw.sym
  {
  }

  lemma {:induction false} ChainedMap(t: Timeline, k: nat, raw: seq<Touch>, touches: seq<Touch>)
    requires k <= |t| && |touches| == |raw| && forall j :: 0 <= j < |raw| ==> touches[j] == Chained(t, k, raw[j])
    ensures AsMap(touches).Keys == AsMap(raw).Keys
    ensures forall s :: s in AsMap(raw) ==> AsMap(touches)[s] == Chained(t, k, AsMap(raw)[s])
  {
    if raw != [] {
      var n := |raw| - 1;
      ChainedMap(t, k, raw[..n], touches[..n]);
      assert touches[n] == Chained(t, k, raw[n]);
      assert touches[n].sym == raw[n].sym;
      hide Chained;
    }
  }

  /** The loop body of `mine` for one path and one commit: what it emits is exactly the touches
      the history theorems speak about. */
  method MineCommit(tier: Tier, h: Commits, k: nat) returns (touches: seq<Touch>)
    requires ValidHistory(h) && k < |h|
    ensures AsMap(touches) == Touches(TimelineOf(tier, h), k)
  {
    ghost var t := TimelineOf(tier, h);
    if !h[k].listed {
      assert Step(Prior(t, k), t[k], k) == map[];
      return [];
    }
    PriorFileIsTable(tier, h, k);
    var raw := MineFile(tier, PriorFile(h, k), h[k].file, k);
    touches := ApplyRebirth(tier, h, k, raw);
    ChainedMap(t, k, raw, touches);
    hide FileStep, Chained, TimelineOf, ValidHistory;
  }

  lemma PriorFileIsTable(tier: Tier, h: Commits, k: nat)
    requires ValidHistory(h) && k < |h| && h[k].listed
    ensures WellFormed(PriorFile(h, k)) && WellFormed(h[k].file)
    ensures var t := TimelineOf(tier, h); Step(Prior(t, k), t[k], k) == FileStep(tier, PriorFile(h, k), h[k].file, k)
  {
    var t := TimelineOf(tier, h);
    if k > 0 { PriorIsTable(tier, h, k - 1); }
    assert Prior(t, k) == TableOf(tier, PriorFile(h, k));
    assert t[k] == PointOf(tier, h, k);
    hide TableOf, Flips, WellFormed, Step, TimelineOf;
    StepIgnoresBookkeeping(TableOf(tier, PriorFile(h, k)), t[k], k);
  }

  lemma StepIgnoresBookkeeping(prev: Table, p: Point, k: nat)
    ensures Step(prev, p, k) == Step(prev, p.(bookkeeping := false), k)
  {
    var a, b := Step(prev, p, k), Step(prev, p.(bookkeeping := false), k);
    assert a.Keys == b.Keys;
  }
}
