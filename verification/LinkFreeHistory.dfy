/** Histories in which the matcher links nothing (`sgt/core/mine.py`, `_mine_one`, taking its entity touches from
    `sgt/core/identity.py`): what the source emits from the matcher's reports, commit by commit, is what the history
    theorems speak about. */
module LinkFreeHistory {
  import opened Names
  import opened Symbols
  import opened Snapshots
  import opened Tables
  import opened Chains
  import opened History
  import opened Mining
  import opened LinkFree
  import Identity
  import Matcher
  import Rebirth
  import Lineage
  import Fold

  /** What the matcher is given at a commit. */
  datatype View = View(never: set<Identity.Pair>, forced: seq<Identity.Pair>, olds: seq<Identity.Snap>,
                       news: seq<Identity.Snap>)

  function ReportOf(v: View): Matcher.Match {
    Matcher.MatchOf(v.never, v.forced, v.olds, v.news)
  }

  /** The two sides are the entities of the file before and after. */
  ghost predicate Sees(path: Name, hash: Bytes -> string, tier: Tier, before: Snapshot, after: Snapshot, v: View) {
    && Snapped(path, hash, PartsRaw(tier, before), PartsEnts(tier, before), v.olds)
    && Snapped(path, hash, PartsRaw(tier, after), PartsEnts(tier, after), v.news)
  }

  /** The touch of a name as the report has it: modified from what it was, added from nothing, or removed. */
  ghost predicate TouchedFrom(step: map<Sym, Touch>, k: nat, path: Name, m: Matcher.Match, n: Name, was: Option<Bytes>,
                              now: Option<Bytes>) {
    var id, x := IdOf(path, n), NameSym(n);
    && (x in step <==> id in Matcher.IdsOf(m.modified) || id in Matcher.IdsOf(m.added)
                       || id in Matcher.IdsOf(m.removed))
    && (id in Matcher.IdsOf(m.modified) && was.Some? && now.Some? ==>
          step[x] == Touch(x, Some(Positional(n, was.value)), Positional(n, now.value), Data(now.value)))
    && (id in Matcher.IdsOf(m.added) && now.Some? ==>
          step[x] == Touch(x, None, Positional(n, now.value), Data(now.value)))
    && (id in Matcher.IdsOf(m.removed) && was.Some? ==>
          step[x] == Touch(x, Some(Positional(n, was.value)), Bottom(k), Gone))
  }

  ghost predicate NameTouched(step: map<Sym, Touch>, tier: Tier, before: Snapshot, after: Snapshot, k: nat, path: Name,
                              m: Matcher.Match, n: Name)
  {
    && InBounds(PartsRaw(tier, before), PartsEnts(tier, before))
       && InBounds(PartsRaw(tier, after), PartsEnts(tier, after))
    && TouchedFrom(step, k, path, m, n, BytesNamed(PartsRaw(tier, before), PartsEnts(tier, before), n),
                   BytesNamed(PartsRaw(tier, after), PartsEnts(tier, after), n))
  }

  predicate IsName(s: Sym) {
    (s.Entity? || s.Nested?) && s == NameSym(s.name)
  }

  /** What the source emits for the file: names from the report, all else from the two files. */
  ghost predicate IsEmitted(step: map<Sym, Touch>, tier: Tier, before: Snapshot, after: Snapshot, k: nat, path: Name,
                            m: Matcher.Match)
    requires WellFormed(before) && WellFormed(after)
  {
    && (forall n :: NameTouched(step, tier, before, after, k, path, m, n))
    && (forall s: Sym :: !IsName(s) ==> SameAt(step, FileStep(tier, before, after, k), s))
  }

  ghost predicate SameAt(a: map<Sym, Touch>, b: map<Sym, Touch>, s: Sym) {
    (s in a <==> s in b) && (s in a ==> a[s] == b[s])
  }

  lemma TouchedIsSaid(step: map<Sym, Touch>, k: nat, path: Name, m: Matcher.Match, n: Name, was: Option<Bytes>,
                      now: Option<Bytes>)
    requires TouchedFrom(step, k, path, m, n, was, now) && Reported(m, IdOf(path, n), was, now)
    ensures SaysOfName(step, k, n, was, now)
  {
    hide Matcher.IdsOf, IdOf;
  }

  lemma SaidAlike(a: map<Sym, Touch>, b: map<Sym, Touch>, k: nat, n: Name, was: Option<Bytes>, now: Option<Bytes>)
    requires SaysOfName(a, k, n, was, now) && SaysOfName(b, k, n, was, now)
    ensures SameAt(a, b, NameSym(n))
  {
  }

  /** With no link, a name is touched as diffing the two tables would. */
  lemma NameAlike(path: Name, hash: Bytes -> string, tier: Tier, before: Snapshot, after: Snapshot, k: nat, v: View,
                  step: map<Sym, Touch>, n: Name)
    requires WellFormed(before) && WellFormed(after) && Injective(hash) && Sees(path, hash, tier, before, after, v)
    requires ReportOf(v).links == [] && NameTouched(step, tier, before, after, k, path, ReportOf(v), n)
    ensures SameAt(step, FileStep(tier, before, after, k), NameSym(n))
  {
    assert ReportOf(v) == Matcher.MatchOf(v.never, v.forced, v.olds, v.news);
    EntStep(tier, before, after, k, n);
    var was, now := BytesNamed(PartsRaw(tier, before), PartsEnts(tier, before), n),
                    BytesNamed(PartsRaw(tier, after), PartsEnts(tier, after), n);
    assert TouchedFrom(step, k, path, ReportOf(v), n, was, now);
    assert Snapped(path, hash, PartsRaw(tier, before), PartsEnts(tier, before), v.olds);
    assert Snapped(path, hash, PartsRaw(tier, after), PartsEnts(tier, after), v.news);
    hide *;
    NameReported(path, hash, v.never, v.forced, PartsRaw(tier, before), PartsEnts(tier, before), v.olds,
                 PartsRaw(tier, after), PartsEnts(tier, after), v.news, n);
    TouchedIsSaid(step, k, path, ReportOf(v), n, was, now);
    SaidAlike(step, FileStep(tier, before, after, k), k, n, was, now);
  }

  /** One link-free commit: what is emitted is the file's step. */
  lemma EmittedIsStep(path: Name, hash: Bytes -> string, tier: Tier, before: Snapshot, after: Snapshot, k: nat, v: View,
                      step: map<Sym, Touch>)
    requires WellFormed(before) && WellFormed(after) && Injective(hash) && Sees(path, hash, tier, before, after, v)
    requires ReportOf(v).links == [] && IsEmitted(step, tier, before, after, k, path, ReportOf(v))
    ensures step == FileStep(tier, before, after, k)
  {
    hide *;
    var other := FileStep(tier, before, after, k);
    forall s: Sym ensures SameAt(step, other, s) {
      EmittedAt(step, tier, before, after, k, path, ReportOf(v), s);
      if IsName(s) {
        NamedByItself(s);
        NameAlike(path, hash, tier, before, after, k, v, step, s.name);
      }
    }
    SameSteps(step, other);
  }

  lemma NamedByItself(s: Sym)
    requires IsName(s)
    ensures (s.Entity? || s.Nested?) && NameSym(s.name) == s
  {
  }

  lemma EmittedAt(step: map<Sym, Touch>, tier: Tier, before: Snapshot, after: Snapshot, k: nat, path: Name,
                  m: Matcher.Match, s: Sym)
    requires WellFormed(before) && WellFormed(after) && IsEmitted(step, tier, before, after, k, path, m)
    ensures !IsName(s) ==> SameAt(step, FileStep(tier, before, after, k), s)
    ensures s.Entity? || s.Nested? ==> NameTouched(step, tier, before, after, k, path, m, s.name)
  {
    hide NameTouched, SameAt, FileStep, WellFormed, IsName;
  }

  lemma SameSteps(a: map<Sym, Touch>, b: map<Sym, Touch>)
    requires forall s: Sym :: SameAt(a, b, s)
    ensures a == b
  {
    assert forall s :: s in a <==> s in b by {
      forall s ensures s in a <==> s in b { assert SameAt(a, b, s); }
    }
    assert a.Keys == b.Keys;
    forall s | s in a ensures a[s] == b[s] { assert SameAt(a, b, s); }
  }

  // ---------------------------------------------------------------------------------------
  // A whole history.

  /** What one commit emits: nothing when its diff does not list the path, else what the report says, which links
      nothing. */
  ghost predicate LinkFreeAt(path: Name, hash: Bytes -> string, tier: Tier, h: Commits, k: nat, v: View,
                             step: map<Sym, Touch>)
    requires k < |h|
  {
    if !h[k].listed then step == map[]
    else
      && WellFormed(PriorFile(h, k)) && WellFormed(h[k].file)
      && Sees(path, hash, tier, PriorFile(h, k), h[k].file, v) && ReportOf(v).links == []
      && IsEmitted(step, tier, PriorFile(h, k), h[k].file, k, path, ReportOf(v))
  }

  ghost predicate LinksNothing(path: Name, hash: Bytes -> string, tier: Tier, h: Commits, views: seq<View>,
                           steps: seq<map<Sym, Touch>>) {
    && |views| == |h| == |steps| && Injective(hash)
    && forall k :: 0 <= k < |h| ==> LinkFreeAt(path, hash, tier, h, k, views[k], steps[k])
  }

  /** The touches of a commit, chained onto the removals the lookback finds. */
  function Rechained(t: Timeline, k: nat, step: map<Sym, Touch>): map<Sym, Touch>
    requires k <= |t|
  {
    map s | s in step :: Chained(t, k, step[s])
  }

  function AllRechained(t: Timeline, steps: seq<map<Sym, Touch>>): (r: seq<map<Sym, Touch>>)
    requires |steps| == |t|
    ensures |r| == |t| && forall k :: 0 <= k < |r| ==> r[k] == Rechained(t, k, steps[k])
  {
    seq(|t|, k requires 0 <= k < |t| => Rechained(t, k, steps[k]))
  }

  lemma RechainedIs(t: Timeline, k: nat)
    requires k < |t|
    ensures Rechained(t, k, Step(Prior(t, k), t[k], k)) == Touches(t, k)
  {
    hide Step, Chained;
    assert Rechained(t, k, Step(Prior(t, k), t[k], k)).Keys == Touches(t, k).Keys;
  }

  lemma UnlistedStep(t: Timeline, k: nat)
    requires k < |t| && !t[k].listed
    ensures Step(Prior(t, k), t[k], k) == map[]
  {
  }

  lemma EmitsTouches(path: Name, hash: Bytes -> string, tier: Tier, h: Commits, k: nat, v: View, step: map<Sym, Touch>)
    requires ValidHistory(h) && Injective(hash) && k < |h| && LinkFreeAt(path, hash, tier, h, k, v, step)
    ensures Rechained(TimelineOf(tier, h), k, step) == Touches(TimelineOf(tier, h), k)
  {
    var t := TimelineOf(tier, h);
    ListedIs(tier, h, k);
    hide Touches, ValidHistory, TimelineOf, WellFormed, IsEmitted, Sees, ReportOf, FileStep, Step, Rechained, PriorFile,
         Injective;
    RechainedIs(t, k);
    if h[k].listed {
      EmittedIsStep(path, hash, tier, PriorFile(h, k), h[k].file, k, v, step);
      Rebirth.PriorFileIsTable(tier, h, k);
    } else {
      UnlistedStep(t, k);
    }
  }

  lemma ListedIs(tier: Tier, h: Commits, k: nat)
    requires ValidHistory(h) && k < |h|
    ensures TimelineOf(tier, h)[k].listed == h[k].listed
  {
    hide TableOf, Flips, ValidHistory;
  }

  /** Last writer per symbol, over what was emitted. */
  function ReplayOf(emitted: seq<map<Sym, Touch>>, k: nat): Table
    requires k <= |emitted|
  {
    if k == 0 then map[] else Apply(ReplayOf(emitted, k - 1), emitted[k - 1])
  }

  lemma {:induction false} ReplaysAlike(t: Timeline, emitted: seq<map<Sym, Touch>>, k: nat)
    requires |emitted| == |t| && k <= |t| && forall i :: 0 <= i < |t| ==> emitted[i] == Touches(t, i)
    ensures ReplayOf(emitted, k) == Replay(t, k)
  {
    hide *;
    if k == 0 {
      NothingYet(t);
      NothingEmitted(emitted);
    } else {
      ReplaysAlike(t, emitted, k - 1);
      ReplayUnfolds(t, k - 1);
      EmittedNext(emitted, k - 1);
    }
  }

  lemma NothingEmitted(emitted: seq<map<Sym, Touch>>)
    ensures ReplayOf(emitted, 0) == map[]
  {
  }

  lemma EmittedNext(emitted: seq<map<Sym, Touch>>, k: nat)
    requires k < |emitted|
    ensures ReplayOf(emitted, k + 1) == Apply(ReplayOf(emitted, k), emitted[k])
  {
    hide Apply;
  }

  /** What a link-free history emits, commit by commit. */
  lemma LinkFreeEmits(path: Name, hash: Bytes -> string, tier: Tier, h: Commits, views: seq<View>,
                      steps: seq<map<Sym, Touch>>)
    requires ValidHistory(h) && LinksNothing(path, hash, tier, h, views, steps)
    ensures forall k :: 0 <= k < |h|
              ==> AllRechained(TimelineOf(tier, h), steps)[k] == Touches(TimelineOf(tier, h), k)
  {
    hide Touches, ValidHistory, TimelineOf, LinkFreeAt, Injective, Rechained;
    forall k | 0 <= k < |h| ensures AllRechained(TimelineOf(tier, h), steps)[k] == Touches(TimelineOf(tier, h), k) {
      EmitsTouches(path, hash, tier, h, k, views[k], steps[k]);
    }
  }

  /** Over any history whose every step links nothing, replaying what the source emits from the matcher's reports
      and folding it gives the committed bytes at every commit. */
  lemma LinkFreeRoundTrip(path: Name, hash: Bytes -> string, tier: Tier, h: Commits, views: seq<View>,
                          steps: seq<map<Sym, Touch>>, k: nat)
    requires ValidHistory(h) && LinksNothing(path, hash, tier, h, views, steps)
    requires k < |h| == |steps| && h[k].file.Present? && !tier.IgnoredTier?
    requires RepOf(tier, h[k].file) == WholeFile || SameLineInOrder(h[k].file.ents)
    ensures Fold.FoldFile(LiveOf(ReplayOf(AllRechained(TimelineOf(tier, h), steps), k + 1))) == h[k].file.raw
  {
    hide *;
    var t := TimelineOf(tier, h);
    LinkFreeEmits(path, hash, tier, h, views, steps);
    ReplaysAlike(t, AllRechained(t, steps), k + 1);
    StateIsReplay(tier, h, k + 1);
    RoundTrip(tier, h, k);
  }

  /** And every touch of an entity builds on what is there: what the last emitted touch of it left, or nothing. */
  lemma LinkFreeLinked(path: Name, hash: Bytes -> string, tier: Tier, h: Commits, views: seq<View>,
                       steps: seq<map<Sym, Touch>>, k: nat, s: Sym)
    requires ValidHistory(h) && LinksNothing(path, hash, tier, h, views, steps)
    requires k < |h| && |steps| == |h| && (s.Entity? || s.Nested? || s.Whole?)
    requires forall d :: 0 <= d < |h| ==> !h[d].bookkeeping
    requires s in AllRechained(TimelineOf(tier, h), steps)[k]
    ensures var emitted := AllRechained(TimelineOf(tier, h), steps);
            var was := ReplayOf(emitted, k);
            emitted[k][s].before == if s in was then Some(was[s].version) else None
  {
    hide *;
    var t := TimelineOf(tier, h);
    LinkFreeEmits(path, hash, tier, h, views, steps);
    ReplaysAlike(t, AllRechained(t, steps), k);
    TimelineIsValid(tier, h);
    Lineage.KeepsBookkeeping(tier, h);
    EntityChainsAreLinked(t, k, s);
    LinkedIs(t, k, s);
  }

  /** So its touches form one chain. */
  lemma LinkFreeChains(path: Name, hash: Bytes -> string, tier: Tier, h: Commits, views: seq<View>,
                       steps: seq<map<Sym, Touch>>, i: nat, k: nat, s: Sym)
    requires ValidHistory(h) && LinksNothing(path, hash, tier, h, views, steps)
    requires i < k < |h| && |steps| == |h| && (s.Entity? || s.Nested? || s.Whole?)
    requires forall d :: 0 <= d < |h| ==> !h[d].bookkeeping
    requires var emitted := AllRechained(TimelineOf(tier, h), steps);
             s in emitted[i] && s in emitted[k] && forall j :: i < j < k ==> s !in emitted[j]
    ensures var emitted := AllRechained(TimelineOf(tier, h), steps);
            emitted[k][s].before == Some(emitted[i][s].after)
  {
    hide *;
    var t := TimelineOf(tier, h);
    LinkFreeLinked(path, hash, tier, h, views, steps, k, s);
    LinkFreeEmits(path, hash, tier, h, views, steps);
    ReplaysAlike(t, AllRechained(t, steps), k);
    forall j | i < j < k ensures s !in Touches(t, j) {
      assert AllRechained(t, steps)[j] == Touches(t, j);
    }
    StateIsLastTouch(t, i, k, s);
  }
}
