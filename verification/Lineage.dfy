/** Linked chains over file histories: what the chain theorems say about real commits, and the
    shortest histories on which a rebirth goes unlinked and a deleted path comes back. */
module Lineage {
  import opened Names
  import opened Symbols
  import opened Snapshots
  import opened Tables
  import opened Chains
  import opened History
  import Fold

  lemma KeepsBookkeeping(tier: Tier, h: Commits)
    requires ValidHistory(h)
    ensures forall d :: 0 <= d < |h| ==> TimelineOf(tier, h)[d].bookkeeping == h[d].bookkeeping
  {
    hide TableOf, Flips, ValidHistory;
  }

  lemma KeepsOrdinary(tier: Tier, h: Commits, k: nat)
    requires ValidHistory(h) && k <= |h| && forall d :: 0 <= d < k ==> !h[d].bookkeeping
    ensures |TimelineOf(tier, h)| == |h| && forall d :: 0 <= d < k ==> !TimelineOf(tier, h)[d].bookkeeping
  {
    KeepsBookkeeping(tier, h);
    hide ValidHistory, TimelineOf, PointOf;
  }

  lemma NextIsWithin(t: Timeline, i: nat, k: nat, s: Sym)
    requires NextTouch(t, i, k, s)
    ensures k < |t|
  {
    hide Touches;
  }

  /** Over any valid history without bookkeeping commits, every touch of an entity or whole-file
      symbol builds on that symbol's previous touch, and the first builds on nothing. */
  lemma TouchesFormOneChain(tier: Tier, h: Commits, i: nat, k: nat, s: Sym)
    requires ValidHistory(h) && (s.Entity? || s.Nested? || s.Whole?) && NextTouch(TimelineOf(tier, h), i, k, s)
    requires forall d :: 0 <= d < k ==> !h[d].bookkeeping
    ensures BuildsOn(TimelineOf(tier, h), i, k, s)
  {
    var t := TimelineOf(tier, h);
    hide *;
    TimelineIsValid(tier, h);
    NextIsWithin(t, i, k, s);
    KeepsOrdinary(tier, h, k);
    BuildsOnLastTouch(t, i, k, s);
  }

  lemma FirstTouchIsABirth(tier: Tier, h: Commits, k: nat, s: Sym)
    requires ValidHistory(h) && (s.Entity? || s.Nested? || s.Whole?) && FirstTouch(TimelineOf(tier, h), k, s)
    requires forall d :: 0 <= d < k ==> !h[d].bookkeeping
    ensures IsBirth(TimelineOf(tier, h), k, s)
  {
    var t := TimelineOf(tier, h);
    hide *;
    TimelineIsValid(tier, h);
    KeepsBookkeeping(tier, h);
    BirthIsFirstTouch(t, k, s);
  }

  /** An empty file, deleted, then added again: the lookback does not count an empty gap as
      present, so the second birth builds on nothing although the first was closed. */
  const EMPTY_FILE := Present([], [], false)

  lemma EmptyFileRebirthIsUnlinked()
    ensures var h := [Commit(EMPTY_FILE, true, false), Commit(Absent, true, false), Commit(EMPTY_FILE, true, false)];
            && ValidHistory(h)
            && var t := TimelineOf(EntityTier, h);
               Residue(None) in Touches(t, 2) && !Linked(t, 2, Residue(None))
  {
    var h := [Commit(EMPTY_FILE, true, false), Commit(Absent, true, false), Commit(EMPTY_FILE, true, false)];
    assert PriorFile(h, 0) == Absent && PriorFile(h, 1) == EMPTY_FILE && PriorFile(h, 2) == Absent;
    assert NamesOf([]) == [];
    assert ValidHistory(h);
    var t, g := TimelineOf(EntityTier, h), Residue(None);
    TimelineIsValid(EntityTier, h);
    EmptyFileTable();
    assert t[0].table == TableOf(EntityTier, EMPTY_FILE) && t[2].table == t[0].table && t[1].table == map[];
    assert t[2].listed;
    hide TimelineOf, TableOf, ValidHistory, ValidTimeline;
    assert Prior(t, 2) == map[] && Prior(t, 1) == t[0].table;
    assert g in Touches(t, 2);
    assert LastExit(t, 2, g) == Some(1);
    LinkedExactlyWhen(t, 2, g);
  }

  lemma EmptyFileTable()
    ensures WellFormed(EMPTY_FILE) && RepOf(EntityTier, EMPTY_FILE) == ByParts
    ensures var t := TableOf(EntityTier, EMPTY_FILE); Residue(None) in t && t[Residue(None)] == GapEntry([])
  {
    assert NamesOf([]) == [];
    assert WellFormed(EMPTY_FILE);
    PartsTable(EntityTier, EMPTY_FILE, Residue(None));
    assert InBytes([]) == [];
    assert Segments([], []) == map[None := []];
  }

  /** An empty file that stops parsing and is then deleted: its empty gap was never closed, so the path
      still materializes, as an empty file. */
  const BROKEN_FILE := Present([11], [], true)

  const BROKEN_THEN_DELETED :=
    [Commit(EMPTY_FILE, true, false), Commit(BROKEN_FILE, true, false), Commit(Absent, true, false)]

  lemma BrokenThenDeletedIsValid()
    ensures ValidHistory(BROKEN_THEN_DELETED)
  {
    var h := BROKEN_THEN_DELETED;
    assert PriorFile(h, 0) == Absent && PriorFile(h, 1) == EMPTY_FILE && PriorFile(h, 2) == BROKEN_FILE;
    assert NamesOf([]) == [];
  }

  lemma EmptyGapLingers()
    requires ValidHistory(BROKEN_THEN_DELETED)
    ensures Lingers(EntityTier, BROKEN_THEN_DELETED, 3, None)
  {
    var h, g := BROKEN_THEN_DELETED, Residue(None);
    var t := TimelineOf(EntityTier, h);
    hide TableOf, ValidHistory, Flips, LastExit;
    EmptyFileTable();
    WholeTables();
    assert PriorFile(h, 1) == EMPTY_FILE;
    assert t[1] == PointOf(EntityTier, h, 1);
    hide TimelineOf;
    ExitAtOne(t, g);
  }

  lemma WholeTables()
    ensures WellFormed(BROKEN_FILE) && Residue(None) !in TableOf(EntityTier, BROKEN_FILE)
    ensures TableOf(EntityTier, Absent) == map[] && Flips(EntityTier, EMPTY_FILE, BROKEN_FILE)
  {
    assert NamesOf([]) == [];
  }

  lemma ExitAtOne(t: Timeline, g: Sym)
    requires |t| == 3 && g in t[0].table && g !in t[1].table && g !in t[2].table
    ensures LastExit(t, 3, g) == Some(1) && Prior(t, 1) == t[0].table
  {
    assert LastExit(t, 2, g) == Some(1);
  }

  lemma DeletedPathLingers()
    ensures ValidHistory(BROKEN_THEN_DELETED)
    ensures var live := LiveOf(StateAfter(EntityTier, BROKEN_THEN_DELETED, 3));
            Materializes(live) && Fold.FoldFile(live) == []
  {
    BrokenThenDeletedIsValid();
    assert RepOf(EntityTier, BROKEN_THEN_DELETED[2].file) == NotTracked;
    hide *;
    EmptyGapLingers();
    DeletedPathMaterializesExactlyWhen(EntityTier, BROKEN_THEN_DELETED, 3);
  }
}
