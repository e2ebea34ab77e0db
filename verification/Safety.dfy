/** What every state an apply can stop in looks like (`sgt/core/migrate.py`, `_execute`,
    `_prune_pre_v3` and `migrate_ops_v3`). */
module Safety {
  import opened Names
  import opened BuildMap
  import opened Remap
  import opened Disk
  import opened Crossing
  import opened Runs
  import opened Crashes

  /** The store as it was found; or under the manifest, the old op files all there or everything else
      in place; or retired, holding exactly the v3 ops. */
  ghost predicate Safe(w: World, m: Manifest, start: Disk, d: Disk) {
    || d == start
    || (d.manifest == Some(m) && (start.ops.Keys <= d.ops.Keys || Migrated(w, m, d)))
    || (d.manifest.None? && Migrated(w, m, d) && d.ops.Keys == V3Ids(w))
  }

  // ---------------------------------------------------------------------------------------
  // On a migrated disk the other writes are no-ops.

  lemma MigratedParts(w: World, m: Manifest, d: Disk)
    requires Migrated(w, m, d)
    ensures AddAll(d.ops, w.v3) == d.ops && d.table == Some(FinalTable(w, m, d.table))
            && d.journal == FinalJournal(w, m, d.journal)
    ensures d.forks == FinalForks(w, m, d.forks) && d.orset == FinalOrSet(w, m, d.orset)
            && d.staged == FinalStaged(w, m, d.staged)
    ensures d.proposals == FinalProposals(w, m, d.proposals)
            && d.drafts == FinalDrafts(w, m, d.drafts, StaleMap(d.hollows))
    ensures HollowsOk(d.hollows) && FinalHollows(d.hollows) == d.hollows
  {
    hide AddAll, FinalTable, FinalJournal, FinalForks, FinalOrSet, FinalStaged, FinalProposals, FinalDrafts, StaleMap,
         HollowsOk, FinalHollows;
  }

  lemma FiledAgain(w: World, ops: map<Name, Op>, op: Op)
    requires ValidWorld(w) && op in w.v3 && AddAll(ops, w.v3) == ops
    ensures Stored(ops, op) == ops
  {
    hide ValidWorld;
    Listed(w.v3, op);
    FiledKeys(ops, w.v3);
    assert op.id in ops;
    assert op.provenance <= Provenance(w.v3, op.id);
    assert ops[op.id].provenance == ops[op.id].provenance + Provenance(w.v3, op.id);
    hide AddAll, Provenance, IdsOf;
    RefiledSame(ops, op);
  }

  lemma AllCurrent(hs: map<Name, Hollow>)
    requires HollowsOk(hs) && FinalHollows(hs) == hs
    ensures forall i :: i in hs ==> hs[i].current
    ensures StaleMap(hs) == map[]
  {
    assert hs.Keys == Targets(hs);
    forall i | i in hs ensures hs[i].current {
      assert i in Targets(hs);
      NoStaleAt(hs, i);
    }
    hide HollowsOk, FinalHollows, Targets;
  }

  lemma DraftsAgain(w: World, m: Manifest, d: Disk, ds: Drafts, renamed: Mapping)
    requires Fixes(Full(w, m)) && Some(ds) == FinalDrafts(w, m, d.drafts, renamed)
    ensures Some(ds) == FinalDrafts(w, m, Some(ds), map[])
  {
    RemapDraftsAgain(d.drafts.value, Full(w, m), renamed, map[]);
    hide RemapDrafts, Fixes, Full;
  }

  lemma MigratedWithDrafts(w: World, m: Manifest, d: Disk, ds: Drafts)
    requires Migrated(w, m, d) && Some(ds) == FinalDrafts(w, m, Some(ds), StaleMap(d.hollows))
    ensures Migrated(w, m, d.(drafts := Some(ds)))
  {
    hide AddAll, FinalTable, FinalJournal, FinalForks, FinalOrSet, FinalStaged, FinalProposals, FinalDrafts, StaleMap,
         HollowsOk, FinalHollows;
  }

  /** A good write of a whole artifact writes what is already there. */
  lemma SavesAreNoOps(w: World, m: Manifest, renamed: Mapping, d: Disk, write: Write)
    requires d.manifest == Some(m) && Migrated(w, m, d) && Good(w, renamed, d, write)
    requires write.SaveTable? || write.SaveJournal? || write.SaveForks? || write.SaveOrSet? || write.SaveStaged?
    ensures Do(d, write) == d
  {
    assert ManifestOf(w, d) == m;
    hide *;
    MigratedParts(w, m, d);
    GoodArtifacts(w, m, renamed, d, write);
    SameArtifact(d, write);
  }

  lemma GoodArtifacts(w: World, m: Manifest, renamed: Mapping, d: Disk, write: Write)
    requires ManifestOf(w, d) == m && Good(w, renamed, d, write)
    ensures write.SaveTable? ==> write.table == FinalTable(w, m, d.table)
    ensures write.SaveJournal? ==> Some(write.journal) == FinalJournal(w, m, d.journal)
    ensures write.SaveForks? ==> Some(write.forks) == FinalForks(w, m, d.forks)
    ensures write.SaveOrSet? ==> Some(write.orset) == FinalOrSet(w, m, d.orset)
    ensures write.SaveStaged? ==> Some(write.staged) == FinalStaged(w, m, d.staged)
  {
    hide Migrated, V3Ids, FinalTable, FinalJournal, FinalForks, FinalOrSet, FinalStaged, FinalDrafts, PlanOf,
         NothingToDo, Full;
    hide RemapProposal, Rekeys, Replaced, ManifestOf;
  }

  lemma SameArtifact(d: Disk, write: Write)
    requires match write
             case SaveTable(t) => d.table == Some(t)
             case SaveJournal(j) => d.journal == Some(j)
             case SaveForks(f) => d.forks == Some(f)
             case SaveOrSet(o) => d.orset == Some(o)
             case SaveStaged(s) => d.staged == Some(s)
             case SaveProposal(n, p) => n in d.proposals && d.proposals[n] == p
             case _ => false
    ensures Do(d, write) == d
  {
    if write.SaveProposal? { assert d.proposals[write.name := write.proposal] == d.proposals; }
  }

  lemma ProposalIsNoOp(w: World, m: Manifest, d: Disk, n: Name, p: Proposal)
    requires Migrated(w, m, d) && n in d.proposals && p == RemapProposal(d.proposals[n], Full(w, m))
    ensures Do(d, SaveProposal(n, p)) == d
  {
    hide *;
    MigratedParts(w, m, d);
    FinalAt(w, m, d.proposals, n);
    SameArtifact(d, SaveProposal(n, p));
  }

  lemma FinalAt(w: World, m: Manifest, ps: map<Name, Proposal>, n: Name)
    requires n in ps
    ensures n in FinalProposals(w, m, ps) && FinalProposals(w, m, ps)[n] == RemapProposal(ps[n], Full(w, m))
  {
    hide RemapProposal, Full;
  }

  lemma OpIsNoOp(w: World, m: Manifest, d: Disk, op: Op)
    requires ValidWorld(w) && Migrated(w, m, d) && op in w.v3
    ensures Do(d, StoreOp(op)) == d
  {
    MigratedParts(w, m, d);
    FiledAgain(w, d.ops, op);
    hide ValidWorld, Migrated, Stored;
  }

  /** No hollow is stale, so none is re-keyed or replaced. */
  lemma NoneToRekey(w: World, m: Manifest, d: Disk)
    requires Migrated(w, m, d)
    ensures forall i, n, h :: !Rekeys(d.hollows, i, n, h)
    ensures forall i :: !Replaced(d.hollows, i)
  {
    MigratedParts(w, m, d);
    AllCurrent(d.hollows);
    hide Migrated, HollowsOk, FinalHollows;
  }

  /** What a good write is, under a manifest. */
  lemma GoodSaves(w: World, m: Manifest, renamed: Mapping, d: Disk, write: Write)
    requires d.manifest == Some(m) && Good(w, renamed, d, write)
    ensures !write.SaveManifest?
    ensures write.StoreOp? ==> write.op in w.v3
    ensures write.StoreHollow? ==> exists i :: Rekeys(d.hollows, i, write.id, write.hollow)
    ensures write.DropHollow? ==> Replaced(d.hollows, write.id)
    ensures write.SaveProposal? ==> write.name in d.proposals
                                    && write.proposal == RemapProposal(d.proposals[write.name], Full(w, m))
    ensures write.SaveDrafts? ==> Some(write.drafts) == FinalDrafts(w, m, d.drafts, renamed)
    ensures write.DropOp? ==> write.id !in V3Ids(w)
  {
    hide Migrated, V3Ids, FinalTable, FinalJournal, FinalForks, FinalOrSet, FinalStaged, FinalDrafts, PlanOf,
         NothingToDo, Full;
    hide RemapProposal, Rekeys, Replaced;
  }

  /** Most writes write what is already there. */
  lemma MostAreNoOps(w: World, m: Manifest, renamed: Mapping, d: Disk, write: Write)
    requires ValidWorld(w) && d.manifest == Some(m) && Migrated(w, m, d) && Good(w, renamed, d, write)
    requires !write.SaveDrafts? && !write.DropOp? && !write.DropManifest?
    ensures Do(d, write) == d
  {
    hide *;
    GoodSaves(w, m, renamed, d, write);
    NoneToRekey(w, m, d);
    if write.StoreOp? {
      OpIsNoOp(w, m, d, write.op);
    } else if write.SaveProposal? {
      ProposalIsNoOp(w, m, d, write.name, write.proposal);
    } else {
      SavesAreNoOps(w, m, renamed, d, write);
    }
  }

  /** Any other good write leaves a migrated disk migrated. */
  lemma MigratedStays(w: World, m: Manifest, renamed: Mapping, d: Disk, write: Write)
    requires ValidWorld(w) && ValidDisk(w, d) && d.manifest == Some(m) && Migrated(w, m, d)
             && Good(w, renamed, d, write)
    requires !write.DropManifest?
    ensures Migrated(w, m, Do(d, write))
  {
    hide *;
    GoodSaves(w, m, renamed, d, write);
    if write.SaveDrafts? {
      assert write == SaveDrafts(write.drafts);
      DraftsStayMigrated(w, m, renamed, d, write.drafts);
    } else if write.DropOp? {
      assert write == DropOp(write.id);
      OpDropped(d, write.id);
      DroppedStaysMigrated(w, m, d, write.id);
    } else {
      MostAreNoOps(w, m, renamed, d, write);
    }
  }

  lemma OpDropped(d: Disk, id: Name)
    ensures Do(d, DropOp(id)) == d.(ops := d.ops - {id})
  {
  }

  lemma DraftsStayMigrated(w: World, m: Manifest, renamed: Mapping, d: Disk, ds: Drafts)
    requires ValidDisk(w, d) && d.manifest == Some(m) && Migrated(w, m, d)
             && Some(ds) == FinalDrafts(w, m, d.drafts, renamed)
    ensures Migrated(w, m, Do(d, SaveDrafts(ds)))
  {
    hide *;
    DraftsSaved(w, m, d, ds);
    MigratedParts(w, m, d);
    AllCurrent(d.hollows);
    ManifestFixes(w, d);
    DraftsAgain(w, m, d, ds, renamed);
    MigratedWithDrafts(w, m, d, ds);
  }

  lemma DraftsSaved(w: World, m: Manifest, d: Disk, ds: Drafts)
    requires d.manifest == Some(m)
    ensures Do(d, SaveDrafts(ds)) == d.(drafts := Some(ds)) && ManifestOf(w, d) == m
  {
  }

  // ---------------------------------------------------------------------------------------
  // The invariant.

  lemma RetiredIsMigrated(w: World, m: Manifest, d: Disk)
    requires Migrated(w, m, d) && d.ops.Keys <= V3Ids(w)
    ensures Migrated(w, m, d.(manifest := None)) && d.ops.Keys == V3Ids(w)
  {
    FiledKeys(d.ops, w.v3);
    hide AddAll, FinalTable, FinalJournal, FinalForks, FinalOrSet, FinalStaged, FinalProposals, FinalDrafts, StaleMap,
         HollowsOk, FinalHollows, IdsOf;
  }

  lemma PureIsDone(w: World, d: Disk)
    requires OpsOk(w, d.ops) && d.manifest.None? && d.ops.Keys == V3Ids(w)
    ensures NothingToDo(d)
  {
    hide V3Ids;
    NoPreV3(d.ops);
  }

  lemma OldOpsStay(w: World, m: Manifest, start: Disk, renamed: Mapping, d: Disk, write: Write)
    requires d.manifest == Some(m) && start.ops.Keys <= d.ops.Keys && Good(w, renamed, d, write) && !write.DropOp?
             && !write.DropManifest?
    ensures var e := Do(d, write); e.manifest == Some(m) && start.ops.Keys <= e.ops.Keys
  {
    hide Migrated, V3Ids, FinalTable, FinalJournal, FinalForks, FinalOrSet, FinalStaged, FinalDrafts, PlanOf,
         NothingToDo, Full, RemapProposal, Rekeys, Replaced;
  }

  lemma SafeStep(w: World, m: Manifest, start: Disk, renamed: Mapping, d: Disk, write: Write)
    requires ValidWorld(w) && ValidDisk(w, d) && start.manifest.None? && m == PlanOf(w, start)
    requires Safe(w, m, start, d) && Good(w, renamed, d, write)
    ensures Safe(w, m, start, Do(d, write))
  {
    assert OpsOk(w, d.ops) by { hide OpsOk; }
    hide *;
    GoodParts(w, renamed, d, write);
    SafeMeans(w, m, start, d);
    if d.manifest.None? {
      if d != start { PureIsDone(w, d); }
      SafePlanned(w, m, start);
    } else if write.DropManifest? {
      RetiredIsMigrated(w, m, d);
      SafeRetired(w, m, start, d);
    } else if Migrated(w, m, d) {
      MigratedStays(w, m, renamed, d, write);
      KeepsManifest(d, write, m);
      SafeUnder(w, m, start, Do(d, write));
    } else {
      OldOpsStay(w, m, start, renamed, d, write);
      SafeUnder(w, m, start, Do(d, write));
    }
  }

  lemma SafeMeans(w: World, m: Manifest, start: Disk, d: Disk)
    requires Safe(w, m, start, d) && start.manifest.None?
    ensures d.manifest.None? ==> d == start || (Migrated(w, m, d) && d.ops.Keys == V3Ids(w))
    ensures d.manifest.Some? ==> d.manifest == Some(m) && (start.ops.Keys <= d.ops.Keys || Migrated(w, m, d))
  {
    hide Migrated, V3Ids;
  }

  lemma SafePlanned(w: World, m: Manifest, start: Disk)
    ensures Safe(w, m, start, Do(start, SaveManifest(m)))
  {
    hide Migrated, V3Ids;
  }

  lemma SafeRetired(w: World, m: Manifest, start: Disk, d: Disk)
    requires Migrated(w, m, d.(manifest := None)) && d.ops.Keys == V3Ids(w)
    ensures Safe(w, m, start, Do(d, DropManifest))
  {
    hide Migrated, V3Ids;
  }

  lemma SafeUnder(w: World, m: Manifest, start: Disk, e: Disk)
    requires e.manifest == Some(m) && (start.ops.Keys <= e.ops.Keys || Migrated(w, m, e))
    ensures Safe(w, m, start, e)
  {
    hide Migrated, V3Ids;
  }

  lemma KeepsManifest(d: Disk, write: Write, m: Manifest)
    requires d.manifest == Some(m) && !write.SaveManifest? && !write.DropManifest?
    ensures Do(d, write).manifest == Some(m)
  {
  }

  lemma GoodParts(w: World, renamed: Mapping, d: Disk, write: Write)
    requires Good(w, renamed, d, write)
    ensures d.manifest.None? ==> !NothingToDo(d) && write == SaveManifest(PlanOf(w, d))
    ensures d.manifest.Some? ==> !write.SaveManifest?
    ensures write.DropOp? || write.DropManifest? ==> d.manifest.Some? && Migrated(w, d.manifest.value, d)
    ensures write.DropManifest? ==> d.ops.Keys <= V3Ids(w)
  {
    hide Migrated, V3Ids, FinalTable, FinalJournal, FinalForks, FinalOrSet, FinalStaged, FinalDrafts, PlanOf,
         NothingToDo, Full, RemapProposal, Rekeys, Replaced;
  }

  lemma {:induction false} SafeRun(w: World, m: Manifest, start: Disk, renamed: Mapping, d: Disk, ws: seq<Write>)
    requires ValidWorld(w) && ValidDisk(w, d) && start.manifest.None? && m == PlanOf(w, start)
    requires Safe(w, m, start, d) && GoodRun(w, renamed, d, ws)
    ensures Safe(w, m, start, DoAll(d, ws))
    decreases |ws|
  {
    hide ValidWorld, ValidDisk, Safe, Good, Do, PlanOf, Outcome, SameButDrafts;
    if ws != [] {
      SafeStep(w, m, start, renamed, d, ws[0]);
      GoodKeepsOutcome(w, renamed, d, ws[0]);
      SafeRun(w, m, start, renamed, Do(d, ws[0]), ws[1..]);
    }
  }

  lemma SafeCut(w: World, m: Manifest, start: Disk, a: Attempt, d: Disk)
    requires ValidWorld(w) && ValidDisk(w, d) && start.manifest.None? && m == PlanOf(w, start) && Safe(w, m, start, d)
             && Enumerates(a.list)
    ensures Safe(w, m, start, Cut(w, a, d))
  {
    var ws := Program(w, a.list, d);
    var k := if a.writes < |ws| then a.writes else |ws|;
    hide ValidWorld, ValidDisk, Safe, Program, GoodRun, DoAll, PlanOf, NothingToDo, FinalDrafts, StaleMap, Enumerates;
    ProgramIsGood(w, a.list, d);
    GoodPrefix(w, StaleMap(d.hollows), d, ws, k);
    SafeRun(w, m, start, StaleMap(d.hollows), d, ws[..k]);
  }

  lemma {:induction false} SafeFrom(w: World, m: Manifest, start: Disk, d: Disk, attempts: seq<Attempt>)
    requires ValidWorld(w) && ValidDisk(w, d) && start.manifest.None? && m == PlanOf(w, start) && Safe(w, m, start, d)
             && Listings(attempts)
    ensures Safe(w, m, start, After(w, d, attempts))
    decreases |attempts|
  {
    hide ValidWorld, ValidDisk, Safe, Cut, PlanOf, Enumerates, Outcome, SameButDrafts;
    if attempts != [] {
      assert attempts[0] in attempts;
      SafeCut(w, m, start, attempts[0], d);
      CutKeeps(w, attempts[0], d);
      SafeFrom(w, m, start, Cut(w, attempts[0], d), attempts[1..]);
    }
  }

  /** In every state any sequence of applies can stop in: with no manifest the store is either as it was
      found or exactly the v3 ops; and if any op file that was there is gone, every v3 op is filed and
      every rewritten artifact is saved. */
  lemma EveryStateIsSafe(w: World, d: Disk, attempts: seq<Attempt>)
    requires ValidWorld(w) && ValidDisk(w, d) && d.manifest.None? && Listings(attempts)
    ensures var s := After(w, d, attempts);
            && (s.manifest.None? ==> s == d || s.ops.Keys == V3Ids(w))
            && (!(d.ops.Keys <= s.ops.Keys) ==> V3Ids(w) <= s.ops.Keys && Migrated(w, PlanOf(w, d), s))
  {
    var m, s := PlanOf(w, d), After(w, d, attempts);
    SafeFrom(w, m, d, d, attempts);
    if Migrated(w, m, s) { FiledKeys(s.ops, w.v3); }
    hide ValidWorld, ValidDisk, After, PlanOf, IdsOf, AddAll, FinalTable, FinalJournal, FinalForks, FinalOrSet,
         FinalStaged, FinalProposals, FinalDrafts, StaleMap, HollowsOk, FinalHollows;
  }
}
