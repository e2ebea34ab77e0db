/** Crash, resume, converge (`sgt/core/migrate.py`, `_execute` and `migrate_ops_v3`). */
module Convergence {
  import opened Names
  import opened BuildMap
  import opened Remap
  import opened Disk
  import opened Crossing
  import opened Runs

  // ---------------------------------------------------------------------------------------
  // What is settled before each phase.

  ghost predicate TableSettled(w: World, m: Manifest, t: Option<Table>) {
    t == Some(FinalTable(w, m, t))
  }

  ghost predicate JournalSettled(w: World, m: Manifest, j: Option<Journal>) {
    j == FinalJournal(w, m, j)
  }

  ghost predicate ForksSettled(w: World, m: Manifest, f: Option<seq<Fork>>) {
    f == FinalForks(w, m, f)
  }

  ghost predicate OrSetSettled(w: World, m: Manifest, o: Option<OrSet>) {
    o == FinalOrSet(w, m, o)
  }

  ghost predicate StagedSettled(w: World, m: Manifest, s: Option<Staged>) {
    s == FinalStaged(w, m, s)
  }

  ghost predicate DraftsSettled(w: World, m: Manifest, ds: Option<Drafts>) {
    ds == FinalDrafts(w, m, ds, map[])
  }

  ghost predicate ProposalsSettled(w: World, m: Manifest, ps: map<Name, Proposal>) {
    ps == FinalProposals(w, m, ps)
  }

  lemma TableSettles(w: World, m: Manifest, d: Disk)
    requires Working(w, m, d)
    ensures TableSettled(w, m, Some(FinalTable(w, m, d.table)))
  {
    ManifestFixes(w, d);
    RemapTableAgain(OrEmpty(d.table), Full(w, m), w.reduce, m.key, m.ideal);
    hide RemapTable, Full;
  }

  lemma JournalSettles(w: World, m: Manifest, d: Disk)
    requires Working(w, m, d)
    ensures JournalSettled(w, m, FinalJournal(w, m, d.journal))
  {
    ManifestFixes(w, d);
    if d.journal.Some? { RemapJournalAgain(d.journal.value, Full(w, m), w.reduce); }
    hide RemapJournal, Full;
  }

  lemma ForksSettle(w: World, m: Manifest, d: Disk)
    requires Working(w, m, d)
    ensures ForksSettled(w, m, FinalForks(w, m, d.forks))
  {
    ManifestFixes(w, d);
    if d.forks.Some? { RemapForksAgain(d.forks.value, Full(w, m)); }
    hide RemapForks, Full;
  }

  lemma OrSetSettles(w: World, m: Manifest, d: Disk)
    requires Working(w, m, d)
    ensures OrSetSettled(w, m, FinalOrSet(w, m, d.orset))
  {
    ManifestFixes(w, d);
    if d.orset.Some? { SavedOrSetAgain(d.orset.value, Full(w, m)); }
    hide RemapOrSet, SavedOrSet, Full;
  }

  lemma StagedSettles(w: World, m: Manifest, d: Disk)
    requires Working(w, m, d)
    ensures StagedSettled(w, m, FinalStaged(w, m, d.staged))
  {
    ManifestFixes(w, d);
    if d.staged.Some? { RemapStagedAgain(d.staged.value, Full(w, m), w.reduce); }
    hide RemapStaged, Full;
  }

  lemma DraftsSettle(w: World, m: Manifest, d: Disk, renamed: Mapping)
    requires Working(w, m, d)
    ensures DraftsSettled(w, m, FinalDrafts(w, m, d.drafts, renamed))
  {
    ManifestFixes(w, d);
    if d.drafts.Some? { RemapDraftsAgain(d.drafts.value, Full(w, m), renamed, map[]); }
    hide RemapDrafts, Full;
  }

  lemma RewrittenAgain(ps: map<Name, Proposal>, full: Mapping)
    requires Fixes(full)
    ensures forall n :: n in ps ==> RemapProposal(RemapProposal(ps[n], full), full) == RemapProposal(ps[n], full)
  {
    hide RemapProposal, Fixes;
    forall n | n in ps ensures RemapProposal(RemapProposal(ps[n], full), full) == RemapProposal(ps[n], full) {
      RemapProposalAgain(ps[n], full);
    }
  }

  lemma ProposalsSettle(w: World, m: Manifest, d: Disk)
    requires Working(w, m, d)
    ensures ProposalsSettled(w, m, FinalProposals(w, m, d.proposals))
  {
    ManifestFixes(w, d);
    hide RemapProposal, Full, Working, Fixes;
    RewrittenAgain(d.proposals, Full(w, m));
  }

  lemma ProposalsAll(w: World, m: Manifest, ps: map<Name, Proposal>)
    ensures ProposalsAfter(Sorted(ps.Keys), ps, Full(w, m)) == FinalProposals(w, m, ps)
  {
    hide RemapProposal, Full;
  }

  /** Phases before `k` have done their work. */
  ghost predicate Before(w: World, m: Manifest, k: nat, d: Disk) {
    Working(w, m, d) && Done(w, m, k, d)
  }

  ghost predicate Done(w: World, m: Manifest, k: nat, d: Disk) {
    && (k > 0 ==> AllOnFile(d.ops, w.v3))
    && (k > 1 ==> TableSettled(w, m, d.table))
    && (k > 2 ==> JournalSettled(w, m, d.journal))
    && (k > 3 ==> ForksSettled(w, m, d.forks))
    && (k > 4 ==> OrSetSettled(w, m, d.orset))
    && (k > 5 ==> StagedSettled(w, m, d.staged))
    && (k > 6 ==> StaleIds(d.hollows) == {})
    && (k > 7 ==> DraftsSettled(w, m, d.drafts))
    && (k > 8 ==> ProposalsSettled(w, m, d.proposals))
    && (k > 9 ==> d.ops.Keys <= V3Ids(w))
  }

  /** A phase's writes are good, and leave the disk ready for the next phase. */
  ghost predicate PhaseOk(w: World, m: Manifest, list: Listing, renamed: Mapping, k: nat, d: Disk) {
    var ws := Phase(w, m, list, renamed, k, d);
    && GoodRun(w, renamed, d, ws) && Before(w, m, k + 1, DoAll(d, ws))
    && (k != 6 ==> DoAll(d, ws).hollows == d.hollows)
    && DoAll(d, ws).drafts == if k == 7 then FinalDrafts(w, m, d.drafts, renamed) else d.drafts
  }

  lemma StaysWorking(w: World, m: Manifest, renamed: Mapping, d: Disk, ws: seq<Write>)
    requires Working(w, m, d) && GoodRun(w, renamed, d, ws) && DoAll(d, ws).manifest == Some(m)
    ensures Working(w, m, DoAll(d, ws))
  {
    hide GoodRun, DoAll, ValidWorld, ValidDisk, Outcome, SameButDrafts;
    GoodRunKeepsOutcome(w, renamed, d, ws);
  }

  lemma BeforeParts(w: World, m: Manifest, k: nat, d: Disk)
    requires Before(w, m, k, d)
    ensures Working(w, m, d) && Done(w, m, k, d) && d.manifest == Some(m)
  {
    hide Done;
  }

  lemma PhaseWrites(w: World, m: Manifest, list: Listing, renamed: Mapping, d: Disk)
    ensures Phase(w, m, list, renamed, 0, d) == OpWrites(d.ops, w.v3)
    ensures Phase(w, m, list, renamed, 1, d) == TableWrites(w, m, d)
    ensures Phase(w, m, list, renamed, 2, d) == JournalWrites(w, m, d)
    ensures Phase(w, m, list, renamed, 3, d) == ForkWrites(w, m, d)
    ensures Phase(w, m, list, renamed, 4, d) == OrSetWrites(w, m, d)
    ensures Phase(w, m, list, renamed, 5, d) == StagedWrites(w, m, d)
    ensures Phase(w, m, list, renamed, 6, d) == RekeyWrites(d.hollows)
    ensures Phase(w, m, list, renamed, 7, d) == DraftWrites(w, m, d, renamed)
    ensures Phase(w, m, list, renamed, 8, d) == ProposalWrites(Sorted(d.proposals.Keys), d.proposals, Full(w, m))
    ensures Phase(w, m, list, renamed, 9, d) == PruneWrites(list(d.ops.Keys), V3Ids(w))
    ensures Phase(w, m, list, renamed, 10, d) == [DropManifest]
  {
    hide OpWrites, TableWrites, JournalWrites, ForkWrites, OrSetWrites, StagedWrites, RekeyWrites, DraftWrites,
         ProposalWrites, PruneWrites, Full, V3Ids;
  }

  lemma PhaseDone(w: World, m: Manifest, list: Listing, renamed: Mapping, k: nat, d: Disk, ws: seq<Write>, e: Disk)
    requires Before(w, m, k, d) && Phase(w, m, list, renamed, k, d) == ws
    requires GoodRun(w, renamed, d, ws) && DoAll(d, ws) == e && e.manifest == Some(m) && Done(w, m, k + 1, e)
    requires (k != 6 ==> e.hollows == d.hollows)
             && e.drafts == if k == 7 then FinalDrafts(w, m, d.drafts, renamed) else d.drafts
    ensures PhaseOk(w, m, list, renamed, k, d)
  {
    hide Working, Done, GoodRun, DoAll, Phase, FinalDrafts;
    StaysWorking(w, m, renamed, d, ws);
  }

  lemma Done0(w: World, m: Manifest, d: Disk, e: Disk)
    requires Done(w, m, 0, d) && e == d.(ops := e.ops) && AllOnFile(e.ops, w.v3)
    ensures Done(w, m, 1, e)
  {
    hide AllOnFile, TableSettled, JournalSettled, ForksSettled, OrSetSettled, StagedSettled, DraftsSettled,
         ProposalsSettled, StaleIds, V3Ids;
  }

  lemma Phase0(w: World, m: Manifest, list: Listing, renamed: Mapping, d: Disk)
    requires Before(w, m, 0, d)
    ensures PhaseOk(w, m, list, renamed, 0, d)
  {
    var ws := OpWrites(d.ops, w.v3);
    hide *;
    PhaseWrites(w, m, list, renamed, d);
    BeforeParts(w, m, 0, d);
    OpsAllFiled(d.ops, w.v3);
    OpPhase(w, m, renamed, d, w.v3);
    var e := d.(ops := OpsAfter(d.ops, w.v3));
    Done0(w, m, d, e);
    PhaseDone(w, m, list, renamed, 0, d, ws, e);
  }

  lemma Done1(w: World, m: Manifest, d: Disk, e: Disk)
    requires Done(w, m, 1, d) && e == d.(table := e.table) && TableSettled(w, m, e.table)
    ensures Done(w, m, 2, e)
  {
    hide AllOnFile, TableSettled, JournalSettled, ForksSettled, OrSetSettled, StagedSettled, DraftsSettled,
         ProposalsSettled, StaleIds, V3Ids;
  }

  lemma Phase1(w: World, m: Manifest, list: Listing, renamed: Mapping, d: Disk)
    requires Before(w, m, 1, d)
    ensures PhaseOk(w, m, list, renamed, 1, d)
  {
    var ws := TableWrites(w, m, d);
    hide *;
    PhaseWrites(w, m, list, renamed, d);
    BeforeParts(w, m, 1, d);
    TableSettles(w, m, d);
    TablePhase(w, m, renamed, d);
    var e := d.(table := Some(FinalTable(w, m, d.table)));
    Done1(w, m, d, e);
    PhaseDone(w, m, list, renamed, 1, d, ws, e);
  }

  lemma Done2(w: World, m: Manifest, d: Disk, e: Disk)
    requires Done(w, m, 2, d) && e == d.(journal := e.journal) && JournalSettled(w, m, e.journal)
    ensures Done(w, m, 3, e)
  {
    hide AllOnFile, TableSettled, JournalSettled, ForksSettled, OrSetSettled, StagedSettled, DraftsSettled,
         ProposalsSettled, StaleIds, V3Ids;
  }

  lemma Phase2(w: World, m: Manifest, list: Listing, renamed: Mapping, d: Disk)
    requires Before(w, m, 2, d)
    ensures PhaseOk(w, m, list, renamed, 2, d)
  {
    var ws := JournalWrites(w, m, d);
    hide *;
    PhaseWrites(w, m, list, renamed, d);
    BeforeParts(w, m, 2, d);
    JournalSettles(w, m, d);
    JournalPhase(w, m, renamed, d);
    var e := d.(journal := FinalJournal(w, m, d.journal));
    Done2(w, m, d, e);
    PhaseDone(w, m, list, renamed, 2, d, ws, e);
  }

  lemma Done3(w: World, m: Manifest, d: Disk, e: Disk)
    requires Done(w, m, 3, d) && e == d.(forks := e.forks) && ForksSettled(w, m, e.forks)
    ensures Done(w, m, 4, e)
  {
    hide AllOnFile, TableSettled, JournalSettled, ForksSettled, OrSetSettled, StagedSettled, DraftsSettled,
         ProposalsSettled, StaleIds, V3Ids;
  }

  lemma Phase3(w: World, m: Manifest, list: Listing, renamed: Mapping, d: Disk)
    requires Before(w, m, 3, d)
    ensures PhaseOk(w, m, list, renamed, 3, d)
  {
    var ws := ForkWrites(w, m, d);
    hide *;
    PhaseWrites(w, m, list, renamed, d);
    BeforeParts(w, m, 3, d);
    ForksSettle(w, m, d);
    ForkPhase(w, m, renamed, d);
    var e := d.(forks := FinalForks(w, m, d.forks));
    Done3(w, m, d, e);
    PhaseDone(w, m, list, renamed, 3, d, ws, e);
  }

  lemma Done4(w: World, m: Manifest, d: Disk, e: Disk)
    requires Done(w, m, 4, d) && e == d.(orset := e.orset) && OrSetSettled(w, m, e.orset)
    ensures Done(w, m, 5, e)
  {
    hide AllOnFile, TableSettled, JournalSettled, ForksSettled, OrSetSettled, StagedSettled, DraftsSettled,
         ProposalsSettled, StaleIds, V3Ids;
  }

  lemma Phase4(w: World, m: Manifest, list: Listing, renamed: Mapping, d: Disk)
    requires Before(w, m, 4, d)
    ensures PhaseOk(w, m, list, renamed, 4, d)
  {
    var ws := OrSetWrites(w, m, d);
    hide *;
    PhaseWrites(w, m, list, renamed, d);
    BeforeParts(w, m, 4, d);
    OrSetSettles(w, m, d);
    OrSetPhase(w, m, renamed, d);
    var e := d.(orset := FinalOrSet(w, m, d.orset));
    Done4(w, m, d, e);
    PhaseDone(w, m, list, renamed, 4, d, ws, e);
  }

  lemma Done5(w: World, m: Manifest, d: Disk, e: Disk)
    requires Done(w, m, 5, d) && e == d.(staged := e.staged) && StagedSettled(w, m, e.staged)
    ensures Done(w, m, 6, e)
  {
    hide AllOnFile, TableSettled, JournalSettled, ForksSettled, OrSetSettled, StagedSettled, DraftsSettled,
         ProposalsSettled, StaleIds, V3Ids;
  }

  lemma Phase5(w: World, m: Manifest, list: Listing, renamed: Mapping, d: Disk)
    requires Before(w, m, 5, d)
    ensures PhaseOk(w, m, list, renamed, 5, d)
  {
    var ws := StagedWrites(w, m, d);
    hide *;
    PhaseWrites(w, m, list, renamed, d);
    BeforeParts(w, m, 5, d);
    StagedSettles(w, m, d);
    StagedPhase(w, m, renamed, d);
    var e := d.(staged := FinalStaged(w, m, d.staged));
    Done5(w, m, d, e);
    PhaseDone(w, m, list, renamed, 5, d, ws, e);
  }

  lemma Done6(w: World, m: Manifest, d: Disk, e: Disk)
    requires Done(w, m, 6, d) && e == d.(hollows := e.hollows) && StaleIds(e.hollows) == {}
    ensures Done(w, m, 7, e)
  {
    hide AllOnFile, TableSettled, JournalSettled, ForksSettled, OrSetSettled, StagedSettled, DraftsSettled,
         ProposalsSettled, StaleIds, V3Ids;
  }

  lemma Phase6(w: World, m: Manifest, list: Listing, renamed: Mapping, d: Disk)
    requires Before(w, m, 6, d)
    ensures PhaseOk(w, m, list, renamed, 6, d)
  {
    var ws := RekeyWrites(d.hollows);
    hide *;
    PhaseWrites(w, m, list, renamed, d);
    BeforeParts(w, m, 6, d);
    HollowPhase(w, m, renamed, d);
    HollowParts(w, renamed, d);
    var e := d.(hollows := RekeyAll(d.hollows));
    Done6(w, m, d, e);
    PhaseDone(w, m, list, renamed, 6, d, ws, e);
  }

  lemma Done7(w: World, m: Manifest, d: Disk, e: Disk)
    requires Done(w, m, 7, d) && e == d.(drafts := e.drafts) && DraftsSettled(w, m, e.drafts)
    ensures Done(w, m, 8, e)
  {
    hide AllOnFile, TableSettled, JournalSettled, ForksSettled, OrSetSettled, StagedSettled, DraftsSettled,
         ProposalsSettled, StaleIds, V3Ids;
  }

  lemma Phase7(w: World, m: Manifest, list: Listing, renamed: Mapping, d: Disk)
    requires Before(w, m, 7, d)
    ensures PhaseOk(w, m, list, renamed, 7, d)
  {
    var ws := DraftWrites(w, m, d, renamed);
    hide *;
    PhaseWrites(w, m, list, renamed, d);
    BeforeParts(w, m, 7, d);
    DraftsSettle(w, m, d, renamed);
    DraftPhase(w, m, renamed, d);
    var e := d.(drafts := FinalDrafts(w, m, d.drafts, renamed));
    Done7(w, m, d, e);
    PhaseDone(w, m, list, renamed, 7, d, ws, e);
  }

  lemma Done8(w: World, m: Manifest, d: Disk, e: Disk)
    requires Done(w, m, 8, d) && e == d.(proposals := e.proposals) && ProposalsSettled(w, m, e.proposals)
    ensures Done(w, m, 9, e)
  {
    hide AllOnFile, TableSettled, JournalSettled, ForksSettled, OrSetSettled, StagedSettled, DraftsSettled,
         ProposalsSettled, StaleIds, V3Ids;
  }

  lemma Phase8(w: World, m: Manifest, list: Listing, renamed: Mapping, d: Disk)
    requires Before(w, m, 8, d)
    ensures PhaseOk(w, m, list, renamed, 8, d)
  {
    var ws := ProposalWrites(Sorted(d.proposals.Keys), d.proposals, Full(w, m));
    hide *;
    PhaseWrites(w, m, list, renamed, d);
    BeforeParts(w, m, 8, d);
    ProposalsSettle(w, m, d);
    ProposalsAll(w, m, d.proposals);
    ProposalPhase(w, m, renamed, d, Sorted(d.proposals.Keys));
    ProposalParts(w, m, renamed, d);
    var e := d.(proposals := FinalProposals(w, m, d.proposals));
    Done8(w, m, d, e);
    PhaseDone(w, m, list, renamed, 8, d, ws, e);
  }

  lemma HollowParts(w: World, renamed: Mapping, d: Disk)
    requires HollowsDone(w, renamed, d)
    ensures GoodRun(w, renamed, d, RekeyWrites(d.hollows))
            && DoAll(d, RekeyWrites(d.hollows)) == d.(hollows := RekeyAll(d.hollows))
    ensures StaleIds(RekeyAll(d.hollows)) == {}
  {
    hide GoodRun, DoAll, RekeyWrites, RekeyAll, StaleIds, HollowsOk;
  }

  lemma ProposalParts(w: World, m: Manifest, renamed: Mapping, d: Disk)
    requires var names := Sorted(d.proposals.Keys);
             ProposalsDone(w, m, renamed, d, names)
             && ProposalsAfter(names, d.proposals, Full(w, m)) == FinalProposals(w, m, d.proposals)
    ensures var ws := ProposalWrites(Sorted(d.proposals.Keys), d.proposals, Full(w, m));
            GoodRun(w, renamed, d, ws) && DoAll(d, ws) == d.(proposals := FinalProposals(w, m, d.proposals))
  {
    hide GoodRun, DoAll, ProposalWrites, ProposalsAfter, FinalProposals, Full;
  }

  /** With every phase but the last two done, a rewrite would change nothing. */
  lemma SettledIsMigrated(w: World, m: Manifest, d: Disk)
    requires Before(w, m, 9, d)
    ensures Migrated(w, m, d) && V3Ids(w) <= d.ops.Keys
  {
    FiledAlready(d.ops, w.v3);
    NoStaleFinal(d.hollows);
    hide AddAll, FinalTable, FinalJournal, FinalForks, FinalOrSet, FinalStaged, FinalDrafts, FinalProposals,
         FinalHollows, StaleMap, ValidWorld, OpsOk, MapsAcross, HollowsOk, IdsOf, AllOnFile;
  }

  lemma NoStaleFinal(hs: map<Name, Hollow>)
    requires HollowsOk(hs) && StaleIds(hs) == {}
    ensures FinalHollows(hs) == hs && StaleMap(hs) == map[]
  {
    forall i | i in hs ensures hs[i].current && hs[i].rehash == i {
      assert i !in StaleIds(hs);
    }
    assert Targets(hs) == hs.Keys by {
      forall i ensures i in Targets(hs) <==> i in hs {
        if i in hs { assert hs[i].rehash == i; }
      }
    }
    hide HollowsOk, StaleIds, Targets;
    forall n | n in hs ensures StaleFor(hs, n) == {} {
    }
  }

  lemma PrunedKeys(ops: map<Name, Op>, list: Listing, keep: set<Name>)
    requires Enumerates(list)
    ensures (ops - Outside(list(ops.Keys), keep)).Keys <= keep
  {
  }

  lemma PrunedOnFile(ops: map<Name, Op>, v3: seq<Op>, names: seq<Name>)
    requires AllOnFile(ops, v3)
    ensures AllOnFile(ops - Outside(names, IdsOf(v3)), v3)
  {
    var kept := ops - Outside(names, IdsOf(v3));
    forall op | op in v3 ensures OnFile(kept, op) {
      assert OnFile(ops, op) && op.id in IdsOf(v3);
    }
  }

  lemma Done9(w: World, m: Manifest, d: Disk, e: Disk)
    requires Done(w, m, 9, d) && e == d.(ops := e.ops) && AllOnFile(e.ops, w.v3) && e.ops.Keys <= V3Ids(w)
    ensures Done(w, m, 10, e)
  {
    hide AllOnFile, TableSettled, JournalSettled, ForksSettled, OrSetSettled, StagedSettled, DraftsSettled,
         ProposalsSettled, StaleIds, V3Ids;
  }

  lemma DoneOnFile(w: World, m: Manifest, d: Disk)
    requires Done(w, m, 9, d)
    ensures AllOnFile(d.ops, w.v3)
  {
  }

  lemma PrunedParts(w: World, m: Manifest, renamed: Mapping, d: Disk, names: seq<Name>)
    requires Runs.Pruned(w, m, renamed, d, names)
    ensures var ws := PruneWrites(names, V3Ids(w));
            GoodRun(w, renamed, d, ws) && DoAll(d, ws) == d.(ops := d.ops - Outside(names, V3Ids(w)))
  {
    hide GoodRun, DoAll, Migrated, Outside, V3Ids;
  }

  lemma Phase9(w: World, m: Manifest, list: Listing, renamed: Mapping, d: Disk)
    requires Before(w, m, 9, d) && Enumerates(list)
    ensures PhaseOk(w, m, list, renamed, 9, d)
  {
    var names := list(d.ops.Keys);
    assert V3Ids(w) == IdsOf(w.v3);
    hide *;
    PhaseWrites(w, m, list, renamed, d);
    BeforeParts(w, m, 9, d);
    SettledIsMigrated(w, m, d);
    PrunePhase(w, m, renamed, d, names);
    PrunedParts(w, m, renamed, d, names);
    var e := d.(ops := d.ops - Outside(names, V3Ids(w)));
    PrunedKeys(d.ops, list, V3Ids(w));
    DoneOnFile(w, m, d);
    PrunedOnFile(d.ops, w.v3, names);
    Done9(w, m, d, e);
    PhaseDone(w, m, list, renamed, 9, d, PruneWrites(names, V3Ids(w)), e);
  }

  lemma Done10(w: World, m: Manifest, d: Disk)
    requires Before(w, m, 10, d)
    ensures Before(w, m, 9, d) && d.ops.Keys <= V3Ids(w) && d.manifest == Some(m)
  {
    hide AllOnFile, TableSettled, JournalSettled, ForksSettled, OrSetSettled, StagedSettled, DraftsSettled,
         ProposalsSettled, StaleIds, V3Ids, ValidWorld, ValidDisk;
  }

  lemma LastIsGood(w: World, m: Manifest, renamed: Mapping, d: Disk)
    requires d.manifest == Some(m) && Migrated(w, m, d) && d.ops.Keys <= V3Ids(w)
    ensures Good(w, renamed, d, DropManifest)
  {
    hide Migrated, V3Ids;
  }

  /** Retiring the manifest leaves a store with nothing to cross. */
  lemma LastWrite(w: World, m: Manifest, renamed: Mapping, d: Disk)
    requires Before(w, m, 10, d)
    ensures Good(w, renamed, d, DropManifest)
    ensures var e := Do(d, DropManifest); NothingToDo(e) && e.drafts == d.drafts
  {
    Done10(w, m, d);
    hide Before, Done, Working, ValidWorld, ValidDisk, Good, V3Ids, NothingToDo, Outcome, Migrated;
    SettledIsMigrated(w, m, d);
    LastIsGood(w, m, renamed, d);
    WorkingParts(w, m, d);
    DoDropManifest(w, d);
  }

  lemma WorkingParts(w: World, m: Manifest, d: Disk)
    requires Before(w, m, 10, d)
    ensures ValidWorld(w) && ValidDisk(w, d)
  {
    hide ValidWorld, ValidDisk, Done;
  }

  lemma AnyPhase(w: World, m: Manifest, list: Listing, renamed: Mapping, k: nat, d: Disk)
    requires Before(w, m, k, d) && Enumerates(list) && k < 10
    ensures PhaseOk(w, m, list, renamed, k, d)
  {
    hide Before, Enumerates, PhaseOk;
    if k == 0 { Phase0(w, m, list, renamed, d); }
    else if k == 1 { Phase1(w, m, list, renamed, d); }
    else if k == 2 { Phase2(w, m, list, renamed, d); }
    else if k == 3 { Phase3(w, m, list, renamed, d); }
    else if k == 4 { Phase4(w, m, list, renamed, d); }
    else if k == 5 { Phase5(w, m, list, renamed, d); }
    else if k == 6 { Phase6(w, m, list, renamed, d); }
    else if k == 7 { Phase7(w, m, list, renamed, d); }
    else if k == 8 { Phase8(w, m, list, renamed, d); }
    else { Phase9(w, m, list, renamed, d); }
  }

  /** From any phase on, every write is good and the last one leaves nothing to cross. */
  ghost predicate Finishes(w: World, m: Manifest, list: Listing, renamed: Mapping, k: nat, d: Disk)
    requires k <= PHASES
  {
    var ws := From(w, m, list, renamed, k, d);
    && GoodRun(w, renamed, d, ws) && NothingToDo(DoAll(d, ws))
    && DoAll(d, ws).drafts == if k <= 7 then FinalDrafts(w, m, d.drafts, renamed) else d.drafts
  }

  lemma OnlyRetires(w: World, m: Manifest, list: Listing, renamed: Mapping, d: Disk)
    ensures 10 <= PHASES && From(w, m, list, renamed, 10, d) == [DropManifest]
  {
    PhaseWrites(w, m, list, renamed, d);
    assert From(w, m, list, renamed, 11, DoAll(d, [DropManifest])) == [];
    hide DoAll, Phase;
  }

  lemma FinishesLast(w: World, m: Manifest, list: Listing, renamed: Mapping, d: Disk)
    requires Before(w, m, 10, d)
    ensures Finishes(w, m, list, renamed, 10, d)
  {
    hide *;
    OnlyRetires(w, m, list, renamed, d);
    LastWrite(w, m, renamed, d);
    GoodOne(w, renamed, d, DropManifest);
    DoOne(d, DropManifest);
    FinishesAt(w, m, list, renamed, 10, d);
  }

  lemma FinishesAt(w: World, m: Manifest, list: Listing, renamed: Mapping, k: nat, d: Disk)
    requires k <= PHASES
    requires var ws := From(w, m, list, renamed, k, d);
             && GoodRun(w, renamed, d, ws) && NothingToDo(DoAll(d, ws))
             && DoAll(d, ws).drafts == if k <= 7 then FinalDrafts(w, m, d.drafts, renamed) else d.drafts
    ensures Finishes(w, m, list, renamed, k, d)
  {
    hide From, GoodRun, NothingToDo, DoAll, FinalDrafts;
  }

  lemma FromStep(w: World, m: Manifest, list: Listing, renamed: Mapping, k: nat, d: Disk)
    requires k < 10 && PhaseOk(w, m, list, renamed, k, d)
    requires Finishes(w, m, list, renamed, k + 1, DoAll(d, Phase(w, m, list, renamed, k, d)))
    ensures Finishes(w, m, list, renamed, k, d)
  {
    var ws := Phase(w, m, list, renamed, k, d);
    var mid := DoAll(d, ws);
    var rest := From(w, m, list, renamed, k + 1, mid);
    assert From(w, m, list, renamed, k, d) == ws + rest;
    hide Phase, From, GoodRun, NothingToDo, DoAll, FinalDrafts, Before;
    GoodConcat(w, renamed, d, ws, rest);
    DoAllConcat(d, ws, rest);
    hide PhaseOk;
  }

  lemma {:induction false} FromFinishes(w: World, m: Manifest, list: Listing, renamed: Mapping, k: nat, d: Disk)
    requires Before(w, m, k, d) && Enumerates(list) && k <= 10
    ensures Finishes(w, m, list, renamed, k, d)
    decreases 10 - k
  {
    if k == 10 {
      hide *;
      FinishesLast(w, m, list, renamed, d);
    } else {
      hide *;
      AnyPhase(w, m, list, renamed, k, d);
      NextBefore(w, m, list, renamed, k, d);
      FromFinishes(w, m, list, renamed, k + 1, DoAll(d, Phase(w, m, list, renamed, k, d)));
      FromStep(w, m, list, renamed, k, d);
    }
  }

  lemma NextBefore(w: World, m: Manifest, list: Listing, renamed: Mapping, k: nat, d: Disk)
    requires PhaseOk(w, m, list, renamed, k, d)
    ensures Before(w, m, k + 1, DoAll(d, Phase(w, m, list, renamed, k, d)))
  {
    hide Before, Phase, DoAll, GoodRun, FinalDrafts;
  }
}
