/** The crossing as it runs (`sgt/core/migrate.py`, `_execute` and `migrate_ops_v3`): files replaced one
    by one, until it is done or the process dies.

    `budget` is how many more writes happen.  Each method is proved to make exactly the writes its
    phase specifies, in order, and if the budget runs out, exactly the first so many of them. */
module Migrate {
  import opened Names
  import opened BuildMap
  import opened Remap
  import opened Rewrites
  import opened Disk
  import opened Crossing
  import opened Runs
  import opened Convergence
  import opened Crashes

  /** From one state to another by those writes, or by as many of them as the budget allowed. */
  ghost predicate Ran(d0: Disk, b0: nat, ws: seq<Write>, d1: Disk, b1: nat, ok: bool) {
    if ok then |ws| <= b0 && d1 == DoAll(d0, ws) && b1 == b0 - |ws|
    else b0 < |ws| && d1 == DoAll(d0, ws[..b0]) && b1 == 0
  }

  lemma RanNothing(d: Disk, b: nat)
    ensures Ran(d, b, [], d, b, true)
  {
  }

  lemma RanThen(d0: Disk, b0: nat, ws: seq<Write>, d1: Disk, b1: nat, more: seq<Write>, d2: Disk, b2: nat, ok: bool)
    requires Ran(d0, b0, ws, d1, b1, true) && Ran(d1, b1, more, d2, b2, ok)
    ensures Ran(d0, b0, ws + more, d2, b2, ok)
  {
    hide DoAll;
    if ok {
      DoAllConcat(d0, ws, more);
    } else {
      assert (ws + more)[..b0] == ws + more[..b1];
      DoAllConcat(d0, ws, more[..b1]);
    }
  }

  /** Having died within the first writes, the rest do not happen either. */
  lemma RanDead(d0: Disk, b0: nat, ws: seq<Write>, d1: Disk, b1: nat, all: seq<Write>)
    requires Ran(d0, b0, ws, d1, b1, false) && ws <= all
    ensures Ran(d0, b0, all, d1, b1, false)
  {
    hide DoAll;
    assert ws[..b0] == all[..b0];
  }

  lemma RanParts(d0: Disk, b0: nat, ws: seq<Write>, d1: Disk, b1: nat)
    requires Ran(d0, b0, ws, d1, b1, true)
    ensures d1 == DoAll(d0, ws)
  {
  }

  /** What an apply leaves, whether or not it finishes, is the cut its budget makes. */
  lemma RanIsCut(w: World, list: Listing, d0: Disk, b0: nat, d1: Disk, b1: nat, ok: bool)
    requires Ran(d0, b0, Program(w, list, d0), d1, b1, ok)
    ensures d1 == Cut(w, Attempt(b0, list), d0)
    ensures ok && ValidWorld(w) && ValidDisk(w, d0) && Enumerates(list) ==> d1 == Outcome(w, d0)
  {
    var ws := Program(w, list, d0);
    if ok {
      assert ws[..|ws|] == ws;
      hide Program, DoAll, Outcome, ValidWorld, ValidDisk, Enumerates;
      if ValidWorld(w) && ValidDisk(w, d0) && Enumerates(list) { ApplyReachesOutcome(w, list, d0); }
    }
    hide Program, DoAll, Outcome, ValidWorld, ValidDisk, Enumerates;
  }

  lemma OpWritesGrow(ops: map<Name, Op>, v3: seq<Op>, i: nat)
    requires i < |v3|
    ensures OpWrites(ops, v3[..i + 1]) == OpWrites(ops, v3[..i])
            + (if OnFile(OpsAfter(ops, v3[..i]), v3[i]) then [] else [StoreOp(v3[i])])
    ensures OpsAfter(ops, v3[..i + 1]) == Stored(OpsAfter(ops, v3[..i]), v3[i])
  {
    assert v3[..i + 1][..i] == v3[..i];
    hide OnFile, Stored;
  }

  lemma {:induction false} OpWritesPrefix(ops: map<Name, Op>, v3: seq<Op>, i: nat)
    requires i <= |v3|
    ensures OpWrites(ops, v3[..i]) <= OpWrites(ops, v3)
    decreases |v3| - i
  {
    if i < |v3| {
      OpWritesGrow(ops, v3, i);
      OpWritesPrefix(ops, v3, i + 1);
    } else {
      assert v3[..i] == v3;
    }
    hide OpWrites, OpsAfter, Stored, OnFile;
  }

  lemma ProposalWritesGrow(names: seq<Name>, ps: map<Name, Proposal>, full: Mapping, i: nat)
    requires i < |names| && forall n :: n in names ==> n in ps
    ensures var p := RemapProposal(ps[names[i]], full);
            ProposalWrites(names[..i + 1], ps, full) == ProposalWrites(names[..i], ps, full)
            + (if p != ps[names[i]] then [SaveProposal(names[i], p)] else [])
  {
    assert names[..i + 1][..i] == names[..i];
    hide RemapProposal;
  }

  lemma {:induction false} ProposalWritesPrefix(names: seq<Name>, ps: map<Name, Proposal>, full: Mapping, i: nat)
    requires i <= |names| && forall n :: n in names ==> n in ps
    ensures ProposalWrites(names[..i], ps, full) <= ProposalWrites(names, ps, full)
    decreases |names| - i
  {
    if i < |names| {
      ProposalWritesGrow(names, ps, full, i);
      ProposalWritesPrefix(names, ps, full, i + 1);
    } else {
      assert names[..i] == names;
    }
    hide ProposalWrites, RemapProposal;
  }

  lemma PruneWritesGrow(names: seq<Name>, keep: set<Name>, i: nat)
    requires i < |names|
    ensures PruneWrites(names[..i + 1], keep) == PruneWrites(names[..i], keep)
            + (if names[i] !in keep then [DropOp(names[i])] else [])
  {
    assert names[..i + 1][..i] == names[..i];
  }

  lemma {:induction false} PruneWritesPrefix(names: seq<Name>, keep: set<Name>, i: nat)
    requires i <= |names|
    ensures PruneWrites(names[..i], keep) <= PruneWrites(names, keep)
    decreases |names| - i
  {
    if i < |names| {
      PruneWritesGrow(names, keep, i);
      PruneWritesPrefix(names, keep, i + 1);
    } else {
      assert names[..i] == names;
    }
    hide PruneWrites;
  }

  class Repo {
    var disk: Disk
    var budget: nat

    constructor (d: Disk, writes: nat)
      ensures disk == d && budget == writes
    {
      disk, budget := d, writes;
    }

    /** One atomic replacement or unlink, or the crash before it. */
    method Perform(write: Write) returns (ok: bool)
      modifies this
      ensures Ran(old(disk), old(budget), [write], disk, budget, ok)
    {
      DoOne(disk, write);
      NoWritesYet(disk, [write]);
      hide Do, DoAll;
      ok := budget > 0;
      if ok {
        disk, budget := Do(disk, write), budget - 1;
      }
    }

    /** Performed only when something changes. */
    method PerformIf(changed: bool, write: Write) returns (ok: bool)
      modifies this
      ensures Ran(old(disk), old(budget), if changed then [write] else [], disk, budget, ok)
    {
      hide *;
      ok := true;
      RanNothing(disk, budget);
      if changed {
        ok := Perform(write);
      }
    }

    /** `_write_ops`. */
    method WriteOps(w: World, ghost m: Manifest) returns (ok: bool)
      requires Working(w, m, disk)
      modifies this
      ensures Ran(old(disk), old(budget), OpWrites(old(disk).ops, w.v3), disk, budget, ok)
    {
      ghost var d0 := disk;
      ok := true;
      RanNothing(disk, budget);
      assert w.v3[..0] == [];
      for i := 0 to |w.v3|
        invariant Ran(d0, old(budget), OpWrites(d0.ops, w.v3[..i]), disk, budget, true)
      {
        OpPhase(w, m, map[], d0, w.v3[..i]);
        OpWritesGrow(d0.ops, w.v3, i);
        hide *;
        RanParts(d0, old(budget), OpWrites(d0.ops, w.v3[..i]), disk, budget);
        ghost var d1, b1 := disk, budget;
        ok := PerformIf(!OnFile(disk.ops, w.v3[i]), StoreOp(w.v3[i]));
        RanThen(d0, old(budget), OpWrites(d0.ops, w.v3[..i]), d1, b1,
                if OnFile(d1.ops, w.v3[i]) then [] else [StoreOp(w.v3[i])], disk, budget, ok);
        if !ok {
          OpWritesPrefix(d0.ops, w.v3, i + 1);
          RanDead(d0, old(budget), OpWrites(d0.ops, w.v3[..i + 1]), disk, budget, OpWrites(d0.ops, w.v3));
          return;
        }
      }
      assert w.v3[..|w.v3|] == w.v3;
    }

    method MigrateTable(w: World, m: Manifest, full: Mapping) returns (ok: bool)
      requires full == Full(w, m)
      modifies this
      ensures Ran(old(disk), old(budget), TableWrites(w, m, old(disk)), disk, budget, ok)
    {
      var before := OrEmpty(disk.table);
      var after := RewriteTable(before, full, w.reduce, m.key, m.ideal);
      ok := PerformIf(after != before, SaveTable(after));
      hide Full, RemapTable, Ran;
    }

    method MigrateJournal(w: World, m: Manifest, full: Mapping) returns (ok: bool)
      requires full == Full(w, m)
      modifies this
      ensures Ran(old(disk), old(budget), JournalWrites(w, m, old(disk)), disk, budget, ok)
    {
      hide Full, RemapJournal, Ran;
      ok := true;
      RanNothing(disk, budget);
      if disk.journal.Some? {
        var after := RewriteJournal(disk.journal.value, full, w.reduce);
        ok := PerformIf(after != disk.journal.value, SaveJournal(after));
      }
    }

    method MigrateForks(w: World, m: Manifest, full: Mapping) returns (ok: bool)
      requires full == Full(w, m)
      modifies this
      ensures Ran(old(disk), old(budget), ForkWrites(w, m, old(disk)), disk, budget, ok)
    {
      hide Full, RemapForks, Ran;
      ok := true;
      RanNothing(disk, budget);
      if disk.forks.Some? {
        var after, dropped := RewriteForks(disk.forks.value, full);
        ok := PerformIf(after != disk.forks.value, SaveForks(after));
      }
    }

    method MigrateOrSet(w: World, m: Manifest, full: Mapping) returns (ok: bool)
      requires full == Full(w, m)
      modifies this
      ensures Ran(old(disk), old(budget), OrSetWrites(w, m, old(disk)), disk, budget, ok)
    {
      hide Full, RemapOrSet, Ran;
      ok := true;
      RanNothing(disk, budget);
      if disk.orset.Some? {
        var after, dropped := RewriteOrSet(disk.orset.value, full);
        ok := PerformIf(after != disk.orset.value, SaveOrSet(OrSet(Dedup(after.adds), Dedup(after.tombstones))));
      }
    }

    method MigrateStaged(w: World, m: Manifest, full: Mapping) returns (ok: bool)
      requires full == Full(w, m)
      modifies this
      ensures Ran(old(disk), old(budget), StagedWrites(w, m, old(disk)), disk, budget, ok)
    {
      hide Full, Ran;
      ok := true;
      RanNothing(disk, budget);
      if disk.staged.Some? {
        var after := RemapStaged(disk.staged.value, full, w.reduce);
        ok := PerformIf(after != disk.staged.value, SaveStaged(after));
      }
    }

    method MigrateDrafts(w: World, m: Manifest, full: Mapping, renamed: Mapping) returns (ok: bool)
      requires full == Full(w, m)
      modifies this
      ensures Ran(old(disk), old(budget), DraftWrites(w, m, old(disk), renamed), disk, budget, ok)
    {
      hide Full, RemapDrafts, Ran;
      ok := true;
      RanNothing(disk, budget);
      if disk.drafts.Some? {
        var after := RewriteDrafts(disk.drafts.value, full, renamed);
        ok := PerformIf(after != disk.drafts.value, SaveDrafts(after));
      }
    }

    /** `_rewrite_proposals`. */
    method MigrateProposals(w: World, m: Manifest, full: Mapping) returns (ok: bool)
      requires full == Full(w, m) && disk.manifest == Some(m)
      modifies this
      ensures Ran(old(disk), old(budget),
                  ProposalWrites(Sorted(old(disk).proposals.Keys), old(disk).proposals, Full(w, m)), disk, budget, ok)
    {
      ghost var d0, b0 := disk, budget;
      var names := Sorted(disk.proposals.Keys);
      ok := true;
      hide *;
      ProposalsStart(d0, b0, names, full);
      for i := 0 to |names|
        invariant Ran(d0, b0, ProposalWrites(names[..i], d0.proposals, full), disk, budget, true)
      {
        ghost var d1, b1 := disk, budget;
        ProposalAsFound(w, m, d0, b0, names, i, d1, b1);
        var n := names[i];
        var after := RewriteProposal(disk.proposals[n], full);
        var changed := after != disk.proposals[n];
        ok := PerformIf(changed, SaveProposal(n, after));
        ProposalRan(d0, b0, names, full, i, d1, b1, disk, budget, ok);
        if !ok { return; }
      }
      assert names[..|names|] == names;
    }

    /** `_prune_pre_v3`, over the directory as it lists. */
    method Prune(w: World, list: Listing) returns (ok: bool)
      modifies this
      ensures Ran(old(disk), old(budget), PruneWrites(list(old(disk).ops.Keys), V3Ids(w)), disk, budget, ok)
    {
      ghost var d0 := disk;
      var names, keep := list(disk.ops.Keys), V3Ids(w);
      hide V3Ids, Ran;
      ok := true;
      RanNothing(disk, budget);
      assert names[..0] == [];
      for i := 0 to |names|
        invariant Ran(d0, old(budget), PruneWrites(names[..i], keep), disk, budget, true)
      {
        PruneWritesGrow(names, keep, i);
        ghost var d1, b1 := disk, budget;
        hide *;
        ok := PerformIf(names[i] !in keep, DropOp(names[i]));
        RanThen(d0, old(budget), PruneWrites(names[..i], keep), d1, b1,
                if names[i] !in keep then [DropOp(names[i])] else [], disk, budget, ok);
        if !ok {
          PruneWritesPrefix(names, keep, i + 1);
          RanDead(d0, old(budget), PruneWrites(names[..i + 1], keep), disk, budget, PruneWrites(names, keep));
          return;
        }
      }
      assert names[..|names|] == names;
    }

    /** The hollow saved under its new id, then its old file removed. */
    method RekeyFile(id: Name, newId: Name, renewed: Hollow) returns (ok: bool)
      modifies this
      ensures Ran(old(disk), old(budget),
                  [StoreHollow(newId, renewed)] + (if newId != id then [DropHollow(id)] else []), disk, budget, ok)
    {
      hide *;
      ghost var d0, b0 := disk, budget;
      ghost var a, b := StoreHollow(newId, renewed), DropHollow(id);
      assert [a] + [] == [a];
      ok := Perform(StoreHollow(newId, renewed));
      if !ok {
        RanDead(d0, b0, [a], disk, budget, [a] + if newId != id then [b] else []);
      } else if newId != id {
        ghost var d1, b1 := disk, budget;
        ok := Perform(DropHollow(id));
        RanThen(d0, b0, [a], d1, b1, [b], disk, budget, ok);
      }
    }

    /** `_rekey_hollows`: over the hollow files as read at the start, in id order. */
    method RekeyHollows(w: World, ghost m: Manifest) returns (ok: bool, renamed: Mapping)
      requires Working(w, m, disk)
      modifies this
      ensures Ran(old(disk), old(budget), RekeyWrites(old(disk).hollows), disk, budget, ok)
      ensures ok ==> renamed == StaleMap(old(disk).hollows)
    {
      ghost var d0, b0 := disk, budget;
      var hs := disk.hollows;
      var ids := Sorted(hs.Keys);
      ghost var done: seq<Write> := [];
      ok, renamed := true, map[];
      RanNothing(disk, budget);
      RekeyingStarts(d0, hs, ids);
      hide *;
      for i := 0 to |ids|
        invariant Rekeying(d0, hs, ids, i, disk, done, renamed)
        invariant Ran(d0, b0, done, disk, budget, true)
      {
        RekeyingAt(d0, hs, ids, i, disk, done, renamed);
        RekeyingOk(d0, hs, ids, i, disk, done, renamed);
        var id := ids[i];
        var newId := hs[id].rehash;
        if newId == id && hs[id].current {
          SkipCurrent(d0, hs, ids, i, disk, done, renamed);
          continue;
        }
        NotCurrent(hs, id);
        ghost var d1, b1 := disk, budget;
        ok := RekeyFile(id, newId, Renew(hs[id]));
        if !ok {
          RekeyingDies(d0, b0, hs, ids, i, d1, b1, done, renamed, disk, budget);
          return;
        }
        RekeyingLives(d0, b0, hs, ids, i, d1, b1, done, renamed, disk, budget);
        done := done + [StoreHollow(newId, Renew(hs[id])), DropHollow(id)];
        renamed := renamed[id := newId];
      }
      RekeyingEnds(d0, hs, ids, disk, done, renamed);
    }

    /** `_execute`, and the manifest retired after it. */
    method Execute(w: World, m: Manifest, list: Listing) returns (ok: bool)
      requires Working(w, m, disk) && Enumerates(list)
      modifies this
      ensures Ran(old(disk), old(budget), From(w, m, list, StaleMap(old(disk).hollows), 0, old(disk)), disk, budget, ok)
    {
      ghost var d0, b0 := disk, budget;
      ghost var r := StaleMap(disk.hollows);
      hide *;
      ExecutionStarts(w, m, list, r, d0, b0);
      var full := Full(w, m);

      ghost var d, b := disk, budget;
      ok := WriteOps(w, m);
      PhaseWrites(w, m, list, r, d);
      Next(w, m, list, r, 0, d0, b0, d, b, disk, budget, ok);
      if !ok { return; }
      d, b := disk, budget;
      ok := MigrateTable(w, m, full);
      PhaseWrites(w, m, list, r, d);
      Next(w, m, list, r, 1, d0, b0, d, b, disk, budget, ok);
      if !ok { return; }
      d, b := disk, budget;
      ok := MigrateJournal(w, m, full);
      PhaseWrites(w, m, list, r, d);
      Next(w, m, list, r, 2, d0, b0, d, b, disk, budget, ok);
      if !ok { return; }
      d, b := disk, budget;
      ok := MigrateForks(w, m, full);
      PhaseWrites(w, m, list, r, d);
      Next(w, m, list, r, 3, d0, b0, d, b, disk, budget, ok);
      if !ok { return; }
      d, b := disk, budget;
      ok := MigrateOrSet(w, m, full);
      PhaseWrites(w, m, list, r, d);
      Next(w, m, list, r, 4, d0, b0, d, b, disk, budget, ok);
      if !ok { return; }
      d, b := disk, budget;
      ok := MigrateStaged(w, m, full);
      PhaseWrites(w, m, list, r, d);
      Next(w, m, list, r, 5, d0, b0, d, b, disk, budget, ok);
      if !ok { return; }
      d, b := disk, budget;
      var renamed;
      ok, renamed := RekeyHollows(w, m);
      PhaseWrites(w, m, list, r, d);
      Next(w, m, list, r, 6, d0, b0, d, b, disk, budget, ok);
      if !ok { return; }
      d, b := disk, budget;
      ok := MigrateDrafts(w, m, full, renamed);
      PhaseWrites(w, m, list, r, d);
      Next(w, m, list, r, 7, d0, b0, d, b, disk, budget, ok);
      if !ok { return; }
      d, b := disk, budget;
      ok := MigrateProposals(w, m, full);
      PhaseWrites(w, m, list, r, d);
      Next(w, m, list, r, 8, d0, b0, d, b, disk, budget, ok);
      if !ok { return; }
      d, b := disk, budget;
      ok := Prune(w, list);
      PhaseWrites(w, m, list, r, d);
      Next(w, m, list, r, 9, d0, b0, d, b, disk, budget, ok);
      if !ok { return; }
      d, b := disk, budget;
      ok := Perform(DropManifest);
      Last(w, m, list, r, d0, b0, d, b, disk, budget, ok);
    }

    /** `migrate_ops_v3(dry_run=False)`: resume from the manifest if there is one; else plan, and stop if
        there is nothing to cross. */
    method Apply(w: World, list: Listing) returns (ok: bool)
      requires ValidWorld(w) && ValidDisk(w, disk) && Enumerates(list)
      modifies this
      ensures Ran(old(disk), old(budget), Program(w, list, old(disk)), disk, budget, ok)
    {
      hide *;
      ghost var d0, b0 := disk, budget;
      ok := true;
      RanNothing(disk, budget);
      if disk.manifest.Some? {
        var m := disk.manifest.value;
        ResumeProgram(w, list, disk, m);
        ok := Execute(w, m, list);
        return;
      }
      var v2 := PreV3(disk.ops);
      var mapping, orphaned, clean, remapped := Build(v2, w.v3);
      NothingMapped(w, list, disk);
      NothingPlanned(v2, w.v3);
      if mapping == map[] && orphaned == [] { return; }
      var m := Manifest(mapping, orphaned, w.key, w.ideal);
      FreshProgram(w, list, disk, m);
      ghost var rest := Program(w, list, disk)[1..];
      ok := Perform(SaveManifest(m));
      if !ok {
        RanDead(d0, b0, [SaveManifest(m)], disk, budget, [SaveManifest(m)] + rest);
        return;
      }
      RanParts(d0, b0, [SaveManifest(m)], disk, budget);
      DoOne(d0, SaveManifest(m));
      ghost var d1, b1 := disk, budget;
      ok := Execute(w, m, list);
      RanThen(d0, b0, [SaveManifest(m)], d1, b1, rest, disk, budget, ok);
    }
  }

  lemma NoWritesYet(d: Disk, ws: seq<Write>)
    ensures DoAll(d, ws[..0]) == d
  {
  }

  lemma PrefixDistinct(names: seq<Name>, i: nat)
    requires Distinct(names) && i < |names|
    ensures Distinct(names[..i]) && names[i] !in names[..i]
    ensures forall n :: n in names[..i] ==> n in names
  {
  }

  lemma ProposalsStart(d: Disk, b: nat, names: seq<Name>, full: Mapping)
    requires forall n :: n in names[..0] ==> n in d.proposals
    ensures Ran(d, b, ProposalWrites(names[..0], d.proposals, full), d, b, true)
  {
    hide Ran;
    RanNothing(d, b);
  }

  /** Proposals already rewritten leave the next one as it was found. */
  lemma ProposalAsFound(w: World, m: Manifest, d0: Disk, b0: nat, names: seq<Name>, i: nat, d: Disk, b: nat)
    requires d0.manifest == Some(m) && names == Sorted(d0.proposals.Keys) && i < |names|
    requires Ran(d0, b0, ProposalWrites(names[..i], d0.proposals, Full(w, m)), d, b, true)
    ensures names[i] in d0.proposals && names[i] in d.proposals && d.proposals[names[i]] == d0.proposals[names[i]]
  {
    hide *;
    assert names[i] in names;
    PrefixDistinct(names, i);
    ProposalPhase(w, m, map[], d0, names[..i]);
    ProposalUntouched(d0, names, i, Full(w, m));
    DonePart(w, m, map[], d0, names[..i]);
    RanParts(d0, b0, ProposalWrites(names[..i], d0.proposals, Full(w, m)), d, b);
  }

  /** One proposal further, or dead at it. */
  lemma ProposalRan(d0: Disk, b0: nat, names: seq<Name>, full: Mapping, i: nat, d: Disk, b: nat, e: Disk, b2: nat,
                    ok: bool)
    requires names == Sorted(d0.proposals.Keys) && i < |names| && names[i] in d0.proposals
    requires Ran(d0, b0, ProposalWrites(names[..i], d0.proposals, full), d, b, true)
    requires var p := RemapProposal(d0.proposals[names[i]], full);
             Ran(d, b, if p != d0.proposals[names[i]] then [SaveProposal(names[i], p)] else [], e, b2, ok)
    ensures ok ==> Ran(d0, b0, ProposalWrites(names[..i + 1], d0.proposals, full), e, b2, true)
    ensures !ok ==> Ran(d0, b0, ProposalWrites(names, d0.proposals, full), e, b2, false)
  {
    hide *;
    var ps := d0.proposals;
    var p := RemapProposal(ps[names[i]], full);
    ProposalWritesGrow(names, ps, full, i);
    RanThen(d0, b0, ProposalWrites(names[..i], ps, full), d, b, if p != ps[names[i]] then [SaveProposal(names[i], p)]
                                                                else [], e, b2, ok);
    if !ok {
      ProposalWritesPrefix(names, ps, full, i + 1);
      RanDead(d0, b0, ProposalWrites(names[..i + 1], ps, full), e, b2, ProposalWrites(names, ps, full));
    }
  }

  lemma DonePart(w: World, m: Manifest, renamed: Mapping, d: Disk, names: seq<Name>)
    requires (forall n :: n in names ==> n in d.proposals) && ProposalsDone(w, m, renamed, d, names)
    ensures DoAll(d, ProposalWrites(names, d.proposals, Full(w, m)))
            == d.(proposals := ProposalsAfter(names, d.proposals, Full(w, m)))
  {
    hide GoodRun, DoAll, ProposalWrites, ProposalsAfter, Full;
  }

  lemma ProposalUntouched(d: Disk, names: seq<Name>, i: nat, full: Mapping)
    requires i < |names| && (forall n :: n in names ==> n in d.proposals) && names[i] !in names[..i]
    requires forall n :: n in names[..i] ==> n in d.proposals
    ensures var after := ProposalsAfter(names[..i], d.proposals, full);
            names[i] in after && after[names[i]] == d.proposals[names[i]]
  {
    assert names[i] in names;
    hide RemapProposal;
  }

  // ---------------------------------------------------------------------------------------
  // Re-keying over a snapshot of the directory is re-keying the first stale hollow, again and again.

  ghost predicate Rekeying(d0: Disk, hs: map<Name, Hollow>, ids: seq<Name>, i: nat, d: Disk, done: seq<Write>,
                           renamed: Mapping) {
    && i <= |ids| && hs == d0.hollows && ids == Sorted(hs.Keys)
    && d == d0.(hollows := d.hollows) && HollowsOk(hs) && HollowsOk(d.hollows)
    && StillStale(hs, ids, i, d.hollows)
    && RekeyWrites(hs) == done + RekeyWrites(d.hollows)
    && DoAll(d0, done) == d
    && renamed == RenamedUpTo(hs, ids, i)
  }

  /** Of the snapshot's stale hollows exactly those from `i` on are left, as they were. */
  ghost predicate StillStale(hs: map<Name, Hollow>, ids: seq<Name>, i: nat, now: map<Name, Hollow>)
    requires i <= |ids|
  {
    && (forall j :: j in StaleIds(now) <==> j in StaleIds(hs) && j !in ids[..i])
    && (forall j :: j in StaleIds(now) ==> now[j] == hs[j])
  }

  function RenamedUpTo(hs: map<Name, Hollow>, ids: seq<Name>, i: nat): Mapping
    requires i <= |ids|
  {
    map j | j in hs && j in ids[..i] && !hs[j].current :: hs[j].rehash
  }

  lemma RekeyingStarts(d0: Disk, hs: map<Name, Hollow>, ids: seq<Name>)
    requires hs == d0.hollows && HollowsOk(hs) && ids == Sorted(hs.Keys)
    ensures Rekeying(d0, hs, ids, 0, d0, [], map[])
  {
    hide HollowsOk, RekeyWrites, Sorted;
    assert [] + RekeyWrites(hs) == RekeyWrites(hs);
    assert ids[..0] == [];
  }

  lemma RekeyingOk(d0: Disk, hs: map<Name, Hollow>, ids: seq<Name>, i: nat, d: Disk, done: seq<Write>, renamed: Mapping)
    requires Rekeying(d0, hs, ids, i, d, done, renamed)
    ensures HollowsOk(hs)
  {
    hide HollowsOk, RekeyWrites, StillStale, DoAll, RenamedUpTo;
  }

  /** The crash came while the `i`-th hollow was re-keyed. */
  lemma RekeyingDies(d0: Disk, b0: nat, hs: map<Name, Hollow>, ids: seq<Name>, i: nat, d: Disk, b: nat,
                     done: seq<Write>, renamed: Mapping,
                     e: Disk, b2: nat)
    requires Rekeying(d0, hs, ids, i, d, done, renamed) && i < |ids| && ids[i] in hs
    requires !hs[ids[i]].current && hs[ids[i]].rehash != ids[i]
    requires Ran(d0, b0, done, d, b, true)
    requires Ran(d, b, [StoreHollow(hs[ids[i]].rehash, Renew(hs[ids[i]]))] + [DropHollow(ids[i])], e, b2, false)
    ensures Ran(d0, b0, RekeyWrites(hs), e, b2, false)
  {
    hide *;
    RekeyOne(d0, hs, ids, i, d, done, renamed);
    var x, y := StoreHollow(hs[ids[i]].rehash, Renew(hs[ids[i]])), DropHollow(ids[i]);
    assert [x] + [y] == [x, y];
    RanThen(d0, b0, done, d, b, [x, y], e, b2, false);
    RanDead(d0, b0, done + [x, y], e, b2, RekeyWrites(hs));
  }

  lemma RekeyingLives(d0: Disk, b0: nat, hs: map<Name, Hollow>, ids: seq<Name>, i: nat, d: Disk, b: nat,
                      done: seq<Write>, renamed: Mapping,
                      e: Disk, b2: nat)
    requires Rekeying(d0, hs, ids, i, d, done, renamed) && i < |ids| && ids[i] in hs
    requires !hs[ids[i]].current && hs[ids[i]].rehash != ids[i]
    requires Ran(d0, b0, done, d, b, true)
    requires Ran(d, b, [StoreHollow(hs[ids[i]].rehash, Renew(hs[ids[i]]))] + [DropHollow(ids[i])], e, b2, true)
    ensures var ws := done + [StoreHollow(hs[ids[i]].rehash, Renew(hs[ids[i]])), DropHollow(ids[i])];
            Rekeying(d0, hs, ids, i + 1, e, ws, renamed[ids[i] := hs[ids[i]].rehash]) && Ran(d0, b0, ws, e, b2, true)
  {
    hide *;
    var x, y := StoreHollow(hs[ids[i]].rehash, Renew(hs[ids[i]])), DropHollow(ids[i]);
    assert [x] + [y] == [x, y];
    RanThen(d0, b0, done, d, b, [x, y], e, b2, true);
    RanParts(d0, b0, done + [x, y], e, b2);
    RekeyedOne(d0, hs, ids, i, d, done, renamed, e);
  }

  lemma RekeyingAt(d0: Disk, hs: map<Name, Hollow>, ids: seq<Name>, i: nat, d: Disk, done: seq<Write>, renamed: Mapping)
    requires Rekeying(d0, hs, ids, i, d, done, renamed) && i < |ids|
    ensures ids[i] in hs
  {
    hide HollowsOk, RekeyWrites, StillStale, DoAll, RenamedUpTo;
    assert ids[i] in ids;
  }

  lemma SkipCurrent(d0: Disk, hs: map<Name, Hollow>, ids: seq<Name>, i: nat, d: Disk, done: seq<Write>,
                    renamed: Mapping)
    requires Rekeying(d0, hs, ids, i, d, done, renamed) && i < |ids| && ids[i] in hs && hs[ids[i]].current
    ensures Rekeying(d0, hs, ids, i + 1, d, done, renamed)
  {
    hide HollowsOk, RekeyWrites, DoAll, Sorted, StillStale, RenamedUpTo;
    SkipStale(hs, ids, i, d.hollows);
  }

  lemma SkipStale(hs: map<Name, Hollow>, ids: seq<Name>, i: nat, now: map<Name, Hollow>)
    requires i < |ids| && ids[i] in hs && hs[ids[i]].current && StillStale(hs, ids, i, now)
    ensures StillStale(hs, ids, i + 1, now) && RenamedUpTo(hs, ids, i + 1) == RenamedUpTo(hs, ids, i)
  {
    assert ids[..i + 1] == ids[..i] + [ids[i]];
    assert ids[i] !in StaleIds(hs);
    hide StaleIds;
  }

  lemma PrefixMembers(ids: seq<Name>, i: nat)
    requires i <= |ids|
    ensures forall k :: 0 <= k < i ==> ids[k] in ids[..i]
  {
    forall k | 0 <= k < i ensures ids[k] in ids[..i] { assert ids[..i][k] == ids[k]; }
  }

  lemma LeastOfRest(s: set<Name>, ids: seq<Name>, i: nat, rest: set<Name>)
    requires ids == Sorted(s) && i < |ids| && ids[i] in rest && rest <= s && forall j :: j in rest ==> j !in ids[..i]
    ensures Minimum(rest) == ids[i]
  {
    SortedIncreases(s);
    PrefixMembers(ids, i);
    hide Le, Sorted, Minimum;
    forall y | y in rest ensures Le(ids[i], y) {
      assert y in ids;
      var k :| 0 <= k < |ids| && ids[k] == y;
      assert k >= i;
      LeReflexive(y);
    }
    LeastUnique(Minimum(rest), ids[i], rest);
  }

  lemma StaleAt(hs: map<Name, Hollow>, ids: seq<Name>, i: nat, now: map<Name, Hollow>)
    requires ids == Sorted(hs.Keys) && i < |ids| && StillStale(hs, ids, i, now) && ids[i] in hs && !hs[ids[i]].current
    ensures StaleIds(now) != {} && Minimum(StaleIds(now)) == ids[i] && ids[i] in now && now[ids[i]] == hs[ids[i]]
  {
    assert ids[i] in StaleIds(hs);
    PrefixDistinct(ids, i);
    assert ids[i] in StaleIds(now);
    assert StaleIds(now) <= hs.Keys;
    hide StillStale, Sorted, Minimum;
    LeastOfRest(hs.Keys, ids, i, StaleIds(now));
  }

  lemma NotCurrent(hs: map<Name, Hollow>, id: Name)
    requires HollowsOk(hs) && id in hs && !(hs[id].rehash == id && hs[id].current)
    ensures !hs[id].current && hs[id].rehash != id
  {
    assert hs[id].rehash == hs[id].rehash;
  }

  lemma RekeyUnfolds(now: map<Name, Hollow>)
    requires StaleIds(now) != {}
    ensures var id := Minimum(StaleIds(now));
            RekeyWrites(now) == [StoreHollow(now[id].rehash, Renew(now[id])), DropHollow(id)]
            + RekeyWrites(RekeyFirst(now))
  {
    hide StaleIds, Minimum, RekeyFirst, Renew;
  }

  lemma TwoFirst(done: seq<Write>, a: Write, b: Write, rest: seq<Write>)
    ensures done + [a] <= done + ([a, b] + rest) && done + [a, b] <= done + ([a, b] + rest)
    ensures done + ([a, b] + rest) == done + [a, b] + rest
  {
  }

  /** The next stale hollow in the snapshot is the first stale one on disk. */
  lemma RekeyOne(d0: Disk, hs: map<Name, Hollow>, ids: seq<Name>, i: nat, d: Disk, done: seq<Write>, renamed: Mapping)
    requires Rekeying(d0, hs, ids, i, d, done, renamed) && i < |ids| && ids[i] in hs
    requires !(hs[ids[i]].rehash == ids[i] && hs[ids[i]].current)
    ensures var id := ids[i];
            var a, b := StoreHollow(hs[id].rehash, Renew(hs[id])), DropHollow(id);
            && !hs[id].current && hs[id].rehash != id
            && StaleIds(d.hollows) != {} && Minimum(StaleIds(d.hollows)) == id && id in d.hollows
               && d.hollows[id] == hs[id]
            && RekeyWrites(hs) == done + [a, b] + RekeyWrites(RekeyFirst(d.hollows))
            && done + [a] <= RekeyWrites(hs) && done + [a, b] <= RekeyWrites(hs)
  {
    hide HollowsOk, RekeyWrites, StillStale, DoAll, RenamedUpTo, StaleIds, Sorted, RekeyFirst, Renew;
    var id := ids[i];
    NotCurrent(hs, id);
    StaleAt(hs, ids, i, d.hollows);
    RekeyUnfolds(d.hollows);
    TwoFirst(done, StoreHollow(hs[id].rehash, Renew(hs[id])), DropHollow(id), RekeyWrites(RekeyFirst(d.hollows)));
  }

  lemma RekeyedHollows(now: map<Name, Hollow>)
    requires HollowsOk(now) && StaleIds(now) != {}
    ensures HollowsOk(RekeyFirst(now)) && StaleMap(RekeyFirst(now)) == StaleMap(now) - {Minimum(StaleIds(now))}
  {
    var id := Minimum(StaleIds(now));
    FirstRekeys(now);
    hide HollowsOk, RekeyFirst, StaleIds, StaleMap, Rekeys, Replaced, FinalHollows;
    StoredHollowKeeps(now, id, now[id].rehash, Renew(now[id]));
    DroppedHollowKeeps(now[now[id].rehash := Renew(now[id])], id);
  }

  lemma StaleKeys(hs: map<Name, Hollow>)
    ensures StaleMap(hs).Keys == StaleIds(hs)
  {
  }

  lemma StaysStale(now: map<Name, Hollow>, j: Name)
    requires HollowsOk(now) && StaleIds(now) != {} && j in StaleIds(now) && j != Minimum(StaleIds(now))
    ensures j in RekeyFirst(now) && RekeyFirst(now)[j] == now[j]
  {
    var id := Minimum(StaleIds(now));
    assert id in now && now[id].rehash in now ==> now[now[id].rehash].current;
    hide HollowsOk;
  }

  lemma StillStaleNext(hs: map<Name, Hollow>, ids: seq<Name>, i: nat, now: map<Name, Hollow>)
    requires HollowsOk(now) && i < |ids| && StillStale(hs, ids, i, now) && StaleIds(now) != {}
             && Minimum(StaleIds(now)) == ids[i]
    ensures StillStale(hs, ids, i + 1, RekeyFirst(now))
  {
    var next := RekeyFirst(now);
    RekeyedHollows(now);
    StaleKeys(now);
    StaleKeys(next);
    assert ids[..i + 1] == ids[..i] + [ids[i]];
    assert forall j :: j in StaleIds(next) <==> j in StaleMap(next);
    hide HollowsOk, RekeyFirst, StaleMap;
    forall j ensures j in StaleIds(next) <==> j in StaleIds(hs) && j !in ids[..i + 1] { }
    forall j | j in StaleIds(next) ensures next[j] == hs[j] {
      StaysStale(now, j);
    }
  }

  lemma RenamedNext(hs: map<Name, Hollow>, ids: seq<Name>, i: nat)
    requires i < |ids| && ids[i] in hs && !hs[ids[i]].current
    ensures RenamedUpTo(hs, ids, i + 1) == RenamedUpTo(hs, ids, i)[ids[i] := hs[ids[i]].rehash]
  {
    assert ids[..i + 1] == ids[..i] + [ids[i]];
  }

  lemma StepDisk(d0: Disk, done: seq<Write>, d: Disk, hs: map<Name, Hollow>, id: Name)
    requires DoAll(d0, done) == d && StaleIds(d.hollows) != {} && Minimum(StaleIds(d.hollows)) == id && id in hs
             && d.hollows[id] == hs[id]
    ensures DoAll(d0, done + [StoreHollow(hs[id].rehash, Renew(hs[id])), DropHollow(id)])
            == d.(hollows := RekeyFirst(d.hollows))
  {
    var a, b := StoreHollow(hs[id].rehash, Renew(hs[id])), DropHollow(id);
    assert Do(Do(d, a), b) == d.(hollows := RekeyFirst(d.hollows));
    hide Do, DoAll, StaleIds, Minimum, Renew, RekeyFirst;
    DoAllConcat(d0, done, [a, b]);
    assert [a, b] == [a] + [b];
    DoAllConcat(d, [a], [b]);
    DoOne(d, a);
    DoOne(Do(d, a), b);
  }

  lemma RekeyedOne(d0: Disk, hs: map<Name, Hollow>, ids: seq<Name>, i: nat, d: Disk, done: seq<Write>, renamed: Mapping,
                   e: Disk)
    requires Rekeying(d0, hs, ids, i, d, done, renamed) && i < |ids| && ids[i] in hs
    requires !(hs[ids[i]].rehash == ids[i] && hs[ids[i]].current)
    requires e == DoAll(d0, done + [StoreHollow(hs[ids[i]].rehash, Renew(hs[ids[i]])), DropHollow(ids[i])])
    ensures Rekeying(d0, hs, ids, i + 1, e,
                     done + [StoreHollow(hs[ids[i]].rehash, Renew(hs[ids[i]])), DropHollow(ids[i])],
                     renamed[ids[i] := hs[ids[i]].rehash])
  {
    RekeyOne(d0, hs, ids, i, d, done, renamed);
    hide HollowsOk, RekeyWrites, StillStale, DoAll, RenamedUpTo, StaleIds, Sorted, RekeyFirst, Renew, StaleMap;
    StepDisk(d0, done, d, hs, ids[i]);
    StillStaleNext(hs, ids, i, d.hollows);
    RekeyedHollows(d.hollows);
    RenamedNext(hs, ids, i);
  }

  lemma NoneLeft(hs: map<Name, Hollow>, ids: seq<Name>, now: map<Name, Hollow>)
    requires ids == Sorted(hs.Keys) && StillStale(hs, ids, |ids|, now)
    ensures StaleIds(now) == {} && RenamedUpTo(hs, ids, |ids|) == StaleMap(hs)
  {
    hide Sorted;
    assert ids[..|ids|] == ids;
    assert StaleIds(hs) <= hs.Keys;
    assert StaleIds(now) == {};
  }

  lemma RekeyingEnds(d0: Disk, hs: map<Name, Hollow>, ids: seq<Name>, d: Disk, done: seq<Write>, renamed: Mapping)
    requires Rekeying(d0, hs, ids, |ids|, d, done, renamed)
    ensures done == RekeyWrites(hs) && renamed == StaleMap(hs)
  {
    NoneLeft(hs, ids, d.hollows);
    assert RekeyWrites(d.hollows) == [];
    hide HollowsOk, RekeyWrites, StillStale, DoAll, RenamedUpTo, StaleIds, Sorted, StaleMap;
    assert done + [] == done;
  }

  // ---------------------------------------------------------------------------------------
  // Phase by phase.

  /** Phases before `k` have run, making the first writes of the execution. */
  ghost predicate At(w: World, m: Manifest, list: Listing, renamed: Mapping, k: nat, d0: Disk, b0: nat, d: Disk,
                     b: nat) {
    && k <= 10 && 0 <= PHASES && k <= PHASES && Before(w, m, k, d) && (k <= 6 ==> d.hollows == d0.hollows)
    && exists done :: Led(w, m, list, renamed, k, d0, b0, d, b, done)
  }

  ghost predicate Led(w: World, m: Manifest, list: Listing, renamed: Mapping, k: nat, d0: Disk, b0: nat, d: Disk,
                      b: nat, done: seq<Write>)
    requires 0 <= PHASES && k <= PHASES
  {
    Ran(d0, b0, done, d, b, true) && From(w, m, list, renamed, 0, d0) == done + From(w, m, list, renamed, k, d)
  }

  lemma ExecutionStarts(w: World, m: Manifest, list: Listing, renamed: Mapping, d0: Disk, b0: nat)
    requires Working(w, m, d0) && renamed == StaleMap(d0.hollows)
    ensures At(w, m, list, renamed, 0, d0, b0, d0, b0) && d0.manifest == Some(m)
  {
    assert 0 <= PHASES;
    assert Before(w, m, 0, d0) by { hide Working; }
    hide *;
    WorkingManifest(w, m, d0);
    LedNowhere(w, m, list, renamed, d0, b0);
    AtStart(w, m, list, renamed, d0, b0);
  }

  lemma LedNowhere(w: World, m: Manifest, list: Listing, renamed: Mapping, d: Disk, b: nat)
    requires 0 <= PHASES
    ensures Led(w, m, list, renamed, 0, d, b, d, b, [])
  {
    hide From, Ran;
    RanNothing(d, b);
    var all := From(w, m, list, renamed, 0, d);
    assert [] + all == all;
  }

  lemma AtStart(w: World, m: Manifest, list: Listing, renamed: Mapping, d: Disk, b: nat)
    requires 0 <= PHASES && Before(w, m, 0, d) && Led(w, m, list, renamed, 0, d, b, d, b, [])
    ensures At(w, m, list, renamed, 0, d, b, d, b)
  {
    hide Led, Before;
  }

  lemma AtParts(w: World, m: Manifest, list: Listing, renamed: Mapping, k: nat, d0: Disk, b0: nat, d: Disk, b: nat)
    requires At(w, m, list, renamed, k, d0, b0, d, b)
    ensures Before(w, m, k, d) && Working(w, m, d) && d.manifest == Some(m) && k <= 10
            && (k <= 6 ==> d.hollows == d0.hollows)
  {
    hide Led, Done, ValidWorld, ValidDisk;
  }

  lemma PhaseParts(w: World, m: Manifest, list: Listing, renamed: Mapping, k: nat, d: Disk)
    requires PhaseOk(w, m, list, renamed, k, d)
    ensures var e := DoAll(d, Phase(w, m, list, renamed, k, d));
            Before(w, m, k + 1, e) && (k != 6 ==> e.hollows == d.hollows)
  {
    hide Before, Phase, DoAll, GoodRun;
  }

  lemma FromUnfolds(w: World, m: Manifest, list: Listing, renamed: Mapping, k: nat, d: Disk)
    requires k < PHASES
    ensures var ws := Phase(w, m, list, renamed, k, d);
            From(w, m, list, renamed, k, d) == ws + From(w, m, list, renamed, k + 1, DoAll(d, ws))
  {
    hide DoAll, Phase;
  }

  lemma Regroup(done: seq<Write>, ws: seq<Write>, rest: seq<Write>)
    ensures done + (ws + rest) == done + ws + rest && done + ws <= done + (ws + rest)
  {
  }

  lemma LedOn(w: World, m: Manifest, list: Listing, renamed: Mapping, k: nat, d0: Disk, b0: nat, d: Disk, b: nat,
              e: Disk, b2: nat, done: seq<Write>)
    requires 0 <= PHASES && k < PHASES && Led(w, m, list, renamed, k, d0, b0, d, b, done)
    requires Ran(d, b, Phase(w, m, list, renamed, k, d), e, b2, true)
    ensures Led(w, m, list, renamed, k + 1, d0, b0, e, b2, done + Phase(w, m, list, renamed, k, d))
  {
    hide DoAll, Phase, Ran, From;
    var ws := Phase(w, m, list, renamed, k, d);
    FromUnfolds(w, m, list, renamed, k, d);
    RanParts(d, b, ws, e, b2);
    Regroup(done, ws, From(w, m, list, renamed, k + 1, e));
    RanThen(d0, b0, done, d, b, ws, e, b2, true);
  }

  lemma LedDead(w: World, m: Manifest, list: Listing, renamed: Mapping, k: nat, d0: Disk, b0: nat, d: Disk, b: nat,
                e: Disk, b2: nat, done: seq<Write>)
    requires 0 <= PHASES && k < PHASES && Led(w, m, list, renamed, k, d0, b0, d, b, done)
    requires Ran(d, b, Phase(w, m, list, renamed, k, d), e, b2, false)
    ensures Ran(d0, b0, From(w, m, list, renamed, 0, d0), e, b2, false)
  {
    hide DoAll, Phase, Ran, From;
    var ws := Phase(w, m, list, renamed, k, d);
    FromUnfolds(w, m, list, renamed, k, d);
    Regroup(done, ws, From(w, m, list, renamed, k + 1, DoAll(d, ws)));
    RanThen(d0, b0, done, d, b, ws, e, b2, false);
    RanDead(d0, b0, done + ws, e, b2, From(w, m, list, renamed, 0, d0));
  }

  ghost predicate Lands(w: World, m: Manifest, list: Listing, renamed: Mapping, k: nat, d0: Disk, b0: nat, e: Disk,
                        b2: nat) {
    At(w, m, list, renamed, k, d0, b0, e, b2) && Working(w, m, e) && e.manifest == Some(m)
    && (k <= 6 ==> e.hollows == d0.hollows)
  }

  lemma NextOk(w: World, m: Manifest, list: Listing, renamed: Mapping, k: nat, d0: Disk, b0: nat, d: Disk, b: nat,
               e: Disk, b2: nat, done: seq<Write>)
    requires k < 10 && 0 <= PHASES && k + 1 <= PHASES && Before(w, m, k, d) && (k <= 6 ==> d.hollows == d0.hollows)
             && Enumerates(list)
    requires Led(w, m, list, renamed, k, d0, b0, d, b, done) && Ran(d, b, Phase(w, m, list, renamed, k, d), e, b2, true)
    ensures Lands(w, m, list, renamed, k + 1, d0, b0, e, b2)
  {
    hide Before, Led, Phase, Ran, From, Enumerates, Working, PhaseOk, DoAll;
    AnyPhase(w, m, list, renamed, k, d);
    PhaseParts(w, m, list, renamed, k, d);
    RanParts(d, b, Phase(w, m, list, renamed, k, d), e, b2);
    LedOn(w, m, list, renamed, k, d0, b0, d, b, e, b2, done);
    assert At(w, m, list, renamed, k + 1, d0, b0, e, b2);
    hide At;
    AtParts(w, m, list, renamed, k + 1, d0, b0, e, b2);
  }

  lemma AtLed(w: World, m: Manifest, list: Listing, renamed: Mapping, k: nat, d0: Disk, b0: nat, d: Disk, b: nat)
    returns (done: seq<Write>)
    requires At(w, m, list, renamed, k, d0, b0, d, b) && k < 10
    ensures 0 <= PHASES && k + 1 <= PHASES && Led(w, m, list, renamed, k, d0, b0, d, b, done)
    ensures Before(w, m, k, d) && (k <= 6 ==> d.hollows == d0.hollows)
  {
    done :| Led(w, m, list, renamed, k, d0, b0, d, b, done);
    hide Led, Before;
  }

  lemma Next(w: World, m: Manifest, list: Listing, renamed: Mapping, k: nat, d0: Disk, b0: nat, d: Disk, b: nat,
             e: Disk, b2: nat, ok: bool)
    requires At(w, m, list, renamed, k, d0, b0, d, b) && Enumerates(list) && k < 10
    requires Ran(d, b, Phase(w, m, list, renamed, k, d), e, b2, ok)
    ensures ok ==> At(w, m, list, renamed, k + 1, d0, b0, e, b2) && Working(w, m, e) && e.manifest == Some(m)
                   && (k < 6 ==> e.hollows == d0.hollows)
    ensures !ok ==> Ran(d0, b0, From(w, m, list, renamed, 0, d0), e, b2, false)
  {
    hide Before, Led, Phase, Ran, From, Enumerates, Working, At;
    var done := AtLed(w, m, list, renamed, k, d0, b0, d, b);
    if ok {
      NextOk(w, m, list, renamed, k, d0, b0, d, b, e, b2, done);
    } else {
      LedDead(w, m, list, renamed, k, d0, b0, d, b, e, b2, done);
    }
  }

  lemma Last(w: World, m: Manifest, list: Listing, renamed: Mapping, d0: Disk, b0: nat, d: Disk, b: nat, e: Disk,
             b2: nat, ok: bool)
    requires At(w, m, list, renamed, 10, d0, b0, d, b) && Ran(d, b, [DropManifest], e, b2, ok)
    ensures Ran(d0, b0, From(w, m, list, renamed, 0, d0), e, b2, ok)
  {
    assert 11 == PHASES;
    PhaseWrites(w, m, list, renamed, d);
    var done :| Led(w, m, list, renamed, 10, d0, b0, d, b, done);
    assert From(w, m, list, renamed, 10, d) == [DropManifest] by {
      assert From(w, m, list, renamed, 11, DoAll(d, [DropManifest])) == [];
      hide DoAll, Phase, Ran, Led, Before;
    }
    hide From, Phase, Ran, Before;
    RanThen(d0, b0, done, d, b, [DropManifest], e, b2, ok);
  }

  lemma ResumeProgram(w: World, list: Listing, d: Disk, m: Manifest)
    requires ValidWorld(w) && ValidDisk(w, d) && d.manifest == Some(m)
    ensures Working(w, m, d) && Program(w, list, d) == From(w, m, list, StaleMap(d.hollows), 0, d)
  {
    hide ValidWorld, ValidDisk, From, StaleMap;
  }

  lemma FreshProgram(w: World, list: Listing, d: Disk, m: Manifest)
    requires ValidWorld(w) && ValidDisk(w, d) && d.manifest.None? && PreV3(d.ops) != [] && m == PlanOf(w, d)
    ensures Program(w, list, d) != []
    ensures var e := Do(d, SaveManifest(m));
            && Working(w, m, e)
            && Program(w, list, d) == [SaveManifest(m)] + Program(w, list, d)[1..]
            && Program(w, list, d)[1..] == From(w, m, list, StaleMap(e.hollows), 0, e)
  {
    assert !NothingToDo(d);
    DoSaveManifest(w, d);
    hide ValidWorld, From, StaleMap, PlanOf, PreV3, Outcome, HollowsOk, OpsOk, MapsAcross;
  }

  /** `needs_migration`: any pre-v3 op is either mapped or orphaned. */
  lemma NothingPlanned(v2: seq<Op>, v3: seq<Op>)
    ensures MappingOf(v2, v3) == map[] && Sorted(OrphansOf(v2, v3)) == [] <==> v2 == []
  {
    hide RungOf, Sorted;
    if v2 != [] {
      var op := v2[|v2| - 1];
      if RungOf(v3, op).Orphan? {
        assert op.id in Sorted(OrphansOf(v2, v3));
      } else {
        assert op.id in MappingOf(v2, v3);
      }
    }
  }

  lemma NothingMapped(w: World, list: Listing, d: Disk)
    requires d.manifest.None?
    ensures PreV3(d.ops) == [] ==> Program(w, list, d) == []
    ensures PlanOf(w, d) == Manifest(MappingOf(PreV3(d.ops), w.v3), Sorted(OrphansOf(PreV3(d.ops), w.v3)), w.key,
                                     w.ideal)
  {
    hide From, StaleMap, PreV3, MappingOf, OrphansOf;
  }
}
