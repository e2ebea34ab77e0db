/** The version crossing as a machine that may stop between any two writes (`sgt/core/migrate.py`,
    `_execute` and `migrate_ops_v3`).

    A write is *good* in a state when it is one the crossing makes there.  A good write never changes
    where the store is headed: the outcome of an uninterrupted apply is the same before and after it.
    So however often an apply is cut short, the one that completes leaves what a single one would
    have. */
module Crossing {
  import opened Names
  import opened BuildMap
  import opened Remap
  import opened Disk

  /** Everything is rewritten and every v3 op is filed; only old op files and the manifest remain. */
  ghost predicate Migrated(w: World, m: Manifest, d: Disk) {
    HollowsOk(d.hollows) && Carried(w, m, d) == d
  }

  /** `h` is the re-keyed form of the stale hollow `i`. */
  ghost predicate Rekeys(hs: map<Name, Hollow>, i: Name, n: Name, h: Hollow) {
    i in hs && !hs[i].current && hs[i].rehash == n && h == Renew(hs[i])
  }

  /** `i` has been re-keyed, and it is the first of those that re-key to the same id. */
  ghost predicate Replaced(hs: map<Name, Hollow>, i: Name) {
    && i in hs && !hs[i].current && hs[i].rehash in hs && hs[hs[i].rehash] == Renew(hs[i])
    && forall j :: j in StaleFor(hs, hs[i].rehash) ==> Le(i, j)
  }

  /** The writes the crossing makes in a state; `renamed` is the hollow map the run holds in memory. */
  ghost predicate Good(w: World, renamed: Mapping, d: Disk, write: Write) {
    var m := ManifestOf(w, d);
    if write.SaveManifest? then d.manifest.None? && !NothingToDo(d) && write.manifest == m
    else
      d.manifest.Some? &&
      match write
      case SaveManifest(_) => false
      case StoreOp(op) => op in w.v3
      case SaveTable(t) => t == FinalTable(w, m, d.table)
      case SaveJournal(j) => Some(j) == FinalJournal(w, m, d.journal)
      case SaveForks(f) => Some(f) == FinalForks(w, m, d.forks)
      case SaveOrSet(o) => Some(o) == FinalOrSet(w, m, d.orset)
      case SaveStaged(s) => Some(s) == FinalStaged(w, m, d.staged)
      case StoreHollow(n, h) => exists i :: Rekeys(d.hollows, i, n, h)
      case DropHollow(i) => Replaced(d.hollows, i)
      case SaveDrafts(ds) => Some(ds) == FinalDrafts(w, m, d.drafts, renamed)
      case SaveProposal(n, p) => n in d.proposals && p == RemapProposal(d.proposals[n], Full(w, m))
      case DropOp(i) => i !in V3Ids(w) && Migrated(w, m, d)
      case DropManifest => Migrated(w, m, d) && d.ops.Keys <= V3Ids(w)
  }

  // ---------------------------------------------------------------------------------------
  // Ops.

  lemma StoredAt(w: World, ops: map<Name, Op>, op: Op, id: Name)
    requires ValidWorld(w) && op in w.v3 && (id in ops || id in IdsOf(w.v3))
    ensures id in AddAll(Stored(ops, op), w.v3) && AddAll(Stored(ops, op), w.v3)[id] == AddAll(ops, w.v3)[id]
  {
    var all := Provenance(w.v3, op.id);
    assert op.provenance <= all;
    if id == op.id {
      assert op.id in IdsOf(w.v3);
      var first := Mined(w.v3, op.id);
      assert first.(provenance := {}) == op.(provenance := {});
      assert first.(provenance := all) == op.(provenance := all);
      hide *;
      StoredAtItself(ops, op, w.v3);
    } else {
      hide Provenance, Mined, IdsOf, ValidWorld;
    }
  }

  lemma StoredAtItself(ops: map<Name, Op>, op: Op, v3: seq<Op>)
    requires op.id in IdsOf(v3) && op.provenance <= Provenance(v3, op.id)
    requires Mined(v3, op.id).(provenance := Provenance(v3, op.id)) == op.(provenance := Provenance(v3, op.id))
    ensures op.id in AddAll(Stored(ops, op), v3) && AddAll(Stored(ops, op), v3)[op.id] == AddAll(ops, v3)[op.id]
  {
    hide Provenance, Mined, IdsOf;
    var all := Provenance(v3, op.id);
    if op.id in ops {
      assert ops[op.id].provenance + op.provenance + all == ops[op.id].provenance + all;
    } else {
      assert op.provenance + all == all;
    }
  }

  lemma FiledKeys(ops: map<Name, Op>, v3: seq<Op>)
    ensures AddAll(ops, v3).Keys == ops.Keys + IdsOf(v3)
  {
    hide IdsOf, Provenance, Mined;
  }

  lemma StoredKey(ops: map<Name, Op>, op: Op)
    ensures Stored(ops, op).Keys == ops.Keys + {op.id}
  {
  }

  lemma Listed(v3: seq<Op>, op: Op)
    requires op in v3
    ensures op.id in IdsOf(v3)
  {
  }

  lemma StoredKeys(ops: map<Name, Op>, v3: seq<Op>, op: Op)
    requires op in v3
    ensures AddAll(Stored(ops, op), v3).Keys == AddAll(ops, v3).Keys == ops.Keys + IdsOf(v3)
  {
    hide *;
    Listed(v3, op);
    StoredKey(ops, op);
    FiledKeys(Stored(ops, op), v3);
    FiledKeys(ops, v3);
    SetAbsorbs(ops.Keys, op.id, IdsOf(v3));
  }

  lemma SetAbsorbs(a: set<Name>, x: Name, b: set<Name>)
    requires x in b
    ensures a + {x} + b == a + b
  {
  }

  lemma EqualMaps(a: map<Name, Op>, b: map<Name, Op>)
    requires a.Keys == b.Keys && forall id :: id in b ==> a[id] == b[id]
    ensures a == b
  {
  }

  lemma StoredKeeps(w: World, ops: map<Name, Op>, op: Op)
    requires ValidWorld(w) && op in w.v3
    ensures AddAll(Stored(ops, op), w.v3) == AddAll(ops, w.v3)
  {
    hide *;
    StoredKeys(ops, w.v3, op);
    var a, b := AddAll(Stored(ops, op), w.v3), AddAll(ops, w.v3);
    forall id | id in b ensures a[id] == b[id] {
      assert id in ops.Keys + IdsOf(w.v3);
      StoredAt(w, ops, op, id);
    }
    EqualMaps(a, b);
  }

  lemma StoredOk(w: World, ops: map<Name, Op>, op: Op)
    requires ValidWorld(w) && op in w.v3 && OpsOk(w, ops)
    ensures OpsOk(w, Stored(ops, op))
  {
  }

  lemma DroppedKeeps(w: World, ops: map<Name, Op>, id: Name)
    requires id !in V3Ids(w)
    ensures AddAll(ops - {id}, w.v3) == AddAll(ops, w.v3) - {id}
    ensures Only(AddAll(ops - {id}, w.v3), V3Ids(w)) == Only(AddAll(ops, w.v3), V3Ids(w))
  {
    var a, b := AddAll(ops - {id}, w.v3), AddAll(ops, w.v3);
    FiledKeys(ops - {id}, w.v3);
    FiledKeys(ops, w.v3);
    hide Provenance, Mined, IdsOf, Only;
    assert a.Keys == (b - {id}).Keys;
    assert a == b - {id};
    hide AddAll;
    OnlyIgnores(b, V3Ids(w), id);
  }

  lemma OnlyIgnores(ops: map<Name, Op>, ids: set<Name>, id: Name)
    requires id !in ids
    ensures Only(ops - {id}, ids) == Only(ops, ids)
  {
  }

  // ---------------------------------------------------------------------------------------
  // Hollows.

  lemma StoredHollowOk(hs: map<Name, Hollow>, i: Name, n: Name, h: Hollow)
    requires HollowsOk(hs) && Rekeys(hs, i, n, h)
    ensures HollowsOk(hs[n := h]) && i != n
  {
    assert hs[i].rehash == n;
    var after := hs[n := h];
    forall j {:trigger after[j].rehash} | j in after
      ensures (after[j].current <==> after[j].rehash == j)
              && (after[j].rehash in after ==> after[after[j].rehash].current)
    {
      if j != n { assert hs[j].rehash == after[j].rehash; }
    }
  }

  lemma StoredHollowKeeps(hs: map<Name, Hollow>, i: Name, n: Name, h: Hollow)
    requires HollowsOk(hs) && Rekeys(hs, i, n, h)
    ensures HollowsOk(hs[n := h]) && FinalHollows(hs[n := h]) == FinalHollows(hs)
            && StaleMap(hs[n := h]) == StaleMap(hs)
  {
    StoredHollowOk(hs, i, n, h);
    var after := hs[n := h];
    assert i in StaleFor(hs, n) && n in Targets(hs) by { hide HollowsOk; assert hs[i].rehash == n; }
    NoStaleAt(hs, n);
    assert n in hs ==> hs[n].rehash == n;
    assert StaleMap(after) == StaleMap(hs) by { hide HollowsOk, Targets, StaleFor; }
    hide *;
    TargetsSame(hs, i, n, h);
    forall k | k in Targets(hs)
      ensures k in FinalHollows(after) && k in FinalHollows(hs) && FinalHollows(after)[k] == FinalHollows(hs)[k]
    {
      KeyedByTarget(hs, k);
      KeyedByTarget(after, k);
      StaleForSame(hs, after, k);
      FinalSame(hs, i, n, h, k);
    }
    SameFinals(hs, after);
  }

  /** The final hollows are keyed by target. */
  lemma SameFinals(a: map<Name, Hollow>, b: map<Name, Hollow>)
    requires HollowsOk(a) && HollowsOk(b) && Targets(a) == Targets(b)
    requires forall k :: k in Targets(a)
               ==> k in FinalHollows(a) && k in FinalHollows(b) && FinalHollows(a)[k] == FinalHollows(b)[k]
    ensures FinalHollows(a) == FinalHollows(b)
  {
    hide HollowsOk, Targets, FinalHollow;
  }

  lemma NoStaleAt(hs: map<Name, Hollow>, n: Name)
    requires HollowsOk(hs) && n in Targets(hs)
    ensures n in hs ==> hs[n].current
  {
    var i :| i in hs && hs[i].rehash == n;
  }

  lemma StaleForSame(hs: map<Name, Hollow>, after: map<Name, Hollow>, k: Name)
    requires StaleMap(after) == StaleMap(hs)
    ensures StaleFor(after, k) == StaleFor(hs, k)
  {
    forall i ensures i in StaleFor(after, k) <==> i in StaleFor(hs, k) {
      assert i in StaleMap(after) <==> i in StaleMap(hs);
    }
  }

  lemma TargetsSame(hs: map<Name, Hollow>, i: Name, n: Name, h: Hollow)
    requires Rekeys(hs, i, n, h) && (n in hs ==> hs[n].rehash == n)
    ensures Targets(hs[n := h]) == Targets(hs)
  {
    var after := hs[n := h];
    forall t ensures t in Targets(after) <==> t in Targets(hs) {
      if t in Targets(hs) {
        var j :| j in hs && hs[j].rehash == t;
        if j == n { assert after[n].rehash == n; } else { assert after[j].rehash == t; }
      }
      if t in Targets(after) {
        var j :| j in after && after[j].rehash == t;
        if j == n { assert hs[i].rehash == t; } else { assert hs[j].rehash == t; }
      }
    }
  }

  lemma FinalSame(hs: map<Name, Hollow>, i: Name, n: Name, h: Hollow, k: Name)
    requires HollowsOk(hs) && HollowsOk(hs[n := h]) && Rekeys(hs, i, n, h) && k in Targets(hs)
             && k in Targets(hs[n := h])
    requires StaleFor(hs[n := h], k) == StaleFor(hs, k) && i in StaleFor(hs, n)
    ensures FinalHollows(hs[n := h])[k] == FinalHollows(hs)[k]
  {
    var after := hs[n := h];
    TargetsAreSettled(hs, k);
    TargetsAreSettled(after, k);
    if StaleFor(hs, k) != {} {
      var g := Greatest(StaleFor(hs, k));
      assert g in StaleFor(hs, k) && g in StaleFor(after, k);
      assert h.current && g != n;
    }
    hide HollowsOk;
  }

  lemma DroppedHollowOk(hs: map<Name, Hollow>, i: Name)
    requires HollowsOk(hs) && Replaced(hs, i)
    ensures HollowsOk(hs - {i})
  {
    var after := hs - {i};
    forall j {:trigger after[j].rehash} | j in after
      ensures (after[j].current <==> after[j].rehash == j)
              && (after[j].rehash in after ==> after[after[j].rehash].current)
    {
      assert hs[j].rehash == after[j].rehash;
    }
  }

  lemma DroppedHollowKeeps(hs: map<Name, Hollow>, i: Name)
    requires HollowsOk(hs) && Replaced(hs, i)
    ensures HollowsOk(hs - {i}) && FinalHollows(hs - {i}) == FinalHollows(hs)
            && StaleMap(hs - {i}) == StaleMap(hs) - {i}
  {
    var after := hs - {i};
    assert StaleMap(after) == StaleMap(hs) - {i} by { hide HollowsOk, Replaced; }
    hide *;
    DroppedHollowOk(hs, i);
    DroppedTargets(hs, i);
    forall k | k in Targets(hs)
      ensures k in FinalHollows(after) && k in FinalHollows(hs) && FinalHollows(after)[k] == FinalHollows(hs)[k]
    {
      KeyedByTarget(hs, k);
      KeyedByTarget(after, k);
      DroppedFinal(hs, i, k);
    }
    SameFinals(hs, after);
  }

  lemma KeyedByTarget(hs: map<Name, Hollow>, k: Name)
    requires HollowsOk(hs)
    ensures k in FinalHollows(hs) <==> k in Targets(hs)
  {
    hide HollowsOk, Targets, FinalHollow;
  }

  lemma DroppedTargets(hs: map<Name, Hollow>, i: Name)
    requires HollowsOk(hs) && Replaced(hs, i)
    ensures Targets(hs - {i}) == Targets(hs)
  {
    var after, n := hs - {i}, hs[i].rehash;
    assert hs[n].rehash == n;
    forall t ensures t in Targets(after) <==> t in Targets(hs) {
      if t in Targets(hs) {
        var j :| j in hs && hs[j].rehash == t;
        if j == i { assert n in after && after[n].rehash == t; } else { assert after[j].rehash == t; }
      }
    }
  }

  lemma DroppedStale(hs: map<Name, Hollow>, i: Name, k: Name)
    ensures StaleFor(hs - {i}, k) == StaleFor(hs, k) - {i}
    ensures i in hs && hs[i].rehash != k ==> i !in StaleFor(hs, k)
  {
  }

  lemma FinalCongruent(a: map<Name, Hollow>, b: map<Name, Hollow>, k: Name)
    requires StaleFor(a, k) == StaleFor(b, k)
    requires if StaleFor(a, k) == {} then k in a && k in b && a[k] == b[k]
             else forall j :: j in StaleFor(a, k) ==> a[j] == b[j]
    ensures FinalHollow(a, k) == FinalHollow(b, k)
  {
    if StaleFor(a, k) != {} {
      var g := Greatest(StaleFor(a, k));
      assert g in StaleFor(a, k);
    }
    hide StaleFor, Greatest;
  }

  lemma DroppedElsewhere(hs: map<Name, Hollow>, i: Name, k: Name)
    requires i in hs && hs[i].rehash != k && i != k && (StaleFor(hs, k) == {} ==> k in hs)
    ensures (StaleFor(hs - {i}, k) == {} ==> k in hs - {i}) && FinalHollow(hs - {i}, k) == FinalHollow(hs, k)
  {
    DroppedStale(hs, i, k);
    assert StaleFor(hs - {i}, k) == StaleFor(hs, k);
    hide FinalHollow;
    FinalCongruent(hs - {i}, hs, k);
  }

  lemma DroppedFinal(hs: map<Name, Hollow>, i: Name, k: Name)
    requires HollowsOk(hs) && HollowsOk(hs - {i}) && Replaced(hs, i) && k in Targets(hs) && k in Targets(hs - {i})
    ensures FinalHollows(hs - {i})[k] == FinalHollows(hs)[k]
  {
    var after, n := hs - {i}, hs[i].rehash;
    TargetsAreSettled(hs, k);
    TargetsAreSettled(after, k);
    NoStaleAt(hs, k);
    assert FinalHollows(after)[k] == FinalHollow(after, k) && FinalHollows(hs)[k] == FinalHollow(hs, k);
    assert i in StaleFor(hs, n) && i != n && i != k;
    hide HollowsOk, FinalHollows, Targets, FinalHollow, StaleFor;
    if k == n { DroppedFinalAt(hs, i); } else { DroppedElsewhere(hs, i, k); }
  }

  lemma DroppedFinalAt(hs: map<Name, Hollow>, i: Name)
    requires Replaced(hs, i) && i != hs[i].rehash && i in StaleFor(hs, hs[i].rehash)
    ensures var n := hs[i].rehash;
            n in hs && n in hs - {i} && FinalHollow(hs - {i}, n) == FinalHollow(hs, n)
  {
    var after, n := hs - {i}, hs[i].rehash;
    var s := StaleFor(hs, n);
    DroppedStale(hs, i, n);
    LeastLeaves(s, i);
    hide StaleFor;
    if s - {i} == {} {
    } else {
      var g := Greatest(s - {i});
      assert g in s - {i};
      assert g in StaleFor(after, n);
    }
  }

  lemma LeastLeaves(s: set<Name>, i: Name)
    requires i in s && forall j :: j in s ==> Le(i, j)
    ensures s - {i} == {} ==> Greatest(s) == i
    ensures s - {i} != {} ==> Greatest(s - {i}) == Greatest(s)
  {
    hide Greatest, Le;
    var g := Greatest(s);
    if s - {i} != {} {
      var h := Greatest(s - {i});
      if g == i { LeAntisymmetric(i, h); }
      LeAntisymmetric(g, h);
    }
  }

  // ---------------------------------------------------------------------------------------
  // A good write leaves the outcome where it was.

  ghost predicate SameButDrafts(a: Disk, b: Disk) {
    a.(drafts := None) == b.(drafts := None)
  }

  lemma DoStoreOp(w: World, d: Disk, op: Op)
    requires ValidWorld(w) && ValidDisk(w, d) && d.manifest.Some? && op in w.v3
    ensures var e := Do(d, StoreOp(op)); ValidDisk(w, e) && Outcome(w, e) == Outcome(w, d)
  {
    assert Do(d, StoreOp(op)) == d.(ops := Stored(d.ops, op));
    assert OpsOk(w, d.ops) by { hide OpsOk; }
    hide *;
    StoredOk(w, d.ops, op);
    StoredKeeps(w, d.ops, op);
    OpsKeepOutcome(w, d, Stored(d.ops, op));
  }

  /** Ops that come out the same once all are filed and only v3 ones are kept. */
  lemma OpsKeepOutcome(w: World, d: Disk, ops: map<Name, Op>)
    requires ValidDisk(w, d) && d.manifest.Some? && OpsOk(w, ops)
    requires Only(AddAll(ops, w.v3), V3Ids(w)) == Only(AddAll(d.ops, w.v3), V3Ids(w))
    ensures var e := d.(ops := ops); ValidDisk(w, e) && Outcome(w, e) == Outcome(w, d)
  {
    hide OpsOk, HollowsOk, MapsAcross, AddAll, Only, V3Ids, FinalTable, FinalJournal, FinalForks, FinalOrSet,
         FinalStaged;
    hide FinalHollows, FinalDrafts, FinalProposals, StaleMap, PlanOf, PreV3;
  }

  lemma DoSaveTable(w: World, d: Disk, t: Table)
    requires ValidWorld(w) && ValidDisk(w, d) && d.manifest.Some? && t == FinalTable(w, d.manifest.value, d.table)
    ensures var e := Do(d, SaveTable(t)); ValidDisk(w, e) && Outcome(w, e) == Outcome(w, d)
  {
    var m := d.manifest.value;
    ManifestFixes(w, d);
    RemapTableAgain(OrEmpty(d.table), Full(w, m), w.reduce, m.key, m.ideal);
    assert FinalTable(w, m, Some(t)) == t by { hide RemapTable, Fixes, ValidDisk, OpsOk, HollowsOk; }
    hide OpsOk, HollowsOk, Fixes, AddAll, Only, V3Ids, FinalTable, FinalJournal, FinalForks, FinalOrSet, FinalStaged,
         FinalHollows;
    hide FinalDrafts, FinalProposals, StaleMap, PlanOf, PreV3, Reduces, MapsAcross, RemapTable;
  }

  lemma DoSaveJournal(w: World, d: Disk, j: Journal)
    requires ValidWorld(w) && ValidDisk(w, d) && d.manifest.Some?
             && Some(j) == FinalJournal(w, d.manifest.value, d.journal)
    ensures var e := Do(d, SaveJournal(j)); ValidDisk(w, e) && Outcome(w, e) == Outcome(w, d)
  {
    ManifestFixes(w, d);
    RemapJournalAgain(d.journal.value, Full(w, d.manifest.value), w.reduce);
    hide RemapJournal, OpsOk, HollowsOk, Fixes;
  }

  lemma DoSaveForks(w: World, d: Disk, f: seq<Fork>)
    requires ValidWorld(w) && ValidDisk(w, d) && d.manifest.Some? && Some(f) == FinalForks(w, d.manifest.value, d.forks)
    ensures var e := Do(d, SaveForks(f)); ValidDisk(w, e) && Outcome(w, e) == Outcome(w, d)
  {
    ManifestFixes(w, d);
    RemapForksAgain(d.forks.value, Full(w, d.manifest.value));
    hide RemapForks, OpsOk, HollowsOk, Fixes;
  }

  lemma DoSaveOrSet(w: World, d: Disk, o: OrSet)
    requires ValidWorld(w) && ValidDisk(w, d) && d.manifest.Some? && Some(o) == FinalOrSet(w, d.manifest.value, d.orset)
    ensures var e := Do(d, SaveOrSet(o)); ValidDisk(w, e) && Outcome(w, e) == Outcome(w, d)
  {
    ManifestFixes(w, d);
    SavedOrSetAgain(d.orset.value, Full(w, d.manifest.value));
    hide SavedOrSet, RemapOrSet, OpsOk, HollowsOk, Fixes;
  }

  lemma DoSaveStaged(w: World, d: Disk, s: Staged)
    requires ValidWorld(w) && ValidDisk(w, d) && d.manifest.Some?
             && Some(s) == FinalStaged(w, d.manifest.value, d.staged)
    ensures var e := Do(d, SaveStaged(s)); ValidDisk(w, e) && Outcome(w, e) == Outcome(w, d)
  {
    ManifestFixes(w, d);
    RemapStagedAgain(d.staged.value, Full(w, d.manifest.value), w.reduce);
    hide RemapStaged, OpsOk, HollowsOk, Fixes;
  }

  lemma DoSaveProposal(w: World, d: Disk, n: Name, p: Proposal)
    requires ValidWorld(w) && ValidDisk(w, d) && d.manifest.Some? && n in d.proposals
    requires p == RemapProposal(d.proposals[n], Full(w, d.manifest.value))
    ensures var e := Do(d, SaveProposal(n, p)); ValidDisk(w, e) && Outcome(w, e) == Outcome(w, d)
  {
    var m := d.manifest.value;
    ManifestFixes(w, d);
    assert Do(d, SaveProposal(n, p)) == d.(proposals := d.proposals[n := p]);
    assert ManifestOf(w, d) == m;
    hide *;
    ProposalSettles(w, m, d.proposals, n, p);
    ProposalsKeepOutcome(w, d, m, d.proposals[n := p]);
  }

  lemma ProposalSettles(w: World, m: Manifest, ps: map<Name, Proposal>, n: Name, p: Proposal)
    requires Fixes(Full(w, m)) && n in ps && p == RemapProposal(ps[n], Full(w, m))
    ensures FinalProposals(w, m, ps[n := p]) == FinalProposals(w, m, ps)
  {
    RemapProposalAgain(ps[n], Full(w, m));
    hide RemapProposal, Fixes, Full;
  }

  lemma ProposalsKeepOutcome(w: World, d: Disk, m: Manifest, ps: map<Name, Proposal>)
    requires ValidDisk(w, d) && d.manifest == Some(m) && FinalProposals(w, m, ps) == FinalProposals(w, m, d.proposals)
    ensures var e := d.(proposals := ps); ValidDisk(w, e) && Outcome(w, e) == Outcome(w, d)
  {
    hide OpsOk, HollowsOk, MapsAcross, AddAll, Only, V3Ids, FinalTable, FinalJournal, FinalForks, FinalOrSet,
         FinalStaged;
    hide FinalHollows, FinalDrafts, FinalProposals, StaleMap, PlanOf, PreV3;
  }

  lemma DoStoreHollow(w: World, d: Disk, n: Name, h: Hollow)
    requires ValidWorld(w) && ValidDisk(w, d) && d.manifest.Some? && exists i :: Rekeys(d.hollows, i, n, h)
    ensures var e := Do(d, StoreHollow(n, h)); ValidDisk(w, e) && Outcome(w, e) == Outcome(w, d)
  {
    var i :| Rekeys(d.hollows, i, n, h);
    StoredHollowKeeps(d.hollows, i, n, h);
    hide OpsOk, HollowsOk, FinalHollows, StaleMap, Rekeys;
  }

  lemma DoDropHollow(w: World, d: Disk, i: Name)
    requires ValidWorld(w) && ValidDisk(w, d) && d.manifest.Some? && Replaced(d.hollows, i)
    ensures var e := Do(d, DropHollow(i)); ValidDisk(w, e) && SameButDrafts(Outcome(w, e), Outcome(w, d))
  {
    DroppedHollowKeeps(d.hollows, i);
    hide OpsOk, HollowsOk, FinalHollows, StaleMap, Replaced;
  }

  lemma DoDropOp(w: World, d: Disk, i: Name)
    requires ValidWorld(w) && ValidDisk(w, d) && d.manifest.Some? && i !in V3Ids(w)
    ensures var e := Do(d, DropOp(i)); ValidDisk(w, e) && Outcome(w, e) == Outcome(w, d)
  {
    assert Do(d, DropOp(i)) == d.(ops := d.ops - {i});
    assert OpsOk(w, d.ops - {i}) by { hide HollowsOk, MapsAcross, V3Ids; }
    hide *;
    DroppedKeeps(w, d.ops, i);
    OpsKeepOutcome(w, d, d.ops - {i});
  }

  lemma NoPreV3(ops: map<Name, Op>)
    requires forall i :: i in ops ==> ops[i].current
    ensures PreV3(ops) == []
  {
    assert (set i | i in ops && !ops[i].current) == {};
  }

  lemma FinishedStays(w: World, e: Disk)
    requires OpsOk(w, e.ops) && HollowsOk(e.hollows) && e.ops.Keys <= V3Ids(w) && e.manifest.None?
    ensures NothingToDo(e) && Outcome(w, e) == e
  {
    NoPreV3(e.ops);
    hide PreV3, HollowsOk;
  }

  lemma OnlyThose(ops: map<Name, Op>, ids: set<Name>)
    requires ops.Keys <= ids
    ensures Only(ops, ids) == ops
  {
  }

  lemma MigratedOutcome(w: World, d: Disk)
    requires HollowsOk(d.hollows) && d.manifest.Some? && Migrated(w, d.manifest.value, d)
    ensures Outcome(w, d) == d.(ops := Only(d.ops, V3Ids(w)), manifest := None)
  {
    hide Carried, HollowsOk, Only, V3Ids;
  }

  lemma DoDropManifest(w: World, d: Disk)
    requires ValidWorld(w) && ValidDisk(w, d) && d.manifest.Some? && Migrated(w, d.manifest.value, d)
             && d.ops.Keys <= V3Ids(w)
    ensures var e := Do(d, DropManifest); ValidDisk(w, e) && Outcome(w, e) == e && Outcome(w, d) == e && NothingToDo(e)
  {
    MigratedOutcome(w, d);
    OnlyThose(d.ops, V3Ids(w));
    hide Migrated, Outcome, HollowsOk, OpsOk, V3Ids, MapsAcross, Only, NothingToDo;
    FinishedStays(w, Do(d, DropManifest));
  }

  lemma DoSaveManifest(w: World, d: Disk)
    requires ValidWorld(w) && ValidDisk(w, d) && d.manifest.None? && !NothingToDo(d)
    ensures var e := Do(d, SaveManifest(PlanOf(w, d))); ValidDisk(w, e) && Outcome(w, e) == Outcome(w, d)
  {
    PlanMapsAcross(w, d);
    hide OpsOk, HollowsOk, MapsAcross, PlanOf, PreV3;
  }

  lemma DoSaveDrafts(w: World, d: Disk, ds: Drafts)
    requires ValidDisk(w, d) && d.manifest.Some?
    ensures var e := Do(d, SaveDrafts(ds)); ValidDisk(w, e) && SameButDrafts(Outcome(w, e), Outcome(w, d))
  {
    hide OpsOk, HollowsOk, MapsAcross, PreV3, PlanOf, AddAll, Only, V3Ids, FinalTable, FinalJournal, FinalForks,
         FinalOrSet, FinalStaged, FinalHollows, FinalProposals, FinalDrafts, StaleMap;
  }

  /** Whatever write is made, the crossing is headed where it was. */
  lemma GoodKeepsOutcome(w: World, renamed: Mapping, d: Disk, write: Write)
    requires ValidWorld(w) && ValidDisk(w, d) && Good(w, renamed, d, write)
    ensures ValidDisk(w, Do(d, write)) && SameButDrafts(Outcome(w, Do(d, write)), Outcome(w, d))
  {
    hide ValidWorld, ValidDisk, Outcome, NothingToDo, Migrated, Replaced, V3Ids, FinalTable, FinalJournal, FinalForks,
         FinalOrSet, FinalStaged, FinalDrafts, RemapProposal, PlanOf, Do;
    match write
    case SaveManifest(m) => DoSaveManifest(w, d);
    case StoreOp(op) => DoStoreOp(w, d, op);
    case SaveTable(t) => DoSaveTable(w, d, t);
    case SaveJournal(j) => DoSaveJournal(w, d, j);
    case SaveForks(f) => DoSaveForks(w, d, f);
    case SaveOrSet(o) => DoSaveOrSet(w, d, o);
    case SaveStaged(s) => DoSaveStaged(w, d, s);
    case StoreHollow(n, h) => DoStoreHollow(w, d, n, h);
    case DropHollow(i) => DoDropHollow(w, d, i);
    case SaveDrafts(ds) => DoSaveDrafts(w, d, ds);
    case SaveProposal(n, p) => DoSaveProposal(w, d, n, p);
    case DropOp(i) => DoDropOp(w, d, i);
    case DropManifest => DoDropManifest(w, d);
  }
}
