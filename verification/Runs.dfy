/** The writes one apply makes, in order, and what is true however many of them happen
    (`sgt/core/migrate.py`, `_execute` and `migrate_ops_v3`). */
module Runs {
  import opened Names
  import opened BuildMap
  import opened Remap
  import opened Disk
  import opened Crossing

  /** The order a directory happens to be listed in. */
  type Listing = set<Name> -> seq<Name>

  ghost predicate Enumerates(list: Listing) {
    forall s, x {:trigger x in list(s)} :: x in list(s) <==> x in s
  }

  // ---------------------------------------------------------------------------------------
  // The phases.

  /** `Store.add` writes nothing when the op is on file with all its provenance. */
  predicate OnFile(ops: map<Name, Op>, op: Op) {
    op.id in ops && op.provenance <= ops[op.id].provenance
  }

  function OpsAfter(ops: map<Name, Op>, v3: seq<Op>): map<Name, Op> {
    if v3 == [] then ops else Stored(OpsAfter(ops, v3[..|v3| - 1]), v3[|v3| - 1])
  }

  function OpWrites(ops: map<Name, Op>, v3: seq<Op>): seq<Write> {
    if v3 == [] then []
    else
      var n := |v3| - 1;
      OpWrites(ops, v3[..n]) + if OnFile(OpsAfter(ops, v3[..n]), v3[n]) then [] else [StoreOp(v3[n])]
  }

  function TableWrites(w: World, m: Manifest, d: Disk): seq<Write> {
    var t := FinalTable(w, m, d.table);
    if t != OrEmpty(d.table) then [SaveTable(t)] else []
  }

  function JournalWrites(w: World, m: Manifest, d: Disk): seq<Write> {
    var j := FinalJournal(w, m, d.journal);
    if j != d.journal then [SaveJournal(j.value)] else []
  }

  function ForkWrites(w: World, m: Manifest, d: Disk): seq<Write> {
    var f := FinalForks(w, m, d.forks);
    if f != d.forks then [SaveForks(f.value)] else []
  }

  /** Decided on the rewritten set as a list, written from it as a set. */
  function OrSetWrites(w: World, m: Manifest, d: Disk): seq<Write> {
    if d.orset.Some? && RemapOrSet(d.orset.value, Full(w, m)) != d.orset.value
    then [SaveOrSet(SavedOrSet(d.orset.value, Full(w, m)))] else []
  }

  function StagedWrites(w: World, m: Manifest, d: Disk): seq<Write> {
    var s := FinalStaged(w, m, d.staged);
    if s != d.staged then [SaveStaged(s.value)] else []
  }

  /** The disk's hollows after the first stale one, in id order, is re-keyed. */
  function RekeyFirst(hs: map<Name, Hollow>): map<Name, Hollow>
    requires StaleIds(hs) != {}
  {
    var i := Minimum(StaleIds(hs));
    hs[hs[i].rehash := Renew(hs[i])] - {i}
  }

  lemma RekeyShrinks(hs: map<Name, Hollow>)
    requires StaleIds(hs) != {}
    ensures |StaleIds(RekeyFirst(hs))| < |StaleIds(hs)|
  {
    var i := Minimum(StaleIds(hs));
    assert StaleIds(RekeyFirst(hs)) <= StaleIds(hs) - {i};
    SubsetSize(StaleIds(RekeyFirst(hs)), StaleIds(hs) - {i});
  }

  function RekeyAll(hs: map<Name, Hollow>): map<Name, Hollow>
    decreases |StaleIds(hs)|
  {
    if StaleIds(hs) == {} then hs else RekeyShrinks(hs); RekeyAll(RekeyFirst(hs))
  }

  function RekeyWrites(hs: map<Name, Hollow>): seq<Write>
    decreases |StaleIds(hs)|
  {
    if StaleIds(hs) == {} then []
    else
      RekeyShrinks(hs);
      var i := Minimum(StaleIds(hs));
      [StoreHollow(hs[i].rehash, Renew(hs[i])), DropHollow(i)] + RekeyWrites(RekeyFirst(hs))
  }

  function DraftWrites(w: World, m: Manifest, d: Disk, renamed: Mapping): seq<Write> {
    var ds := FinalDrafts(w, m, d.drafts, renamed);
    if ds != d.drafts then [SaveDrafts(ds.value)] else []
  }

  function ProposalsAfter(names: seq<Name>, ps: map<Name, Proposal>, full: Mapping): map<Name, Proposal>
    requires forall n :: n in names ==> n in ps
  {
    map n | n in ps :: if n in names then RemapProposal(ps[n], full) else ps[n]
  }

  function ProposalWrites(names: seq<Name>, ps: map<Name, Proposal>, full: Mapping): seq<Write>
    requires forall n :: n in names ==> n in ps
  {
    if names == [] then []
    else
      var n := names[|names| - 1];
      assert n in names;
      ProposalWrites(names[..|names| - 1], ps, full) +
      if RemapProposal(ps[n], full) != ps[n] then [SaveProposal(n, RemapProposal(ps[n], full))] else []
  }

  function PruneWrites(names: seq<Name>, keep: set<Name>): seq<Write> {
    if names == [] then []
    else
      var n := names[|names| - 1];
      PruneWrites(names[..|names| - 1], keep) + if n !in keep then [DropOp(n)] else []
  }

  const PHASES := 11

  /** The writes of phase `k` on a given disk. */
  function Phase(w: World, m: Manifest, list: Listing, renamed: Mapping, k: nat, d: Disk): seq<Write> {
    match k
    case 0 => OpWrites(d.ops, w.v3)
    case 1 => TableWrites(w, m, d)
    case 2 => JournalWrites(w, m, d)
    case 3 => ForkWrites(w, m, d)
    case 4 => OrSetWrites(w, m, d)
    case 5 => StagedWrites(w, m, d)
    case 6 => RekeyWrites(d.hollows)
    case 7 => DraftWrites(w, m, d, renamed)
    case 8 => ProposalWrites(Sorted(d.proposals.Keys), d.proposals, Full(w, m))
    case 9 => PruneWrites(list(d.ops.Keys), V3Ids(w))
    case _ => [DropManifest]
  }

  /** The writes from phase `k` on. */
  function From(w: World, m: Manifest, list: Listing, renamed: Mapping, k: nat, d: Disk): seq<Write>
    requires k <= PHASES
    decreases PHASES - k
  {
    if k == PHASES then []
    else
      var ws := Phase(w, m, list, renamed, k, d);
      ws + From(w, m, list, renamed, k + 1, DoAll(d, ws))
  }

  /** Every write of an apply started on `d`. */
  function Program(w: World, list: Listing, d: Disk): seq<Write> {
    if d.manifest.Some? then From(w, d.manifest.value, list, StaleMap(d.hollows), 0, d)
    else if NothingToDo(d) then []
    else
      var m := PlanOf(w, d);
      [SaveManifest(m)] + From(w, m, list, StaleMap(d.hollows), 0, Do(d, SaveManifest(m)))
  }

  // ---------------------------------------------------------------------------------------
  // Runs of good writes.

  ghost predicate GoodRun(w: World, renamed: Mapping, d: Disk, ws: seq<Write>)
    decreases |ws|
  {
    ws == [] || (Good(w, renamed, d, ws[0]) && GoodRun(w, renamed, Do(d, ws[0]), ws[1..]))
  }

  lemma {:induction false} GoodConcat(w: World, renamed: Mapping, d: Disk, a: seq<Write>, b: seq<Write>)
    requires GoodRun(w, renamed, d, a) && GoodRun(w, renamed, DoAll(d, a), b)
    ensures GoodRun(w, renamed, d, a + b)
    decreases |a|
  {
    hide Good, Do;
    if a == [] {
      assert a + b == b;
    } else {
      GoodConcat(w, renamed, Do(d, a[0]), a[1..], b);
      assert (a + b)[1..] == a[1..] + b;
    }
  }

  lemma {:induction false} GoodPrefix(w: World, renamed: Mapping, d: Disk, ws: seq<Write>, k: nat)
    requires GoodRun(w, renamed, d, ws) && k <= |ws|
    ensures GoodRun(w, renamed, d, ws[..k])
    decreases |ws|
  {
    hide Good, Do;
    if k > 0 {
      GoodPrefix(w, renamed, Do(d, ws[0]), ws[1..], k - 1);
      assert ws[..k][1..] == ws[1..][..k - 1];
    }
  }

  lemma {:induction false} GoodRunKeepsOutcome(w: World, renamed: Mapping, d: Disk, ws: seq<Write>)
    requires ValidWorld(w) && ValidDisk(w, d) && GoodRun(w, renamed, d, ws)
    ensures ValidDisk(w, DoAll(d, ws)) && SameButDrafts(Outcome(w, DoAll(d, ws)), Outcome(w, d))
    decreases |ws|
  {
    hide Good, Do, ValidWorld, Outcome;
    if ws != [] {
      GoodKeepsOutcome(w, renamed, d, ws[0]);
      GoodRunKeepsOutcome(w, renamed, Do(d, ws[0]), ws[1..]);
    }
  }

  // ---------------------------------------------------------------------------------------
  // What each phase does.

  /** A disk an apply is at work on. */
  ghost predicate Working(w: World, m: Manifest, d: Disk) {
    ValidWorld(w) && ValidDisk(w, d) && d.manifest == Some(m)
  }

  lemma DoOne(d: Disk, write: Write)
    ensures DoAll(d, [write]) == Do(d, write)
  {
    hide Do;
    assert [write][1..] == [];
  }

  lemma GoodOne(w: World, renamed: Mapping, d: Disk, write: Write)
    requires Good(w, renamed, d, write)
    ensures GoodRun(w, renamed, d, [write])
  {
    hide Good, Do;
    assert [write][1..] == [];
  }

  lemma AppendGood(w: World, renamed: Mapping, d: Disk, ws: seq<Write>, mid: Disk, write: Write)
    requires GoodRun(w, renamed, d, ws) && DoAll(d, ws) == mid && Good(w, renamed, mid, write)
    ensures GoodRun(w, renamed, d, ws + [write]) && DoAll(d, ws + [write]) == Do(mid, write)
  {
    hide *;
    GoodOne(w, renamed, mid, write);
    GoodConcat(w, renamed, d, ws, [write]);
    DoAllConcat(d, ws, [write]);
    DoOne(mid, write);
  }

  lemma RefiledSame(ops: map<Name, Op>, op: Op)
    requires OnFile(ops, op)
    ensures Stored(ops, op) == ops
  {
    assert ops[op.id].provenance + op.provenance == ops[op.id].provenance;
  }

  lemma {:induction false} OpPhase(w: World, m: Manifest, renamed: Mapping, d: Disk, v3: seq<Op>)
    requires Working(w, m, d) && forall op :: op in v3 ==> op in w.v3
    ensures GoodRun(w, renamed, d, OpWrites(d.ops, v3))
            && DoAll(d, OpWrites(d.ops, v3)) == d.(ops := OpsAfter(d.ops, v3))
    decreases |v3|
  {
    if v3 == [] {
    } else {
      var n := |v3| - 1;
      var init, op := v3[..n], v3[n];
      var ws, mid := OpWrites(d.ops, init), d.(ops := OpsAfter(d.ops, init));
      OpPhase(w, m, renamed, d, init);
      if OnFile(mid.ops, op) {
        RefiledSame(mid.ops, op);
        assert OpWrites(d.ops, v3) == ws + [] == ws;
      } else {
        assert OpWrites(d.ops, v3) == ws + [StoreOp(op)];
        assert Good(w, renamed, mid, StoreOp(op));
        hide Good, OpWrites, ValidWorld, ValidDisk, OpsAfter, Stored;
        AppendGood(w, renamed, d, ws, mid, StoreOp(op));
        StoreAfter(d, v3);
      }
    }
  }

  lemma StoreAfter(d: Disk, v3: seq<Op>)
    requires v3 != []
    ensures Do(d.(ops := OpsAfter(d.ops, v3[..|v3| - 1])), StoreOp(v3[|v3| - 1])) == d.(ops := OpsAfter(d.ops, v3))
  {
    hide Stored;
  }

  ghost predicate AllOnFile(ops: map<Name, Op>, v3: seq<Op>) {
    forall op :: op in v3 ==> OnFile(ops, op)
  }

  lemma {:induction false} OpsAllFiled(ops: map<Name, Op>, v3: seq<Op>)
    ensures AllOnFile(OpsAfter(ops, v3), v3)
  {
    if v3 != [] {
      var n := |v3| - 1;
      OpsAllFiled(ops, v3[..n]);
      assert v3 == v3[..n] + [v3[n]];
      hide OpsAfter;
      StillOnFile(OpsAfter(ops, v3[..n]), v3[..n], v3[n]);
    }
  }

  lemma StillOnFile(ops: map<Name, Op>, v3: seq<Op>, op: Op)
    requires AllOnFile(ops, v3)
    ensures AllOnFile(Stored(ops, op), v3 + [op])
  {
  }

  lemma {:induction false} ProvenanceOnFile(ops: map<Name, Op>, v3: seq<Op>, id: Name)
    requires AllOnFile(ops, v3) && id in ops
    ensures Provenance(v3, id) <= ops[id].provenance
  {
    if v3 != [] {
      var n := |v3| - 1;
      assert v3 == v3[..n] + [v3[n]];
      ProvenanceOnFile(ops, v3[..n], id);
      assert OnFile(ops, v3[n]);
    }
  }

  lemma FiledAlready(ops: map<Name, Op>, v3: seq<Op>)
    requires AllOnFile(ops, v3)
    ensures AddAll(ops, v3) == ops && IdsOf(v3) <= ops.Keys
  {
    forall id | id in IdsOf(v3) ensures id in ops {
      var op :| op in v3 && op.id == id;
      assert OnFile(ops, op);
    }
    hide IdsOf, AllOnFile, Mined;
    forall id | id in ops ensures AddAll(ops, v3)[id] == ops[id] {
      ProvenanceOnFile(ops, v3, id);
      assert ops[id].provenance + Provenance(v3, id) == ops[id].provenance;
    }
  }

  lemma TablePhase(w: World, m: Manifest, renamed: Mapping, d: Disk)
    requires Working(w, m, d)
    ensures GoodRun(w, renamed, d, TableWrites(w, m, d))
            && DoAll(d, TableWrites(w, m, d)) == d.(table := Some(FinalTable(w, m, d.table)))
  {
    var t := FinalTable(w, m, d.table);
    assert m.key in t;
    TableIsGood(w, m, renamed, d);
    GoodOne(w, renamed, d, SaveTable(t));
    DoOne(d, SaveTable(t));
    hide Good, FinalTable, Working;
  }

  lemma TableIsGood(w: World, m: Manifest, renamed: Mapping, d: Disk)
    requires Working(w, m, d)
    ensures Good(w, renamed, d, SaveTable(FinalTable(w, m, d.table)))
  {
    hide FinalTable, ValidWorld, ValidDisk;
  }

  lemma JournalPhase(w: World, m: Manifest, renamed: Mapping, d: Disk)
    requires Working(w, m, d)
    ensures GoodRun(w, renamed, d, JournalWrites(w, m, d))
            && DoAll(d, JournalWrites(w, m, d)) == d.(journal := FinalJournal(w, m, d.journal))
  {
    var j := FinalJournal(w, m, d.journal);
    if j != d.journal {
      assert Good(w, renamed, d, SaveJournal(j.value));
      hide Good, FinalJournal;
      GoodOne(w, renamed, d, SaveJournal(j.value));
      DoOne(d, SaveJournal(j.value));
    }
  }

  lemma ForkPhase(w: World, m: Manifest, renamed: Mapping, d: Disk)
    requires Working(w, m, d)
    ensures GoodRun(w, renamed, d, ForkWrites(w, m, d))
            && DoAll(d, ForkWrites(w, m, d)) == d.(forks := FinalForks(w, m, d.forks))
  {
    var f := FinalForks(w, m, d.forks);
    if f != d.forks {
      assert Good(w, renamed, d, SaveForks(f.value));
      hide Good, FinalForks;
      GoodOne(w, renamed, d, SaveForks(f.value));
      DoOne(d, SaveForks(f.value));
    }
  }

  lemma OrSetPhase(w: World, m: Manifest, renamed: Mapping, d: Disk)
    requires Working(w, m, d)
    ensures GoodRun(w, renamed, d, OrSetWrites(w, m, d))
            && DoAll(d, OrSetWrites(w, m, d)) == d.(orset := FinalOrSet(w, m, d.orset))
  {
    var o := FinalOrSet(w, m, d.orset);
    if d.orset.Some? && RemapOrSet(d.orset.value, Full(w, m)) != d.orset.value {
      assert Good(w, renamed, d, SaveOrSet(o.value));
      hide Good, Full, RemapOrSet;
      GoodOne(w, renamed, d, SaveOrSet(o.value));
      DoOne(d, SaveOrSet(o.value));
    }
  }

  lemma StagedPhase(w: World, m: Manifest, renamed: Mapping, d: Disk)
    requires Working(w, m, d)
    ensures GoodRun(w, renamed, d, StagedWrites(w, m, d))
            && DoAll(d, StagedWrites(w, m, d)) == d.(staged := FinalStaged(w, m, d.staged))
  {
    var s := FinalStaged(w, m, d.staged);
    if s != d.staged {
      assert Good(w, renamed, d, SaveStaged(s.value));
      hide Good, FinalStaged;
      GoodOne(w, renamed, d, SaveStaged(s.value));
      DoOne(d, SaveStaged(s.value));
    }
  }

  lemma DraftPhase(w: World, m: Manifest, renamed: Mapping, d: Disk)
    requires Working(w, m, d)
    ensures GoodRun(w, renamed, d, DraftWrites(w, m, d, renamed))
            && DoAll(d, DraftWrites(w, m, d, renamed)) == d.(drafts := FinalDrafts(w, m, d.drafts, renamed))
  {
    var ds := FinalDrafts(w, m, d.drafts, renamed);
    if ds != d.drafts {
      assert Good(w, renamed, d, SaveDrafts(ds.value));
      hide Good, FinalDrafts;
      GoodOne(w, renamed, d, SaveDrafts(ds.value));
      DoOne(d, SaveDrafts(ds.value));
    }
  }

  // Hollows: store the new file, then drop the old, for the first stale one, and so on.

  lemma FirstRekeys(hs: map<Name, Hollow>)
    requires HollowsOk(hs) && StaleIds(hs) != {}
    ensures var i := Minimum(StaleIds(hs));
            var stored := hs[hs[i].rehash := Renew(hs[i])];
            Rekeys(hs, i, hs[i].rehash, Renew(hs[i])) && Replaced(stored, i) && stored - {i} == RekeyFirst(hs)
  {
    var i := Minimum(StaleIds(hs));
    var n := hs[i].rehash;
    var stored := hs[n := Renew(hs[i])];
    assert i in StaleIds(hs) && n != i;
    forall j | j in StaleFor(stored, n) ensures Le(i, j) {
      assert j != n;
      assert j in StaleIds(hs);
    }
    hide HollowsOk, StaleIds;
  }

  lemma GoodStoreHollow(w: World, m: Manifest, renamed: Mapping, d: Disk, i: Name, n: Name, h: Hollow)
    requires d.manifest == Some(m) && Rekeys(d.hollows, i, n, h)
    ensures Good(w, renamed, d, StoreHollow(n, h))
  {
    hide Rekeys, PlanOf;
  }

  lemma GoodDropHollow(w: World, m: Manifest, renamed: Mapping, d: Disk, i: Name)
    requires d.manifest == Some(m) && Replaced(d.hollows, i)
    ensures Good(w, renamed, d, DropHollow(i))
  {
    hide Replaced, PlanOf;
  }

  lemma KeepsWorking(w: World, m: Manifest, renamed: Mapping, d: Disk, write: Write)
    requires Working(w, m, d) && Good(w, renamed, d, write) && (write.StoreHollow? || write.DropHollow?)
    ensures Working(w, m, Do(d, write))
  {
    hide Good, ValidWorld, ValidDisk, Outcome, SameButDrafts;
    GoodKeepsOutcome(w, renamed, d, write);
  }

  lemma HollowStep(w: World, m: Manifest, renamed: Mapping, d: Disk)
    requires Working(w, m, d) && StaleIds(d.hollows) != {}
    ensures var hs := d.hollows;
            var i := Minimum(StaleIds(hs));
            var a, b := StoreHollow(hs[i].rehash, Renew(hs[i])), DropHollow(i);
            && Good(w, renamed, d, a) && Good(w, renamed, Do(d, a), b)
            && Do(Do(d, a), b) == d.(hollows := RekeyFirst(hs)) && Working(w, m, Do(Do(d, a), b))
  {
    var hs := d.hollows;
    FirstRekeys(hs);
    var i := Minimum(StaleIds(hs));
    var n, h := hs[i].rehash, Renew(hs[i]);
    hide ValidWorld, Outcome, StaleIds, HollowsOk, OpsOk, MapsAcross, Rekeys, Replaced, Good, Working;
    assert d.manifest == Some(m) by { WorkingManifest(w, m, d); }
    GoodStoreHollow(w, m, renamed, d, i, n, h);
    KeepsWorking(w, m, renamed, d, StoreHollow(n, h));
    var mid := Do(d, StoreHollow(n, h));
    GoodDropHollow(w, m, renamed, mid, i);
    KeepsWorking(w, m, renamed, mid, DropHollow(i));
  }

  lemma WorkingManifest(w: World, m: Manifest, d: Disk)
    requires Working(w, m, d)
    ensures d.manifest == Some(m)
  {
  }

  ghost predicate HollowsDone(w: World, renamed: Mapping, d: Disk) {
    var ws, end := RekeyWrites(d.hollows), RekeyAll(d.hollows);
    && GoodRun(w, renamed, d, ws) && DoAll(d, ws) == d.(hollows := end)
    && StaleIds(end) == {} && HollowsOk(end)
  }

  lemma NoHollows(w: World, m: Manifest, renamed: Mapping, d: Disk)
    requires Working(w, m, d) && StaleIds(d.hollows) == {}
    ensures HollowsDone(w, renamed, d)
  {
    hide StaleIds, HollowsOk, Do;
  }

  lemma HollowsMore(w: World, renamed: Mapping, d: Disk)
    requires StaleIds(d.hollows) != {}
    requires var hs := d.hollows;
             var i := Minimum(StaleIds(hs));
             var a, b := StoreHollow(hs[i].rehash, Renew(hs[i])), DropHollow(i);
             && Good(w, renamed, d, a) && Good(w, renamed, Do(d, a), b)
                && Do(Do(d, a), b) == d.(hollows := RekeyFirst(hs))
             && HollowsDone(w, renamed, Do(Do(d, a), b))
    ensures HollowsDone(w, renamed, d)
  {
    var hs := d.hollows;
    var i := Minimum(StaleIds(hs));
    var a, b := StoreHollow(hs[i].rehash, Renew(hs[i])), DropHollow(i);
    hide RekeyFirst, Good, StaleIds, HollowsOk, Do, GoodRun, DoAll;
    TwoThen(w, renamed, d, a, b, RekeyWrites(RekeyFirst(hs)));
  }

  lemma {:induction false} HollowPhase(w: World, m: Manifest, renamed: Mapping, d: Disk)
    requires Working(w, m, d)
    ensures HollowsDone(w, renamed, d)
    decreases |StaleIds(d.hollows)|
  {
    hide *;
    if StaleIds(d.hollows) == {} {
      NoHollows(w, m, renamed, d);
    } else {
      HollowStep(w, m, renamed, d);
      RekeyShrinks(d.hollows);
      HollowPhase(w, m, renamed, d.(hollows := RekeyFirst(d.hollows)));
      HollowsMore(w, renamed, d);
    }
  }

  lemma TwoThen(w: World, renamed: Mapping, d: Disk, a: Write, b: Write, ws: seq<Write>)
    requires Good(w, renamed, d, a) && Good(w, renamed, Do(d, a), b) && GoodRun(w, renamed, Do(Do(d, a), b), ws)
    ensures GoodRun(w, renamed, d, [a, b] + ws) && DoAll(d, [a, b] + ws) == DoAll(Do(Do(d, a), b), ws)
  {
    hide Good, Do;
    var all := [a, b] + ws;
    assert all[1..] == [b] + ws && ([b] + ws)[1..] == ws;
  }

  lemma GoodProposal(w: World, m: Manifest, renamed: Mapping, d: Disk, n: Name)
    requires d.manifest == Some(m) && n in d.proposals
    ensures Good(w, renamed, d, SaveProposal(n, RemapProposal(d.proposals[n], Full(w, m))))
  {
    hide RemapProposal, Full;
  }

  /** What proposal writes do to a disk. */
  ghost predicate ProposalsDone(w: World, m: Manifest, renamed: Mapping, d: Disk, names: seq<Name>)
    requires forall n :: n in names ==> n in d.proposals
  {
    var ws := ProposalWrites(names, d.proposals, Full(w, m));
    GoodRun(w, renamed, d, ws) && DoAll(d, ws) == d.(proposals := ProposalsAfter(names, d.proposals, Full(w, m)))
  }

  lemma NoProposals(w: World, m: Manifest, renamed: Mapping, d: Disk)
    ensures ProposalsDone(w, m, renamed, d, [])
  {
    var full := Full(w, m);
    hide RemapProposal, Full;
    assert ProposalsAfter([], d.proposals, full) == d.proposals;
    hide ProposalsAfter;
  }

  lemma ProposalsMore(w: World, m: Manifest, renamed: Mapping, d: Disk, names: seq<Name>, n: Name)
    requires d.manifest == Some(m) && n !in names && forall x :: x in names + [n] ==> x in d.proposals
    requires (forall x :: x in names ==> x in d.proposals) && n in d.proposals && ProposalsDone(w, m, renamed, d, names)
    ensures ProposalsDone(w, m, renamed, d, names + [n])
  {
    var full := Full(w, m);
    hide ProposalWrites, RemapProposal, Full, Good, GoodRun, DoAll;
    ProposalsStep(names, n, d.proposals, full);
    var ws, mid := ProposalWrites(names, d.proposals, full), d.(proposals := ProposalsAfter(names, d.proposals, full));
    assert mid.proposals[n] == d.proposals[n];
    var p := RemapProposal(d.proposals[n], full);
    hide ProposalsAfter;
    if p != d.proposals[n] {
      GoodProposal(w, m, renamed, mid, n);
      AppendGood(w, renamed, d, ws, mid, SaveProposal(n, p));
    }
  }

  lemma {:induction false} ProposalPhase(w: World, m: Manifest, renamed: Mapping, d: Disk, names: seq<Name>)
    requires d.manifest == Some(m) && Distinct(names) && forall n :: n in names ==> n in d.proposals
    ensures ProposalsDone(w, m, renamed, d, names)
    decreases |names|
  {
    hide ProposalsDone;
    if names == [] {
      NoProposals(w, m, renamed, d);
    } else {
      var init, n := names[..|names| - 1], names[|names| - 1];
      assert names == init + [n] && n !in init && n in names;
      ProposalPhase(w, m, renamed, d, init);
      ProposalsMore(w, m, renamed, d, init, n);
    }
  }

  lemma ProposalsStep(names: seq<Name>, n: Name, ps: map<Name, Proposal>, full: Mapping)
    requires forall x :: x in names ==> x in ps
    requires n !in names && n in ps && forall x :: x in names + [n] ==> x in ps
    ensures var p, ws, after := RemapProposal(ps[n], full), ProposalWrites(names, ps, full),
            ProposalsAfter(names, ps, full);
            && ProposalWrites(names + [n], ps, full) == (if p != ps[n] then ws + [SaveProposal(n, p)] else ws)
            && ProposalsAfter(names + [n], ps, full) == (if p != ps[n] then after[n := p] else after)
  {
    hide RemapProposal;
    WritesMore(names, n, ps, full);
    hide ProposalWrites;
    var p, after, more := RemapProposal(ps[n], full), ProposalsAfter(names, ps, full),
        ProposalsAfter(names + [n], ps, full);
    assert more == if p != ps[n] then after[n := p] else after;
  }

  lemma WritesMore(names: seq<Name>, n: Name, ps: map<Name, Proposal>, full: Mapping)
    requires n in ps && (forall x :: x in names ==> x in ps) && forall x :: x in names + [n] ==> x in ps
    ensures var p, ws := RemapProposal(ps[n], full), ProposalWrites(names, ps, full);
            ProposalWrites(names + [n], ps, full) == if p != ps[n] then ws + [SaveProposal(n, p)] else ws
  {
    assert (names + [n])[..|names|] == names;
    assert ProposalWrites(names + [n], ps, full) ==
           ProposalWrites(names, ps, full) + if RemapProposal(ps[n], full) != ps[n]
                                             then [SaveProposal(n, RemapProposal(ps[n], full))] else [];
    hide RemapProposal, ProposalWrites;
    var ws := ProposalWrites(names, ps, full);
    assert ws + [] == ws;
  }

  lemma GoodDrop(w: World, m: Manifest, renamed: Mapping, d: Disk, n: Name)
    requires d.manifest == Some(m) && Migrated(w, m, d) && n !in V3Ids(w)
    ensures Good(w, renamed, d, DropOp(n))
  {
    hide Migrated, V3Ids;
  }

  lemma OutsideStep(names: seq<Name>, keep: set<Name>, ops: map<Name, Op>)
    requires names != []
    ensures var n, init := names[|names| - 1], names[..|names| - 1];
            ops - Outside(names, keep) == if n in keep then ops - Outside(init, keep)
                                          else ops - Outside(init, keep) - {n}
  {
    var n, init := names[|names| - 1], names[..|names| - 1];
    assert names == init + [n];
    assert Outside(names, keep) == Outside(init, keep) + (if n in keep then {} else {n});
  }

  /** What pruning does to a migrated disk. */
  ghost predicate Pruned(w: World, m: Manifest, renamed: Mapping, d: Disk, names: seq<Name>) {
    var ws, end := PruneWrites(names, V3Ids(w)), d.(ops := d.ops - Outside(names, V3Ids(w)));
    GoodRun(w, renamed, d, ws) && DoAll(d, ws) == end && Migrated(w, m, end)
  }

  lemma NothingPruned(w: World, m: Manifest, renamed: Mapping, d: Disk)
    requires Migrated(w, m, d)
    ensures Pruned(w, m, renamed, d, [])
  {
    hide Migrated, V3Ids;
    assert d.ops - Outside([], V3Ids(w)) == d.ops;
  }

  lemma PrunedMore(w: World, m: Manifest, renamed: Mapping, d: Disk, names: seq<Name>, n: Name)
    requires d.manifest == Some(m) && Pruned(w, m, renamed, d, names)
    ensures Pruned(w, m, renamed, d, names + [n])
  {
    var keep := V3Ids(w);
    hide Good, Migrated, V3Ids, DoAll, GoodRun;
    assert (names + [n])[..|names|] == names;
    OutsideStep(names + [n], keep, d.ops);
    var ws, mid := PruneWrites(names, keep), d.(ops := d.ops - Outside(names, keep));
    hide Outside;
    if n !in keep {
      GoodDrop(w, m, renamed, mid, n);
      DroppedStaysMigrated(w, m, mid, n);
      AppendGood(w, renamed, d, ws, mid, DropOp(n));
    } else {
      assert ws + [] == ws;
    }
  }

  /** Old op files go only once everything else is in place. */
  lemma {:induction false} PrunePhase(w: World, m: Manifest, renamed: Mapping, d: Disk, names: seq<Name>)
    requires d.manifest == Some(m) && Migrated(w, m, d)
    ensures Pruned(w, m, renamed, d, names)
    decreases |names|
  {
    hide Pruned, Migrated;
    if names == [] {
      NothingPruned(w, m, renamed, d);
    } else {
      var init, n := names[..|names| - 1], names[|names| - 1];
      assert names == init + [n];
      PrunePhase(w, m, renamed, d, init);
      PrunedMore(w, m, renamed, d, init, n);
    }
  }

  function Outside(names: seq<Name>, keep: set<Name>): set<Name> {
    set n | n in names && n !in keep
  }

  lemma DroppedStaysMigrated(w: World, m: Manifest, d: Disk, id: Name)
    requires Migrated(w, m, d) && id !in V3Ids(w)
    ensures Migrated(w, m, d.(ops := d.ops - {id}))
  {
    DroppedKeeps(w, d.ops, id);
    hide AddAll, HollowsOk, V3Ids, FinalTable, FinalJournal, FinalForks, FinalOrSet, FinalStaged, FinalHollows,
         FinalProposals, FinalDrafts, StaleMap, Only;
  }
}
