/** What the migration reads and writes, one atomic file operation at a time (`sgt/core/migrate.py`,
    `sgt/state.py`).

    Every artifact is replaced whole by an atomic rename, so a crash leaves each file as it was or as
    it was to become: the unit of failure is the write. */
module Disk {
  import opened Names
  import opened BuildMap
  import opened Remap

  /** A plan-intake op, filed under its id.  `current` says its miner version is the present one. */
  datatype Hollow = Hollow(rehash: Name, current: bool, body: string)

  datatype Manifest = Manifest(mapping: Mapping, orphaned: seq<Name>, key: Name, ideal: seq<Name>)

  datatype Disk = Disk(
    ops: map<Name, Op>,
    table: Option<Table>,
    journal: Option<Journal>,
    forks: Option<seq<Fork>>,
    orset: Option<OrSet>,
    staged: Option<Staged>,
    hollows: map<Name, Hollow>,
    drafts: Option<Drafts>,
    proposals: map<Name, Proposal>,
    manifest: Option<Manifest>)

  /** What re-mining unchanged history yields: the v3 ops, how an op set reduces to an ideal, and the
      current ref with its recovered ideal. */
  datatype World = World(v3: seq<Op>, reduce: set<Name> -> set<Name>, key: Name, ideal: seq<Name>)

  /** One atomic step. */
  datatype Write =
    | SaveManifest(manifest: Manifest)
    | StoreOp(op: Op)
    | SaveTable(table: Table)
    | SaveJournal(journal: Journal)
    | SaveForks(forks: seq<Fork>)
    | SaveOrSet(orset: OrSet)
    | SaveStaged(staged: Staged)
    | StoreHollow(id: Name, hollow: Hollow)
    | DropHollow(id: Name)
    | SaveDrafts(drafts: Drafts)
    | SaveProposal(name: Name, proposal: Proposal)
    | DropOp(id: Name)
    | DropManifest

  /** `Store.add`: an op already filed gains the new provenance, and nothing else changes. */
  function Stored(ops: map<Name, Op>, op: Op): map<Name, Op> {
    ops[op.id := if op.id in ops then ops[op.id].(provenance := ops[op.id].provenance + op.provenance) else op]
  }

  function Do(d: Disk, w: Write): Disk {
    match w
    case SaveManifest(m) => d.(manifest := Some(m))
    case StoreOp(op) => d.(ops := Stored(d.ops, op))
    case SaveTable(t) => d.(table := Some(t))
    case SaveJournal(j) => d.(journal := Some(j))
    case SaveForks(f) => d.(forks := Some(f))
    case SaveOrSet(o) => d.(orset := Some(o))
    case SaveStaged(s) => d.(staged := Some(s))
    case StoreHollow(i, h) => d.(hollows := d.hollows[i := h])
    case DropHollow(i) => d.(hollows := d.hollows - {i})
    case SaveDrafts(ds) => d.(drafts := Some(ds))
    case SaveProposal(n, p) => d.(proposals := d.proposals[n := p])
    case DropOp(i) => d.(ops := d.ops - {i})
    case DropManifest => d.(manifest := None)
  }

  function DoAll(d: Disk, ws: seq<Write>): Disk
    decreases |ws|
  {
    if ws == [] then d else DoAll(Do(d, ws[0]), ws[1..])
  }

  lemma {:induction false} DoAllConcat(d: Disk, a: seq<Write>, b: seq<Write>)
    ensures DoAll(d, a + b) == DoAll(DoAll(d, a), b)
    decreases |a|
  {
    if a == [] {
      assert a + b == b;
    } else {
      assert (a + b)[0] == a[0] && (a + b)[1..] == a[1..] + b;
      DoAllConcat(Do(d, a[0]), a[1..], b);
    }
    hide Do;
  }

  // ---------------------------------------------------------------------------------------
  // Where the store is headed, field by field.

  function V3Ids(w: World): set<Name> {
    IdsOf(w.v3)
  }

  function Full(w: World, m: Manifest): Mapping {
    FullMap(V3Ids(w), m.mapping)
  }

  function Provenance(v3: seq<Op>, id: Name): (r: set<Name>)
    ensures forall op :: op in v3 && op.id == id ==> op.provenance <= r
  {
    if v3 == [] then {}
    else
      var op := v3[|v3| - 1];
      assert v3 == v3[..|v3| - 1] + [op];
      Provenance(v3[..|v3| - 1], id) + if op.id == id then op.provenance else {}
  }

  /** The op mined under that id. */
  function Mined(v3: seq<Op>, id: Name): (r: Op)
    requires id in IdsOf(v3)
    ensures r in v3 && r.id == id
  {
    if v3[0].id == id then v3[0]
    else
      assert v3 == [v3[0]] + v3[1..];
      Mined(v3[1..], id)
  }

  /** Every v3 op filed, with all its provenance. */
  function AddAll(ops: map<Name, Op>, v3: seq<Op>): map<Name, Op> {
    map id | id in ops.Keys + IdsOf(v3) ::
      if id in ops then ops[id].(provenance := ops[id].provenance + Provenance(v3, id))
      else Mined(v3, id).(provenance := Provenance(v3, id))
  }

  function Only(ops: map<Name, Op>, ids: set<Name>): map<Name, Op> {
    map id | id in ops && id in ids :: ops[id]
  }

  function OrEmpty(t: Option<Table>): Table {
    if t.Some? then t.value else map[]
  }

  function FinalTable(w: World, m: Manifest, t: Option<Table>): Table {
    RemapTable(OrEmpty(t), Full(w, m), w.reduce, m.key, m.ideal)
  }

  function FinalJournal(w: World, m: Manifest, j: Option<Journal>): Option<Journal> {
    if j.Some? then Some(RemapJournal(j.value, Full(w, m), w.reduce)) else None
  }

  function FinalForks(w: World, m: Manifest, f: Option<seq<Fork>>): Option<seq<Fork>> {
    if f.Some? then Some(RemapForks(f.value, Full(w, m))) else None
  }

  function FinalOrSet(w: World, m: Manifest, o: Option<OrSet>): Option<OrSet> {
    if o.Some? then Some(SavedOrSet(o.value, Full(w, m))) else None
  }

  function FinalStaged(w: World, m: Manifest, s: Option<Staged>): Option<Staged> {
    if s.Some? then Some(RemapStaged(s.value, Full(w, m), w.reduce)) else None
  }

  function FinalDrafts(w: World, m: Manifest, ds: Option<Drafts>, hollows: Mapping): Option<Drafts> {
    if ds.Some? then Some(RemapDrafts(ds.value, Full(w, m), hollows)) else None
  }

  function FinalProposals(w: World, m: Manifest, ps: map<Name, Proposal>): map<Name, Proposal> {
    map n | n in ps :: RemapProposal(ps[n], Full(w, m))
  }

  // ---------------------------------------------------------------------------------------
  // Hollows.

  function StaleIds(hs: map<Name, Hollow>): set<Name> {
    set i | i in hs && !hs[i].current
  }

  /** The stale hollows that re-key to `n`. */
  function StaleFor(hs: map<Name, Hollow>, n: Name): set<Name> {
    set i | i in hs && !hs[i].current && hs[i].rehash == n
  }

  function StaleMap(hs: map<Name, Hollow>): Mapping {
    map i | i in hs && !hs[i].current :: hs[i].rehash
  }

  function Renew(h: Hollow): Hollow {
    h.(current := true)
  }

  function Targets(hs: map<Name, Hollow>): set<Name> {
    set i | i in hs :: hs[i].rehash
  }

  function Greatest(s: set<Name>): (m: Name)
    requires s != {}
    ensures m in s && forall x :: x in s ==> Le(x, m)
  {
    SortedIncreases(s);
    LastIsGreatest(s);
    Sorted(s)[|s| - 1]
  }

  lemma LastIsGreatest(s: set<Name>)
    requires s != {} && Increasing(Sorted(s))
    ensures forall x :: x in s ==> Le(x, Sorted(s)[|s| - 1])
  {
    var r := Sorted(s);
    hide Le, Sorted, Minimum;
    forall x | x in s ensures Le(x, r[|s| - 1]) {
      assert x in r;
      var k :| 0 <= k < |r| && r[k] == x;
      LeReflexive(x);
    }
  }

  /** What ends up filed under `n`: the last stale hollow that re-keys there, in id order, or the one
      that was there. */
  function FinalHollow(hs: map<Name, Hollow>, n: Name): Hollow
    requires StaleFor(hs, n) == {} ==> n in hs
  {
    if StaleFor(hs, n) == {} then hs[n] else Renew(hs[Greatest(StaleFor(hs, n))])
  }

  /** Ids hash content and miner version, so a hollow is current exactly when its id is its re-hash,
      and no stale hollow sits where another will go. */
  ghost predicate HollowsOk(hs: map<Name, Hollow>) {
    forall i {:trigger hs[i].rehash} :: i in hs
      ==> (hs[i].current <==> hs[i].rehash == i) && (hs[i].rehash in hs ==> hs[hs[i].rehash].current)
  }

  lemma TargetsAreSettled(hs: map<Name, Hollow>, n: Name)
    requires HollowsOk(hs) && n in Targets(hs)
    ensures StaleFor(hs, n) == {} ==> n in hs
  {
    var i :| i in hs && hs[i].rehash == n;
    if StaleFor(hs, n) == {} { assert i !in StaleFor(hs, n); }
  }

  function FinalHollows(hs: map<Name, Hollow>): map<Name, Hollow>
    requires HollowsOk(hs)
  {
    map n | n in Targets(hs) :: (TargetsAreSettled(hs, n); FinalHollow(hs, n))
  }

  // ---------------------------------------------------------------------------------------
  // The outcome.

  /** Ops filed under another miner version, in id order. */
  function PreV3(ops: map<Name, Op>): seq<Op> {
    Select(ops, Sorted(set i | i in ops && !ops[i].current))
  }

  function Select(ops: map<Name, Op>, ids: seq<Name>): (r: seq<Op>)
    requires forall i :: i in ids ==> i in ops
    ensures |r| == |ids| && forall k :: 0 <= k < |ids| ==> ids[k] in ids && r[k] == ops[ids[k]]
  {
    seq(|ids|, k requires 0 <= k < |ids| => assert ids[k] in ids; ops[ids[k]])
  }

  function PlanOf(w: World, d: Disk): Manifest {
    var v2 := PreV3(d.ops);
    Manifest(MappingOf(v2, w.v3), Sorted(OrphansOf(v2, w.v3)), w.key, w.ideal)
  }

  /** The manifest an apply works by: the one an interrupted apply left, else a fresh plan. */
  function ManifestOf(w: World, d: Disk): Manifest {
    if d.manifest.Some? then d.manifest.value else PlanOf(w, d)
  }

  predicate NothingToDo(d: Disk) {
    d.manifest.None? && PreV3(d.ops) == []
  }

  /** Everything rewritten, old ops still on file. */
  ghost function Carried(w: World, m: Manifest, d: Disk): Disk
    requires HollowsOk(d.hollows)
  {
    Disk(AddAll(d.ops, w.v3), Some(FinalTable(w, m, d.table)), FinalJournal(w, m, d.journal), FinalForks(w, m, d.forks),
         FinalOrSet(w, m, d.orset), FinalStaged(w, m, d.staged), FinalHollows(d.hollows),
         FinalDrafts(w, m, d.drafts, StaleMap(d.hollows)), FinalProposals(w, m, d.proposals), d.manifest)
  }

  /** What an apply nobody interrupts leaves. */
  ghost function Outcome(w: World, d: Disk): Disk
    requires HollowsOk(d.hollows)
  {
    if NothingToDo(d) then d
    else
      var c := Carried(w, ManifestOf(w, d), d);
      c.(ops := Only(c.ops, V3Ids(w)), manifest := None)
  }

  // ---------------------------------------------------------------------------------------
  // Standing assumptions.

  /** Re-mined ops are current, ids determine content, and reduction is what order guarantees. */
  ghost predicate ValidWorld(w: World) {
    && Reduces(w.reduce)
    && (forall op :: op in w.v3 ==> op.current)
    && (forall a, b :: a in w.v3 && b in w.v3 && a.id == b.id ==> a.(provenance := {}) == b.(provenance := {}))
  }

  ghost predicate MapsAcross(w: World, m: Manifest) {
    m.mapping.Keys !! V3Ids(w) && m.mapping.Values <= V3Ids(w)
  }

  /** Files are named by id; an id hashes the miner version, so only current ops have v3 ids. */
  ghost predicate OpsOk(w: World, ops: map<Name, Op>) {
    forall i :: i in ops ==> ops[i].id == i && (i in V3Ids(w) ==> ops[i].current)
  }

  ghost predicate ValidDisk(w: World, d: Disk) {
    && OpsOk(w, d.ops)
    && HollowsOk(d.hollows)
    && (d.manifest.Some? ==> MapsAcross(w, d.manifest.value))
  }

  lemma PreV3At(ops: map<Name, Op>, op: Op)
    requires op in PreV3(ops)
    ensures exists i :: i in ops && ops[i] == op && !op.current
  {
    var ids := Sorted(set i | i in ops && !ops[i].current);
    var k :| 0 <= k < |ids| && PreV3(ops)[k] == op;
    assert ids[k] in ids;
  }

  lemma PreV3Id(w: World, ops: map<Name, Op>, id: Name)
    requires OpsOk(w, ops) && id in IdsOf(PreV3(ops))
    ensures id !in V3Ids(w)
  {
    hide PreV3, IdsOf;
    var op :| op in PreV3(ops) && op.id == id;
    PreV3At(ops, op);
  }

  lemma PlanMapsAcross(w: World, d: Disk)
    requires OpsOk(w, d.ops)
    ensures MapsAcross(w, PlanOf(w, d))
  {
    var v2 := PreV3(d.ops);
    var m := MappingOf(v2, w.v3);
    MappingTargets(v2, w.v3);
    hide MappingOf, PreV3, OrphansOf, IdsOf, OpsOk;
    forall i | i in m.Keys ensures i !in V3Ids(w) {
      PreV3Id(w, d.ops, i);
    }
    forall x | x in m.Values ensures x in V3Ids(w) {
      var i :| i in m && m[i] == x;
    }
  }

  lemma ManifestFixes(w: World, d: Disk)
    requires ValidDisk(w, d)
    ensures MapsAcross(w, ManifestOf(w, d)) && Fixes(Full(w, ManifestOf(w, d)))
  {
    PlanMapsAcross(w, d);
    FullMapFixes(V3Ids(w), ManifestOf(w, d).mapping);
    hide FullMap, Fixes;
  }
}
