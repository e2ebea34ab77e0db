/** What a migration leaves, artifact by artifact, said of what was there and of the plan, and not of the rewrites
    (`sgt/core/migrate.py`). */
module Outcomes {
  import opened Names
  import opened BuildMap
  import opened Remap
  import opened Disk

  // ---------------------------------------------------------------------------------------
  // Counterparts.

  /** Where an id goes: where the plan maps it, or nowhere else when it is a v3 id already. */
  predicate GoesTo(w: World, m: Manifest, i: Name, n: Name) {
    if i in m.mapping then m.mapping[i] == n else n == i && exists op :: op in w.v3 && op.id == i
  }

  lemma GoesByFull(w: World, m: Manifest, i: Name, n: Name)
    ensures GoesTo(w, m, i, n) <==> i in Full(w, m) && Full(w, m)[i] == n
  {
  }

  /** The counterparts of a list's ids, those that have one. */
  ghost predicate AreCounterparts(w: World, m: Manifest, ids: seq<Name>, s: set<Name>) {
    forall n :: n in s <==> exists i :: i in ids && GoesTo(w, m, i, n)
  }

  lemma ImageIsCounterparts(w: World, m: Manifest, ids: seq<Name>)
    ensures AreCounterparts(w, m, ids, Image(ids, Full(w, m)))
  {
    hide Full, GoesTo;
    forall n ensures n in Image(ids, Full(w, m)) <==> exists i :: i in ids && GoesTo(w, m, i, n) {
      forall i ensures GoesTo(w, m, i, n) <==> i in Full(w, m) && Full(w, m)[i] == n { GoesByFull(w, m, i, n); }
    }
  }

  // ---------------------------------------------------------------------------------------
  // The plan.

  lemma PreV3Is(ops: map<Name, Op>)
    ensures var ids := Sorted(set i | i in ops && !ops[i].current);
            (forall i :: i in ids <==> i in ops && !ops[i].current) && PreV3(ops) == Select(ops, ids) && Distinct(ids)
  {
    hide Select, Distinct;
  }

  lemma SelectHas(ops: map<Name, Op>, ids: seq<Name>, op: Op)
    requires forall i :: i in ops ==> ops[i].id == i
    requires forall i :: i in ids <==> i in ops && !ops[i].current
    ensures op in Select(ops, ids) <==> op.id in ops && ops[op.id] == op && !op.current
  {
    if op in Select(ops, ids) {
      var k :| 0 <= k < |ids| && Select(ops, ids)[k] == op;
      assert ids[k] in ids;
    }
    if op.id in ops && ops[op.id] == op && !op.current {
      var k :| 0 <= k < |ids| && ids[k] == op.id;
      assert Select(ops, ids)[k] == op;
    }
  }

  lemma SelectDistinct(ops: map<Name, Op>, ids: seq<Name>)
    requires forall i :: i in ops ==> ops[i].id == i
    requires Distinct(ids) && forall i :: i in ids ==> i in ops
    ensures DistinctOps(Select(ops, ids))
  {
  }

  lemma PreV3Has(ops: map<Name, Op>, op: Op)
    requires forall i :: i in ops ==> ops[i].id == i
    ensures op in PreV3(ops) <==> op.id in ops && ops[op.id] == op && !op.current
    ensures DistinctOps(PreV3(ops))
  {
    hide *;
    var ids := Sorted(set i | i in ops && !ops[i].current);
    PreV3Is(ops);
    SelectHas(ops, ids, op);
    SelectDistinct(ops, ids);
  }

  lemma PlanIs(w: World, d: Disk)
    requires d.manifest.None?
    ensures var m, v2 := ManifestOf(w, d), PreV3(d.ops);
            && m.mapping == MappingOf(v2, w.v3) && m.key == w.key && m.ideal == w.ideal
            && forall i :: i in m.orphaned <==> i in OrphansOf(v2, w.v3)
  {
    hide PreV3, MappingOf, OrphansOf;
  }

  lemma NotInPlan(v2: seq<Op>, v3: seq<Op>, i: Name)
    requires DistinctOps(v2) && forall o :: o in v2 ==> o.id != i
    ensures i !in MappingOf(v2, v3) && i !in OrphansOf(v2, v3)
  {
    MappingEntries(v2, v3);
    hide MappingOf, OrphansOf, RungOf, DistinctOps;
    assert i !in IdsOf(v2);
  }

  lemma InPlan(v2: seq<Op>, v3: seq<Op>, op: Op)
    requires DistinctOps(v2) && op in v2
    ensures PlannedFor(v3, op, MappingOf(v2, v3), OrphansOf(v2, v3))
  {
    MappingEntries(v2, v3);
    hide MappingOf, OrphansOf, Afterset, DistinctOps;
    if op.rehash in IdsOf(v3) {
      CleanIsRehash(v3, op);
    } else {
      FrontierBindsOnlySole(v3, op);
    }
    hide RungOf;
  }

  /** It goes to its own re-hash if that was re-mined, else to the one re-mined op with its frontier if there is just
      one, else it is an orphan. */
  ghost predicate PlannedFor(v3: seq<Op>, op: Op, mapping: Mapping, orphaned: set<Name>) {
    if exists x :: x in v3 && x.id == op.rehash then op.id in mapping && mapping[op.id] == op.rehash
    else
      && (forall k: nat :: SoleEntry(v3, Afterset(op), k) ==> op.id in mapping && mapping[op.id] == v3[k].id)
      && (!(exists k: nat :: SoleEntry(v3, Afterset(op), k)) ==> op.id !in mapping && op.id in orphaned)
  }

  /** A fresh plan, op by op: an op of this version is no business of it, an older one is planned for.  The current
      ref and its recovered ideal are written down with it. */
  lemma PlanOutcome(w: World, d: Disk, i: Name)
    requires OpsOk(w, d.ops) && d.manifest.None? && i in d.ops
    ensures var m := ManifestOf(w, d);
            && m.key == w.key && m.ideal == w.ideal
            && (d.ops[i].current ==> i !in m.mapping && i !in m.orphaned)
            && (!d.ops[i].current ==> PlannedFor(w.v3, d.ops[i], m.mapping, Elements(m.orphaned)))
  {
    assert d.ops[i].id == i && forall j :: j in d.ops ==> d.ops[j].id == j;
    hide *;
    var v2, op := PreV3(d.ops), d.ops[i];
    PlanIs(w, d);
    PreV3Has(d.ops, op);
    if op.current {
      forall o | o in v2 ensures o.id != i { PreV3Has(d.ops, o); }
      NotInPlan(v2, w.v3, i);
    } else {
      InPlan(v2, w.v3, op);
      assert Elements(ManifestOf(w, d).orphaned) == OrphansOf(v2, w.v3);
    }
  }

  lemma CleanIsRehash(v3: seq<Op>, op: Op)
    requires op.rehash in IdsOf(v3)
    ensures RungOf(v3, op) == Clean(op.rehash)
  {
  }

  // ---------------------------------------------------------------------------------------
  // Ideals.

  /** An id list carried over: in order, and just what the counterparts of the old ids reduce to. */
  ghost predicate IsCarried(w: World, m: Manifest, was: seq<Name>, now: seq<Name>) {
    Increasing(now) && exists s :: AreCounterparts(w, m, was, s) && Elements(now) == w.reduce(s)
  }

  lemma RemapIsCarried(w: World, m: Manifest, ids: seq<Name>)
    ensures IsCarried(w, m, ids, RemapIdeal(ids, Full(w, m), w.reduce))
  {
    var s := Image(ids, Full(w, m));
    ImageIsCounterparts(w, m, ids);
    SortedIncreases(w.reduce(s));
    hide AreCounterparts, Increasing, Full;
    assert Elements(Sorted(w.reduce(s))) == w.reduce(s);
  }

  /** Some id of the list goes there. */
  ghost predicate ComesFrom(w: World, m: Manifest, was: seq<Name>, n: Name) {
    exists i :: i in was && GoesTo(w, m, i, n)
  }

  /** The counterparts are an ideal as they are. */
  ghost predicate StaysWhole(w: World, m: Manifest, was: seq<Name>) {
    forall s :: AreCounterparts(w, m, was, s) ==> w.reduce(s) == s
  }

  /** Nothing in a list carried over is made up, and where the counterparts are an ideal nothing is lost. */
  lemma CarriedHolds(w: World, m: Manifest, was: seq<Name>, now: seq<Name>, n: Name)
    requires IsCarried(w, m, was, now)
    ensures Reduces(w.reduce) && n in now ==> ComesFrom(w, m, was, n)
    ensures StaysWhole(w, m, was) && ComesFrom(w, m, was, n) ==> n in now
  {
    hide GoesTo, Increasing;
    var s :| AreCounterparts(w, m, was, s) && Elements(now) == w.reduce(s);
    assert n in now <==> n in Elements(now);
  }

  /** The ideal table: the current ref has the recovered ideal, every other ref its own carried over, and there is no
      other. */
  lemma TableOutcome(w: World, d: Disk)
    requires HollowsOk(d.hollows) && !NothingToDo(d)
    ensures var m := ManifestOf(w, d);
            var was: Table, now := if d.table.Some? then d.table.value else map[], Outcome(w, d).table;
            && now.Some? && now.value.Keys == was.Keys + {m.key} && now.value[m.key] == m.ideal
            && forall k :: k in was && k != m.key ==> IsCarried(w, m, was[k], now.value[k])
  {
    var m := ManifestOf(w, d);
    var was := OrEmpty(d.table);
    hide RemapIdeal, IsCarried, ManifestOf, NothingToDo, FinalHollows, FinalJournal, FinalForks, FinalOrSet,
         FinalStaged, FinalDrafts, FinalProposals, AddAll, Only, HollowsOk, Full;
    forall k | k in was ensures IsCarried(w, m, was[k], RemapIdeal(was[k], Full(w, m), w.reduce)) {
      RemapIsCarried(w, m, was[k]);
    }
  }

  /** The undo journal: entry by entry, the ideal carried over and the witness kept. */
  lemma JournalOutcome(w: World, d: Disk)
    requires HollowsOk(d.hollows) && !NothingToDo(d)
    ensures var m, was, now := ManifestOf(w, d), d.journal, Outcome(w, d).journal;
            && (now.Some? <==> was.Some?)
            && (was.Some? ==>
                  && now.value.Keys == was.value.Keys
                  && forall k :: k in was.value ==>
                       && |now.value[k]| == |was.value[k]|
                       && forall i :: 0 <= i < |was.value[k]| ==> CarriedEntry(w, m, was.value[k][i], now.value[k][i]))
  {
    var m := ManifestOf(w, d);
    hide RemapIdeal, IsCarried, ManifestOf, NothingToDo, FinalHollows, FinalTable, FinalForks, FinalOrSet,
         FinalStaged, FinalDrafts, FinalProposals, AddAll, Only, HollowsOk, Full;
    if d.journal.Some? {
      var was := d.journal.value;
      forall k, i | k in was && 0 <= i < |was[k]|
        ensures CarriedEntry(w, m, was[k][i], RemapEvent(was[k][i], Full(w, m), w.reduce))
      {
        RemapIsCarried(w, m, was[k][i].ideal);
      }
    }
  }

  ghost predicate CarriedEntry(w: World, m: Manifest, was: Event, now: Event) {
    IsCarried(w, m, was.ideal, now.ideal) && now.witnessSha == was.witnessSha && now.rest == map[]
  }

  /** The staged candidate. */
  lemma StagedOutcome(w: World, d: Disk)
    requires HollowsOk(d.hollows) && !NothingToDo(d)
    ensures var m, was, now := ManifestOf(w, d), d.staged, Outcome(w, d).staged;
            && (now.Some? <==> was.Some?)
            && (was.Some? ==> IsCarried(w, m, was.value.opIds, now.value.opIds) && now.value.rest == was.value.rest)
  {
    var m := ManifestOf(w, d);
    hide RemapIdeal, IsCarried, ManifestOf, NothingToDo, FinalHollows, FinalTable, FinalForks, FinalOrSet,
         FinalJournal, FinalDrafts, FinalProposals, AddAll, Only, HollowsOk, Full;
    if d.staged.Some? { RemapIsCarried(w, m, d.staged.value.opIds); }
  }

  /** Another ref has, after an apply, counterparts of its old ids alone, and all of them where they are an ideal: no
      id that has a counterpart is lost. */
  lemma TableHolds(w: World, d: Disk, k: Name, n: Name)
    requires HollowsOk(d.hollows) && !NothingToDo(d) && d.table.Some? && k in d.table.value && k != ManifestOf(w, d).key
    ensures var m, was, now := ManifestOf(w, d), d.table.value[k], Outcome(w, d).table;
            && now.Some? && k in now.value
            && (Reduces(w.reduce) && n in now.value[k] ==> ComesFrom(w, m, was, n))
            && (StaysWhole(w, m, was) && ComesFrom(w, m, was, n) ==> n in now.value[k])
  {
    hide *;
    TableOutcome(w, d);
    CarriedHolds(w, ManifestOf(w, d), d.table.value[k], Outcome(w, d).table.value[k], n);
  }

  /** So has every entry of the journal, */
  lemma JournalHolds(w: World, d: Disk, k: Name, i: nat, n: Name)
    requires HollowsOk(d.hollows) && !NothingToDo(d)
    requires d.journal.Some? && k in d.journal.value && i < |d.journal.value[k]|
    ensures var m, was, now := ManifestOf(w, d), d.journal.value[k][i].ideal, Outcome(w, d).journal;
            && now.Some? && k in now.value && i < |now.value[k]|
            && (Reduces(w.reduce) && n in now.value[k][i].ideal ==> ComesFrom(w, m, was, n))
            && (StaysWhole(w, m, was) && ComesFrom(w, m, was, n) ==> n in now.value[k][i].ideal)
  {
    hide *;
    JournalOutcome(w, d);
    var was, now := d.journal.value[k][i], Outcome(w, d).journal.value[k][i];
    EntryIsCarried(w, ManifestOf(w, d), was, now);
    CarriedHolds(w, ManifestOf(w, d), was.ideal, now.ideal, n);
  }

  lemma EntryIsCarried(w: World, m: Manifest, was: Event, now: Event)
    requires CarriedEntry(w, m, was, now)
    ensures IsCarried(w, m, was.ideal, now.ideal)
  {
    hide IsCarried;
  }

  /** and the staged candidate. */
  lemma StagedHolds(w: World, d: Disk, n: Name)
    requires HollowsOk(d.hollows) && !NothingToDo(d) && d.staged.Some?
    ensures var m, was, now := ManifestOf(w, d), d.staged.value.opIds, Outcome(w, d).staged;
            && now.Some?
            && (Reduces(w.reduce) && n in now.value.opIds ==> ComesFrom(w, m, was, n))
            && (StaysWhole(w, m, was) && ComesFrom(w, m, was, n) ==> n in now.value.opIds)
  {
    hide *;
    StagedOutcome(w, d);
    CarriedHolds(w, ManifestOf(w, d), d.staged.value.opIds, Outcome(w, d).staged.value.opIds, n);
  }

  // ---------------------------------------------------------------------------------------
  // Lists of records and ids.

  /** The ids of a list that go somewhere, where they go, in order. */
  ghost predicate IsMapped(w: World, m: Manifest, was: seq<Name>, now: seq<Name>)
    decreases |was|
  {
    if was == [] then now == []
    else if exists n :: GoesTo(w, m, was[0], n)
    then now != [] && GoesTo(w, m, was[0], now[0]) && IsMapped(w, m, was[1..], now[1..])
    else IsMapped(w, m, was[1..], now)
  }

  lemma {:induction false} MapIdsSplits(a: seq<Name>, b: seq<Name>, m: Mapping)
    ensures MapIds(a + b, m) == MapIds(a, m) + MapIds(b, m)
    decreases |b|
  {
    if b == [] {
      assert a + b == a;
    } else {
      var n := |b| - 1;
      assert (a + b)[..|a + b| - 1] == a + b[..n] && (a + b)[|a + b| - 1] == b[n];
      MapIdsSplits(a, b[..n], m);
    }
  }

  lemma {:induction false} MapIdsIsMapped(w: World, m: Manifest, ids: seq<Name>)
    ensures IsMapped(w, m, ids, MapIds(ids, Full(w, m)))
  {
    if ids != [] {
      var full := Full(w, m);
      var i, rest := ids[0], ids[1..];
      assert ids == [i] + rest;
      MapIdsSplits([i], rest, full);
      assert [i][..0] == [];
      assert MapIds([i], full) == if i in full then [full[i]] else [];
      forall n ensures GoesTo(w, m, i, n) <==> i in full && full[i] == n { GoesByFull(w, m, i, n); }
      hide Full, GoesTo, MapIds;
      MapIdsIsMapped(w, m, rest);
      if i in full {
        assert ([full[i]] + MapIds(rest, full))[1..] == MapIds(rest, full);
        assert GoesTo(w, m, i, full[i]);
      } else {
        assert [] + MapIds(rest, full) == MapIds(rest, full);
      }
    }
  }

  /** Sorting keeps what there is, and how often. */
  lemma {:induction false} SortKeeps<T(!new)>(s: seq<T>, key: T -> seq<Name>)
    ensures multiset(SortBy(s, key)) == multiset(s)
  {
    if s != [] {
      SortKeeps(s[1..], key);
      InsertKeeps(s[0], SortBy(s[1..], key), key);
      assert s == [s[0]] + s[1..];
    }
  }

  lemma {:induction false} InsertKeeps<T(!new)>(x: T, s: seq<T>, key: T -> seq<Name>)
    ensures multiset(InsertBy(x, s, key)) == multiset(s) + multiset{x}
  {
    if s != [] && !LeList(key(x), key(s[0])) {
      InsertKeeps(x, s[1..], key);
      assert s == [s[0]] + s[1..];
    }
  }

  /** Proposals: the same ones, their id lists mapped and in order, all else kept. */
  lemma ProposalsOutcome(w: World, d: Disk, p: Name)
    requires HollowsOk(d.hollows) && !NothingToDo(d)
    ensures p in Outcome(w, d).proposals <==> p in d.proposals
    ensures p in d.proposals ==>
              var m, was, now := ManifestOf(w, d), d.proposals[p], Outcome(w, d).proposals[p];
              && SortedFrom(w, m, was.baseIds, now.baseIds) && SortedFrom(w, m, was.deltaIds, now.deltaIds)
              && now.rest == was.rest
  {
    hide MapIds, SortBy, SortedFrom, ManifestOf, NothingToDo, FinalHollows, FinalTable, FinalForks, FinalOrSet,
         FinalJournal, FinalDrafts, FinalStaged, AddAll, Only, HollowsOk, Full;
    if p in d.proposals {
      MappedSorts(w, ManifestOf(w, d), d.proposals[p].baseIds);
      MappedSorts(w, ManifestOf(w, d), d.proposals[p].deltaIds);
    }
  }

  /** In name order, and as often as mapping the list gives it. */
  ghost predicate SortedFrom(w: World, m: Manifest, was: seq<Name>, now: seq<Name>) {
    InOrder(now, NameKey) && exists s :: IsMapped(w, m, was, s) && multiset(now) == multiset(s)
  }

  lemma MappedSorts(w: World, m: Manifest, ids: seq<Name>)
    ensures SortedFrom(w, m, ids, SortBy(MapIds(ids, Full(w, m)), NameKey))
  {
    MapIdsIsMapped(w, m, ids);
    SortKeeps(MapIds(ids, Full(w, m)), NameKey);
    SortOrders(MapIds(ids, Full(w, m)), NameKey);
    hide MapIds, SortBy, IsMapped, Full;
  }

  /** Drafts: hollows under their new ids, id lists mapped in place, all else kept. */
  lemma DraftsOutcome(w: World, d: Disk, k: Name)
    requires HollowsOk(d.hollows) && !NothingToDo(d)
    ensures Outcome(w, d).drafts.Some? <==> d.drafts.Some?
    ensures d.drafts.Some? ==> (k in Outcome(w, d).drafts.value <==> k in d.drafts.value)
    ensures d.drafts.Some? && k in d.drafts.value ==>
              var m, was, now := ManifestOf(w, d), d.drafts.value[k], Outcome(w, d).drafts.value[k];
              && |now.hollowIds| == |was.hollowIds|
              && (forall i :: 0 <= i < |was.hollowIds| ==> Rekeyed(d.hollows, was.hollowIds[i], now.hollowIds[i]))
              && MappedIfAny(w, m, was.removed, now.removed) && MappedIfAny(w, m, was.required, now.required)
              && now.rest == was.rest
  {
    hide MapIds, IsMapped, ManifestOf, NothingToDo, FinalHollows, FinalTable, FinalForks, FinalOrSet, FinalJournal,
         FinalStaged, FinalProposals, AddAll, Only, HollowsOk, Full;
    if d.drafts.Some? && k in d.drafts.value {
      var m, was := ManifestOf(w, d), d.drafts.value[k];
      if was.removed.Some? { MapIdsIsMapped(w, m, was.removed.value); }
      if was.required.Some? { MapIdsIsMapped(w, m, was.required.value); }
    }
  }

  /** A stale hollow's id becomes its re-hash; any other id stays. */
  predicate Rekeyed(hs: map<Name, Hollow>, was: Name, now: Name) {
    now == if was in hs && !hs[was].current then hs[was].rehash else was
  }

  ghost predicate MappedIfAny(w: World, m: Manifest, was: Option<seq<Name>>, now: Option<seq<Name>>) {
    (was.Some? <==> now.Some?) && (was.Some? ==> IsMapped(w, m, was.value, now.value))
  }

  /** A fork record carried over: both tips go somewhere, and the remedy is written anew. */
  ghost predicate ForkGoesTo(w: World, m: Manifest, was: Fork, now: Fork) {
    && |was.tips| == 2 && |now.tips| == 2 && now.symbol == was.symbol
    && GoesTo(w, m, was.tips[0], now.tips[0]) && GoesTo(w, m, was.tips[1], now.tips[1])
    && now.remedy == "sgt resolve " + (if was.symbol.Some? then was.symbol.value else "None")
  }

  lemma ForkByFull(w: World, m: Manifest, was: Fork, now: Fork)
    ensures ForkGoesTo(w, m, was, now) <==> ForkMaps(was, Full(w, m)) && RemapFork(was, Full(w, m)) == now
  {
    if |was.tips| == 2 && |now.tips| == 2 {
      GoesByFull(w, m, was.tips[0], now.tips[0]);
      GoesByFull(w, m, was.tips[1], now.tips[1]);
    }
    hide GoesTo, Full;
  }

  lemma {:induction false} KeptForkHas(rs: seq<Fork>, m: Mapping, x: Fork)
    ensures x in KeptForks(rs, m) <==> exists r :: r in rs && ForkMaps(r, m) && RemapFork(r, m) == x
  {
    if rs != [] {
      var n := |rs| - 1;
      assert rs == rs[..n] + [rs[n]];
      KeptForkHas(rs[..n], m, x);
      hide ForkMaps, RemapFork;
    }
  }

  /** Open forks: those both of whose tips go somewhere, in order of symbol and tips, and no other. */
  lemma ForksOutcome(w: World, d: Disk)
    requires HollowsOk(d.hollows) && !NothingToDo(d)
    ensures var m, was, now := ManifestOf(w, d), d.forks, Outcome(w, d).forks;
            && (now.Some? <==> was.Some?)
            && (was.Some? ==>
                  && InOrder(now.value, ForkKey)
                  && forall x :: x in now.value <==> exists r :: r in was.value && ForkGoesTo(w, m, r, x))
  {
    var m := ManifestOf(w, d);
    hide ForkMaps, RemapFork, ManifestOf, NothingToDo, FinalHollows, FinalTable, FinalDrafts, FinalOrSet,
         FinalJournal, FinalStaged, FinalProposals, AddAll, Only, HollowsOk, Full, SortBy, KeptForks, ForkGoesTo;
    if d.forks.Some? {
      var was := d.forks.value;
      SortOrders(KeptForks(was, Full(w, m)), ForkKey);
      forall x
        ensures x in SortBy(KeptForks(was, Full(w, m)), ForkKey) <==> exists r :: r in was && ForkGoesTo(w, m, r, x)
      {
        KeptForkHas(was, Full(w, m), x);
        forall r ensures ForkGoesTo(w, m, r, x) <==> ForkMaps(r, Full(w, m)) && RemapFork(r, Full(w, m)) == x {
          ForkByFull(w, m, r, x);
        }
      }
    }
  }

  /** A declared edge carried over: both ends go somewhere, under the same tag. */
  ghost predicate AddGoesTo(w: World, m: Manifest, was: Add, now: Add) {
    GoesTo(w, m, was.src, now.src) && GoesTo(w, m, was.dst, now.dst) && now.tag == was.tag
  }

  lemma AddByFull(w: World, m: Manifest, was: Add, now: Add)
    ensures AddGoesTo(w, m, was, now) <==> AddMaps(was, Full(w, m)) && RemapAdd(was, Full(w, m)) == now
  {
    GoesByFull(w, m, was.src, now.src);
    GoesByFull(w, m, was.dst, now.dst);
    hide GoesTo, Full;
  }

  lemma {:induction false} KeptAddHas(adds: seq<Add>, m: Mapping, x: Add)
    ensures x in KeptAdds(adds, m) <==> exists a :: a in adds && AddMaps(a, m) && RemapAdd(a, m) == x
  {
    if adds != [] {
      var n := |adds| - 1;
      assert adds == adds[..n] + [adds[n]];
      KeptAddHas(adds[..n], m, x);
      hide AddMaps, RemapAdd;
    }
  }

  /** Declared edges: those both of whose ends go somewhere and no other, in order; every tombstone stays. */
  lemma OrSetOutcome(w: World, d: Disk)
    requires HollowsOk(d.hollows) && !NothingToDo(d)
    ensures var m, was, now := ManifestOf(w, d), d.orset, Outcome(w, d).orset;
            && (now.Some? <==> was.Some?)
            && (was.Some? ==>
                  && InOrder(now.value.adds, AddKey) && InOrder(now.value.tombstones, NameKey)
                  && (forall x :: x in now.value.adds <==> exists a :: a in was.value.adds && AddGoesTo(w, m, a, x))
                  && (forall t :: t in now.value.tombstones <==> t in was.value.tombstones))
  {
    var m := ManifestOf(w, d);
    hide AddMaps, RemapAdd, ManifestOf, NothingToDo, FinalHollows, FinalTable, FinalDrafts, FinalForks,
         FinalJournal, FinalStaged, FinalProposals, AddAll, Only, HollowsOk, Full, SavedOrSet, AddGoesTo;
    if d.orset.Some? {
      SavedHas(w, m, d.orset.value);
    }
  }

  lemma SavedHas(w: World, m: Manifest, o: OrSet)
    ensures var now := SavedOrSet(o, Full(w, m));
            && InOrder(now.adds, AddKey) && InOrder(now.tombstones, NameKey)
            && (forall x :: x in now.adds <==> exists a :: a in o.adds && AddGoesTo(w, m, a, x))
            && (forall t :: t in now.tombstones <==> t in o.tombstones)
  {
    var full := Full(w, m);
    var r, now := RemapOrSet(o, full), SavedOrSet(o, full);
    SortOrders(KeptAdds(o.adds, full), AddKey);
    SortOrders(o.tombstones, NameKey);
    DedupOrdered(r.adds, AddKey);
    DedupOrdered(r.tombstones, NameKey);
    assert forall x :: x in now.adds <==> x in KeptAdds(o.adds, full);
    hide SortBy, KeptAdds, AddMaps, RemapAdd, AddGoesTo, Full, InOrder, Dedup, SavedOrSet, RemapOrSet;
    forall x ensures x in now.adds <==> exists a :: a in o.adds && AddGoesTo(w, m, a, x) {
      KeptAddHas(o.adds, full, x);
      forall a ensures AddGoesTo(w, m, a, x) <==> AddMaps(a, full) && RemapAdd(a, full) == x { AddByFull(w, m, a, x); }
    }
  }

  // ---------------------------------------------------------------------------------------
  // Ops.

  lemma {:induction false} ProvenanceHas(v3: seq<Op>, id: Name, p: Name)
    ensures p in Provenance(v3, id) <==> exists op :: op in v3 && op.id == id && p in op.provenance
  {
    if v3 != [] {
      var n := |v3| - 1;
      assert v3 == v3[..n] + [v3[n]];
      ProvenanceHas(v3[..n], id, p);
    }
  }

  /** The op store: exactly the ops that were re-mined, each with the provenance it had and all it was re-mined
      from, and otherwise as it was filed, or as it was mined when it was not. */
  lemma OpsOutcome(w: World, d: Disk, id: Name)
    requires HollowsOk(d.hollows) && !NothingToDo(d)
    ensures id in Outcome(w, d).ops <==> exists op :: op in w.v3 && op.id == id
    ensures id in Outcome(w, d).ops ==>
              var now := Outcome(w, d).ops[id];
              && (forall p :: p in now.provenance <==>
                    (id in d.ops && p in d.ops[id].provenance) || exists op :: op in w.v3 && op.id == id
                                                                    && p in op.provenance)
              && (if id in d.ops then now.(provenance := {}) == d.ops[id].(provenance := {})
                  else exists op :: op in w.v3 && op.id == id && now.(provenance := {}) == op.(provenance := {}))
  {
    hide ManifestOf, NothingToDo, FinalHollows, FinalTable, FinalDrafts, FinalForks, FinalOrSet, FinalJournal,
         FinalStaged, FinalProposals, HollowsOk, Full, Provenance, Mined;
    assert id in V3Ids(w) <==> exists op :: op in w.v3 && op.id == id;
    if id in Outcome(w, d).ops {
      forall p
        ensures p in Provenance(w.v3, id) <==> exists op :: op in w.v3 && op.id == id && p in op.provenance
      {
        ProvenanceHas(w.v3, id, p);
      }
      hide IdsOf;
    }
  }

  // ---------------------------------------------------------------------------------------
  // Hollows.

  /** The hollow that ends up under an id: of the stale ones re-keyed to it the greatest, else the one there. */
  ghost predicate Fills(hs: map<Name, Hollow>, n: Name, i: Name) {
    && i in hs && hs[i].rehash == n
    && (if !hs[i].current then forall j :: j in hs && !hs[j].current && hs[j].rehash == n ==> Le(j, i)
        else i == n && forall j :: j in hs && hs[j].rehash == n ==> hs[j].current)
  }

  /** Hollows: every re-hash is filed and nothing else is; what is filed is current, and has the body of the hollow
      that fills it. */
  lemma HollowsOutcome(w: World, d: Disk, n: Name)
    requires HollowsOk(d.hollows) && !NothingToDo(d)
    ensures n in Outcome(w, d).hollows <==> exists i :: i in d.hollows && d.hollows[i].rehash == n
    ensures n in Outcome(w, d).hollows ==>
              var now := Outcome(w, d).hollows[n];
              && now.current && now.rehash == n
              && exists i :: Fills(d.hollows, n, i) && now.body == d.hollows[i].body
  {
    hide ManifestOf, NothingToDo, FinalTable, FinalDrafts, FinalForks, FinalOrSet, FinalJournal, FinalStaged,
         FinalProposals, Full, AddAll, Only;
    var hs := d.hollows;
    assert Outcome(w, d).hollows == FinalHollows(hs);
    hide Outcome, Greatest, FinalHollows;
    FinalIs(hs, n);
    if exists i :: i in hs && hs[i].rehash == n {
      HollowFills(hs, n);
    }
  }

  lemma FinalIs(hs: map<Name, Hollow>, n: Name)
    requires HollowsOk(hs)
    ensures n in FinalHollows(hs) <==> exists i :: i in hs && hs[i].rehash == n
    ensures n in FinalHollows(hs) ==>
              (StaleFor(hs, n) == {} ==> n in hs) && FinalHollows(hs)[n] == FinalHollow(hs, n)
  {
    if n in Targets(hs) { TargetsAreSettled(hs, n); }
    hide FinalHollow, StaleFor;
  }

  lemma HollowFills(hs: map<Name, Hollow>, n: Name)
    requires HollowsOk(hs) && exists i :: i in hs && hs[i].rehash == n
    requires StaleFor(hs, n) == {} ==> n in hs
    ensures var now := FinalHollow(hs, n);
            now.current && now.rehash == n && exists i :: Fills(hs, n, i) && now.body == hs[i].body
  {
    hide Greatest, Le;
    if StaleFor(hs, n) == {} {
      var i :| i in hs && hs[i].rehash == n;
      assert i !in StaleFor(hs, n);
      forall j | j in hs && hs[j].rehash == n ensures hs[j].current { assert j !in StaleFor(hs, n); }
      assert i == n;
      assert Fills(hs, n, n);
    } else {
      var i := Greatest(StaleFor(hs, n));
      assert i in StaleFor(hs, n);
      forall j | j in hs && !hs[j].current && hs[j].rehash == n ensures Le(j, i) { assert j in StaleFor(hs, n); }
      assert Fills(hs, n, i);
    }
  }
}
