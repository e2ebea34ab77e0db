/** Carrying every artifact that names op ids across the version boundary (`sgt/core/migrate.py`).

    A rewrite may run again over an artifact an interrupted run already rewrote, so each has to be
    idempotent.  That rests on the full map: the v2-to-v3 map extended with the identity on v3 ids. */
module Remap {
  import opened Names

  // ---------------------------------------------------------------------------------------
  // Python's order on lists of strings, and `sorted` by such a key.

  predicate LeList(a: seq<Name>, b: seq<Name>) {
    a == [] || (b != [] && (if a[0] == b[0] then LeList(a[1..], b[1..]) else Le(a[0], b[0])))
  }

  lemma LeListTotal(a: seq<Name>, b: seq<Name>)
    ensures LeList(a, b) || LeList(b, a)
  {
    if a != [] && b != [] { LeTotal(a[0], b[0]); }
  }

  function InsertBy<T(!new)>(x: T, s: seq<T>, key: T -> seq<Name>): (r: seq<T>)
    ensures r != [] && (r[0] == x || (s != [] && r[0] == s[0]))
    ensures forall y :: y in r <==> y == x || y in s
  {
    if s == [] || LeList(key(x), key(s[0])) then [x] + s
    else
      assert s == [s[0]] + s[1..];
      [s[0]] + InsertBy(x, s[1..], key)
  }

  /** Stable. */
  function SortBy<T(!new)>(s: seq<T>, key: T -> seq<Name>): (r: seq<T>)
    ensures forall y :: y in r <==> y in s
  {
    if s == [] then []
    else
      assert s == [s[0]] + s[1..];
      InsertBy(s[0], SortBy(s[1..], key), key)
  }

  ghost predicate InOrder<T>(s: seq<T>, key: T -> seq<Name>) {
    |s| <= 1 || (LeList(key(s[0]), key(s[1])) && InOrder(s[1..], key))
  }

  lemma {:induction false} InsertOrders<T(!new)>(x: T, s: seq<T>, key: T -> seq<Name>)
    requires InOrder(s, key)
    ensures InOrder(InsertBy(x, s, key), key)
  {
    var r := InsertBy(x, s, key);
    if s == [] || LeList(key(x), key(s[0])) {
      assert r[1..] == s;
    } else {
      LeListTotal(key(x), key(s[0]));
      InsertOrders(x, s[1..], key);
      assert r[1..] == InsertBy(x, s[1..], key);
      hide LeList;
    }
  }

  lemma {:induction false} SortOrders<T(!new)>(s: seq<T>, key: T -> seq<Name>)
    ensures InOrder(SortBy(s, key), key)
  {
    if s != [] {
      SortOrders(s[1..], key);
      InsertOrders(s[0], SortBy(s[1..], key), key);
    }
  }

  lemma {:induction false} OrderedStays<T(!new)>(s: seq<T>, key: T -> seq<Name>)
    requires InOrder(s, key)
    ensures SortBy(s, key) == s
  {
    if s != [] {
      OrderedStays(s[1..], key);
      assert s == [s[0]] + s[1..];
    }
  }

  // ---------------------------------------------------------------------------------------
  // Maps.

  type Mapping = map<Name, Name>

  /** `_full_map`: the identity on v3 ids, the v2-to-v3 entries taking precedence. */
  function FullMap(v3Ids: set<Name>, mapping: Mapping): Mapping {
    (map i | i in v3Ids :: i) + mapping
  }

  /** Applying the map twice is applying it once. */
  ghost predicate Fixes(m: Mapping) {
    forall i {:trigger m[i]} :: i in m ==> m[i] in m && m[m[i]] == m[i]
  }

  /** The full map is idempotent when no pre-v3 id is a v3 id: a miner version is part of what an id
      hashes. */
  lemma FullMapFixes(v3Ids: set<Name>, mapping: Mapping)
    requires mapping.Keys !! v3Ids && mapping.Values <= v3Ids
    ensures Fixes(FullMap(v3Ids, mapping))
    ensures forall i :: i in FullMap(v3Ids, mapping) ==> FullMap(v3Ids, mapping)[i] in v3Ids
    ensures forall i :: i in v3Ids ==> i in FullMap(v3Ids, mapping)
  {
    var m := FullMap(v3Ids, mapping);
    forall i | i in m ensures m[i] in v3Ids {
      if i in mapping { assert mapping[i] in mapping.Values; }
    }
  }

  /** The pre-v3 map alone is not: it knows no v3 id, so a second rewrite would drop them all. */
  lemma BareMapForgets(v3Ids: set<Name>, mapping: Mapping, i: Name)
    requires mapping.Keys !! v3Ids && mapping.Values <= v3Ids && i in mapping
    ensures Image([mapping[i]], mapping) == {} && Image([mapping[i]], FullMap(v3Ids, mapping)) == {mapping[i]}
  {
    assert mapping[i] in mapping.Values;
    var full := FullMap(v3Ids, mapping);
    assert full[mapping[i]] == mapping[i];
    forall x ensures x in Image([mapping[i]], full) <==> x == mapping[i] {
      if x == mapping[i] { assert mapping[i] in [mapping[i]]; }
    }
  }

  function Image(ids: seq<Name>, m: Mapping): (r: set<Name>)
    ensures forall x :: x in r <==> exists i :: i in ids && i in m && m[i] == x
  {
    set i | i in ids && i in m :: m[i]
  }

  /** `sorted(reduce_to_ideal(_remap_ids(ids)))`. */
  function RemapIdeal(ids: seq<Name>, m: Mapping, reduce: set<Name> -> set<Name>): seq<Name> {
    Sorted(reduce(Image(ids, m)))
  }

  /** What the migration relies on `reduce_to_ideal` for. */
  ghost predicate Reduces(reduce: set<Name> -> set<Name>) {
    forall s {:trigger reduce(s)} :: reduce(s) <= s && reduce(reduce(s)) == reduce(s)
  }

  lemma FixedImage(s: set<Name>, source: seq<Name>, m: Mapping)
    requires Fixes(m) && s <= Image(source, m)
    ensures Image(Sorted(s), m) == s
  {
    forall x ensures x in Image(Sorted(s), m) <==> x in s {
      if x in s {
        var i :| i in source && i in m && m[i] == x;
        assert m[x] == x && x in Sorted(s);
      }
      if x in Image(Sorted(s), m) {
        var y :| y in Sorted(s) && y in m && m[y] == x;
        assert y in s;
        var i :| i in source && i in m && m[i] == y;
      }
    }
  }

  lemma RemapIdealAgain(ids: seq<Name>, m: Mapping, reduce: set<Name> -> set<Name>)
    requires Fixes(m) && Reduces(reduce)
    ensures RemapIdeal(RemapIdeal(ids, m, reduce), m, reduce) == RemapIdeal(ids, m, reduce)
  {
    var once := reduce(Image(ids, m));
    assert once <= Image(ids, m) && reduce(once) == once;
    FixedImage(once, ids, m);
  }

  // ---------------------------------------------------------------------------------------
  // The ideal table, the journal, the staged candidate.

  type Table = map<Name, seq<Name>>

  /** The current ref gets the recovered ideal, even if it was never tracked. */
  function RemapTable(table: Table, m: Mapping, reduce: set<Name> -> set<Name>, key: Name, ideal: seq<Name>): Table {
    map k | k in table.Keys + {key} :: if k == key then ideal else RemapIdeal(table[k], m, reduce)
  }

  lemma RemapTableAgain(t: Table, m: Mapping, reduce: set<Name> -> set<Name>, key: Name, ideal: seq<Name>)
    requires Fixes(m) && Reduces(reduce)
    ensures var once := RemapTable(t, m, reduce, key, ideal); RemapTable(once, m, reduce, key, ideal) == once
  {
    var once := RemapTable(t, m, reduce, key, ideal);
    hide RemapIdeal, Fixes, Reduces;
    forall k | k in once && k != key ensures RemapIdeal(once[k], m, reduce) == once[k] {
      assert once[k] == RemapIdeal(t[k], m, reduce);
      RemapIdealAgain(t[k], m, reduce);
    }
    var twice := RemapTable(once, m, reduce, key, ideal);
    assert twice.Keys == once.Keys;
  }

  /** A journal entry.  `rest` is whatever else it held. */
  datatype Event = Event(ideal: seq<Name>, witnessSha: Option<Name>, rest: map<string, string>)

  function RemapEvent(e: Event, m: Mapping, reduce: set<Name> -> set<Name>): Event {
    Event(RemapIdeal(e.ideal, m, reduce), e.witnessSha, map[])
  }

  function RemapEvents(es: seq<Event>, m: Mapping, reduce: set<Name> -> set<Name>): (r: seq<Event>)
    ensures |r| == |es| && forall i :: 0 <= i < |es| ==> r[i] == RemapEvent(es[i], m, reduce)
  {
    seq(|es|, i requires 0 <= i < |es| => RemapEvent(es[i], m, reduce))
  }

  type Journal = map<Name, seq<Event>>

  function RemapJournal(j: Journal, m: Mapping, reduce: set<Name> -> set<Name>): Journal {
    map k | k in j :: RemapEvents(j[k], m, reduce)
  }

  lemma RemapJournalAgain(j: Journal, m: Mapping, reduce: set<Name> -> set<Name>)
    requires Fixes(m) && Reduces(reduce)
    ensures var once := RemapJournal(j, m, reduce); RemapJournal(once, m, reduce) == once
  {
    var once := RemapJournal(j, m, reduce);
    hide RemapIdeal;
    forall k | k in once ensures RemapEvents(once[k], m, reduce) == once[k] {
      forall i | 0 <= i < |j[k]| ensures RemapEvent(once[k][i], m, reduce) == once[k][i] {
        RemapIdealAgain(j[k][i].ideal, m, reduce);
      }
    }
  }

  /** An id list with nothing left to rewrite: sorted, of v3 ids alone, and an ideal already. */
  ghost predicate Crossed(ids: seq<Name>, v3Ids: set<Name>, reduce: set<Name> -> set<Name>) {
    Increasing(ids) && Elements(ids) <= v3Ids && reduce(Elements(ids)) == Elements(ids)
  }

  lemma CrossedIsFixed(ids: seq<Name>, v3Ids: set<Name>, mapping: Mapping, reduce: set<Name> -> set<Name>)
    requires mapping.Keys !! v3Ids && mapping.Values <= v3Ids && Reduces(reduce)
    ensures RemapIdeal(ids, FullMap(v3Ids, mapping), reduce) == ids <==> Crossed(ids, v3Ids, reduce)
  {
    var m := FullMap(v3Ids, mapping);
    FullMapFixes(v3Ids, mapping);
    var once := reduce(Image(ids, m));
    hide Fixes, FullMap, Le;
    if Sorted(once) == ids {
      SortedIncreases(once);
      assert Elements(ids) == once;
      FixedImage(once, ids, m);
    }
    if Crossed(ids, v3Ids, reduce) {
      V3Image(ids, v3Ids, mapping);
      SortedIs(once, ids);
    }
  }

  lemma V3Image(ids: seq<Name>, v3Ids: set<Name>, mapping: Mapping)
    requires mapping.Keys !! v3Ids && Elements(ids) <= v3Ids
    ensures Image(ids, FullMap(v3Ids, mapping)) == Elements(ids)
  {
    forall i | i in ids ensures i in FullMap(v3Ids, mapping) && FullMap(v3Ids, mapping)[i] == i {
      assert i in Elements(ids);
    }
  }

  /** Entries a rewrite has nothing to do to, and nothing to lose from. */
  ghost predicate AllCrossed(es: seq<Event>, v3Ids: set<Name>, reduce: set<Name> -> set<Name>) {
    forall i :: 0 <= i < |es| ==> es[i].rest == map[] && Crossed(es[i].ideal, v3Ids, reduce)
  }

  lemma CrossedEntriesAreKept(es: seq<Event>, v3Ids: set<Name>, mapping: Mapping, reduce: set<Name> -> set<Name>)
    requires mapping.Keys !! v3Ids && mapping.Values <= v3Ids && Reduces(reduce)
    ensures RemapEvents(es, FullMap(v3Ids, mapping), reduce) == es <==> AllCrossed(es, v3Ids, reduce)
  {
    var m := FullMap(v3Ids, mapping);
    hide RemapIdeal, Crossed, FullMap, Reduces;
    var new_ := RemapEvents(es, m, reduce);
    forall i | 0 <= i < |es|
      ensures new_[i] == es[i] <==> es[i].rest == map[] && Crossed(es[i].ideal, v3Ids, reduce)
    {
      CrossedIsFixed(es[i].ideal, v3Ids, mapping, reduce);
    }
  }

  /** A journal comes through a rewrite as it was exactly when every entry held an ideal and a witness
      and nothing more, and the ideal had crossed before: whatever else entries hold is lost. */
  lemma JournalIsKeptExactlyWhen(j: Journal, v3Ids: set<Name>, mapping: Mapping, reduce: set<Name> -> set<Name>)
    requires mapping.Keys !! v3Ids && mapping.Values <= v3Ids && Reduces(reduce)
    ensures RemapJournal(j, FullMap(v3Ids, mapping), reduce) == j
            <==> forall k :: k in j ==> AllCrossed(j[k], v3Ids, reduce)
  {
    var m := FullMap(v3Ids, mapping);
    var new_ := RemapJournal(j, m, reduce);
    assert new_.Keys == j.Keys;
    hide RemapEvents, AllCrossed, FullMap, Reduces;
    forall k | k in j ensures new_[k] == j[k] <==> AllCrossed(j[k], v3Ids, reduce) {
      CrossedEntriesAreKept(j[k], v3Ids, mapping, reduce);
    }
  }

  datatype Staged = Staged(opIds: seq<Name>, rest: map<string, string>)

  function RemapStaged(s: Staged, m: Mapping, reduce: set<Name> -> set<Name>): Staged {
    s.(opIds := RemapIdeal(s.opIds, m, reduce))
  }

  lemma RemapStagedAgain(s: Staged, m: Mapping, reduce: set<Name> -> set<Name>)
    requires Fixes(m) && Reduces(reduce)
    ensures var once := RemapStaged(s, m, reduce); RemapStaged(once, m, reduce) == once
  {
    RemapIdealAgain(s.opIds, m, reduce);
    hide RemapIdeal;
  }

  // ---------------------------------------------------------------------------------------
  // Open forks.

  datatype Fork = Fork(symbol: Option<Name>, tips: seq<Name>, remedy: string)

  function SymbolOr(s: Option<Name>, none: string): string {
    if s.Some? then s.value else none
  }

  function ForkKey(r: Fork): seq<Name> {
    [SymbolOr(r.symbol, "")] + r.tips
  }

  predicate ForkMaps(r: Fork, m: Mapping) {
    |r.tips| == 2 && r.tips[0] in m && r.tips[1] in m
  }

  function RemapFork(r: Fork, m: Mapping): Fork
    requires ForkMaps(r, m)
  {
    Fork(r.symbol, [m[r.tips[0]], m[r.tips[1]]], "sgt resolve " + SymbolOr(r.symbol, "None"))
  }

  /** Records with two mappable tips, remapped, in order. */
  function KeptForks(rs: seq<Fork>, m: Mapping): seq<Fork> {
    if rs == [] then []
    else
      var init, r := KeptForks(rs[..|rs| - 1], m), rs[|rs| - 1];
      if ForkMaps(r, m) then init + [RemapFork(r, m)] else init
  }

  function RemapForks(rs: seq<Fork>, m: Mapping): seq<Fork> {
    SortBy(KeptForks(rs, m), ForkKey)
  }

  ghost predicate ForkFixed(r: Fork, m: Mapping) {
    ForkMaps(r, m) && RemapFork(r, m) == r
  }

  lemma {:induction false} KeptAreFixed(rs: seq<Fork>, m: Mapping)
    requires Fixes(m)
    ensures forall r :: r in KeptForks(rs, m) ==> ForkFixed(r, m)
  {
    if rs != [] {
      KeptAreFixed(rs[..|rs| - 1], m);
      var r := rs[|rs| - 1];
      if ForkMaps(r, m) { assert ForkFixed(RemapFork(r, m), m); }
      hide ForkFixed, ForkMaps, RemapFork;
    }
  }

  lemma {:induction false} FixedAreKept(rs: seq<Fork>, m: Mapping)
    requires forall r :: r in rs ==> ForkFixed(r, m)
    ensures KeptForks(rs, m) == rs
  {
    if rs != [] {
      var n := |rs| - 1;
      assert rs == rs[..n] + [rs[n]];
      FixedAreKept(rs[..n], m);
      assert ForkFixed(rs[n], m);
    }
  }

  lemma RemapForksAgain(rs: seq<Fork>, m: Mapping)
    requires Fixes(m)
    ensures var once := RemapForks(rs, m); RemapForks(once, m) == once
  {
    var once := RemapForks(rs, m);
    KeptAreFixed(rs, m);
    hide ForkFixed;
    assert forall r :: r in once ==> ForkFixed(r, m);
    FixedAreKept(once, m);
    SortOrders(KeptForks(rs, m), ForkKey);
    OrderedStays(once, ForkKey);
  }

  // ---------------------------------------------------------------------------------------
  // Declared edges.

  datatype Add = Add(src: Name, dst: Name, tag: Name)

  datatype OrSet = OrSet(adds: seq<Add>, tombstones: seq<Name>)

  function AddKey(a: Add): seq<Name> {
    [a.src, a.dst, a.tag]
  }

  function NameKey(n: Name): seq<Name> {
    [n]
  }

  predicate AddMaps(a: Add, m: Mapping) {
    a.src in m && a.dst in m
  }

  function RemapAdd(a: Add, m: Mapping): Add
    requires AddMaps(a, m)
  {
    Add(m[a.src], m[a.dst], a.tag)
  }

  function KeptAdds(adds: seq<Add>, m: Mapping): seq<Add> {
    if adds == [] then []
    else
      var init, a := KeptAdds(adds[..|adds| - 1], m), adds[|adds| - 1];
      if AddMaps(a, m) then init + [RemapAdd(a, m)] else init
  }

  /** `_remap_orset`. */
  function RemapOrSet(o: OrSet, m: Mapping): OrSet {
    OrSet(SortBy(KeptAdds(o.adds, m), AddKey), SortBy(o.tombstones, NameKey))
  }

  /** A sorted list without its repetitions, as saving through a set leaves it. */
  function Dedup<T(==,!new)>(s: seq<T>): (r: seq<T>)
    ensures forall x :: x in r <==> x in s
    ensures s != [] ==> r != [] && r[0] == s[0]
  {
    if |s| <= 1 then s
    else
      assert s == [s[0]] + s[1..];
      if s[0] == s[1] then Dedup(s[1..]) else [s[0]] + Dedup(s[1..])
  }

  lemma {:induction false} DedupOrdered<T(!new)>(s: seq<T>, key: T -> seq<Name>)
    requires InOrder(s, key)
    ensures InOrder(Dedup(s), key)
  {
    if |s| > 1 {
      DedupOrdered(s[1..], key);
      if s[0] != s[1] { assert Dedup(s)[1..] == Dedup(s[1..]); }
      hide LeList;
    }
  }

  /** What ends up on disk: written, through sets, only when the rewrite changes something. */
  function SavedOrSet(o: OrSet, m: Mapping): OrSet {
    var r := RemapOrSet(o, m);
    if r == o then o else OrSet(Dedup(r.adds), Dedup(r.tombstones))
  }

  ghost predicate AddFixed(a: Add, m: Mapping) {
    AddMaps(a, m) && RemapAdd(a, m) == a
  }

  lemma {:induction false} KeptAddsAreFixed(adds: seq<Add>, m: Mapping)
    requires Fixes(m)
    ensures forall a :: a in KeptAdds(adds, m) ==> AddFixed(a, m)
  {
    if adds != [] {
      KeptAddsAreFixed(adds[..|adds| - 1], m);
      var a := adds[|adds| - 1];
      if AddMaps(a, m) { assert AddFixed(RemapAdd(a, m), m); }
      hide AddFixed, AddMaps, RemapAdd;
    }
  }

  lemma {:induction false} FixedAddsAreKept(adds: seq<Add>, m: Mapping)
    requires forall a :: a in adds ==> AddFixed(a, m)
    ensures KeptAdds(adds, m) == adds
  {
    if adds != [] {
      var n := |adds| - 1;
      assert adds == adds[..n] + [adds[n]];
      FixedAddsAreKept(adds[..n], m);
      assert AddFixed(adds[n], m);
    }
  }

  lemma SavedOrSetAgain(o: OrSet, m: Mapping)
    requires Fixes(m)
    ensures var once := SavedOrSet(o, m); RemapOrSet(once, m) == once && SavedOrSet(once, m) == once
  {
    var r, once := RemapOrSet(o, m), SavedOrSet(o, m);
    if r != o {
      KeptAddsAreFixed(o.adds, m);
      hide AddFixed;
      assert forall a :: a in once.adds ==> AddFixed(a, m);
      FixedAddsAreKept(once.adds, m);
      SortOrders(KeptAdds(o.adds, m), AddKey);
      SortOrders(o.tombstones, NameKey);
      DedupOrdered(r.adds, AddKey);
      DedupOrdered(r.tombstones, NameKey);
      OrderedStays(once.adds, AddKey);
      OrderedStays(once.tombstones, NameKey);
    }
  }

  // ---------------------------------------------------------------------------------------
  // Proposals.

  datatype Proposal = Proposal(baseIds: seq<Name>, deltaIds: seq<Name>, rest: map<string, string>)

  /** Every mappable id, mapped, in order. */
  function MapIds(ids: seq<Name>, m: Mapping): seq<Name> {
    if ids == [] then []
    else
      var init, i := MapIds(ids[..|ids| - 1], m), ids[|ids| - 1];
      if i in m then init + [m[i]] else init
  }

  function RemapProposal(p: Proposal, m: Mapping): Proposal {
    p.(baseIds := SortBy(MapIds(p.baseIds, m), NameKey), deltaIds := SortBy(MapIds(p.deltaIds, m), NameKey))
  }

  ghost predicate IdFixed(i: Name, m: Mapping) {
    i in m && m[i] == i
  }

  lemma {:induction false} MappedAreFixed(ids: seq<Name>, m: Mapping)
    requires Fixes(m)
    ensures forall i :: i in MapIds(ids, m) ==> IdFixed(i, m)
  {
    if ids != [] { MappedAreFixed(ids[..|ids| - 1], m); }
  }

  lemma {:induction false} FixedAreMapped(ids: seq<Name>, m: Mapping)
    requires forall i :: i in ids ==> IdFixed(i, m)
    ensures MapIds(ids, m) == ids
  {
    if ids != [] {
      var n := |ids| - 1;
      assert ids == ids[..n] + [ids[n]];
      FixedAreMapped(ids[..n], m);
      assert IdFixed(ids[n], m);
    }
  }

  lemma SortedIdsAgain(ids: seq<Name>, m: Mapping)
    requires Fixes(m)
    ensures var once := SortBy(MapIds(ids, m), NameKey); SortBy(MapIds(once, m), NameKey) == once
  {
    var once := SortBy(MapIds(ids, m), NameKey);
    MappedAreFixed(ids, m);
    hide IdFixed;
    assert forall i :: i in once ==> IdFixed(i, m);
    FixedAreMapped(once, m);
    SortOrders(MapIds(ids, m), NameKey);
    OrderedStays(once, NameKey);
  }

  lemma RemapProposalAgain(p: Proposal, m: Mapping)
    requires Fixes(m)
    ensures var once := RemapProposal(p, m); RemapProposal(once, m) == once
  {
    SortedIdsAgain(p.baseIds, m);
    SortedIdsAgain(p.deltaIds, m);
    hide MapIds, SortBy;
  }

  // ---------------------------------------------------------------------------------------
  // Drafts.

  datatype Draft = Draft(hollowIds: seq<Name>, removed: Option<seq<Name>>, required: Option<seq<Name>>,
                         rest: map<string, string>)

  type Drafts = map<Name, Draft>

  function Renamed(i: Name, hollows: Mapping): Name {
    if i in hollows then hollows[i] else i
  }

  function RenameAll(ids: seq<Name>, hollows: Mapping): (r: seq<Name>)
    ensures |r| == |ids| && forall k :: 0 <= k < |ids| ==> r[k] == Renamed(ids[k], hollows)
  {
    seq(|ids|, k requires 0 <= k < |ids| => Renamed(ids[k], hollows))
  }

  function MapOptional(ids: Option<seq<Name>>, m: Mapping): Option<seq<Name>> {
    if ids.Some? then Some(MapIds(ids.value, m)) else None
  }

  function RemapDraft(d: Draft, m: Mapping, hollows: Mapping): Draft {
    d.(hollowIds := RenameAll(d.hollowIds, hollows), removed := MapOptional(d.removed, m),
       required := MapOptional(d.required, m))
  }

  function RemapDrafts(ds: Drafts, m: Mapping, hollows: Mapping): Drafts {
    map k | k in ds :: RemapDraft(ds[k], m, hollows)
  }

  lemma MapIdsAgain(ids: seq<Name>, m: Mapping)
    requires Fixes(m)
    ensures MapIds(MapIds(ids, m), m) == MapIds(ids, m)
  {
    MappedAreFixed(ids, m);
    FixedAreMapped(MapIds(ids, m), m);
  }

  /** A later hollow map that renames no id the first one could have written or kept. */
  ghost predicate Quiet(ds: Drafts, first: Mapping, second: Mapping) {
    forall k, i :: k in ds && 0 <= i < |ds[k].hollowIds| ==> Renamed(ds[k].hollowIds[i], first) !in second
  }

  lemma RemapDraftsAgain(ds: Drafts, m: Mapping, first: Mapping, second: Mapping)
    requires Fixes(m) && Quiet(ds, first, second)
    ensures var once := RemapDrafts(ds, m, first); RemapDrafts(once, m, second) == once
  {
    var once := RemapDrafts(ds, m, first);
    forall k | k in ds ensures RemapDraft(once[k], m, second) == once[k] {
      hide MapIds, Fixes;
      if ds[k].removed.Some? { MapIdsAgain(ds[k].removed.value, m); }
      if ds[k].required.Some? { MapIdsAgain(ds[k].required.value, m); }
      assert RenameAll(once[k].hollowIds, second) == once[k].hollowIds;
    }
    hide RemapDraft;
  }
}
