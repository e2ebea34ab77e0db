/** Mine, replay, fold: the round trip over whole histories of one path.

    Every commit is mined against its parent alone; the theorems here say what replaying all
    those differences and folding the result gives at each commit. */
module History {
  import opened Names
  import opened Symbols
  import opened Snapshots
  import opened Tables
  import opened Chains
  import Layout
  import Fold

  /** One commit's view of the path.  `listed`: the commit's diff names the path. */
  datatype Commit = Commit(file: Snapshot, listed: bool, bookkeeping: bool)

  type Commits = seq<Commit>

  function PriorFile(h: Commits, i: nat): Snapshot
    requires i <= |h|
  {
    if i == 0 then Absent else h[i - 1].file
  }

  /** A linear history: a diff lists the path whenever its content changed, and only when the
      path exists on some side. */
  ghost predicate ValidHistory(h: Commits) {
    forall i :: 0 <= i < |h| ==>
      && WellFormed(h[i].file)
      && (!h[i].listed ==> h[i].file == PriorFile(h, i))
      && (h[i].listed ==> h[i].file.Present? || PriorFile(h, i).Present?)
  }

  predicate Flips(tier: Tier, before: Snapshot, after: Snapshot) {
    RepOf(tier, before) == ByParts && RepOf(tier, after) == WholeFile
  }

  /** The table a commit leaves, with what its diff and its message say about it. */
  function PointOf(tier: Tier, h: Commits, i: nat): Point
    requires i < |h| && WellFormed(h[i].file)
  {
    Point(TableOf(tier, h[i].file), h[i].listed, Flips(tier, PriorFile(h, i), h[i].file), h[i].bookkeeping)
  }

  function TimelineOf(tier: Tier, h: Commits): (r: Timeline)
    requires ValidHistory(h)
    ensures |r| == |h| && forall i :: 0 <= i < |h| ==> r[i] == PointOf(tier, h, i)
  {
    seq(|h|, i requires 0 <= i < |h| => PointOf(tier, h, i))
  }

  /** Symbols whose newest touch is not a removal, with their images. */
  function LiveOf(state: Table): (r: Fold.LiveSet)
    ensures forall s :: s in r <==> s in state && !state[s].version.Bottom?
    ensures forall s :: s in r ==> r[s] == state[s].image
  {
    map s | s in state && !state[s].version.Bottom? :: state[s].image
  }

  // ---------------------------------------------------------------------------------------
  // Tables by symbol.

  ghost predicate IsTopName(ents: seq<Ent>, n: Name) {
    exists e :: e in ents && IsTop(e) && e.name == n
  }

  lemma TopNames(raw: Bytes, ents: seq<Ent>, key: Ent -> int, n: Name)
    requires Extracted(raw, ents)
    ensures var r := Sorting.StableSort(Top(ents), key);
            NamedBefore(r, |r|, n) <==> IsTopName(ents, n)
  {
    var r := Sorting.StableSort(Top(ents), key);
    SortedTopIsDistinct(ents, key);
    hide Extracted;
    if NamedBefore(r, |r|, n) {
      var k :| 0 <= k < |r| && r[k].name == n;
      assert r[k] in r;
    }
    if IsTopName(ents, n) {
      var e :| e in ents && IsTop(e) && e.name == n;
      assert e in r;
      var k :| 0 <= k < |r| && r[k] == e;
    }
  }

  /** The three parts of a table, in terms of one symbol. */
  ghost predicate MadeOf(t: Table, ents: Table, gaps: map<Option<Name>, Bytes>, facts: Layout.Facts, x: Sym) {
    match x
    case Whole => x !in t
    case Entity(n) => (x in t <==> x in ents) && (x in t ==> t[x] == ents[x])
    case Nested(n) => (x in t <==> x in ents) && (x in t ==> t[x] == ents[x])
    case Residue(a) => (x in t <==> a in gaps) && (x in t ==> t[x] == GapEntry(gaps[a]))
    case Anchor(n) => (x in t <==> n in facts) && (x in t ==> t[x] == FactEntry(facts[n]))
  }

  lemma UnionIsMadeOf(ents: Table, gaps: map<Option<Name>, Bytes>, facts: Layout.Facts, x: Sym)
    requires forall y :: y in ents ==> y.Entity? || y.Nested?
    ensures MadeOf(ents + GapTable(gaps) + FactTable(facts), ents, gaps, facts, x)
  {
    hide GapTable, FactTable;
  }

  lemma TableUnfolds(tier: Tier, s: Snapshot)
    requires WellFormed(s) && RepOf(tier, s) == ByParts
    ensures TableOf(tier, s) == PartTable(s.raw, s.ents)
  {
    hide PartTable, Extracted;
  }

  lemma PartTableIs(raw: Bytes, ents: seq<Ent>)
    requires Extracted(raw, ents)
    ensures LaidOut(raw, InBytes(ents))
    ensures PartTable(raw, ents) ==
            EntTable(raw, ents) + GapTable(Segments(raw, InBytes(ents))) + FactTable(AnchorFacts(InLines(ents)))
  {
    InBytesIsLaidOut(raw, ents);
    hide EntTable, GapTable, FactTable, Segments, AnchorFacts, InBytes, InLines, Extracted, LaidOut;
  }

  lemma EntSymsOnly(raw: Bytes, ents: seq<Ent>, y: Sym)
    requires Extracted(raw, ents) && y in EntTable(raw, ents)
    ensures y.Entity? || y.Nested?
  {
    EntTableIs(raw, ents);
  }

  lemma PartsTable(tier: Tier, s: Snapshot, x: Sym)
    requires WellFormed(s) && RepOf(tier, s) == ByParts
    ensures LaidOut(s.raw, InBytes(s.ents))
    ensures MadeOf(TableOf(tier, s), EntTable(s.raw, s.ents), Segments(s.raw, InBytes(s.ents)),
                   AnchorFacts(InLines(s.ents)), x)
  {
    TableUnfolds(tier, s);
    PartTableIs(s.raw, s.ents);
    hide *;
    var ents := EntTable(s.raw, s.ents);
    forall y | y in ents ensures y.Entity? || y.Nested? { EntSymsOnly(s.raw, s.ents, y); }
    UnionIsMadeOf(ents, Segments(s.raw, InBytes(s.ents)), AnchorFacts(InLines(s.ents)), x);
  }

  lemma EntInTable(tier: Tier, s: Snapshot, e: Ent)
    requires WellFormed(s) && RepOf(tier, s) == ByParts && e in s.ents
    ensures e.start <= e.end <= |s.raw|
    ensures EntSym(e) in TableOf(tier, s) && TableOf(tier, s)[EntSym(e)] == EntEntry(s.raw, e)
  {
    EntTableIs(s.raw, s.ents);
    PartsTable(tier, s, EntSym(e));
  }

  lemma TopEntities(raw: Bytes, ents: seq<Ent>, n: Name)
    requires Extracted(raw, ents)
    ensures Entity(n) in EntTable(raw, ents) <==> IsTopName(ents, n)
  {
    EntTableIs(raw, ents);
    if Entity(n) in EntTable(raw, ents) {
      var e :| e in ents && Entity(n) == EntSym(e);
      assert e in ents && IsTop(e) && e.name == n;
    }
    if IsTopName(ents, n) {
      var e :| e in ents && IsTop(e) && e.name == n;
      assert Entity(n) == EntSym(e);
    }
  }

  lemma TablesAreCoherent(tier: Tier, s: Snapshot)
    requires WellFormed(s)
    ensures Coherent(TableOf(tier, s))
  {
    if RepOf(tier, s) == ByParts {
      var t := TableOf(tier, s);
      forall x | x in t
        ensures CoherentAt(t, x)
      {
        PartsTable(tier, s, x);
        if x.Entity? || x.Nested? { EntEntries(s.raw, s.ents, x); }
      }
    }
  }

  lemma EntEntries(raw: Bytes, ents: seq<Ent>, x: Sym)
    requires Extracted(raw, ents) && x in EntTable(raw, ents)
    ensures var v := EntTable(raw, ents)[x];
            v.version.Positional? && x == NameSym(v.version.name) && v.image == Data(v.version.data)
  {
    EntTableIs(raw, ents);
    var e :| e in ents && x == EntSym(e);
    assert EntTable(raw, ents)[x] == EntEntry(raw, e);
  }

  lemma TimelineIsValid(tier: Tier, h: Commits)
    requires ValidHistory(h)
    ensures ValidTimeline(TimelineOf(tier, h))
  {
    var t := TimelineOf(tier, h);
    forall i | 0 <= i < |h|
      ensures Coherent(t[i].table) && (!t[i].listed ==> t[i].table == Prior(t, i))
    {
      TablesAreCoherent(tier, h[i].file);
    }
  }

  // ---------------------------------------------------------------------------------------
  // The fold of a faithful state.

  /** The bytes of a file put together in the order its anchor facts were recorded. */
  ghost function BytesInLineOrder(raw: Bytes, ents: seq<Ent>): Bytes
    requires Extracted(raw, ents)
  {
    InBytesIsLaidOut(raw, ents);
    LineNamesAreByteNames(raw, ents);
    HeadGap(raw, InBytes(ents)) + Splice(raw, InBytes(ents), NamesOf(InLines(ents)))
  }

  lemma LineNamesAreByteNames(raw: Bytes, ents: seq<Ent>)
    requires Extracted(raw, ents)
    ensures Distinct(NamesOf(InLines(ents))) && Distinct(NamesOf(InBytes(ents)))
    ensures forall n :: n in NamesOf(InLines(ents)) <==> IsTopName(ents, n)
    ensures forall n :: n in NamesOf(InBytes(ents)) <==> IsTopName(ents, n)
  {
    SortedTopIsDistinct(ents, LineOf);
    SortedTopIsDistinct(ents, StartOf);
    forall n ensures n in NamesOf(InLines(ents)) <==> IsTopName(ents, n) {
      TopNames(raw, ents, LineOf, n);
      NamedIsIn(InLines(ents), n);
    }
    forall n ensures n in NamesOf(InBytes(ents)) <==> IsTopName(ents, n) {
      TopNames(raw, ents, StartOf, n);
      NamedIsIn(InBytes(ents), n);
    }
  }

  lemma NamedIsIn(doc: seq<Ent>, n: Name)
    ensures n in NamesOf(doc) <==> NamedBefore(doc, |doc|, n)
  {
    if n in NamesOf(doc) {
      var k :| 0 <= k < |doc| && NamesOf(doc)[k] == n;
      assert doc[k].name == n;
    }
    if NamedBefore(doc, |doc|, n) {
      var k :| 0 <= k < |doc| && doc[k].name == n;
      assert NamesOf(doc)[k] == n;
    }
  }

  ghost predicate GapHeld(live: Fold.LiveSet, segments: map<Option<Name>, Bytes>, a: Option<Name>) {
    if a in segments && segments[a] != [] then Residue(a) in live && live[Residue(a)] == Data(segments[a])
    else Residue(a) in live ==> live[Residue(a)] == Data([])
  }

  ghost predicate HoldsNames(live: Fold.LiveSet, ents: seq<Ent>) {
    Whole !in live && forall n :: Entity(n) in live <==> IsTopName(ents, n)
  }

  ghost predicate HoldsImages(live: Fold.LiveSet, raw: Bytes, ents: seq<Ent>) {
    forall e :: e in ents && IsTop(e) ==>
      e.start <= e.end <= |raw| && EntSym(e) in live && live[EntSym(e)] == Data(EntBytes(raw, e))
  }

  ghost predicate HoldsGaps(live: Fold.LiveSet, segments: map<Option<Name>, Bytes>) {
    forall a: Option<Name> :: GapHeld(live, segments, a)
  }

  ghost predicate HoldsFacts(live: Fold.LiveSet, facts: Layout.Facts) {
    forall n :: n in facts ==> Anchor(n) in live && live[Anchor(n)] == Fact(facts[n])
  }

  /** What a live set holding exactly a file's parts looks like; stale anchors and empty gaps of
      entities long gone may ride along. */
  ghost predicate HoldsParts(live: Fold.LiveSet, raw: Bytes, ents: seq<Ent>)
    requires Extracted(raw, ents) && LaidOut(raw, InBytes(ents))
  {
    && HoldsNames(live, ents)
    && HoldsImages(live, raw, ents)
    && HoldsGaps(live, Segments(raw, InBytes(ents)))
    && HoldsFacts(live, AnchorFacts(InLines(ents)))
  }

  lemma FaithfulHoldsParts(tier: Tier, s: Snapshot, state: Table)
    requires WellFormed(s) && RepOf(tier, s) == ByParts && Faithful(TableOf(tier, s), state)
    ensures LaidOut(s.raw, InBytes(s.ents)) && HoldsParts(LiveOf(state), s.raw, s.ents)
  {
    InBytesIsLaidOut(s.raw, s.ents);
    hide *;
    LivesNames(tier, s, state);
    LivesImages(tier, s, state);
    LivesGaps(tier, s, state);
    LivesFacts(tier, s, state);
    AllParts(LiveOf(state), s.raw, s.ents);
  }

  lemma AllParts(live: Fold.LiveSet, raw: Bytes, ents: seq<Ent>)
    requires Extracted(raw, ents) && LaidOut(raw, InBytes(ents))
    requires HoldsNames(live, ents) && HoldsImages(live, raw, ents)
    requires HoldsGaps(live, Segments(raw, InBytes(ents))) && HoldsFacts(live, AnchorFacts(InLines(ents)))
    ensures HoldsParts(live, raw, ents)
  {
  }

  lemma LivesNames(tier: Tier, s: Snapshot, state: Table)
    requires WellFormed(s) && RepOf(tier, s) == ByParts && Faithful(TableOf(tier, s), state)
    ensures HoldsNames(LiveOf(state), s.ents)
  {
    assert s.Present?;
    hide *;
    HeldWhole(tier, s, state);
    forall n ensures Entity(n) in LiveOf(state) <==> IsTopName(s.ents, n) { HeldEntity(tier, s, state, n); }
    AllNames(LiveOf(state), s.ents);
  }

  lemma AllNames(live: Fold.LiveSet, ents: seq<Ent>)
    requires Whole !in live && forall n :: Entity(n) in live <==> IsTopName(ents, n)
    ensures HoldsNames(live, ents)
  {
    hide IsTopName;
  }

  lemma LivesImages(tier: Tier, s: Snapshot, state: Table)
    requires WellFormed(s) && RepOf(tier, s) == ByParts && Faithful(TableOf(tier, s), state)
    ensures HoldsImages(LiveOf(state), s.raw, s.ents)
  {
    assert s.Present?;
    hide *;
    forall e | e in s.ents && IsTop(e)
      ensures e.start <= e.end <= |s.raw| && EntSym(e) in LiveOf(state)
              && LiveOf(state)[EntSym(e)] == Data(EntBytes(s.raw, e))
    {
      HeldEnt(tier, s, state, e);
    }
    AllImages(LiveOf(state), s.raw, s.ents);
  }

  lemma AllImages(live: Fold.LiveSet, raw: Bytes, ents: seq<Ent>)
    requires forall e :: e in ents && IsTop(e) ==>
      e.start <= e.end <= |raw| && EntSym(e) in live && live[EntSym(e)] == Data(EntBytes(raw, e))
    ensures HoldsImages(live, raw, ents)
  {
    hide EntSym, EntBytes;
  }

  lemma LivesGaps(tier: Tier, s: Snapshot, state: Table)
    requires WellFormed(s) && RepOf(tier, s) == ByParts && Faithful(TableOf(tier, s), state)
    ensures LaidOut(s.raw, InBytes(s.ents)) && HoldsGaps(LiveOf(state), Segments(s.raw, InBytes(s.ents)))
  {
    InBytesIsLaidOut(s.raw, s.ents);
    hide *;
    forall a: Option<Name>
      ensures GapHeld(LiveOf(state), Segments(s.raw, InBytes(s.ents)), a)
    {
      HeldGap(tier, s, state, a);
    }
    AllGaps(LiveOf(state), Segments(s.raw, InBytes(s.ents)));
  }

  lemma AllGaps(live: Fold.LiveSet, segments: map<Option<Name>, Bytes>)
    requires forall a: Option<Name> :: GapHeld(live, segments, a)
    ensures HoldsGaps(live, segments)
  {
    hide GapHeld;
  }

  lemma LivesFacts(tier: Tier, s: Snapshot, state: Table)
    requires WellFormed(s) && RepOf(tier, s) == ByParts && Faithful(TableOf(tier, s), state)
    ensures HoldsFacts(LiveOf(state), AnchorFacts(InLines(s.ents)))
  {
    var facts, live := AnchorFacts(InLines(s.ents)), LiveOf(state);
    hide *;
    forall n | n in facts ensures Anchor(n) in live && live[Anchor(n)] == Fact(facts[n]) {
      HeldFact(tier, s, state, n);
    }
    AllFacts(live, facts);
  }

  lemma AllFacts(live: Fold.LiveSet, facts: Layout.Facts)
    requires forall n :: n in facts ==> Anchor(n) in live && live[Anchor(n)] == Fact(facts[n])
    ensures HoldsFacts(live, facts)
  {
  }

  /** What a faithful state keeps alive, one symbol at a time. */
  lemma LiveAt(t: Table, state: Table, x: Sym)
    requires Faithful(t, state) && Coherent(t)
    ensures x in t ==> x in LiveOf(state) && LiveOf(state)[x] == t[x].image
    ensures x !in t && x in LiveOf(state) ==> x.Anchor? || (x.Residue? && LiveOf(state)[x] == Data([]))
  {
    if x in t { assert CoherentAt(t, x); }
  }

  lemma HeldWhole(tier: Tier, s: Snapshot, state: Table)
    requires WellFormed(s) && RepOf(tier, s) == ByParts && Faithful(TableOf(tier, s), state)
    ensures Whole !in LiveOf(state)
  {
    PartsTable(tier, s, Whole);
    TablesAreCoherent(tier, s);
    LiveAt(TableOf(tier, s), state, Whole);
    hide TableOf, Segments, AnchorFacts, InBytes, InLines, EntTable, LiveOf, Faithful, Coherent, WellFormed, LaidOut;
  }

  lemma HeldEntity(tier: Tier, s: Snapshot, state: Table, n: Name)
    requires WellFormed(s) && RepOf(tier, s) == ByParts && Faithful(TableOf(tier, s), state)
    ensures Entity(n) in LiveOf(state) <==> IsTopName(s.ents, n)
  {
    PartsTable(tier, s, Entity(n));
    TopEntities(s.raw, s.ents, n);
    TablesAreCoherent(tier, s);
    LiveAt(TableOf(tier, s), state, Entity(n));
    hide TableOf, Segments, AnchorFacts, InBytes, InLines, EntTable, LiveOf, Faithful, Coherent, IsTopName, Extracted;
  }

  lemma HeldEnt(tier: Tier, s: Snapshot, state: Table, e: Ent)
    requires WellFormed(s) && RepOf(tier, s) == ByParts && Faithful(TableOf(tier, s), state) && e in s.ents
    ensures e.start <= e.end <= |s.raw|
    ensures EntSym(e) in LiveOf(state) && LiveOf(state)[EntSym(e)] == Data(EntBytes(s.raw, e))
  {
    EntInTable(tier, s, e);
    TablesAreCoherent(tier, s);
    LiveAt(TableOf(tier, s), state, EntSym(e));
    hide TableOf, Segments, AnchorFacts, InBytes, InLines, EntTable, LiveOf, Faithful, Coherent;
  }

  lemma HeldGap(tier: Tier, s: Snapshot, state: Table, a: Option<Name>)
    requires WellFormed(s) && RepOf(tier, s) == ByParts && Faithful(TableOf(tier, s), state)
    ensures LaidOut(s.raw, InBytes(s.ents)) && GapHeld(LiveOf(state), Segments(s.raw, InBytes(s.ents)), a)
  {
    PartsTable(tier, s, Residue(a));
    TablesAreCoherent(tier, s);
    hide *;
    GapFromTable(TableOf(tier, s), state, EntTable(s.raw, s.ents), Segments(s.raw, InBytes(s.ents)),
                 AnchorFacts(InLines(s.ents)), a);
  }

  lemma GapFromTable(t: Table, state: Table, ents: Table, segments: map<Option<Name>, Bytes>, facts: Layout.Facts,
                     a: Option<Name>)
    requires Faithful(t, state) && Coherent(t) && MadeOf(t, ents, segments, facts, Residue(a))
    ensures GapHeld(LiveOf(state), segments, a)
  {
    LiveAt(t, state, Residue(a));
    hide Faithful, Coherent, LiveOf;
  }

  lemma HeldFact(tier: Tier, s: Snapshot, state: Table, n: Name)
    requires WellFormed(s) && RepOf(tier, s) == ByParts && Faithful(TableOf(tier, s), state)
    requires n in AnchorFacts(InLines(s.ents))
    ensures Anchor(n) in LiveOf(state) && LiveOf(state)[Anchor(n)] == Fact(AnchorFacts(InLines(s.ents))[n])
  {
    PartsTable(tier, s, Anchor(n));
    TablesAreCoherent(tier, s);
    hide *;
    FactFromTable(TableOf(tier, s), state, EntTable(s.raw, s.ents), Segments(s.raw, InBytes(s.ents)),
                  AnchorFacts(InLines(s.ents)), n);
  }

  lemma FactFromTable(t: Table, state: Table, ents: Table, segments: map<Option<Name>, Bytes>, facts: Layout.Facts,
                      n: Name)
    requires Faithful(t, state) && Coherent(t) && MadeOf(t, ents, segments, facts, Anchor(n)) && n in facts
    ensures Anchor(n) in LiveOf(state) && LiveOf(state)[Anchor(n)] == Fact(facts[n])
  {
    LiveAt(t, state, Anchor(n));
    hide Faithful, Coherent, LiveOf;
  }

  lemma LiveFactsChain(live: Fold.LiveSet, raw: Bytes, ents: seq<Ent>)
    requires Extracted(raw, ents) && LaidOut(raw, InBytes(ents)) && HoldsParts(live, raw, ents)
    ensures Distinct(NamesOf(InLines(ents)))
    ensures Layout.FactsOf(NamesOf(InLines(ents)), Fold.LiveFacts(live))
  {
    var lines := InLines(ents);
    LineNamesAreByteNames(raw, ents);
    FactsFormChain(lines);
    hide Extracted, LaidOut, Segments, InLines, InBytes, IsTopName, AnchorFacts, Distinct, NamesOf;
    KeepsChain(NamesOf(lines), AnchorFacts(lines), live);
  }

  /** Held facts are the live ones, so a chain of them stays one. */
  lemma KeepsChain(names: seq<Name>, facts: Layout.Facts, live: Fold.LiveSet)
    requires Layout.FactsOf(names, facts) && HoldsFacts(live, facts) && forall n :: n in names ==> n in facts
    ensures Layout.FactsOf(names, Fold.LiveFacts(live))
  {
    forall i | 0 <= i < |names| ensures Layout.Predecessor(Fold.LiveFacts(live), names[i]) == Layout.Before(names, i) {
      assert names[i] in facts;
      assert Layout.Predecessor(facts, names[i]) == Layout.Before(names, i);
      hide Layout.FactsOf, Layout.Before;
    }
  }

  lemma LiveOrder(live: Fold.LiveSet, raw: Bytes, ents: seq<Ent>)
    requires Extracted(raw, ents) && LaidOut(raw, InBytes(ents)) && HoldsParts(live, raw, ents)
    ensures Fold.FileOrder(live) == NamesOf(InLines(ents))
  {
    var names := NamesOf(InLines(ents));
    LineNamesAreByteNames(raw, ents);
    LiveFactsChain(live, raw, ents);
    hide Extracted, LaidOut, Segments, AnchorFacts, InLines, InBytes, IsTopName, NamesOf, Distinct, Layout.FactsOf,
         Fold.LiveFacts, Layout.Order;
    assert Fold.LiveNames(live) == Elements(names);
    Layout.ChainIsReplayed(names, Fold.LiveFacts(live));
  }

  lemma {:induction false} PartsSplice(live: Fold.LiveSet, raw: Bytes, ents: seq<Ent>, order: seq<Name>)
    requires Extracted(raw, ents) && LaidOut(raw, InBytes(ents)) && HoldsParts(live, raw, ents)
    requires forall n :: n in order ==> n in NamesOf(InBytes(ents))
    ensures Fold.Join(Fold.EntityParts(live, order)) == Splice(raw, InBytes(ents), order)
  {
    hide *;
    if order == [] {
      Fold.NoParts(live);
      NothingSpliced(raw, InBytes(ents));
    } else {
      assert order[0] in order && order[0..] == order;
      PartOf(live, raw, ents, order[0]);
      PartsSplice(live, raw, ents, order[1..]);
      Fold.EntityPartsStep(live, order, 0);
      SpliceHead(raw, InBytes(ents), order);
    }
  }

  lemma NothingSpliced(raw: Bytes, doc: seq<Ent>)
    requires LaidOut(raw, doc)
    ensures Splice(raw, doc, []) == []
  {
  }

  lemma SpliceHead(raw: Bytes, doc: seq<Ent>, order: seq<Name>)
    requires LaidOut(raw, doc) && order != [] && forall n :: n in order ==> n in NamesOf(doc)
    ensures order[0] in NamesOf(doc)
    ensures var e := IndexOf(NamesOf(doc), order[0]);
            Splice(raw, doc, order) == EntBytes(raw, doc[e]) + GapAfter(raw, doc, e) + Splice(raw, doc, order[1..])
  {
    hide NamesOf, EntBytes, GapAfter, IndexOf;
    assert order[0] in order;
  }

  lemma PartOf(live: Fold.LiveSet, raw: Bytes, ents: seq<Ent>, n: Name)
    requires Extracted(raw, ents) && LaidOut(raw, InBytes(ents)) && HoldsParts(live, raw, ents)
    requires n in NamesOf(InBytes(ents))
    ensures var doc := InBytes(ents);
            var i := IndexOf(NamesOf(doc), n);
            && Entity(n) in live && BytesOf(live[Entity(n)]) == EntBytes(raw, doc[i])
            && Fold.Join(Fold.GapPart(live, Some(n))) == GapAfter(raw, doc, i)
  {
    hide *;
    PlaceOf(raw, ents, n);
    ImageAndGap(live, raw, ents, InBytes(ents)[IndexOf(NamesOf(InBytes(ents)), n)]);
    SegmentOf(raw, InBytes(ents), IndexOf(NamesOf(InBytes(ents)), n));
    GapBytes(live, Segments(raw, InBytes(ents)), n);
  }

  lemma PlaceOf(raw: Bytes, ents: seq<Ent>, n: Name)
    requires Extracted(raw, ents) && n in NamesOf(InBytes(ents))
    ensures var i := IndexOf(NamesOf(InBytes(ents)), n);
            && i < |InBytes(ents)| && InBytes(ents)[i].name == n && InBytes(ents)[i] in ents
            && IsTop(InBytes(ents)[i]) && EntSym(InBytes(ents)[i]) == Entity(n)
  {
    var e := InBytes(ents)[IndexOf(NamesOf(InBytes(ents)), n)];
    SortedTopIsDistinct(ents, StartOf);
    assert e in InBytes(ents) && e.name == n;
    hide Sorting.StableSort, Top, Distinct, IsNested;
    assert e in ents && IsTop(e) && !IsNested(e.name);
  }

  lemma ImageAndGap(live: Fold.LiveSet, raw: Bytes, ents: seq<Ent>, e: Ent)
    requires Extracted(raw, ents) && LaidOut(raw, InBytes(ents)) && HoldsParts(live, raw, ents) && e in ents && IsTop(e)
    ensures e.start <= e.end <= |raw| && EntSym(e) in live && BytesOf(live[EntSym(e)]) == EntBytes(raw, e)
    ensures HoldsGaps(live, Segments(raw, InBytes(ents)))
  {
    hide Extracted, LaidOut, HoldsGaps, HoldsFacts, HoldsNames, Segments, InBytes, EntBytes, EntSym;
  }

  lemma SegmentOf(raw: Bytes, doc: seq<Ent>, i: nat)
    requires LaidOut(raw, doc) && i < |doc|
    ensures Some(doc[i].name) in Segments(raw, doc) && Segments(raw, doc)[Some(doc[i].name)] == GapAfter(raw, doc, i)
  {
    hide LaidOut, SegmentsUpTo, GapAfter;
    SegmentAt(raw, doc, |doc|, i);
  }

  lemma GapBytes(live: Fold.LiveSet, segments: map<Option<Name>, Bytes>, n: Name)
    requires HoldsGaps(live, segments) && Some(n) in segments
    ensures Fold.Join(Fold.GapPart(live, Some(n))) == segments[Some(n)]
  {
    assert GapHeld(live, segments, Some(n));
    Fold.GapJoin(live, n);
    hide Fold.GapPart, Fold.Join;
  }

  lemma OrphansAreEmpty(live: Fold.LiveSet, raw: Bytes, ents: seq<Ent>, names: seq<Name>)
    requires Extracted(raw, ents) && LaidOut(raw, InBytes(ents)) && HoldsParts(live, raw, ents)
    requires forall n :: n in names ==> Residue(Some(n)) in live && Entity(n) !in live
    ensures Fold.Join(Fold.GapParts(live, names)) == []
  {
    hide *;
    if names == [] {
      Fold.NoParts(live);
    } else {
      assert names[0] in names && names[0..] == names;
      OrphanIsEmpty(live, raw, ents, names[0]);
      OrphansAreEmpty(live, raw, ents, names[1..]);
      Fold.GapPartsStep(live, names, 0);
    }
  }

  lemma OrphanIsEmpty(live: Fold.LiveSet, raw: Bytes, ents: seq<Ent>, n: Name)
    requires Extracted(raw, ents) && LaidOut(raw, InBytes(ents)) && HoldsParts(live, raw, ents)
    requires Residue(Some(n)) in live && Entity(n) !in live
    ensures Fold.Join(Fold.GapPart(live, Some(n))) == []
  {
    SegmentKeys(raw, InBytes(ents), |InBytes(ents)|);
    TopNames(raw, ents, StartOf, n);
    assert GapHeld(live, Segments(raw, InBytes(ents)), Some(n));
    Fold.GapJoin(live, n);
    hide Fold.GapPart, Fold.Join, Extracted, LaidOut, SegmentsUpTo, NamedBefore, IsTopName, Sorting.StableSort;
  }

  lemma HeadIsHeld(live: Fold.LiveSet, raw: Bytes, ents: seq<Ent>)
    requires Extracted(raw, ents) && LaidOut(raw, InBytes(ents)) && HoldsParts(live, raw, ents)
    ensures Fold.Join(Fold.GapPart(live, None)) == HeadGap(raw, InBytes(ents))
  {
    SegmentKeys(raw, InBytes(ents), |InBytes(ents)|);
    assert GapHeld(live, Segments(raw, InBytes(ents)), None);
    Fold.HeadJoin(live);
    hide Fold.GapPart, Fold.Join, Extracted, LaidOut, SegmentsUpTo, NamedBefore, Sorting.StableSort, HeadGap;
  }

  lemma FoldUnfolds(live: Fold.LiveSet)
    requires Whole !in live
    ensures Fold.FoldFile(live) == Fold.Join(Fold.FileParts(live))
  {
    hide Fold.Join, Fold.FileParts;
  }

  lemma LineBytes(raw: Bytes, ents: seq<Ent>)
    requires Extracted(raw, ents)
    ensures LaidOut(raw, InBytes(ents)) && forall n :: n in NamesOf(InLines(ents)) ==> n in NamesOf(InBytes(ents))
    ensures BytesInLineOrder(raw, ents) ==
            HeadGap(raw, InBytes(ents)) + Splice(raw, InBytes(ents), NamesOf(InLines(ents)))
  {
    InBytesIsLaidOut(raw, ents);
    LineNamesAreByteNames(raw, ents);
    hide Extracted, LaidOut, NamesOf, InLines, InBytes, HeadGap, Splice;
  }

  lemma WholeIsOut(live: Fold.LiveSet, raw: Bytes, ents: seq<Ent>)
    requires Extracted(raw, ents) && LaidOut(raw, InBytes(ents)) && HoldsParts(live, raw, ents)
    ensures Whole !in live && forall n :: n in Sorted(Fold.Orphans(live)) ==> Residue(Some(n)) in live
                                                                              && Entity(n) !in live
  {
    hide Extracted, LaidOut, HoldsImages, HoldsGaps, HoldsFacts;
  }

  /** Folding a live set that holds a file's parts gives those parts in recorded order. */
  lemma FoldOfParts(live: Fold.LiveSet, raw: Bytes, ents: seq<Ent>)
    requires Extracted(raw, ents) && LaidOut(raw, InBytes(ents)) && HoldsParts(live, raw, ents)
    ensures Fold.FoldFile(live) == BytesInLineOrder(raw, ents)
  {
    hide *;
    WholeIsOut(live, raw, ents);
    LiveOrder(live, raw, ents);
    LineBytes(raw, ents);
    PartsSplice(live, raw, ents, NamesOf(InLines(ents)));
    OrphansAreEmpty(live, raw, ents, Sorted(Fold.Orphans(live)));
    HeadIsHeld(live, raw, ents);
    FoldUnfolds(live);
    Fold.JoinParts(live);
  }

  // ---------------------------------------------------------------------------------------
  // Main results.

  /** The state after the first `k` commits, for folding. */
  function StateAfter(tier: Tier, h: Commits, k: nat): Table
    requires ValidHistory(h) && k <= |h|
  {
    Replay(TimelineOf(tier, h), k)
  }

  lemma PriorIsTable(tier: Tier, h: Commits, k: nat)
    requires ValidHistory(h) && k < |h|
    ensures WellFormed(h[k].file) && Prior(TimelineOf(tier, h), k + 1) == TableOf(tier, h[k].file)
  {
    hide TableOf, WellFormed;
  }

  lemma StateIsFaithful(tier: Tier, h: Commits, k: nat)
    requires ValidHistory(h) && k < |h|
    ensures WellFormed(h[k].file) && Faithful(TableOf(tier, h[k].file), StateAfter(tier, h, k + 1))
  {
    PriorIsTable(tier, h, k);
    TimelineIsValid(tier, h);
    StateIsReplay(tier, h, k + 1);
    hide *;
    ReplayIsFaithful(TimelineOf(tier, h), k + 1);
  }

  lemma StateIsReplay(tier: Tier, h: Commits, k: nat)
    requires ValidHistory(h) && k <= |h|
    ensures StateAfter(tier, h, k) == Replay(TimelineOf(tier, h), k)
  {
    hide ValidHistory, Replay;
  }

  /** What folding gives at every commit that has the file: the bytes themselves for a whole-file
      representation, and for a parsed file its parts in the order their lines were sorted. */
  lemma FoldAtEveryCommit(tier: Tier, h: Commits, k: nat)
    requires ValidHistory(h) && k < |h| && h[k].file.Present? && !tier.IgnoredTier?
    ensures WellFormed(h[k].file)
    ensures Fold.FoldFile(LiveOf(StateAfter(tier, h, k + 1))) ==
            if RepOf(tier, h[k].file) == WholeFile then h[k].file.raw
            else BytesInLineOrder(h[k].file.raw, h[k].file.ents)
  {
    var s, state := h[k].file, StateAfter(tier, h, k + 1);
    StateIsFaithful(tier, h, k);
    TablesAreCoherent(tier, s);
    hide StateAfter, ValidHistory;
    if RepOf(tier, s) == WholeFile {
      LiveAt(TableOf(tier, s), state, Whole);
    } else {
      FaithfulHoldsParts(tier, s, state);
      FoldOfParts(LiveOf(state), s.raw, s.ents);
    }
  }

  /** The round trip: wherever no line hides a swap of top-level entities, mining a history step
      by step and folding what was replayed gives back exactly the committed bytes. */
  lemma RoundTrip(tier: Tier, h: Commits, k: nat)
    requires ValidHistory(h) && k < |h| && h[k].file.Present? && !tier.IgnoredTier?
    requires RepOf(tier, h[k].file) == WholeFile || SameLineInOrder(h[k].file.ents)
    ensures Fold.FoldFile(LiveOf(StateAfter(tier, h, k + 1))) == h[k].file.raw
  {
    var s := h[k].file;
    FoldAtEveryCommit(tier, h, k);
    hide Fold.FoldFile, StateAfter;
    if RepOf(tier, s) != WholeFile {
      SortsAgree(s.raw, s.ents);
      InBytesIsLaidOut(s.raw, s.ents);
      PartitionRestoresFile(s.raw, InBytes(s.ents));
    }
  }

  /** Exactly when the fold places a parsed file's entities in document order. */
  lemma DocumentOrderExactlyWhen(tier: Tier, h: Commits, k: nat)
    requires ValidHistory(h) && k < |h| && RepOf(tier, h[k].file) == ByParts
    ensures Fold.FileOrder(LiveOf(StateAfter(tier, h, k + 1))) == NamesOf(InBytes(h[k].file.ents))
            <==> SameLineInOrder(h[k].file.ents)
  {
    var s := h[k].file;
    StateIsFaithful(tier, h, k);
    FaithfulHoldsParts(tier, s, StateAfter(tier, h, k + 1));
    LiveOrder(LiveOf(StateAfter(tier, h, k + 1)), s.raw, s.ents);
    SortsAgree(s.raw, s.ents);
    hide StateAfter, Fold.FileOrder, LiveOf;
    NamesFixSort(s.raw, s.ents);
  }

  lemma NamesFixSort(raw: Bytes, ents: seq<Ent>)
    requires Extracted(raw, ents)
    ensures NamesOf(InLines(ents)) == NamesOf(InBytes(ents)) <==> InLines(ents) == InBytes(ents)
  {
    var a, b := InLines(ents), InBytes(ents);
    if NamesOf(a) == NamesOf(b) {
      SortedTopIsDistinct(ents, LineOf);
      SortedTopIsDistinct(ents, StartOf);
      NamesDistinctEnts(ents);
      assert |a| == |b|;
      forall i | 0 <= i < |a| ensures a[i] == b[i] {
        assert NamesOf(a)[i] == NamesOf(b)[i];
        assert a[i] in a && b[i] in b;
      }
    }
  }

  /** One representation carries the bytes: a live whole-file symbol excludes every live entity
      and every non-empty live gap, and a file represented by its parts has no live whole-file
      symbol -- whatever flips the history holds. */
  lemma OneRepresentation(tier: Tier, h: Commits, k: nat)
    requires ValidHistory(h) && k < |h|
    ensures var live := LiveOf(StateAfter(tier, h, k + 1));
            && (Whole in live <==> RepOf(tier, h[k].file) == WholeFile)
            && (RepOf(tier, h[k].file) != ByParts ==>
                  forall s :: s in live && s != Whole ==> s.Anchor? || (s.Residue? && BytesOf(live[s]) == []))
  {
    var f, state := h[k].file, StateAfter(tier, h, k + 1);
    StateIsFaithful(tier, h, k);
    TablesAreCoherent(tier, f);
    if RepOf(tier, f) == ByParts { PartsTable(tier, f, Whole); }
    var t := TableOf(tier, f);
    hide StateAfter, ValidHistory, LiveOf;
    LiveAt(t, state, Whole);
    if RepOf(tier, f) != ByParts {
      forall s | s in LiveOf(state) && s != Whole ensures s.Anchor? || (s.Residue? && BytesOf(LiveOf(state)[s]) == []) {
        LiveAt(t, state, s);
      }
    }
  }

  // ---------------------------------------------------------------------------------------
  // Where the round trip fails: one line holding a definition and, before it, an import.  The
  // extractor lists definitions first, so the anchor pass keeps them in that order.

  const SWAPPED_FILE := Present([10, 20], [Ent("f", None, 1, 2, 7), Ent("__import__::m", None, 0, 1, 7)], false)

  lemma SwappedFileIsWellFormed()
    ensures WellFormed(SWAPPED_FILE) && RepOf(EntityTier, SWAPPED_FILE) == ByParts
    ensures InLines(SWAPPED_FILE.ents) == SWAPPED_FILE.ents
    ensures InBytes(SWAPPED_FILE.ents) == [SWAPPED_FILE.ents[1], SWAPPED_FILE.ents[0]]
  {
    var e0, e1 := SWAPPED_FILE.ents[0], SWAPPED_FILE.ents[1];
    assert IsImport(e1.name) by { assert e1.name[..|IMPORT_PREFIX|] == IMPORT_PREFIX; }
    assert !IsNested(e0.name) && !IsNested(e1.name);
    assert |e0.name| != |e1.name|;
    hide IsImport, IsNested, Extracted, InLines, InBytes;
    SwappedPair(SWAPPED_FILE.raw, e0, e1);
  }

  lemma SwappedPair(raw: Bytes, e0: Ent, e1: Ent)
    requires |raw| == 2 && e0.name != e1.name && !IsNested(e0.name) && !IsNested(e1.name)
    requires e0 == Ent(e0.name, None, 1, 2, 7) && e1 == Ent(e1.name, None, 0, 1, 7)
    ensures Extracted(raw, [e0, e1]) && InLines([e0, e1]) == [e0, e1] && InBytes([e0, e1]) == [e1, e0]
  {
    hide IsNested;
    var es := [e0, e1];
    assert NamesOf(es) == [e0.name, e1.name];
    assert Extracted(raw, es) by { hide NamesOf; }
    hide Extracted, NamesOf;
    assert es[1..] == [e1];
    assert Top([e1]) == [e1];
    assert Top(es) == es;
    PairSorts(e0, e1, LineOf);
    PairSorts(e0, e1, StartOf);
  }

  lemma PairSorts(e0: Ent, e1: Ent, key: Ent -> int)
    ensures Sorting.StableSort([e0, e1], key) == if key(e0) <= key(e1) then [e0, e1] else [e1, e0]
  {
    var es := [e0, e1];
    assert es[1..] == [e1];
    assert Sorting.StableSort([e1], key) == [e1];
    assert Sorting.Insert(e0, [], key) == [e0];
    assert Sorting.StableSort(es, key) == Sorting.Insert(e0, [e1], key);
  }

  /** The two-byte file folds to its bytes swapped. */
  lemma SwappedLineLosesOrder()
    ensures var h := [Commit(SWAPPED_FILE, true, false)];
            && ValidHistory(h)
            && Fold.FoldFile(LiveOf(StateAfter(EntityTier, h, 1))) == [20, 10]
  {
    var h := [Commit(SWAPPED_FILE, true, false)];
    SwappedFileIsWellFormed();
    assert PriorFile(h, 0) == Absent;
    assert ValidHistory(h);
    hide InLines, InBytes, Extracted, StateAfter, LiveOf, Fold.FoldFile;
    FoldAtEveryCommit(EntityTier, h, 0);
    SwappedBytes();
  }

  lemma SwappedBytes()
    ensures Extracted(SWAPPED_FILE.raw, SWAPPED_FILE.ents)
    ensures BytesInLineOrder(SWAPPED_FILE.raw, SWAPPED_FILE.ents) == [20, 10]
  {
    SwappedFileIsWellFormed();
    var raw, e0, e1 := SWAPPED_FILE.raw, SWAPPED_FILE.ents[0], SWAPPED_FILE.ents[1];
    InBytesIsLaidOut(raw, SWAPPED_FILE.ents);
    LineNamesAreByteNames(raw, SWAPPED_FILE.ents);
    assert NamesOf(SWAPPED_FILE.ents) == [e0.name, e1.name];
    hide InLines, InBytes, Extracted, NamesOf;
    SwappedSplice(raw, [e1, e0], [e0.name, e1.name]);
  }

  lemma SwappedSplice(raw: Bytes, doc: seq<Ent>, order: seq<Name>)
    requires raw == [10, 20] && LaidOut(raw, doc) && |doc| == 2 && order == [doc[1].name, doc[0].name]
    requires doc[0].start == 0 && doc[0].end == 1 && doc[1].start == 1 && doc[1].end == 2
    ensures forall n :: n in order ==> n in NamesOf(doc)
    ensures HeadGap(raw, doc) + Splice(raw, doc, order) == [20, 10]
  {
    var names := NamesOf(doc);
    assert names[0] == doc[0].name && names[1] == doc[1].name;
    IndexIs(names, 0);
    IndexIs(names, 1);
    assert order[1..] == [doc[0].name] && order[1..][1..] == [];
    assert EntBytes(raw, doc[0]) == [10] && EntBytes(raw, doc[1]) == [20];
    assert GapAfter(raw, doc, 0) == [] && GapAfter(raw, doc, 1) == [];
    assert Splice(raw, doc, order[1..]) == [10] + [] + [];
    assert Splice(raw, doc, order) == [20] + [] + [10];
  }

  // ---------------------------------------------------------------------------------------
  // A path without a file.

  /** The empty gap behind `a` was skipped by a flip to whole-file, the last time it left. */
  ghost predicate Lingers(tier: Tier, h: Commits, k: nat, a: Option<Name>)
    requires ValidHistory(h) && k <= |h|
  {
    var t := TimelineOf(tier, h);
    var exit := LastExit(t, k, Residue(a));
    exit.Some? && t[exit.value].flip && IsEmptyGap(Prior(t, exit.value), Residue(a))
  }

  ghost predicate Materializes(live: Fold.LiveSet) {
    exists s :: s in live && ContentBearing(s)
  }

  /** Exactly when a path still materializes although the last of `k` commits has no file there:
      some empty gap lingers from a flip.  It then folds to an empty file. */
  lemma DeletedPathMaterializesExactlyWhen(tier: Tier, h: Commits, k: nat)
    requires ValidHistory(h) && 0 < k <= |h| && RepOf(tier, h[k - 1].file) == NotTracked
    ensures Materializes(LiveOf(StateAfter(tier, h, k))) <==> exists a :: Lingers(tier, h, k, a)
    ensures Fold.FoldFile(LiveOf(StateAfter(tier, h, k))) == []
  {
    hide *;
    var live := LiveOf(StateAfter(tier, h, k));
    NothingTracked(tier, h, k);
    OnlyEmptyGaps(StateAfter(tier, h, k));
    forall a: Option<Name> ensures Residue(a) in live <==> Lingers(tier, h, k, a) {
      LingeringIsLive(tier, h, k, a);
    }
    MaterializesByGap(live);
    NothingToFold(live);
  }

  lemma NothingTracked(tier: Tier, h: Commits, k: nat)
    requires ValidHistory(h) && 0 < k <= |h| && RepOf(tier, h[k - 1].file) == NotTracked
    ensures Faithful(map[], StateAfter(tier, h, k)) && Prior(TimelineOf(tier, h), k) == map[]
  {
    hide *;
    PriorIsTable(tier, h, k - 1);
    StateIsFaithful(tier, h, k - 1);
    NoTable(tier, h[k - 1].file);
  }

  lemma NoTable(tier: Tier, s: Snapshot)
    requires WellFormed(s) && RepOf(tier, s) == NotTracked
    ensures TableOf(tier, s) == map[]
  {
  }

  lemma OnlyEmptyGaps(state: Table)
    requires Faithful(map[], state)
    ensures forall s :: s in LiveOf(state) ==> s.Anchor? || (s.Residue? && LiveOf(state)[s] == Data([]))
  {
    hide Faithful, LiveOf;
    forall s | s in LiveOf(state)
      ensures s.Anchor? || (s.Residue? && LiveOf(state)[s] == Data([]))
    {
      LiveAt(map[], state, s);
    }
  }

  lemma MaterializesByGap(live: Fold.LiveSet)
    requires forall s :: s in live ==> s.Anchor? || s.Residue?
    ensures Materializes(live) <==> exists a :: Residue(a) in live
  {
    if Materializes(live) {
      var s :| s in live && ContentBearing(s);
      assert s == Residue(s.after);
    }
    if a :| Residue(a) in live { assert ContentBearing(Residue(a)); }
  }

  lemma NothingToFold(live: Fold.LiveSet)
    requires forall s :: s in live ==> s.Anchor? || (s.Residue? && live[s] == Data([]))
    ensures Fold.FoldFile(live) == []
  {
    assert (set s | s in live && Fold.Carries(live, s)) == {};
    hide Fold.FoldFile;
    Fold.LengthIsConserved(live);
  }

  lemma LingeringIsLive(tier: Tier, h: Commits, k: nat, a: Option<Name>)
    requires ValidHistory(h) && 0 < k <= |h| && RepOf(tier, h[k - 1].file) == NotTracked
    ensures Residue(a) in LiveOf(StateAfter(tier, h, k)) <==> Lingers(tier, h, k, a)
  {
    hide *;
    var t, g := TimelineOf(tier, h), Residue(a);
    TimelineIsValid(tier, h);
    NothingTracked(tier, h, k);
    StateRemembersExit(t, k, g);
    if LastExit(t, k, g).Some? { LeftLive(t, LastExit(t, k, g).value, g); }
    LingersByExit(tier, h, k, a);
  }

  lemma LingersByExit(tier: Tier, h: Commits, k: nat, a: Option<Name>)
    requires ValidHistory(h) && k <= |h|
    requires var t := TimelineOf(tier, h);
             && Prior(t, k) == map[] && Remembers(t, k, Residue(a))
             && (LastExit(t, k, Residue(a)).Some? ==>
                   var d := LastExit(t, k, Residue(a)).value;
                   LeftWith(t, d, Residue(a)).Bottom? <==> !(t[d].flip && IsEmptyGap(Prior(t, d), Residue(a))))
    ensures Residue(a) in LiveOf(StateAfter(tier, h, k)) <==> Lingers(tier, h, k, a)
  {
    hide LastExit, Replay, LeftWith, TimelineOf;
  }

  lemma LeftLive(t: Timeline, d: nat, g: Sym)
    requires ValidTimeline(t) && d < |t| && g in Prior(t, d) && g.Residue?
    ensures LeftWith(t, d, g).Bottom? <==> !(t[d].flip && IsEmptyGap(Prior(t, d), g))
  {
    ValidAt(t, d);
    assert CoherentAt(Prior(t, d), g);
  }
}
