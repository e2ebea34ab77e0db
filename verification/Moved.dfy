/** A top-level entity taken out and put back elsewhere, mined and read back through the store: its anchor is lost
    and the fold puts it first. */
module Moved {
  import opened Names
  import opened Symbols
  import opened Snapshots
  import opened Tables
  import opened Chains
  import opened History
  import opened Codecs
  import opened MinedOps
  import opened Rooting
  import opened ReadBack
  import opened Returns
  import Layout
  import Fold
  import Sorting

  // ---------------------------------------------------------------------------------------
  // Files of one-byte entities, one a line.

  function Row(n: Name, i: nat): Ent {
    Ent(n, None, i, i + 1, i + 1)
  }

  function RowEnts(names: seq<Name>): (r: seq<Ent>)
    ensures |r| == |names| && forall i :: 0 <= i < |r| ==> r[i] == Row(names[i], i)
  {
    seq(|names|, i requires 0 <= i < |names| => Row(names[i], i))
  }

  function Rows(names: seq<Name>, raw: Bytes): Snapshot {
    Present(raw, RowEnts(names), false)
  }

  predicate AreRows(names: seq<Name>, raw: Bytes) {
    && |names| == |raw| > 0
    && (forall i, j :: 0 <= i < j < |names| ==> names[i] != names[j])
    && (forall i :: 0 <= i < |names| ==> !IsNested(names[i]))
  }

  lemma {:induction false} AllTop(ents: seq<Ent>)
    requires forall i :: 0 <= i < |ents| ==> IsTop(ents[i])
    ensures Top(ents) == ents
  {
    if ents != [] {
      AllTop(ents[1..]);
      assert ents == [ents[0]] + ents[1..];
    }
  }

  lemma AlreadySorted(ents: seq<Ent>, key: Ent -> int)
    requires Sorting.Ordered(ents, key) && Sorting.Strict(ents, key)
    ensures Sorting.StableSort(ents, key) == ents
  {
    Sorting.SortsStably(ents, key);
    hide *;
    Sorting.StrictSortIsUnique(ents, Sorting.StableSort(ents, key), key);
  }

  lemma RowsSorted(names: seq<Name>)
    ensures InBytes(RowEnts(names)) == RowEnts(names) == InLines(RowEnts(names))
  {
    var ents := RowEnts(names);
    RowsAscend(names);
    hide *;
    AlreadySorted(ents, StartOf);
    AlreadySorted(ents, LineOf);
    SortsOfTop(ents);
  }

  lemma RowsAscend(names: seq<Name>)
    ensures var ents := RowEnts(names);
            && Top(ents) == ents && Sorting.Ordered(ents, StartOf) && Sorting.Strict(ents, StartOf)
            && Sorting.Ordered(ents, LineOf) && Sorting.Strict(ents, LineOf)
  {
    var ents := RowEnts(names);
    assert forall i :: 0 <= i < |ents| ==> IsTop(ents[i]) && StartOf(ents[i]) == i && LineOf(ents[i]) == i + 1;
    hide *;
    AllTop(ents);
    ByPosition(ents, StartOf, 0);
    ByPosition(ents, LineOf, 1);
  }

  lemma ByPosition(ents: seq<Ent>, key: Ent -> int, first: int)
    requires forall i :: 0 <= i < |ents| ==> key(ents[i]) == first + i
    ensures Sorting.Ordered(ents, key) && Sorting.Strict(ents, key)
  {
  }

  lemma SortsOfTop(ents: seq<Ent>)
    requires Top(ents) == ents && Sorting.StableSort(ents, StartOf) == ents && Sorting.StableSort(ents, LineOf) == ents
    ensures InBytes(ents) == ents == InLines(ents)
  {
    hide Top, Sorting.StableSort;
  }

  lemma RowsAreFile(names: seq<Name>, raw: Bytes)
    requires AreRows(names, raw)
    ensures WellFormed(Rows(names, raw)) && RepOf(EntityTier, Rows(names, raw)) == ByParts
    ensures NamesOf(RowEnts(names)) == names && Extracted(raw, RowEnts(names)) && LaidOut(raw, RowEnts(names))
  {
    var ents := RowEnts(names);
    assert NamesOf(ents) == names;
    assert Distinct(names);
    hide NamesOf, IsNested, Distinct, RowEnts;
    assert ents != [];
  }

  lemma RowGaps(names: seq<Name>, raw: Bytes, a: Option<Name>)
    requires AreRows(names, raw) && LaidOut(raw, RowEnts(names)) && a in Segments(raw, RowEnts(names))
    ensures Segments(raw, RowEnts(names))[a] == []
  {
    var doc := RowEnts(names);
    SegmentKeys(raw, doc, |doc|);
    hide LaidOut, SegmentsUpTo, RowEnts;
    if a.Some? {
      var k :| 0 <= k < |doc| && doc[k].name == a.value;
      SegmentAt(raw, doc, |doc|, k);
    }
  }

  lemma RowFacts(names: seq<Name>, n: Name)
    requires Distinct(names) && NamesOf(RowEnts(names)) == names
    ensures n in AnchorFacts(RowEnts(names)) <==> n in names
  {
    FactKeys(RowEnts(names), |names|);
    hide *;
    NamedIsIn(RowEnts(names), n);
    AllFactsUpTo(RowEnts(names));
  }

  lemma AllFactsUpTo(lines: seq<Ent>)
    ensures AnchorFacts(lines) == FactsUpTo(lines, |lines|)
  {
  }

  function RowTable(names: seq<Name>, raw: Bytes): Table
    requires AreRows(names, raw)
  {
    RowsAreFile(names, raw);
    TableOf(EntityTier, Rows(names, raw))
  }

  /** Which symbols the table of such a file has. */
  lemma RowHas(names: seq<Name>, raw: Bytes, x: Sym)
    requires AreRows(names, raw)
    ensures x.Whole? || x.Nested? ==> x !in RowTable(names, raw)
    ensures x.Residue? && x in RowTable(names, raw) ==> RowTable(names, raw)[x].version == Content([])
    ensures x.Entity? || x.Anchor? ==> (x in RowTable(names, raw) <==> x.name in names)
  {
    RowParts(names, raw, x);
    RowsAreFile(names, raw);
    var ents, t := RowEnts(names), RowTable(names, raw);
    assert Distinct(names);
    hide TableOf, Segments, AnchorFacts, InBytes, InLines, EntTable, Extracted, LaidOut, RowTable, RowEnts, Distinct;
    match x
    case Residue(a) => if a in Segments(raw, ents) { RowGaps(names, raw, a); }
    case Anchor(n) => RowFacts(names, n);
    case Entity(n) => RowNames(names, raw, n);
    case Nested(n) => RowNames(names, raw, n);
    case _ =>
  }

  lemma RowNames(names: seq<Name>, raw: Bytes, n: Name)
    requires AreRows(names, raw) && Extracted(raw, RowEnts(names))
    ensures Entity(n) in EntTable(raw, RowEnts(names)) <==> n in names
    ensures Nested(n) !in EntTable(raw, RowEnts(names))
  {
    var ents := RowEnts(names);
    EntTableIs(raw, ents);
    hide EntTable, Extracted, IsNested, RowEnts;
    forall e | e in ents ensures EntSym(e) == Entity(e.name) && e.name in names {
      var i :| 0 <= i < |ents| && ents[i] == e;
    }
    forall i | 0 <= i < |names| ensures Entity(names[i]) == EntSym(ents[i]) && ents[i] in ents { }
  }

  /** And what it says of them. */
  lemma RowSays(names: seq<Name>, raw: Bytes, i: nat)
    requires AreRows(names, raw) && i < |names|
    ensures Entity(names[i]) in RowTable(names, raw) && Anchor(names[i]) in RowTable(names, raw)
    ensures RowTable(names, raw)[Entity(names[i])].version == Positional(names[i], [raw[i]])
    ensures RowTable(names, raw)[Anchor(names[i])].version == Marker(if i == 0 then None else Some(names[i - 1]))
  {
    hide *;
    RowSaysEntity(names, raw, i);
    RowSaysAnchor(names, raw, i);
  }

  lemma RowSaysEntity(names: seq<Name>, raw: Bytes, i: nat)
    requires AreRows(names, raw) && i < |names|
    ensures Entity(names[i]) in RowTable(names, raw)
    ensures RowTable(names, raw)[Entity(names[i])].version == Positional(names[i], [raw[i]])
  {
    RowsAreFile(names, raw);
    var e := RowEnts(names)[i];
    assert e in RowEnts(names) && EntSym(e) == Entity(names[i]);
    assert EntBytes(raw, e) == [raw[i]];
    EntInTable(EntityTier, Rows(names, raw), e);
    hide TableOf, Extracted, LaidOut, AreRows, EntBytes;
  }

  lemma RowSaysAnchor(names: seq<Name>, raw: Bytes, i: nat)
    requires AreRows(names, raw) && i < |names|
    ensures Anchor(names[i]) in RowTable(names, raw)
    ensures RowTable(names, raw)[Anchor(names[i])].version == Marker(if i == 0 then None else Some(names[i - 1]))
  {
    hide *;
    RowFactAt(names, raw, i);
    RowParts(names, raw, Anchor(names[i]));
    var ents := RowEnts(names);
    FactInTable(RowTable(names, raw), EntTable(raw, ents), Segments(raw, ents), AnchorFacts(ents), names[i]);
  }

  lemma RowParts(names: seq<Name>, raw: Bytes, x: Sym)
    requires AreRows(names, raw)
    ensures Extracted(raw, RowEnts(names)) && LaidOut(raw, RowEnts(names))
    ensures forall e :: e in RowEnts(names) ==> e.start <= e.end <= |raw|
    ensures var ents := RowEnts(names);
            MadeOf(RowTable(names, raw), EntTable(raw, ents), Segments(raw, ents), AnchorFacts(ents), x)
  {
    hide *;
    RowsAreFile(names, raw);
    RowsSorted(names);
    RowsHave(names, raw);
    PartsTable(EntityTier, Rows(names, raw), x);
  }

  lemma RowsHave(names: seq<Name>, raw: Bytes)
    requires AreRows(names, raw)
    ensures Rows(names, raw).Present? && Rows(names, raw).raw == raw && Rows(names, raw).ents == RowEnts(names)
    ensures WellFormed(Rows(names, raw)) && RowTable(names, raw) == TableOf(EntityTier, Rows(names, raw))
    ensures forall e :: e in RowEnts(names) ==> e.start <= e.end <= |raw|
  {
    RowsAreFile(names, raw);
    hide TableOf, WellFormed, AreRows, NamesOf, Distinct;
  }

  lemma FactInTable(t: Table, ents: Table, segments: map<Option<Name>, Bytes>, facts: Layout.Facts, n: Name)
    requires MadeOf(t, ents, segments, facts, Anchor(n)) && n in facts
    ensures Anchor(n) in t && t[Anchor(n)].version == Marker(facts[n])
  {
  }

  lemma RowFactAt(names: seq<Name>, raw: Bytes, i: nat)
    requires AreRows(names, raw) && i < |names|
    ensures var facts := AnchorFacts(RowEnts(names));
            names[i] in facts && facts[names[i]] == if i == 0 then None else Some(names[i - 1])
  {
    RowsAreFile(names, raw);
    assert Distinct(names);
    hide FactsUpTo, NamesOf, Extracted, LaidOut, IsNested;
    FactAt(RowEnts(names), |names|, i);
  }

  // ---------------------------------------------------------------------------------------
  // One symbol over three commits.

  function At(t: Table, s: Sym): Option<Version> {
    if s in t then Some(t[s].version) else None
  }

  /** Three ordinary commits of a parsed file. */
  ghost predicate IsPlain(h: Timeline) {
    |h| == 3 && ValidTimeline(h) && forall k :: 0 <= k < 3 ==> h[k].listed && !h[k].flip && !h[k].bookkeeping
  }

  lemma HopNow(h: Timeline, k: nat, s: Sym)
    requires IsPlain(h) && k < 3 && s != Whole
    ensures var was, now := At(Prior(h, k), s), At(h[k].table, s);
            && (s in Touches(h, k) <==> was != now && !(now.None? && s.Anchor?))
            && (s in Touches(h, k) ==>
                  && Touches(h, k)[s].after == (if now.Some? then now.value else Bottom(k))
                  && (was.Some? ==> Touches(h, k)[s].before == was)
                  && (was.None? && LastClosing(h, k, s).None? ==> Touches(h, k)[s].before == None)
                  && (was.None? && s.Entity? && LastClosing(h, k, s).Some? ==>
                        Touches(h, k)[s].before == Some(Bottom(LastClosing(h, k, s).value))))
  {
    if s in Touches(h, k) { BeforeIs(h, k, s); }
    hide ValidTimeline, LastClosing;
  }

  lemma FirstHop(h: Timeline, s: Sym)
    requires IsPlain(h) && s != Whole && At(h[0].table, s).Some?
    ensures s in Touches(h, 0) && HopOf(Touches(h, 0)[s]) == Hop(None, At(h[0].table, s).value)
  {
    HopNow(h, 0, s);
    NothingClosed(h, s);
    hide IsPlain, Touches, LastClosing;
  }

  lemma NothingClosed(h: Timeline, s: Sym)
    ensures LastClosing(h, 0, s) == None
  {
  }

  lemma PriorTables(h: Timeline)
    requires IsPlain(h)
    ensures Prior(h, 1) == h[0].table && Prior(h, 2) == h[1].table
  {
  }

  /** A symbol that does not change. */
  lemma SameThrough(h: Timeline, s: Sym, v: Version)
    requires IsPlain(h) && s != Whole
    requires At(h[0].table, s) == At(h[1].table, s) == At(h[2].table, s) == Some(v)
    ensures Follow(AllHops(h, s), None, {}) == Some(v)
  {
    hide *;
    var hops := AllHops(h, s);
    PlainHas(h);
    FirstHop(h, s);
    PriorTables(h);
    HopNow(h, 1, s);
    HopNow(h, 2, s);
    HopsAt(h, s, 0);
    forall p | p in hops ensures p == Hop(None, v) {
      var k := HopFrom(h, s, p);
      assert k == 0;
    }
    OneHop(hops, v);
  }

  lemma OneHop(hops: set<Hop>, v: Version)
    requires Hop(None, v) in hops && forall p :: p in hops ==> p == Hop(None, v)
    ensures Follow(hops, None, {}) == Some(v)
  {
    assert OnlyWay(hops, None, v) && forall y :: !OnlyWay(hops, Some(v), y);
    hide *;
    Follows(hops, None, v, {});
    FollowEnds(hops, Some(v), {} + {None});
  }

  /** A symbol that changes at the end. */
  lemma ChangedLast(h: Timeline, s: Sym, v: Version, w: Version)
    requires IsPlain(h) && s != Whole && v != w
    requires At(h[0].table, s) == At(h[1].table, s) == Some(v) && At(h[2].table, s) == Some(w)
    ensures Follow(AllHops(h, s), None, {}) == Some(w)
  {
    hide *;
    var hops := AllHops(h, s);
    PlainHas(h);
    FirstHop(h, s);
    PriorTables(h);
    HopNow(h, 1, s);
    HopNow(h, 2, s);
    HopsAt(h, s, 0);
    HopsAt(h, s, 2);
    HopIs(Touches(h, 2)[s], Some(v), w);
    forall p | p in hops ensures p == Hop(None, v) || p == Hop(Some(v), w) {
      var k := HopFrom(h, s, p);
      assert k == 0 || k == 2;
    }
    TwoHops(hops, v, w);
  }

  lemma TwoHops(hops: set<Hop>, v: Version, w: Version)
    requires v != w && Hop(None, v) in hops && Hop(Some(v), w) in hops
    requires forall p :: p in hops ==> p == Hop(None, v) || p == Hop(Some(v), w)
    ensures Follow(hops, None, {}) == Some(w)
  {
    hide *;
    TwoWaysOn(hops, v, w);
    Follows(hops, None, v, {});
    var once := {} + {None};
    Follows(hops, Some(v), w, once);
    FollowEnds(hops, Some(w), once + {Some(v)});
  }

  lemma TwoWaysOn(hops: set<Hop>, v: Version, w: Version)
    requires v != w && Hop(None, v) in hops && Hop(Some(v), w) in hops
    requires forall p :: p in hops ==> p == Hop(None, v) || p == Hop(Some(v), w)
    ensures OnlyWay(hops, None, v) && OnlyWay(hops, Some(v), w) && forall y :: !OnlyWay(hops, Some(w), y)
  {
  }

  /** An entity that goes and comes back as it was. */
  lemma GoneAndBack(h: Timeline, s: Sym, v: Version)
    requires IsPlain(h) && s.Entity? && !v.Bottom?
    requires At(h[0].table, s) == At(h[2].table, s) == Some(v) && At(h[1].table, s) == None
    ensures Follow(AllHops(h, s), None, {}) == Some(v)
  {
    hide *;
    var hops, b := AllHops(h, s), Bottom(1);
    GoneHops(h, s, v);
    MakesHop(h, 0, s, Hop(None, v));
    MakesHop(h, 1, s, Hop(Some(v), b));
    MakesHop(h, 2, s, Hop(Some(b), v));
    PlainHas(h);
    forall p | p in hops ensures p == Hop(None, v) || p == Hop(Some(v), b) || p == Hop(Some(b), v) {
      var k := HopMade(h, s, p);
      if k == 0 {
        MakesOne(h, 0, s, p, Hop(None, v));
      } else if k == 1 {
        MakesOne(h, 1, s, p, Hop(Some(v), b));
      } else {
        MakesOne(h, 2, s, p, Hop(Some(b), v));
      }
    }
    CycleWays(hops, v, b);
    Cycles(hops, v, b);
  }

  lemma GoneHops(h: Timeline, s: Sym, v: Version)
    requires IsPlain(h) && s.Entity?
    requires At(h[0].table, s) == At(h[2].table, s) == Some(v) && At(h[1].table, s) == None
    ensures Makes(h, 0, s, Hop(None, v)) && Makes(h, 1, s, Hop(Some(v), Bottom(1)))
    ensures Makes(h, 2, s, Hop(Some(Bottom(1)), v))
  {
    hide *;
    PlainHas(h);
    BothThere(h, s);
    FirstHop(h, s);
    PriorTables(h);
    HopNow(h, 1, s);
    HopNow(h, 2, s);
    ClosedAtOne(h, s);
    MakesIs(h, 0, s, None, v);
    MakesIs(h, 1, s, Some(v), Bottom(1));
    MakesIs(h, 2, s, Some(Bottom(1)), v);
  }

  lemma MakesIs(h: Timeline, k: nat, s: Sym, v: Option<Version>, w: Version)
    requires k < |h| && s in Touches(h, k)
    requires (Touches(h, k)[s].before == v && Touches(h, k)[s].after == w) || HopOf(Touches(h, k)[s]) == Hop(v, w)
    ensures Makes(h, k, s, Hop(v, w))
  {
    hide Touches;
  }

  lemma BothThere(h: Timeline, s: Sym)
    requires |h| == 3 && At(h[0].table, s).Some? && At(h[1].table, s).None?
    ensures s in h[0].table && s !in h[1].table
  {
  }

  lemma ClosedAtOne(h: Timeline, s: Sym)
    requires IsPlain(h) && s.Entity? && s in h[0].table && s !in h[1].table
    ensures LastClosing(h, 2, s) == Some(1)
  {
    assert SeenClosing(h, 1, s);
    hide IsPlain, LastClosing, SeenClosing;
  }

  // ---------------------------------------------------------------------------------------
  // The history.

  /** Three entities; the last is taken out; it is put back between the others. */
  function Moving(m: Name, n: Name, d: Name, x: Byte, y: Byte, z: Byte): Commits {
    [Commit(Rows([m, n, d], [x, y, z]), true, false), Commit(Rows([m, n], [x, y]), true, false),
     Commit(Rows([m, d, n], [x, z, y]), true, false)]
  }

  predicate ThreeNames(m: Name, n: Name, d: Name) {
    m != n && m != d && n != d && !IsNested(m) && !IsNested(n) && !IsNested(d)
  }

  lemma MovingRows(m: Name, n: Name, d: Name, x: Byte, y: Byte, z: Byte)
    requires ThreeNames(m, n, d)
    ensures AreRows([m, n, d], [x, y, z]) && AreRows([m, n], [x, y]) && AreRows([m, d, n], [x, z, y])
  {
    hide IsNested;
  }

  lemma MovingIsValid(m: Name, n: Name, d: Name, x: Byte, y: Byte, z: Byte)
    requires ThreeNames(m, n, d)
    ensures ValidHistory(Moving(m, n, d, x, y, z))
  {
    MovingRows(m, n, d, x, y, z);
    RowsAreFile([m, n, d], [x, y, z]);
    RowsAreFile([m, n], [x, y]);
    RowsAreFile([m, d, n], [x, z, y]);
    hide AreRows, ThreeNames, Extracted, LaidOut, NamesOf, RowEnts, RepOf;
    var h := Moving(m, n, d, x, y, z);
    assert PriorFile(h, 0) == Absent;
    assert WellFormed(h[0].file) && WellFormed(h[1].file) && WellFormed(h[2].file);
    hide WellFormed;
  }

  function MovingLine(m: Name, n: Name, d: Name, x: Byte, y: Byte, z: Byte): Timeline
    requires ThreeNames(m, n, d)
  {
    MovingIsValid(m, n, d, x, y, z);
    TimelineOf(EntityTier, Moving(m, n, d, x, y, z))
  }

  lemma MovingTables(m: Name, n: Name, d: Name, x: Byte, y: Byte, z: Byte)
    requires ThreeNames(m, n, d)
    ensures IsPlain(MovingLine(m, n, d, x, y, z))
    ensures AreRows([m, n, d], [x, y, z]) && AreRows([m, n], [x, y]) && AreRows([m, d, n], [x, z, y])
    ensures var h := MovingLine(m, n, d, x, y, z);
            && h[0].table == RowTable([m, n, d], [x, y, z]) && h[1].table == RowTable([m, n], [x, y])
            && h[2].table == RowTable([m, d, n], [x, z, y])
  {
    hide *;
    var hc := Moving(m, n, d, x, y, z);
    MovingIsValid(m, n, d, x, y, z);
    MovingRows(m, n, d, x, y, z);
    MovingAt(m, n, d, x, y, z);
    RowPoint(hc, 0, [m, n, d], [x, y, z]);
    RowPoint(hc, 1, [m, n], [x, y]);
    RowPoint(hc, 2, [m, d, n], [x, z, y]);
    TimelineIsValid(EntityTier, hc);
    PlainIs(MovingLine(m, n, d, x, y, z));
  }

  lemma MovingAt(m: Name, n: Name, d: Name, x: Byte, y: Byte, z: Byte)
    requires ThreeNames(m, n, d)
    ensures var hc := Moving(m, n, d, x, y, z);
            && |hc| == 3 && hc[0] == Commit(Rows([m, n, d], [x, y, z]), true, false)
            && hc[1] == Commit(Rows([m, n], [x, y]), true, false)
            && hc[2] == Commit(Rows([m, d, n], [x, z, y]), true, false)
            && ValidHistory(hc) && MovingLine(m, n, d, x, y, z) == TimelineOf(EntityTier, hc)
            && |TimelineOf(EntityTier, hc)| == 3
  {
    MovingIsValid(m, n, d, x, y, z);
    hide Rows, ThreeNames, ValidHistory;
  }

  lemma PlainIs(h: Timeline)
    requires |h| == 3 && ValidTimeline(h)
    requires h[0].listed && !h[0].flip && !h[0].bookkeeping && h[1].listed && !h[1].flip && !h[1].bookkeeping
    requires h[2].listed && !h[2].flip && !h[2].bookkeeping
    ensures IsPlain(h)
  {
    hide ValidTimeline;
  }

  lemma RowPoint(hc: Commits, k: nat, names: seq<Name>, raw: Bytes)
    requires ValidHistory(hc) && k < |hc| && AreRows(names, raw) && hc[k] == Commit(Rows(names, raw), true, false)
    ensures var p := TimelineOf(EntityTier, hc)[k];
            p.table == RowTable(names, raw) && p.listed && !p.flip && !p.bookkeeping
  {
    RowsAreFile(names, raw);
    RowsHave(names, raw);
    hide ValidHistory, AreRows, RowTable, TableOf, WellFormed, Rows, RepOf;
    assert TimelineOf(EntityTier, hc)[k] == PointOf(EntityTier, hc, k);
  }

  lemma MovingSays(m: Name, n: Name, d: Name, x: Byte, y: Byte, z: Byte)
    requires ThreeNames(m, n, d)
    ensures var h := MovingLine(m, n, d, x, y, z);
            && |h| == 3
            && At(h[0].table, Entity(m)) == At(h[1].table, Entity(m)) == At(h[2].table, Entity(m))
               == Some(Positional(m, [x]))
            && At(h[0].table, Entity(n)) == At(h[1].table, Entity(n)) == At(h[2].table, Entity(n))
               == Some(Positional(n, [y]))
            && At(h[0].table, Entity(d)) == At(h[2].table, Entity(d)) == Some(Positional(d, [z]))
            && At(h[1].table, Entity(d)) == None
            && At(h[0].table, Anchor(m)) == At(h[1].table, Anchor(m)) == At(h[2].table, Anchor(m)) == Some(Marker(None))
            && At(h[0].table, Anchor(n)) == At(h[1].table, Anchor(n)) == Some(Marker(Some(m)))
            && At(h[2].table, Anchor(n)) == Some(Marker(Some(d)))
            && At(h[0].table, Anchor(d)) == Some(Marker(Some(n))) && At(h[1].table, Anchor(d)) == None
            && At(h[2].table, Anchor(d)) == Some(Marker(Some(m)))
  {
    MovingTables(m, n, d, x, y, z);
    hide *;
    RowsOfThree(m, n, d, x, y, z);
    RowsOfThree(m, d, n, x, z, y);
    RowsOfTwo(m, n, x, y);
    RowHas([m, n], [x, y], Entity(d));
    RowHas([m, n], [x, y], Anchor(d));
    NotOfTwo(m, n, d);
    AtIs(RowTable([m, n], [x, y]), Entity(d));
    AtIs(RowTable([m, n], [x, y]), Anchor(d));
    PlainHas(MovingLine(m, n, d, x, y, z));
  }

  lemma PlainHas(h: Timeline)
    requires IsPlain(h)
    ensures |h| == 3 && ValidTimeline(h)
  {
  }

  lemma NotOfTwo(m: Name, n: Name, d: Name)
    requires ThreeNames(m, n, d)
    ensures d !in [m, n]
  {
  }

  lemma AtIs(t: Table, s: Sym)
    ensures s !in t ==> At(t, s) == None
    ensures s in t ==> At(t, s) == Some(t[s].version)
  {
  }

  lemma RowsOfThree(a: Name, b: Name, c: Name, x: Byte, y: Byte, z: Byte)
    requires AreRows([a, b, c], [x, y, z])
    ensures var t := RowTable([a, b, c], [x, y, z]);
            && At(t, Entity(a)) == Some(Positional(a, [x])) && At(t, Anchor(a)) == Some(Marker(None))
            && At(t, Entity(b)) == Some(Positional(b, [y])) && At(t, Anchor(b)) == Some(Marker(Some(a)))
            && At(t, Entity(c)) == Some(Positional(c, [z])) && At(t, Anchor(c)) == Some(Marker(Some(b)))
  {
    hide RowTable, AreRows;
    RowSays([a, b, c], [x, y, z], 0);
    RowSays([a, b, c], [x, y, z], 1);
    RowSays([a, b, c], [x, y, z], 2);
  }

  lemma RowsOfTwo(a: Name, b: Name, x: Byte, y: Byte)
    requires AreRows([a, b], [x, y])
    ensures var t := RowTable([a, b], [x, y]);
            && At(t, Entity(a)) == Some(Positional(a, [x])) && At(t, Anchor(a)) == Some(Marker(None))
            && At(t, Entity(b)) == Some(Positional(b, [y])) && At(t, Anchor(b)) == Some(Marker(Some(a)))
  {
    hide RowTable, AreRows;
    RowSays([a, b], [x, y], 0);
    RowSays([a, b], [x, y], 1);
  }

  // ---------------------------------------------------------------------------------------
  // What is live at its end.

  lemma TouchedSays(h: Timeline, k: nat, s: Sym)
    requires k < |h| && s in Touches(h, k)
    ensures s in h[k].table || (k > 0 && s in h[k - 1].table)
    ensures Touches(h, k)[s].after == if s in h[k].table then h[k].table[s].version else Bottom(k)
  {
    BeforeIs(h, k, s);
    hide Touches, LastClosing, IsTouched;
  }

  /** No file of the history has the symbol. */
  lemma NeverThere(c: Codec, h: Timeline, st: Store, s: Sym)
    requires IsCodec(c) && Mined(c, h, st) && forall k :: 0 <= k < |h| ==> s !in h[k].table
    ensures s !in FrontierLive(c, h, st)
  {
    hide *;
    LiveByTip(c, h, st, s);
    LeftIs(TipValue(c, st, s));
    if s in FrontierLive(c, h, st) {
      var k := TipIsTouched(c, h, st, s);
      TouchedSays(h, k, s);
    }
  }

  /** In every file that has it, it is an empty gap. */
  lemma AlwaysEmpty(c: Codec, h: Timeline, st: Store, s: Sym)
    requires IsCodec(c) && Mined(c, h, st)
    requires forall k :: 0 <= k < |h| && s in h[k].table ==> h[k].table[s].version == Content([])
    ensures s in FrontierLive(c, h, st) ==> FrontierLive(c, h, st)[s] == Data([])
  {
    hide *;
    LiveByTip(c, h, st, s);
    LeftIs(TipValue(c, st, s));
    if s in FrontierLive(c, h, st) {
      var k := TipIsTouched(c, h, st, s);
      TouchedSays(h, k, s);
      LeftEmpty(TipValue(c, st, s), k);
    }
  }

  lemma LeftEmpty(v: Option<Version>, k: nat)
    requires IsLeft(v) && (v == Some(Content([])) || v == Some(Bottom(k)))
    ensures ImageOf(v.value) == Data([])
  {
  }

  lemma LiveAs(c: Codec, h: Timeline, st: Store, s: Sym, v: Version)
    requires IsCodec(c) && Mined(c, h, st) && Alone(c, st, s) && !v.Bottom?
    requires Follow(AllHops(h, s), None, {}) == Some(v)
    ensures s in FrontierLive(c, h, st) && FrontierLive(c, h, st)[s] == ImageOf(v)
  {
    hide *;
    AloneTip(c, h, st, s);
    LiveByTip(c, h, st, s);
    LeftSome(v);
  }

  lemma LeftSome(v: Version)
    ensures IsLeft(Some(v)) <==> !v.Bottom?
  {
  }

  /** What the frontier has of the history: everything but the moved entity's anchor. */
  ghost predicate LostAnchor(live: Fold.LiveSet, m: Name, n: Name, d: Name, x: Byte, y: Byte, z: Byte) {
    && Whole !in live && (forall a: Option<Name> :: Residue(a) in live ==> live[Residue(a)] == Data([]))
    && (forall a :: Entity(a) in live <==> a == m || a == n || a == d)
    && live[Entity(m)] == Data([x]) && live[Entity(n)] == Data([y]) && live[Entity(d)] == Data([z])
    && Anchor(m) in live && live[Anchor(m)] == Fact(None) && Anchor(n) in live && live[Anchor(n)] == Fact(Some(d))
    && Anchor(d) !in live
  }

  lemma MovingIs(m: Name, n: Name, d: Name, x: Byte, y: Byte, z: Byte)
    requires ThreeNames(m, n, d)
    ensures var h := MovingLine(m, n, d, x, y, z);
            && IsPlain(h) && ValidTimeline(h) && |h| == 3
            && IsCodec(PLAIN) && Mined(PLAIN, h, PlainStore(h)) && forall s: Sym :: Alone(PLAIN, PlainStore(h), s)
  {
    hide *;
    MovingTables(m, n, d, x, y, z);
    PlainHas(MovingLine(m, n, d, x, y, z));
    PlainStoreIs(MovingLine(m, n, d, x, y, z));
  }

  lemma MovingEntities(m: Name, n: Name, d: Name, x: Byte, y: Byte, z: Byte)
    requires ThreeNames(m, n, d)
    ensures var h := MovingLine(m, n, d, x, y, z);
            var live := FrontierLive(PLAIN, h, PlainStore(h));
            && Entity(m) in live && live[Entity(m)] == ImageOf(Positional(m, [x]))
            && Entity(n) in live && live[Entity(n)] == ImageOf(Positional(n, [y]))
            && Entity(d) in live && live[Entity(d)] == ImageOf(Positional(d, [z]))
  {
    hide *;
    var h := MovingLine(m, n, d, x, y, z);
    MovingIs(m, n, d, x, y, z);
    MovingSays(m, n, d, x, y, z);
    SameThrough(h, Entity(m), Positional(m, [x]));
    SameThrough(h, Entity(n), Positional(n, [y]));
    GoneAndBack(h, Entity(d), Positional(d, [z]));
    LiveAs(PLAIN, h, PlainStore(h), Entity(m), Positional(m, [x]));
    LiveAs(PLAIN, h, PlainStore(h), Entity(n), Positional(n, [y]));
    LiveAs(PLAIN, h, PlainStore(h), Entity(d), Positional(d, [z]));
  }

  lemma MovingAnchors(m: Name, n: Name, d: Name, x: Byte, y: Byte, z: Byte)
    requires ThreeNames(m, n, d)
    ensures var h := MovingLine(m, n, d, x, y, z);
            var live := FrontierLive(PLAIN, h, PlainStore(h));
            && Anchor(m) in live && live[Anchor(m)] == ImageOf(Marker(None))
            && Anchor(n) in live && live[Anchor(n)] == ImageOf(Marker(Some(d)))
            && Anchor(d) !in live
  {
    assert Marker(Some(m)) != Marker(Some(d));
    hide *;
    var h := MovingLine(m, n, d, x, y, z);
    MovingIs(m, n, d, x, y, z);
    MovingSays(m, n, d, x, y, z);
    SameThrough(h, Anchor(m), Marker(None));
    ChangedLast(h, Anchor(n), Marker(Some(m)), Marker(Some(d)));
    LiveAs(PLAIN, h, PlainStore(h), Anchor(m), Marker(None));
    LiveAs(PLAIN, h, PlainStore(h), Anchor(n), Marker(Some(d)));
    BornTwice(m, n, d, x, y, z);
    AnchorSurvivesExactlyWhen(PLAIN, h, PlainStore(h), Anchor(d));
    LiveByTip(PLAIN, h, PlainStore(h), Anchor(d));
    LeftIs(TipValue(PLAIN, PlainStore(h), Anchor(d)));
  }

  /** The moved entity comes into the file twice, behind different ones. */
  lemma BornTwice(m: Name, n: Name, d: Name, x: Byte, y: Byte, z: Byte)
    requires ThreeNames(m, n, d)
    ensures var h := MovingLine(m, n, d, x, y, z);
            EntersAs(h, 0, Anchor(d), Marker(Some(n))) && EntersAs(h, 2, Anchor(d), Marker(Some(m)))
    ensures Marker(Some(n)) != Marker(Some(m))
  {
    assert Marker(Some(n)) != Marker(Some(m));
    hide *;
    var h := MovingLine(m, n, d, x, y, z);
    MovingIs(m, n, d, x, y, z);
    MovingSays(m, n, d, x, y, z);
    PriorTables(h);
    PriorIs(h, 0);
    AtIs(map[], Anchor(d));
    EntersBy(h, 0, Anchor(d), Marker(Some(n)));
    EntersBy(h, 2, Anchor(d), Marker(Some(m)));
  }

  lemma EntersBy(h: Timeline, k: nat, s: Sym, w: Version)
    requires k < |h| && At(Prior(h, k), s) == None && At(h[k].table, s) == Some(w)
    ensures EntersAs(h, k, s, w)
  {
  }

  lemma MovingRest(m: Name, n: Name, d: Name, x: Byte, y: Byte, z: Byte, s: Sym)
    requires ThreeNames(m, n, d)
    ensures var h := MovingLine(m, n, d, x, y, z);
            var live := FrontierLive(PLAIN, h, PlainStore(h));
            && (s.Whole? || (s.Entity? && s.name != m && s.name != n && s.name != d) ==> s !in live)
            && (s.Residue? && s in live ==> live[s] == Data([]))
  {
    hide *;
    var h := MovingLine(m, n, d, x, y, z);
    MovingIs(m, n, d, x, y, z);
    MovingTables(m, n, d, x, y, z);
    RowHas([m, n, d], [x, y, z], s);
    RowHas([m, n], [x, y], s);
    RowHas([m, d, n], [x, z, y], s);
    if s.Residue? {
      AlwaysEmpty(PLAIN, h, PlainStore(h), s);
    } else if s.Whole? || (s.Entity? && s.name != m && s.name != n && s.name != d) {
      NeverThere(PLAIN, h, PlainStore(h), s);
    }
  }

  lemma MovingLive(m: Name, n: Name, d: Name, x: Byte, y: Byte, z: Byte)
    requires ThreeNames(m, n, d)
    ensures var h := MovingLine(m, n, d, x, y, z);
            LostAnchor(FrontierLive(PLAIN, h, PlainStore(h)), m, n, d, x, y, z)
  {
    hide *;
    var h := MovingLine(m, n, d, x, y, z);
    var live := FrontierLive(PLAIN, h, PlainStore(h));
    MovingEntities(m, n, d, x, y, z);
    MovingAnchors(m, n, d, x, y, z);
    MovingRest(m, n, d, x, y, z, Whole);
    forall a: Option<Name> ensures Residue(a) in live ==> live[Residue(a)] == Data([]) {
      MovingRest(m, n, d, x, y, z, Residue(a));
    }
    forall a ensures Entity(a) in live <==> a == m || a == n || a == d {
      MovingRest(m, n, d, x, y, z, Entity(a));
    }
    MovingImages(m, n, d, x, y, z);
    LostAnchorIs(live, m, n, d, x, y, z);
  }

  lemma MovingImages(m: Name, n: Name, d: Name, x: Byte, y: Byte, z: Byte)
    ensures ImageOf(Positional(m, [x])) == Data([x]) && ImageOf(Positional(n, [y])) == Data([y])
    ensures ImageOf(Positional(d, [z])) == Data([z])
    ensures ImageOf(Marker(None)) == Fact(None) && ImageOf(Marker(Some(d))) == Fact(Some(d))
  {
  }

  lemma LostAnchorIs(live: Fold.LiveSet, m: Name, n: Name, d: Name, x: Byte, y: Byte, z: Byte)
    requires Whole !in live && forall a: Option<Name> :: Residue(a) in live ==> live[Residue(a)] == Data([])
    requires forall a :: Entity(a) in live <==> a == m || a == n || a == d
    requires live[Entity(m)] == Data([x]) && live[Entity(n)] == Data([y]) && live[Entity(d)] == Data([z])
    requires Anchor(m) in live && live[Anchor(m)] == Fact(None)
    requires Anchor(n) in live && live[Anchor(n)] == Fact(Some(d)) && Anchor(d) !in live
    ensures LostAnchor(live, m, n, d, x, y, z)
  {
  }

  // ---------------------------------------------------------------------------------------
  // What it folds to.

  lemma LostOrder(live: Fold.LiveSet, m: Name, n: Name, d: Name, x: Byte, y: Byte, z: Byte)
    requires LostAnchor(live, m, n, d, x, y, z) && m != n && m != d && n != d && Le(d, m)
    ensures Fold.FileOrder(live) == [d, n, m]
  {
    var names, f := Fold.LiveNames(live), Fold.LiveFacts(live);
    assert names == {m, n, d};
    assert Layout.Predecessor(f, m) == None && Layout.Predecessor(f, n) == Some(d) && Layout.Predecessor(f, d) == None;
    assert Fold.FileOrder(live) == Layout.Order(names, f);
    hide *;
    OrderOfThree(names, f, m, n, d);
  }

  lemma OrderOfThree(names: set<Name>, f: Layout.Facts, m: Name, n: Name, d: Name)
    requires names == {m, n, d} && m != n && m != d && n != d && Le(d, m)
    requires Layout.Predecessor(f, m) == None && Layout.Predecessor(f, n) == Some(d) && Layout.Predecessor(f, d) == None
    ensures Layout.Order(names, f) == [d, n, m]
  {
    hide *;
    NoneLeft(names, m, n, d);
    ThreeChildren(names, f, m, n, d);
    WalkOfThree(names, f, m, n, d);
    Layout.OrderIs(names, f);
    Layout.NoneSorted();
  }

  lemma WalkOfThree(names: set<Name>, f: Layout.Facts, m: Name, n: Name, d: Name)
    requires m in names && n in names && d in names && m != n && m != d && n != d
    requires Layout.Children(names, f, Some(d)) == [n]
    requires Layout.Children(names, f, Some(n)) == [] && Layout.Children(names, f, Some(m)) == []
    ensures Layout.Walk(names, f, [d, m], {}) == ([d, n, m] + [], {} + {d} + {n} + {m})
  {
    hide *;
    var first := {} + {d};
    LeafAlone(names, f, n, first);
    LeafAlone(names, f, m, first + {n});
    Layout.WalkStep(names, f, [d, m], {});
    assert [d, m][1..] == [m];
    InOne(d, n, m);
  }

  lemma InOne(a: Name, b: Name, c: Name)
    ensures [a] + [b] + [c] == [a, b, c] + []
  {
  }

  lemma NoneLeft(names: set<Name>, m: Name, n: Name, d: Name)
    requires names == {m, n, d}
    ensures names - ({} + {d} + {n} + {m}) == {}
    ensures m in names && n in names && d in names
  {
  }

  /** A childless name without siblings. */
  lemma LeafAlone(names: set<Name>, f: Layout.Facts, n: Name, visited: set<Name>)
    requires n in names && n !in visited && Layout.Children(names, f, Some(n)) == []
    ensures Layout.Walk(names, f, [n], visited) == ([n], visited + {n})
  {
    hide *;
    Layout.LeafStep(names, f, n, [], visited);
    Layout.WalkNone(names, f, visited + {n});
    assert [n] + [] == [n];
  }

  lemma ThreeChildren(names: set<Name>, f: Layout.Facts, m: Name, n: Name, d: Name)
    requires names == {m, n, d} && m != n && m != d && n != d && Le(d, m)
    requires Layout.Predecessor(f, m) == None && Layout.Predecessor(f, n) == Some(d) && Layout.Predecessor(f, d) == None
    ensures Layout.Children(names, f, None) == [d, m] && Layout.Children(names, f, Some(d)) == [n]
    ensures Layout.Children(names, f, Some(n)) == [] && Layout.Children(names, f, Some(m)) == []
  {
    hide *;
    Layout.PairIncreases(d, m);
    Layout.OneIncreases([n]);
    Layout.OneIncreases([]);
    Layout.ChildrenAre(names, f, None, [d, m]);
    Layout.ChildrenAre(names, f, Some(d), [n]);
    Layout.ChildrenAre(names, f, Some(n), []);
    Layout.ChildrenAre(names, f, Some(m), []);
  }

  lemma {:induction false} EmptyGaps(live: Fold.LiveSet, names: seq<Name>)
    requires forall a: Option<Name> :: Residue(a) in live ==> live[Residue(a)] == Data([])
    ensures Fold.Join(Fold.GapParts(live, names)) == []
  {
    if names == [] {
      Fold.NoParts(live);
    } else {
      assert names[0..] == names;
      EmptyGaps(live, names[1..]);
      Fold.GapPartsStep(live, names, 0);
      Fold.GapJoin(live, names[0]);
      hide Fold.Join, Fold.GapPart, Fold.GapParts;
    }
  }

  lemma NoGapBytes(live: Fold.LiveSet, n: Name)
    requires forall a: Option<Name> :: Residue(a) in live ==> live[Residue(a)] == Data([])
    ensures Fold.Join(Fold.GapPart(live, Some(n))) == [] && Fold.Join(Fold.GapPart(live, None)) == []
  {
    Fold.GapJoin(live, n);
    Fold.HeadJoin(live);
    hide Fold.Join, Fold.GapPart;
  }

  lemma ImageStep(live: Fold.LiveSet, n: Name, rest: seq<Name>, b: Byte)
    requires forall a: Option<Name> :: Residue(a) in live ==> live[Residue(a)] == Data([])
    requires Entity(n) in live && live[Entity(n)] == Data([b])
    ensures Fold.Join(Fold.EntityParts(live, [n] + rest)) == [b] + Fold.Join(Fold.EntityParts(live, rest))
  {
    var order := [n] + rest;
    Fold.EntityPartsStep(live, order, 0);
    NoGapBytes(live, n);
    hide Fold.Join, Fold.GapPart, Fold.EntityParts;
    assert order[0..] == order && order[1..] == rest;
    assert [b] + [] == [b];
  }

  lemma LostAnchorHas(live: Fold.LiveSet, m: Name, n: Name, d: Name, x: Byte, y: Byte, z: Byte)
    requires LostAnchor(live, m, n, d, x, y, z)
    ensures Whole !in live && forall a: Option<Name> :: Residue(a) in live ==> live[Residue(a)] == Data([])
    ensures Entity(m) in live && live[Entity(m)] == Data([x]) && Entity(n) in live && live[Entity(n)] == Data([y])
    ensures Entity(d) in live && live[Entity(d)] == Data([z])
  {
  }

  lemma ThreeBytes(x: Byte, y: Byte, z: Byte)
    ensures [] + ([z] + ([y] + ([x] + []))) + [] == [z, y, x]
  {
  }

  lemma LostFold(live: Fold.LiveSet, m: Name, n: Name, d: Name, x: Byte, y: Byte, z: Byte)
    requires LostAnchor(live, m, n, d, x, y, z) && Fold.FileOrder(live) == [d, n, m]
    ensures Fold.FoldFile(live) == [z, y, x]
  {
    hide *;
    LostAnchorHas(live, m, n, d, x, y, z);
    LostImages(live, m, n, d, x, y, z);
    NoGapBytes(live, m);
    EmptyGaps(live, Sorted(Fold.Orphans(live)));
    FoldUnfolds(live);
    Fold.JoinParts(live);
    ThreeBytes(x, y, z);
  }

  lemma LostImages(live: Fold.LiveSet, m: Name, n: Name, d: Name, x: Byte, y: Byte, z: Byte)
    requires LostAnchor(live, m, n, d, x, y, z)
    ensures Fold.Join(Fold.EntityParts(live, [d, n, m])) == [z] + ([y] + ([x] + []))
  {
    hide *;
    LostAnchorHas(live, m, n, d, x, y, z);
    Fold.NoParts(live);
    ImageStep(live, m, [], x);
    ImageStep(live, n, [m] + [], y);
    ImageStep(live, d, [n] + ([m] + []), z);
    ThreeInOrder(m, n, d);
  }

  lemma ThreeInOrder(m: Name, n: Name, d: Name)
    ensures [d, n, m] == [d] + ([n] + ([m] + []))
  {
  }

  /** The last of three entities, whatever their names and bytes, is taken out and put back between the others.  Its
      fact is born twice, behind different names, and both births are dropped: it becomes a root, and where its name
      sorts before the first one's the store reads back as last, second, first -- though the commit holds first,
      last, second, and the replay gives that. */
  lemma MovedEntityLosesItsPlace(m: Name, n: Name, d: Name, x: Byte, y: Byte, z: Byte)
    requires ThreeNames(m, n, d) && Le(d, m)
    ensures var h := MovingLine(m, n, d, x, y, z);
            Fold.FoldFile(FrontierLive(PLAIN, h, PlainStore(h))) == [z, y, x]
    ensures ValidHistory(Moving(m, n, d, x, y, z))
    ensures Fold.FoldFile(LiveOf(StateAfter(EntityTier, Moving(m, n, d, x, y, z), 3))) == [x, z, y]
  {
    assert m != n && m != d && n != d;
    hide *;
    var h := MovingLine(m, n, d, x, y, z);
    MovingLive(m, n, d, x, y, z);
    LostOrder(FrontierLive(PLAIN, h, PlainStore(h)), m, n, d, x, y, z);
    LostFold(FrontierLive(PLAIN, h, PlainStore(h)), m, n, d, x, y, z);
    MovingReplays(m, n, d, x, y, z);
  }

  lemma MovingReplays(m: Name, n: Name, d: Name, x: Byte, y: Byte, z: Byte)
    requires ThreeNames(m, n, d)
    ensures ValidHistory(Moving(m, n, d, x, y, z))
    ensures Fold.FoldFile(LiveOf(StateAfter(EntityTier, Moving(m, n, d, x, y, z), 3))) == [x, z, y]
  {
    hide *;
    var hc := Moving(m, n, d, x, y, z);
    MovingRows(m, n, d, x, y, z);
    MovingAt(m, n, d, x, y, z);
    RowsAreFile([m, d, n], [x, z, y]);
    RowsHave([m, d, n], [x, z, y]);
    RowsSorted([m, d, n]);
    SortsAgree([x, z, y], RowEnts([m, d, n]));
    NotIgnored();
    RoundTrip(EntityTier, hc, 2);
  }

  lemma NotIgnored()
    ensures !EntityTier.IgnoredTier?
  {
  }

  /** In letters: M, N, D; D goes; D is back behind M.  It reads back as D, N, M. */
  lemma MovedExample()
    ensures ThreeNames("M", "N", "D")
    ensures var h := MovingLine("M", "N", "D", 1, 2, 3);
            Fold.FoldFile(FrontierLive(PLAIN, h, PlainStore(h))) == [3, 2, 1]
    ensures Moving("M", "N", "D", 1, 2, 3)[2].file == Rows(["M", "D", "N"], [1, 3, 2])
  {
    LettersDiffer();
    hide IsNested, Le, MovingLine, FrontierLive, PlainStore, Fold.FoldFile, Rows;
    MovedEntityLosesItsPlace("M", "N", "D", 1, 2, 3);
  }

  lemma LettersDiffer()
    ensures "M" != "N" && "M" != "D" && "N" != "D" && Le("D", "M")
    ensures !IsNested("M") && !IsNested("N") && !IsNested("D")
  {
    assert "M"[0] != "N"[0] && "M"[0] != "D"[0] && "N"[0] != "D"[0];
    assert "D"[0] < "M"[0];
  }
}
