/** What a path folds to when it is read back through the reduced store (`sgt/core/fold.py`, `fold_at`): from the
    tips of the frontier, not from the last writer of each symbol.

    The two differ where ops are lost or occur again; here is what the tips must show for the fold to give the
    committed bytes, and what they do show. */
module ReadBack {
  import opened Names
  import opened Symbols
  import opened Snapshots
  import opened Tables
  import opened Chains
  import opened History
  import opened Codecs
  import opened MinedOps
  import opened PathOps
  import opened Rooting
  import Layout
  import Fold
  import Frontier

  // ---------------------------------------------------------------------------------------
  // What the tips show.

  /** A version is a hash of its image. */
  function ImageOf(v: Version): Image {
    match v
    case Blob(b) => Data(b)
    case Positional(_, b) => Data(b)
    case Content(b) => Data(b)
    case Marker(p) => Fact(p)
    case Bottom(_) => Gone
  }

  lemma CoherentImage(t: Table, s: Sym)
    requires Coherent(t) && s in t
    ensures t[s].image == ImageOf(t[s].version) && !t[s].version.Bottom?
  {
    assert CoherentAt(t, s);
  }

  /** The version the tip leaves. */
  ghost function TipValue(c: Codec, st: Store, s: Sym): (r: Option<Version>)
    ensures r.Some? ==> Tip(c, st, s) == Some(c.version(r.value))
    ensures r.None? ==> forall v: Version :: Tip(c, st, s) != Some(c.version(v))
  {
    if exists v: Version :: Tip(c, st, s) == Some(c.version(v)) then
      var v: Version :| Tip(c, st, s) == Some(c.version(v));
      Some(v)
    else None
  }

  lemma TipValueIs(c: Codec, st: Store, s: Sym, v: Option<Version>)
    requires IsCodec(c) && Tip(c, st, s) == Written(c, v)
    ensures TipValue(c, st, s) == v
  {
    hide Tip;
    WrittenApart(c, TipValue(c, st, s), v);
  }

  /** A version somebody left. */
  predicate IsLeft(v: Option<Version>) {
    v.Some? && !v.value.Bottom?
  }

  ghost function Tips(c: Codec, h: Timeline, st: Store): (r: map<Sym, Version>)
    ensures forall s :: s in r <==> s in Replay(h, |h|) && IsLeft(TipValue(c, st, s))
    ensures forall s :: s in r ==> Some(r[s]) == TipValue(c, st, s)
  {
    map s | s in Replay(h, |h|) && IsLeft(TipValue(c, st, s)) :: TipValue(c, st, s).value
  }

  /** The symbols whose tip is not a removal, with their images. */
  ghost function FrontierLive(c: Codec, h: Timeline, st: Store): (r: Fold.LiveSet) {
    map s | s in Tips(c, h, st) :: ImageOf(Tips(c, h, st)[s])
  }

  /** Where there is a tip some touch made it. */
  lemma TipIsTouched(c: Codec, h: Timeline, st: Store, s: Sym) returns (k: nat)
    requires IsCodec(c) && Mined(c, h, st) && TipValue(c, st, s).Some?
    ensures k < |h| && s in Touches(h, k) && TipValue(c, st, s) == Some(Touches(h, k)[s].after)
  {
    MinedSizes(c, h, st);
    TipIsOp(c, st, s);
    var id :| id in Reduced(st) && Frontier.Touches(st.ops, id, c.name(s))
              && Tip(c, st, s) == Some(Frontier.AfterOf(st.ops, id, c.name(s)));
    hide *;
    k := MadeBy(c, h, st, id, s);
    MadeEarly(h, st, k, s, id);
    HopLeaves(c, st.ops, id, s, HopOf(Touches(h, k)[s]), Touches(h, k)[s]);
    TipValueIs(c, st, s, Some(Touches(h, k)[s].after));
  }

  lemma TipIsOp(c: Codec, st: Store, s: Sym)
    requires Tip(c, st, s).Some?
    ensures exists id :: id in Reduced(st) && Frontier.Touches(st.ops, id, c.name(s))
              && Tip(c, st, s) == Some(Frontier.AfterOf(st.ops, id, c.name(s)))
  {
    var tip := Frontier.TipOf(st.ops, Reduced(st), c.name(s));
    hide Frontier.TipOf, Reduced, Frontier.Touches, Frontier.AfterOf;
    assert tip.Some? && tip.value in Reduced(st);
  }

  lemma {:induction false} TouchedIsHeld(h: Timeline, k: nat, j: nat, s: Sym)
    requires j < k <= |h| && s in Touches(h, j)
    ensures s in Replay(h, k)
    decreases k
  {
    hide *;
    ReplayUnfolds(h, k - 1);
    if j < k - 1 { TouchedIsHeld(h, k - 1, j, s); }
  }

  /** A symbol is live exactly when its tip leaves a version that is no removal. */
  lemma LiveByTip(c: Codec, h: Timeline, st: Store, s: Sym)
    requires IsCodec(c) && Mined(c, h, st)
    ensures s in FrontierLive(c, h, st) <==> IsLeft(TipValue(c, st, s))
    ensures s in FrontierLive(c, h, st) ==> FrontierLive(c, h, st)[s] == ImageOf(TipValue(c, st, s).value)
  {
    if TipValue(c, st, s).Some? {
      var k := TipIsTouched(c, h, st, s);
      TouchedIsHeld(h, |h|, k, s);
    }
    hide Touches, Replay, Mined, IsCodec, TipValue, ImageOf;
  }

  // ---------------------------------------------------------------------------------------
  // Reading a file back.

  /** A tip shows what a file's table asks for: its parts as they are, and of what is not in the file -- or is an
      empty gap there -- no bytes.  Anchors of entities that are gone, and nested entities, may be what they like. */
  predicate Shows(v: Option<Version>, t: Table, s: Sym) {
    if s in t && !s.Nested? && !IsEmptyGap(t, s) then v == Some(t[s].version)
    else s.Nested? || s.Anchor? || !IsLeft(v) || (s.Residue? && v == Some(Content([])))
  }

  ghost predicate ShowsFile(c: Codec, st: Store, t: Table) {
    forall s :: Shows(TipValue(c, st, s), t, s)
  }

  /** The same of a live set. */
  ghost predicate Keeps(live: Fold.LiveSet, t: Table, s: Sym) {
    if s in t && !s.Nested? && !IsEmptyGap(t, s) then s in live && live[s] == t[s].image
    else s.Nested? || s.Anchor? || s !in live || (s.Residue? && live[s] == Data([]))
  }

  lemma ShownIsKept(c: Codec, h: Timeline, st: Store, t: Table, s: Sym)
    requires IsCodec(c) && Mined(c, h, st) && Coherent(t) && Shows(TipValue(c, st, s), t, s)
    ensures Keeps(FrontierLive(c, h, st), t, s)
  {
    LiveByTip(c, h, st, s);
    hide FrontierLive, Mined, Coherent, IsCodec, TipValue;
    if s in t { CoherentImage(t, s); }
  }

  lemma KeepsParts(tier: Tier, f: Snapshot, live: Fold.LiveSet)
    requires WellFormed(f) && RepOf(tier, f) == ByParts && forall s :: Keeps(live, TableOf(tier, f), s)
    ensures LaidOut(f.raw, InBytes(f.ents)) && HoldsParts(live, f.raw, f.ents)
  {
    InBytesIsLaidOut(f.raw, f.ents);
    hide *;
    AllKept(live, TableOf(tier, f));
    BytesKept(tier, f, live);
    BytesUnfold(live, f.raw, f.ents);
    var facts := AnchorFacts(InLines(f.ents));
    forall n | n in facts ensures Anchor(n) in live && live[Anchor(n)] == Fact(facts[n]) { KeptFact(tier, f, live, n); }
    AllFacts(live, facts);
    AllParts(live, f.raw, f.ents);
  }

  lemma KeepsAt(live: Fold.LiveSet, t: Table, s: Sym)
    requires forall x :: Keeps(live, t, x)
    ensures Keeps(live, t, s)
  {
  }

  lemma FileIsExtracted(tier: Tier, f: Snapshot)
    requires WellFormed(f) && RepOf(tier, f) == ByParts
    ensures f.Present? && Extracted(f.raw, f.ents) && LaidOut(f.raw, InBytes(f.ents))
    ensures forall e :: e in f.ents ==> e.start <= e.end <= |f.raw|
  {
    InBytesIsLaidOut(f.raw, f.ents);
    hide LaidOut, NamesOf, Distinct, IsNested;
  }

  lemma KeptWhole(tier: Tier, f: Snapshot, live: Fold.LiveSet)
    requires WellFormed(f) && RepOf(tier, f) == ByParts && KeepsBytes(live, TableOf(tier, f))
    ensures Whole !in live
  {
    hide *;
    FileIsExtracted(tier, f);
    PartsTable(tier, f, Whole);
    KeepsByte(live, TableOf(tier, f), Whole);
    NoWholeKept(TableOf(tier, f), live, EntTable(f.raw, f.ents), Segments(f.raw, InBytes(f.ents)),
                AnchorFacts(InLines(f.ents)));
  }

  lemma NoWholeKept(t: Table, live: Fold.LiveSet, ents: Table, segments: map<Option<Name>, Bytes>, facts: Layout.Facts)
    requires MadeOf(t, ents, segments, facts, Whole) && Keeps(live, t, Whole)
    ensures Whole !in live
  {
  }

  lemma KeptName(tier: Tier, f: Snapshot, live: Fold.LiveSet, n: Name)
    requires WellFormed(f) && RepOf(tier, f) == ByParts && KeepsBytes(live, TableOf(tier, f))
    ensures Entity(n) in live <==> IsTopName(f.ents, n)
  {
    hide *;
    FileIsExtracted(tier, f);
    PartsTable(tier, f, Entity(n));
    TopEntities(f.raw, f.ents, n);
    KeepsByte(live, TableOf(tier, f), Entity(n));
    EntityKept(TableOf(tier, f), live, EntTable(f.raw, f.ents), Segments(f.raw, InBytes(f.ents)),
               AnchorFacts(InLines(f.ents)), n);
  }

  lemma EntityKept(t: Table, live: Fold.LiveSet, ents: Table, segments: map<Option<Name>, Bytes>, facts: Layout.Facts,
                   n: Name)
    requires MadeOf(t, ents, segments, facts, Entity(n)) && Keeps(live, t, Entity(n))
    ensures Entity(n) in live <==> Entity(n) in ents
  {
  }

  lemma KeptEnt(tier: Tier, f: Snapshot, live: Fold.LiveSet, e: Ent)
    requires WellFormed(f) && RepOf(tier, f) == ByParts && KeepsBytes(live, TableOf(tier, f))
    requires e in f.ents && IsTop(e)
    ensures e.start <= e.end <= |f.raw| && EntSym(e) in live && live[EntSym(e)] == Data(EntBytes(f.raw, e))
  {
    hide *;
    FileIsExtracted(tier, f);
    TopIsEntity(f, e);
    EntInTable(tier, f, e);
    KeepsByte(live, TableOf(tier, f), EntSym(e));
    ImageKept(TableOf(tier, f), live, f.raw, e);
  }

  lemma ImageKept(t: Table, live: Fold.LiveSet, raw: Bytes, e: Ent)
    requires e.start <= e.end <= |raw| && EntSym(e).Entity? && EntSym(e) in t && t[EntSym(e)] == EntEntry(raw, e)
    requires Keeps(live, t, EntSym(e))
    ensures EntSym(e) in live && live[EntSym(e)] == Data(EntBytes(raw, e))
  {
    hide EntSym, EntBytes;
  }

  lemma KeptGap(tier: Tier, f: Snapshot, live: Fold.LiveSet, a: Option<Name>)
    requires WellFormed(f) && RepOf(tier, f) == ByParts && KeepsBytes(live, TableOf(tier, f))
    ensures LaidOut(f.raw, InBytes(f.ents)) && GapHeld(live, Segments(f.raw, InBytes(f.ents)), a)
  {
    PartsTable(tier, f, Residue(a));
    KeepsByte(live, TableOf(tier, f), Residue(a));
    hide TableOf, Segments, AnchorFacts, InBytes, InLines, EntTable, Extracted, LaidOut;
    KeptSegment(TableOf(tier, f), live, EntTable(f.raw, f.ents), Segments(f.raw, InBytes(f.ents)),
                AnchorFacts(InLines(f.ents)), a);
  }

  lemma KeptSegment(t: Table, live: Fold.LiveSet, ents: Table, segments: map<Option<Name>, Bytes>, facts: Layout.Facts,
                    a: Option<Name>)
    requires MadeOf(t, ents, segments, facts, Residue(a)) && Keeps(live, t, Residue(a))
    ensures GapHeld(live, segments, a)
  {
  }

  lemma KeptFact(tier: Tier, f: Snapshot, live: Fold.LiveSet, n: Name)
    requires WellFormed(f) && RepOf(tier, f) == ByParts && forall s :: Keeps(live, TableOf(tier, f), s)
    requires n in AnchorFacts(InLines(f.ents))
    ensures Anchor(n) in live && live[Anchor(n)] == Fact(AnchorFacts(InLines(f.ents))[n])
  {
    PartsTable(tier, f, Anchor(n));
    KeepsAt(live, TableOf(tier, f), Anchor(n));
    hide *;
    KeptPredecessor(TableOf(tier, f), live, EntTable(f.raw, f.ents), Segments(f.raw, InBytes(f.ents)),
                    AnchorFacts(InLines(f.ents)), n);
  }

  lemma KeptPredecessor(t: Table, live: Fold.LiveSet, ents: Table, segments: map<Option<Name>, Bytes>,
                        facts: Layout.Facts, n: Name)
    requires MadeOf(t, ents, segments, facts, Anchor(n)) && Keeps(live, t, Anchor(n)) && n in facts
    ensures Anchor(n) in live && live[Anchor(n)] == Fact(facts[n])
  {
  }

  /** The path's last file. */
  ghost predicate EndsWith(tier: Tier, hc: Commits, f: Snapshot) {
    ValidHistory(hc) && hc != [] && hc[|hc| - 1].file == f && f.Present? && !tier.IgnoredTier?
  }

  lemma EndsAt(tier: Tier, hc: Commits, f: Snapshot)
    requires EndsWith(tier, hc, f)
    ensures ValidHistory(hc) && hc != [] && hc[|hc| - 1].file == f && f.Present? && !tier.IgnoredTier?
    ensures |TimelineOf(tier, hc)| == |hc|
  {
    hide ValidHistory, TimelineOf;
  }

  /** The round trip through the store: when the tips of the frontier show the file, folding them gives its bytes
      back -- in document order where no line hides a swap. */
  lemma FrontierFoldsBack(c: Codec, tier: Tier, hc: Commits, f: Snapshot, st: Store)
    requires IsCodec(c) && EndsWith(tier, hc, f) && Mined(c, TimelineOf(tier, hc), st)
    requires WellFormed(f) && ShowsFile(c, st, TableOf(tier, f))
    ensures Fold.FoldFile(FrontierLive(c, TimelineOf(tier, hc), st)) ==
            if RepOf(tier, f) == WholeFile then f.raw else BytesInLineOrder(f.raw, f.ents)
    ensures (RepOf(tier, f) == WholeFile || SameLineInOrder(f.ents)) ==>
              Fold.FoldFile(FrontierLive(c, TimelineOf(tier, hc), st)) == f.raw
  {
    var live, t := FrontierLive(c, TimelineOf(tier, hc), st), TableOf(tier, f);
    TablesAreCoherent(tier, f);
    RepIs(tier, f);
    hide *;
    forall s ensures Keeps(live, t, s) {
      ShowsAt(c, st, t, s);
      ShownIsKept(c, TimelineOf(tier, hc), st, t, s);
    }
    if RepOf(tier, f) == WholeFile {
      KeptBlob(tier, f, live);
    } else {
      KeepsParts(tier, f, live);
      FoldOfParts(live, f.raw, f.ents);
      LineOrderRestores(f.raw, f.ents);
    }
  }

  lemma RepIs(tier: Tier, f: Snapshot)
    requires WellFormed(f) && f.Present? && !tier.IgnoredTier?
    ensures RepOf(tier, f) == WholeFile || (RepOf(tier, f) == ByParts && Extracted(f.raw, f.ents))
  {
    hide Extracted;
  }

  lemma ShowsAt(c: Codec, st: Store, t: Table, s: Sym)
    requires ShowsFile(c, st, t)
    ensures Shows(TipValue(c, st, s), t, s)
  {
    hide TipValue, Shows;
  }

  lemma KeptBlob(tier: Tier, f: Snapshot, live: Fold.LiveSet)
    requires WellFormed(f) && RepOf(tier, f) == WholeFile && forall s :: Keeps(live, TableOf(tier, f), s)
    ensures Fold.FoldFile(live) == f.raw
  {
    KeepsAt(live, TableOf(tier, f), Whole);
    hide Fold.FileParts, Fold.Join, Keeps;
    assert Keeps(live, TableOf(tier, f), Whole);
    assert TableOf(tier, f) == map[Whole := Entry(Blob(f.raw), Data(f.raw))];
    KeptBytes(TableOf(tier, f), live, f.raw);
  }

  lemma KeptBytes(t: Table, live: Fold.LiveSet, raw: Bytes)
    requires t == map[Whole := Entry(Blob(raw), Data(raw))] && Keeps(live, t, Whole)
    ensures Fold.FoldFile(live) == raw
  {
    hide Fold.FileParts, Fold.Join;
  }

  lemma LineOrderRestores(raw: Bytes, ents: seq<Ent>)
    requires Extracted(raw, ents)
    ensures SameLineInOrder(ents) ==> BytesInLineOrder(raw, ents) == raw
  {
    InBytesIsLaidOut(raw, ents);
    SortsAgree(raw, ents);
    LineNamesAreByteNames(raw, ents);
    PartitionRestoresFile(raw, InBytes(ents));
    hide Extracted, LaidOut, InLines, InBytes, Splice, SameLineInOrder;
  }

  // ---------------------------------------------------------------------------------------
  // Parts: exactly when.

  /** A tip that leaves something leaves what some file of the history had there. */
  lemma TipWasThere(c: Codec, h: Timeline, st: Store, s: Sym) returns (k: nat)
    requires IsCodec(c) && ValidTimeline(h) && Mined(c, h, st) && IsLeft(TipValue(c, st, s))
    ensures k < |h| && Coherent(h[k].table) && s in h[k].table && TipValue(c, st, s) == Some(h[k].table[s].version)
  {
    LeftIs(TipValue(c, st, s));
    hide *;
    k := TipIsTouched(c, h, st, s);
    BeforeIs(h, k, s);
    ValidAt(h, k);
  }

  lemma LeftIs(v: Option<Version>)
    ensures IsLeft(v) <==> v.Some? && !v.value.Bottom?
  {
  }

  /** One symbol's versions are told apart by their images. */
  lemma ImageIsVersion(a: Table, b: Table, s: Sym)
    requires Coherent(a) && Coherent(b) && s in a && s in b
    ensures a[s].image == b[s].image <==> a[s].version == b[s].version
  {
    assert CoherentAt(a, s) && CoherentAt(b, s);
  }

  lemma EmptyGapIs(t: Table, s: Sym)
    requires Coherent(t) && s in t && s.Residue?
    ensures t[s].version == Content([]) <==> t[s].image == Data([])
  {
    assert CoherentAt(t, s);
  }

  lemma KeptIsShown(c: Codec, h: Timeline, st: Store, t: Table, s: Sym)
    requires IsCodec(c) && ValidTimeline(h) && Mined(c, h, st) && Coherent(t) && Keeps(FrontierLive(c, h, st), t, s)
    ensures Shows(TipValue(c, st, s), t, s)
  {
    LiveByTip(c, h, st, s);
    var v := TipValue(c, st, s);
    if IsLeft(v) {
      var k := TipWasThere(c, h, st, s);
      hide FrontierLive, Mined, IsCodec, TipValue, ValidTimeline, Coherent;
      CoherentImage(h[k].table, s);
      if s in t { ImageIsVersion(h[k].table, t, s); }
      if s.Residue? { EmptyGapIs(h[k].table, s); }
    }
    hide FrontierLive, Mined, IsCodec, TipValue, ValidTimeline, Coherent;
  }

  /** What is live has the file's entities, their images and its gaps. */
  ghost predicate HoldsBytes(live: Fold.LiveSet, raw: Bytes, ents: seq<Ent>)
    requires Extracted(raw, ents) && LaidOut(raw, InBytes(ents))
  {
    HoldsNames(live, ents) && HoldsImages(live, raw, ents) && HoldsGaps(live, Segments(raw, InBytes(ents)))
  }

  ghost predicate KeepsBytes(live: Fold.LiveSet, t: Table) {
    forall s: Sym :: !s.Anchor? ==> Keeps(live, t, s)
  }

  lemma KeepsByte(live: Fold.LiveSet, t: Table, s: Sym)
    requires KeepsBytes(live, t) && !s.Anchor?
    ensures Keeps(live, t, s)
  {
    hide Keeps;
  }

  lemma KeepsIsHolds(tier: Tier, f: Snapshot, live: Fold.LiveSet)
    requires WellFormed(f) && RepOf(tier, f) == ByParts
    ensures LaidOut(f.raw, InBytes(f.ents))
    ensures KeepsBytes(live, TableOf(tier, f)) <==> HoldsBytes(live, f.raw, f.ents)
  {
    InBytesIsLaidOut(f.raw, f.ents);
    hide *;
    if KeepsBytes(live, TableOf(tier, f)) {
      BytesKept(tier, f, live);
    }
    if HoldsBytes(live, f.raw, f.ents) {
      forall s: Sym | !s.Anchor? ensures Keeps(live, TableOf(tier, f), s) {
        BytesHeld(tier, f, live, s);
      }
      AllKept(live, TableOf(tier, f));
    }
  }

  lemma AllKept(live: Fold.LiveSet, t: Table)
    requires forall s: Sym :: !s.Anchor? ==> Keeps(live, t, s)
    ensures KeepsBytes(live, t)
  {
    hide Keeps;
  }

  lemma BytesKept(tier: Tier, f: Snapshot, live: Fold.LiveSet)
    requires WellFormed(f) && RepOf(tier, f) == ByParts && KeepsBytes(live, TableOf(tier, f))
    ensures LaidOut(f.raw, InBytes(f.ents)) && HoldsBytes(live, f.raw, f.ents)
  {
    InBytesIsLaidOut(f.raw, f.ents);
    hide *;
    forall n ensures Entity(n) in live <==> IsTopName(f.ents, n) { KeptName(tier, f, live, n); }
    KeptWhole(tier, f, live);
    AllNames(live, f.ents);
    forall e | e in f.ents && IsTop(e)
      ensures e.start <= e.end <= |f.raw| && EntSym(e) in live && live[EntSym(e)] == Data(EntBytes(f.raw, e))
    {
      KeptEnt(tier, f, live, e);
    }
    AllImages(live, f.raw, f.ents);
    forall a: Option<Name> ensures GapHeld(live, Segments(f.raw, InBytes(f.ents)), a) { KeptGap(tier, f, live, a); }
    AllGaps(live, Segments(f.raw, InBytes(f.ents)));
    BytesAre(live, f.raw, f.ents);
  }

  lemma BytesAre(live: Fold.LiveSet, raw: Bytes, ents: seq<Ent>)
    requires Extracted(raw, ents) && LaidOut(raw, InBytes(ents))
    requires HoldsNames(live, ents) && HoldsImages(live, raw, ents) && HoldsGaps(live, Segments(raw, InBytes(ents)))
    ensures HoldsBytes(live, raw, ents)
  {
  }

  lemma BytesHeld(tier: Tier, f: Snapshot, live: Fold.LiveSet, s: Sym)
    requires WellFormed(f) && RepOf(tier, f) == ByParts && LaidOut(f.raw, InBytes(f.ents)) && !s.Anchor?
    requires HoldsBytes(live, f.raw, f.ents)
    ensures Keeps(live, TableOf(tier, f), s)
  {
    hide *;
    FileIsExtracted(tier, f);
    BytesUnfold(live, f.raw, f.ents);
    PartsTable(tier, f, s);
    var t, ents, segments, facts := TableOf(tier, f), EntTable(f.raw, f.ents), Segments(f.raw, InBytes(f.ents)),
                                    AnchorFacts(InLines(f.ents));
    match s
    case Whole => HeldWhole(live, t, ents, segments, facts, f.ents);
    case Residue(a) => HeldSegment(live, t, ents, segments, facts, a);
    case Entity(n) => EntityByName(tier, f, live, n);
    case Nested(n) => NestedIsFree(live, t, n);
  }

  lemma BytesUnfold(live: Fold.LiveSet, raw: Bytes, ents: seq<Ent>)
    requires Extracted(raw, ents) && LaidOut(raw, InBytes(ents)) && HoldsBytes(live, raw, ents)
    ensures HoldsNames(live, ents) && HoldsImages(live, raw, ents) && HoldsGaps(live, Segments(raw, InBytes(ents)))
  {
  }

  lemma HeldWhole(live: Fold.LiveSet, t: Table, e: Table, segments: map<Option<Name>, Bytes>, facts: Layout.Facts,
                  ents: seq<Ent>)
    requires MadeOf(t, e, segments, facts, Whole) && HoldsNames(live, ents)
    ensures Keeps(live, t, Whole)
  {
    hide IsTopName;
  }

  lemma HeldSegment(live: Fold.LiveSet, t: Table, ents: Table, segments: map<Option<Name>, Bytes>, facts: Layout.Facts,
                    a: Option<Name>)
    requires MadeOf(t, ents, segments, facts, Residue(a)) && HoldsGaps(live, segments)
    ensures Keeps(live, t, Residue(a))
  {
    assert GapHeld(live, segments, a);
  }

  lemma NestedIsFree(live: Fold.LiveSet, t: Table, n: Name)
    ensures Keeps(live, t, Nested(n))
  {
  }

  lemma EntityByName(tier: Tier, f: Snapshot, live: Fold.LiveSet, n: Name)
    requires WellFormed(f) && RepOf(tier, f) == ByParts && HoldsNames(live, f.ents) && HoldsImages(live, f.raw, f.ents)
    ensures Keeps(live, TableOf(tier, f), Entity(n))
  {
    PartsTable(tier, f, Entity(n));
    TopEntities(f.raw, f.ents, n);
    hide TableOf, Segments, AnchorFacts, InBytes, InLines, EntTable, LaidOut, Extracted, HoldsImages;
    if IsTopName(f.ents, n) {
      var e :| e in f.ents && IsTop(e) && e.name == n;
      EntInTable(tier, f, e);
      TopIsEntity(f, e);
      ImageOfTop(live, f.raw, f.ents, e);
      hide IsTopName, WellFormed;
    }
  }

  lemma TopIsEntity(f: Snapshot, e: Ent)
    requires WellFormed(f) && f.Present? && e in f.ents && IsTop(e)
    ensures EntSym(e) == Entity(e.name) && EntSym(e).Entity?
  {
    hide Distinct, NamesOf, IsNested;
  }

  lemma ImageOfTop(live: Fold.LiveSet, raw: Bytes, ents: seq<Ent>, e: Ent)
    requires HoldsImages(live, raw, ents) && e in ents && IsTop(e)
    ensures e.start <= e.end <= |raw| && EntSym(e) in live && live[EntSym(e)] == Data(EntBytes(raw, e))
    ensures EntEntry(raw, e).image == Data(EntBytes(raw, e))
  {
    hide EntSym, EntBytes;
  }

  /** All but the order: the frontier has the file's entities, images and gaps if and only if every tip but an
      anchor's shows what the file's table asks for. */
  lemma HoldsBytesExactlyWhen(c: Codec, tier: Tier, hc: Commits, f: Snapshot, st: Store)
    requires IsCodec(c) && EndsWith(tier, hc, f) && Mined(c, TimelineOf(tier, hc), st)
    requires WellFormed(f) && RepOf(tier, f) == ByParts
    ensures LaidOut(f.raw, InBytes(f.ents))
    ensures HoldsBytes(FrontierLive(c, TimelineOf(tier, hc), st), f.raw, f.ents)
            <==> forall s: Sym :: !s.Anchor? ==> Shows(TipValue(c, st, s), TableOf(tier, f), s)
  {
    hide *;
    EndsAt(tier, hc, f);
    var h, t := TimelineOf(tier, hc), TableOf(tier, f);
    var live := FrontierLive(c, h, st);
    TimelineIsValid(tier, hc);
    TablesAreCoherent(tier, f);
    KeepsIsHolds(tier, f, live);
    if KeepsBytes(live, t) {
      forall s: Sym | !s.Anchor? ensures Shows(TipValue(c, st, s), t, s) {
        KeepsByte(live, t, s);
        KeptIsShown(c, h, st, t, s);
      }
    }
    if forall s: Sym :: !s.Anchor? ==> Shows(TipValue(c, st, s), t, s) {
      forall s: Sym | !s.Anchor? ensures Keeps(live, t, s) {
        ShownIsKept(c, h, st, t, s);
      }
      AllKept(live, t);
    }
  }

  /** And it has its facts too exactly when every tip does: then, and only then, it holds the file's parts. */
  lemma HoldsPartsExactlyWhen(c: Codec, tier: Tier, hc: Commits, f: Snapshot, st: Store)
    requires IsCodec(c) && EndsWith(tier, hc, f) && Mined(c, TimelineOf(tier, hc), st)
    requires WellFormed(f) && RepOf(tier, f) == ByParts
    ensures LaidOut(f.raw, InBytes(f.ents))
    ensures HoldsParts(FrontierLive(c, TimelineOf(tier, hc), st), f.raw, f.ents)
            <==> ShowsFile(c, st, TableOf(tier, f))
  {
    hide *;
    EndsAt(tier, hc, f);
    var h, t := TimelineOf(tier, hc), TableOf(tier, f);
    var live := FrontierLive(c, h, st);
    TimelineIsValid(tier, hc);
    TablesAreCoherent(tier, f);
    FileIsExtracted(tier, f);
    HoldsBytesExactlyWhen(c, tier, hc, f, st);
    if HoldsParts(live, f.raw, f.ents) {
      PartsUnfold(live, f.raw, f.ents);
      BytesAre(live, f.raw, f.ents);
      forall s ensures Shows(TipValue(c, st, s), t, s) {
        if s.Anchor? {
          FactHeld(tier, f, live, s.name);
          KeptIsShown(c, h, st, t, s);
        }
      }
      AllShow(c, st, t);
    }
    if ShowsFile(c, st, t) {
      forall s ensures Keeps(live, t, s) {
        ShowsAt(c, st, t, s);
        ShownIsKept(c, h, st, t, s);
      }
      KeepsParts(tier, f, live);
    }
  }

  lemma PartsUnfold(live: Fold.LiveSet, raw: Bytes, ents: seq<Ent>)
    requires Extracted(raw, ents) && LaidOut(raw, InBytes(ents)) && HoldsParts(live, raw, ents)
    ensures HoldsNames(live, ents) && HoldsImages(live, raw, ents) && HoldsGaps(live, Segments(raw, InBytes(ents)))
    ensures HoldsFacts(live, AnchorFacts(InLines(ents)))
  {
  }

  lemma FactHeld(tier: Tier, f: Snapshot, live: Fold.LiveSet, n: Name)
    requires WellFormed(f) && RepOf(tier, f) == ByParts && HoldsFacts(live, AnchorFacts(InLines(f.ents)))
    ensures Keeps(live, TableOf(tier, f), Anchor(n))
  {
    PartsTable(tier, f, Anchor(n));
    hide *;
    FactByName(TableOf(tier, f), live, EntTable(f.raw, f.ents), Segments(f.raw, InBytes(f.ents)),
               AnchorFacts(InLines(f.ents)), n);
  }

  lemma FactByName(t: Table, live: Fold.LiveSet, ents: Table, segments: map<Option<Name>, Bytes>, facts: Layout.Facts,
                   n: Name)
    requires MadeOf(t, ents, segments, facts, Anchor(n)) && HoldsFacts(live, facts)
    ensures Keeps(live, t, Anchor(n))
  {
  }

  // ---------------------------------------------------------------------------------------
  // What the tips do show.

  /** A symbol in ops of its own: its touches, followed from birth. */
  lemma AloneTip(c: Codec, h: Timeline, st: Store, s: Sym)
    requires IsCodec(c) && Mined(c, h, st) && Alone(c, st, s)
    ensures TipValue(c, st, s) == Follow(AllHops(h, s), None, {})
  {
    hide *;
    FrontierFollowsMined(c, h, st, s);
    TipValueIs(c, st, s, Follow(AllHops(h, s), None, {}));
  }

  /** The version a symbol's touches lead to: followed from birth when it is in ops of its own, else what replaying
      gives up to the first op that is lost or occurred before. */
  ghost predicate LeadsTo(c: Codec, h: Timeline, st: Store, s: Sym, v: Option<Version>) {
    || (Alone(c, st, s) && v == Follow(AllHops(h, s), None, {}))
    || (AllLinkedAt(h, s) && exists k: nat :: StopsAt(h, st, s, k) && v == ReplayedVersion(h, k, s))
  }

  ghost predicate StopsAt(h: Timeline, st: Store, s: Sym, k: nat) {
    && k <= |h| && st.held <= st.ops.Keys && FirstStop(h, st, k, s)
    && (k < |h| ==> k < |st.made| && s in st.made[k] && st.made[k][s] in Bottoming(st))
  }

  lemma LeadsIsTip(c: Codec, h: Timeline, st: Store, s: Sym, v: Option<Version>)
    requires IsCodec(c) && Mined(c, h, st) && LeadsTo(c, h, st, s, v)
    ensures TipValue(c, st, s) == v
  {
    if Alone(c, st, s) && v == Follow(AllHops(h, s), None, {}) {
      hide *;
      AloneTip(c, h, st, s);
    } else {
      var k: nat :| StopsAt(h, st, s, k) && v == ReplayedVersion(h, k, s);
      hide *;
      StopsThere(c, h, st, s, k);
    }
  }

  lemma StopsThere(c: Codec, h: Timeline, st: Store, s: Sym, k: nat)
    requires IsCodec(c) && Mined(c, h, st) && AllLinkedAt(h, s) && StopsAt(h, st, s, k)
    ensures k <= |h| && TipValue(c, st, s) == ReplayedVersion(h, k, s)
  {
    FrontierStopsAtFirstLost(c, h, st, k, s);
    hide *;
    TipValueIs(c, st, s, ReplayedVersion(h, k, s));
  }

  /** What the symbol's touches lead to shows what the file's table asks for. */
  ghost predicate LeadsHome(c: Codec, h: Timeline, st: Store, t: Table, s: Sym) {
    exists v :: LeadsTo(c, h, st, s, v) && Shows(v, t, s)
  }

  /** The round trip in terms of what was mined: where what every symbol's touches lead to shows the file, the store
      reads back as committed. */
  lemma MinedFoldsBack(c: Codec, tier: Tier, hc: Commits, f: Snapshot, st: Store)
    requires IsCodec(c) && EndsWith(tier, hc, f) && Mined(c, TimelineOf(tier, hc), st) && WellFormed(f)
    requires forall s :: LeadsHome(c, TimelineOf(tier, hc), st, TableOf(tier, f), s)
    requires RepOf(tier, f) == WholeFile || SameLineInOrder(f.ents)
    ensures Fold.FoldFile(FrontierLive(c, TimelineOf(tier, hc), st)) == f.raw
  {
    hide *;
    EndsAt(tier, hc, f);
    var h, t := TimelineOf(tier, hc), TableOf(tier, f);
    forall s ensures Shows(TipValue(c, st, s), t, s) {
      LeadsHomeShows(c, h, st, t, s);
    }
    AllShow(c, st, t);
    FrontierFoldsBack(c, tier, hc, f, st);
  }

  lemma LeadsHomeShows(c: Codec, h: Timeline, st: Store, t: Table, s: Sym)
    requires IsCodec(c) && Mined(c, h, st) && LeadsHome(c, h, st, t, s)
    ensures Shows(TipValue(c, st, s), t, s)
  {
    var v :| LeadsTo(c, h, st, s, v) && Shows(v, t, s);
    hide *;
    LeadsIsTip(c, h, st, s, v);
  }

  lemma AllShow(c: Codec, st: Store, t: Table)
    requires forall s :: Shows(TipValue(c, st, s), t, s)
    ensures ShowsFile(c, st, t)
  {
    hide TipValue, Shows;
  }

  /** The same left, or nothing by either. */
  predicate SameLeft(a: Option<Version>, b: Option<Version>) {
    IsLeft(a) || IsLeft(b) ==> a == b
  }

  /** The state has what some file had there. */
  lemma StateWasThere(h: Timeline, s: Sym) returns (k: nat)
    requires ValidTimeline(h) && IsLeft(ReplayedVersion(h, |h|, s))
    ensures k < |h| && Coherent(h[k].table) && s in h[k].table
    ensures ReplayedVersion(h, |h|, s) == Some(h[k].table[s].version)
  {
    LeftIs(ReplayedVersion(h, |h|, s));
    hide *;
    k := VersionIsMade(h, |h|, s);
    BeforeIs(h, k, s);
    ValidAt(h, k);
  }

  lemma SameImages(c: Codec, h: Timeline, st: Store, s: Sym)
    requires IsCodec(c) && ValidTimeline(h) && Mined(c, h, st)
    requires IsLeft(TipValue(c, st, s)) && IsLeft(ReplayedVersion(h, |h|, s))
    ensures ImageOf(TipValue(c, st, s).value) == ImageOf(ReplayedVersion(h, |h|, s).value)
            <==> TipValue(c, st, s) == ReplayedVersion(h, |h|, s)
  {
    hide *;
    LeftIs(TipValue(c, st, s));
    LeftIs(ReplayedVersion(h, |h|, s));
    var i := TipWasThere(c, h, st, s);
    var k := StateWasThere(h, s);
    CoherentImage(h[i].table, s);
    CoherentImage(h[k].table, s);
    ImageIsVersion(h[i].table, h[k].table, s);
  }

  lemma LiveAlikeAt(c: Codec, h: Timeline, st: Store, s: Sym)
    requires IsCodec(c) && ValidTimeline(h) && Mined(c, h, st)
    ensures var live, replayed := FrontierLive(c, h, st), LiveOf(Replay(h, |h|));
            SameLeft(TipValue(c, st, s), ReplayedVersion(h, |h|, s))
            <==> (s in live <==> s in replayed) && (s in live && s in replayed ==> live[s] == replayed[s])
  {
    LiveByTip(c, h, st, s);
    LiveByReplay(h, s);
    if IsLeft(TipValue(c, st, s)) && IsLeft(ReplayedVersion(h, |h|, s)) { SameImages(c, h, st, s); }
    hide Replay, FrontierLive, LiveOf, TipValue, Mined, IsCodec, ValidTimeline, ReplayedVersion, ImageOf;
  }

  /** Reading back from any store gives what replaying gives, live symbol by live symbol, if and only if of every
      symbol the frontier and the last writer leave the same, or both nothing. */
  lemma FrontierIsReplayExactlyWhen(c: Codec, h: Timeline, st: Store)
    requires IsCodec(c) && ValidTimeline(h) && Mined(c, h, st)
    ensures FrontierLive(c, h, st) == LiveOf(Replay(h, |h|))
            <==> forall s :: SameLeft(TipValue(c, st, s), ReplayedVersion(h, |h|, s))
  {
    hide *;
    var live, replayed := FrontierLive(c, h, st), LiveOf(Replay(h, |h|));
    forall s
      ensures SameLeft(TipValue(c, st, s), ReplayedVersion(h, |h|, s))
              <==> (s in live <==> s in replayed) && (s in live && s in replayed ==> live[s] == replayed[s])
    {
      LiveAlikeAt(c, h, st, s);
    }
    if forall s :: SameLeft(TipValue(c, st, s), ReplayedVersion(h, |h|, s)) { SameMap(live, replayed); }
  }

  /** As in a history in which every touch is linked and no symbol is changed twice from one version. */
  lemma LinkedOnceIsReplay(c: Codec, h: Timeline, cuts: seq<Cut>, s: Sym)
    requires IsCodec(c) && ValidTimeline(h) && AreCuts(h, cuts) && AllLinked(h) && NoStepTwice(h)
    ensures TipValue(c, PathStore(c, h, cuts), s) == ReplayedVersion(h, |h|, s)
  {
    hide *;
    var st := PathStore(c, h, cuts);
    PathIsMined(c, h, cuts);
    OncePasses(c, h, cuts, s);
    LinkedSymbol(h, s);
    FrontierStopsAtFirstLost(c, h, st, |h|, s);
    TipValueIs(c, st, s, ReplayedVersion(h, |h|, s));
  }

  lemma SameMap<K(!new), V>(a: map<K, V>, b: map<K, V>)
    requires forall x :: (x in a <==> x in b) && (x in a ==> a[x] == b[x])
    ensures a == b
  {
    assert a.Keys == b.Keys;
  }

  lemma LiveByReplay(h: Timeline, s: Sym)
    requires ValidTimeline(h)
    ensures s in LiveOf(Replay(h, |h|)) <==> IsLeft(ReplayedVersion(h, |h|, s))
    ensures s in LiveOf(Replay(h, |h|)) ==> LiveOf(Replay(h, |h|))[s] == ImageOf(ReplayedVersion(h, |h|, s).value)
  {
    if s in Replay(h, |h|) { StateImage(h, |h|, s); }
    hide Replay, ValidTimeline, ImageOf;
  }

  /** The state's images are those of its versions. */
  lemma {:induction false} StateImage(h: Timeline, k: nat, s: Sym)
    requires ValidTimeline(h) && k <= |h| && s in Replay(h, k)
    ensures Replay(h, k)[s].image == ImageOf(Replay(h, k)[s].version)
    decreases k
  {
    if k == 0 { NothingYet(h); }
    hide *;
    ReplayUnfolds(h, k - 1);
    if s in Touches(h, k - 1) {
      TouchImage(h, k - 1, s);
    } else {
      StateImage(h, k - 1, s);
    }
  }

  lemma TouchImage(h: Timeline, k: nat, s: Sym)
    requires ValidTimeline(h) && k < |h| && s in Touches(h, k)
    ensures Touches(h, k)[s].image == ImageOf(Touches(h, k)[s].after)
  {
    ValidAt(h, k);
    hide ValidTimeline, Coherent, LastClosing, IsTouched;
    if s in h[k].table { CoherentImage(h[k].table, s); }
  }

  /** Wherever that is so the round trip goes through the store. */
  lemma RoundTripThroughStore(c: Codec, tier: Tier, hc: Commits, f: Snapshot, st: Store)
    requires IsCodec(c) && EndsWith(tier, hc, f) && Mined(c, TimelineOf(tier, hc), st)
    requires var h := TimelineOf(tier, hc);
             forall s :: SameLeft(TipValue(c, st, s), ReplayedVersion(h, |h|, s))
    requires RepOf(tier, f) == WholeFile || SameLineInOrder(f.ents)
    ensures Fold.FoldFile(FrontierLive(c, TimelineOf(tier, hc), st)) == f.raw
  {
    hide *;
    EndsAt(tier, hc, f);
    TimelineIsValid(tier, hc);
    StateIsReplay(tier, hc, |hc|);
    FrontierIsReplayExactlyWhen(c, TimelineOf(tier, hc), st);
    RoundTrip(tier, hc, |hc| - 1);
  }

  // ---------------------------------------------------------------------------------------
  // Anchors: exactly when they are lost.

  /** The commit puts the symbol into the file. */
  ghost predicate Enters(h: Timeline, k: nat, s: Sym) {
    k < |h| && s !in Prior(h, k) && s in h[k].table
  }

  ghost predicate EntersAs(h: Timeline, k: nat, s: Sym, w: Version) {
    Enters(h, k, s) && h[k].table[s].version == w
  }

  /** A fact is never chained onto its removal, so every entry is a birth. */
  lemma EntersIsBirth(h: Timeline, k: nat, s: Sym)
    requires ValidTimeline(h) && k < |h| && s.Anchor?
    ensures Enters(h, k, s) <==> s in Touches(h, k) && Touches(h, k)[s].before == None
    ensures Enters(h, k, s) ==> Touches(h, k)[s].after == h[k].table[s].version
  {
    ValidAt(h, k);
    if s in Touches(h, k) { BeforeIs(h, k, s); }
    hide ValidTimeline, Coherent, LastClosing;
  }

  lemma BirthHops(h: Timeline, s: Sym, w: Version)
    requires ValidTimeline(h) && s.Anchor?
    ensures Hop(None, w) in AllHops(h, s) <==> exists k: nat :: EntersAs(h, k, s, w)
  {
    hide *;
    if Hop(None, w) in AllHops(h, s) {
      var k := HopFrom(h, s, Hop(None, w));
      EntersIsBirth(h, k, s);
      HopIs(Touches(h, k)[s], None, w);
      PriorIs(h, k + 1);
      EntersNow(h, k, s, w);
    }
    if k: nat :| EntersAs(h, k, s, w) {
      EntersWhere(h, k, s, w);
      EntersIsBirth(h, k, s);
      HopIs(Touches(h, k)[s], None, w);
      HopsAt(h, s, k);
    }
  }

  lemma HopIs(t: Touch, v: Option<Version>, w: Version)
    ensures HopOf(t) == Hop(v, w) <==> t.before == v && t.after == w
  {
  }

  lemma EntersWhere(h: Timeline, k: nat, s: Sym, w: Version)
    requires EntersAs(h, k, s, w)
    ensures k < |h| && Enters(h, k, s) && s in h[k].table && h[k].table[s].version == w
  {
  }

  lemma EntersNow(h: Timeline, k: nat, s: Sym, w: Version)
    requires Enters(h, k, s) && (s in Prior(h, k + 1) ==> Prior(h, k + 1)[s].version == w)
    ensures EntersAs(h, k, s, w)
  {
  }

  lemma {:induction false} FollowStays(hops: set<Hop>, v: Option<Version>, seen: set<Option<Version>>)
    requires v.Some?
    ensures Follow(hops, v, seen).Some?
    decreases |Befores(hops) - seen|
  {
    hide *;
    if v !in seen && exists w :: OnlyWay(hops, v, w) {
      var w :| OnlyWay(hops, v, w);
      Follows(hops, v, w, seen);
      FollowStays(hops, Some(w), seen + {v});
    } else {
      FollowEnds(hops, v, seen);
    }
  }

  lemma FollowStarts(hops: set<Hop>)
    ensures Follow(hops, None, {}).Some? <==> exists w :: OnlyWay(hops, None, w)
  {
    hide *;
    if w :| OnlyWay(hops, None, w) {
      Follows(hops, None, w, {});
      FollowStays(hops, Some(w), {} + {None});
    } else {
      FollowEnds(hops, None, {});
    }
  }

  /** An anchor has a tip if and only if its entity came into the file, and every time behind the same one.  An
      entity put back elsewhere loses its place: its births clash, and both are dropped. */
  lemma AnchorSurvivesExactlyWhen(c: Codec, h: Timeline, st: Store, s: Sym)
    requires IsCodec(c) && ValidTimeline(h) && Mined(c, h, st) && Alone(c, st, s) && s.Anchor?
    ensures TipValue(c, st, s).Some? <==>
            && (exists k: nat, w :: EntersAs(h, k, s, w))
            && (forall i: nat, k: nat, v, w :: EntersAs(h, i, s, v) && EntersAs(h, k, s, w) ==> v == w)
  {
    var hops := AllHops(h, s);
    hide *;
    AloneTip(c, h, st, s);
    FollowStarts(hops);
    forall w ensures Hop(None, w) in hops <==> exists k: nat :: EntersAs(h, k, s, w) {
      BirthHops(h, s, w);
    }
    BirthsAgree(h, s, hops);
  }

  lemma BirthsAgree(h: Timeline, s: Sym, hops: set<Hop>)
    requires forall w :: Hop(None, w) in hops <==> exists k: nat :: EntersAs(h, k, s, w)
    ensures (exists w :: OnlyWay(hops, None, w)) <==>
            && (exists k: nat, w :: EntersAs(h, k, s, w))
            && (forall i: nat, k: nat, v, w :: EntersAs(h, i, s, v) && EntersAs(h, k, s, w) ==> v == w)
  {
    hide EntersAs;
    if w :| OnlyWay(hops, None, w) {
      assert Hop(None, w) in hops;
      forall i: nat, v | EntersAs(h, i, s, v) ensures v == w { assert Hop(None, v) in hops; }
    } else if k: nat, w :| EntersAs(h, k, s, w) {
      assert Hop(None, w) in hops && !OnlyWay(hops, None, w);
      var x :| Hop(None, x) in hops && x != w;
      var i: nat :| EntersAs(h, i, s, x);
    }
  }

  // ---------------------------------------------------------------------------------------
  // Opaque files: exactly when.

  lemma OpaqueTable(hc: Commits, k: nat)
    requires ValidHistory(hc) && k < |hc|
    ensures TimelineOf(OpaqueTier, hc)[k].table ==
            if hc[k].file.Present? then map[Whole := Entry(Blob(hc[k].file.raw), Data(hc[k].file.raw))] else map[]
  {
    hide ValidHistory;
  }

  lemma PriorIs(h: Timeline, k: nat)
    requires k <= |h|
    ensures Prior(h, k) == if k == 0 then map[] else h[k - 1].table
  {
  }

  lemma OpaqueTouch(hc: Commits, k: nat, s: Sym)
    requires ValidHistory(hc) && k < |hc| && s in Touches(TimelineOf(OpaqueTier, hc), k)
    ensures s == Whole
    ensures var v := Touches(TimelineOf(OpaqueTier, hc), k)[s].after;
            v.Blob? || v.Bottom?
  {
    var h := TimelineOf(OpaqueTier, hc);
    hide *;
    BeforeIs(h, k, s);
    OpaqueTable(hc, k);
    PriorIs(h, k);
    if k > 0 { OpaqueTable(hc, k - 1); }
  }

  /** All that is live of an opaque path is the whole file, as its touches lead to it. */
  lemma OpaqueLive(c: Codec, hc: Commits, st: Store)
    requires IsCodec(c) && ValidHistory(hc) && Mined(c, TimelineOf(OpaqueTier, hc), st) && Alone(c, st, Whole)
    ensures var h := TimelineOf(OpaqueTier, hc);
            var v, live := Follow(AllHops(h, Whole), None, {}), FrontierLive(c, h, st);
            && (v.Some? ==> v.value.Blob? || v.value.Bottom?) && (forall s :: s in live ==> s == Whole)
            && (Whole in live <==> IsLeft(v)) && (Whole in live ==> live[Whole] == ImageOf(v.value))
  {
    var h := TimelineOf(OpaqueTier, hc);
    hide *;
    var live, v := FrontierLive(c, h, st), Follow(AllHops(h, Whole), None, {});
    AloneTip(c, h, st, Whole);
    LiveByTip(c, h, st, Whole);
    LeftIs(v);
    if v.Some? {
      var k := TipIsTouched(c, h, st, Whole);
      OpaqueTouch(hc, k, Whole);
    }
    forall s | s in live ensures s == Whole {
      LiveByTip(c, h, st, s);
      LeftIs(TipValue(c, st, s));
      var k := TipIsTouched(c, h, st, s);
      OpaqueTouch(hc, k, s);
    }
  }

  /** An opaque file reads back as the bytes its touches lead to. */
  lemma OpaqueFold(c: Codec, hc: Commits, st: Store)
    requires IsCodec(c) && ValidHistory(hc) && Mined(c, TimelineOf(OpaqueTier, hc), st) && Alone(c, st, Whole)
    ensures var h := TimelineOf(OpaqueTier, hc);
            var v := Follow(AllHops(h, Whole), None, {});
            && (IsLeft(v) ==> v.value.Blob?)
            && Fold.FoldFile(FrontierLive(c, h, st)) == if IsLeft(v) then v.value.data else []
  {
    hide *;
    OpaqueLive(c, hc, st);
    OnlyWholeFolds(FrontierLive(c, TimelineOf(OpaqueTier, hc), st),
                   Follow(AllHops(TimelineOf(OpaqueTier, hc), Whole), None, {}));
  }

  /** Whether or not the last commit has it, an opaque path materializes if and only if its touches, followed from
      birth, lead to something. */
  lemma OpaqueMaterializesExactlyWhen(c: Codec, hc: Commits, st: Store)
    requires IsCodec(c) && ValidHistory(hc) && Mined(c, TimelineOf(OpaqueTier, hc), st) && Alone(c, st, Whole)
    ensures var h := TimelineOf(OpaqueTier, hc);
            Materializes(FrontierLive(c, h, st)) <==> IsLeft(Follow(AllHops(h, Whole), None, {}))
  {
    hide *;
    OpaqueLive(c, hc, st);
    OnlyWholeMaterializes(FrontierLive(c, TimelineOf(OpaqueTier, hc), st));
  }

  lemma OnlyWholeMaterializes(live: Fold.LiveSet)
    requires forall s :: s in live ==> s == Whole
    ensures Materializes(live) <==> Whole in live
  {
    assert ContentBearing(Whole);
  }

  lemma OnlyWholeFolds(live: Fold.LiveSet, v: Option<Version>)
    requires forall s :: s in live ==> s == Whole
    requires Whole in live <==> IsLeft(v)
    requires Whole in live ==> live[Whole] == ImageOf(v.value)
    requires v.Some? ==> v.value.Blob? || v.value.Bottom?
    ensures IsLeft(v) ==> v.value.Blob?
    ensures Fold.FoldFile(live) == if IsLeft(v) then v.value.data else []
  {
    hide Fold.FileParts, Fold.Join;
    if !IsLeft(v) {
      hide Fold.FoldFile;
      NothingToFold(live);
    }
  }

  /** An opaque file reads back as committed if and only if its touches, followed from birth, lead to those
      bytes -- or the file is empty and they lead nowhere. */
  lemma OpaqueFoldsBackExactlyWhen(c: Codec, hc: Commits, f: Snapshot, st: Store)
    requires IsCodec(c) && EndsWith(OpaqueTier, hc, f) && Mined(c, TimelineOf(OpaqueTier, hc), st)
             && Alone(c, st, Whole)
    ensures var h := TimelineOf(OpaqueTier, hc);
            var v := Follow(AllHops(h, Whole), None, {});
            Fold.FoldFile(FrontierLive(c, h, st)) == f.raw <==> v == Some(Blob(f.raw)) || (f.raw == [] && !IsLeft(v))
  {
    assert ValidHistory(hc);
    hide *;
    OpaqueFold(c, hc, st);
    BlobOf(Follow(AllHops(TimelineOf(OpaqueTier, hc), Whole), None, {}), f.raw);
  }

  lemma BlobOf(v: Option<Version>, raw: Bytes)
    requires IsLeft(v) ==> v.value.Blob?
    ensures (if IsLeft(v) then v.value.data else []) == raw <==> v == Some(Blob(raw)) || (raw == [] && !IsLeft(v))
  {
  }
}
