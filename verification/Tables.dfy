/** The symbol table of a file: what mining would have to leave live so that the fold gives
    the file back (`sgt/core/mine.py`, `_residue_segments`, `_top_level_anchor_facts`,
    `_entity_bytes`). */
module Tables {
  import opened Names
  import opened Symbols
  import opened Snapshots
  import Layout

  type Table = map<Sym, Entry>

  // ---------------------------------------------------------------------------------------
  // Residue: the byte partition.

  function EntBytes(raw: Bytes, e: Ent): Bytes
    requires e.start <= e.end <= |raw|
  {
    raw[e.start..e.end]
  }

  function HeadGap(raw: Bytes, doc: seq<Ent>): Bytes
    requires LaidOut(raw, doc)
  {
    if doc == [] then raw else raw[..doc[0].start]
  }

  function GapAfter(raw: Bytes, doc: seq<Ent>, i: nat): Bytes
    requires LaidOut(raw, doc) && i < |doc|
  {
    raw[doc[i].end..if i + 1 < |doc| then doc[i + 1].start else |raw|]
  }

  function IndexOf(names: seq<Name>, n: Name): (i: nat)
    requires n in names
    ensures i < |names| && names[i] == n
  {
    if names[0] == n then 0 else 1 + IndexOf(names[1..], n)
  }

  lemma IndexIs(names: seq<Name>, i: nat)
    requires Distinct(names) && i < |names|
    ensures IndexOf(names, names[i]) == i
  {
  }

  /** The head gap and the gaps behind the first `i` entities, keyed by the preceding name. */
  function SegmentsUpTo(raw: Bytes, doc: seq<Ent>, i: nat): map<Option<Name>, Bytes>
    requires LaidOut(raw, doc) && i <= |doc|
  {
    if i == 0 then map[None := HeadGap(raw, doc)]
    else SegmentsUpTo(raw, doc, i - 1)[Some(doc[i - 1].name) := GapAfter(raw, doc, i - 1)]
  }

  function Segments(raw: Bytes, doc: seq<Ent>): map<Option<Name>, Bytes>
    requires LaidOut(raw, doc)
  {
    SegmentsUpTo(raw, doc, |doc|)
  }

  lemma {:induction false} SegmentKeys(raw: Bytes, doc: seq<Ent>, i: nat)
    requires LaidOut(raw, doc) && i <= |doc|
    ensures forall a :: a in SegmentsUpTo(raw, doc, i) <==> a == None || (a.Some? && NamedBefore(doc, i, a.value))
    ensures SegmentsUpTo(raw, doc, i)[None] == HeadGap(raw, doc)
  {
    hide GapAfter, HeadGap, LaidOut, NamedBefore;
    if i == 0 {
      NoneBefore(doc);
    } else {
      SegmentKeys(raw, doc, i - 1);
      NamedMore(doc, i);
    }
  }

  lemma NoneBefore(doc: seq<Ent>)
    ensures forall n :: !NamedBefore(doc, 0, n)
  {
  }

  lemma NamedMore(doc: seq<Ent>, i: nat)
    requires 0 < i <= |doc|
    ensures forall n :: NamedBefore(doc, i, n) <==> NamedBefore(doc, i - 1, n) || doc[i - 1].name == n
  {
  }

  /** `n` names one of the first `i` entities. */
  ghost predicate NamedBefore(doc: seq<Ent>, i: nat, n: Name)
    requires i <= |doc|
  {
    exists k :: 0 <= k < i && doc[k].name == n
  }

  lemma {:induction false} SegmentAt(raw: Bytes, doc: seq<Ent>, i: nat, k: nat)
    requires LaidOut(raw, doc) && k < i <= |doc|
    ensures Some(doc[k].name) in SegmentsUpTo(raw, doc, i)
    ensures SegmentsUpTo(raw, doc, i)[Some(doc[k].name)] == GapAfter(raw, doc, k)
  {
    if k < i - 1 {
      SegmentAt(raw, doc, i - 1, k);
      assert NamesOf(doc)[k] != NamesOf(doc)[i - 1];
    }
  }

  lemma SegmentsMore(raw: Bytes, doc: seq<Ent>, i: nat)
    requires LaidOut(raw, doc) && i < |doc|
    ensures var e, end := doc[i], if i + 1 < |doc| then doc[i + 1].start else |raw|;
            e.end <= end <= |raw| && SegmentsUpTo(raw, doc, i + 1)
            == SegmentsUpTo(raw, doc, i)[Some(e.name) := raw[e.end..end]]
  {
    assert doc[i].start < doc[i].end;
    hide NamesOf, Distinct, HeadGap;
  }

  /** `_residue_segments`: one pass over the sorted entities. */
  method ResidueSegments(raw: Bytes, ents: seq<Ent>) returns (segments: map<Option<Name>, Bytes>)
    requires Extracted(raw, ents)
    ensures LaidOut(raw, InBytes(ents)) && segments == Segments(raw, InBytes(ents))
  {
    var doc := InBytes(ents);
    InBytesIsLaidOut(raw, ents);
    if doc == [] {
      return map[None := raw];
    }
    segments := map[None := raw[..doc[0].start]];
    assert segments == SegmentsUpTo(raw, doc, 0);
    assert SegmentsUpTo(raw, doc, |doc|) == Segments(raw, doc);
    hide *;
    var i := 0;
    while i < |doc|
      invariant 0 <= i <= |doc|
      invariant segments == SegmentsUpTo(raw, doc, i)
    {
      var e := doc[i];
      var end := if i + 1 < |doc| then doc[i + 1].start else |raw|;
      SegmentsMore(raw, doc, i);
      segments := segments[Some(e.name) := raw[e.end..end]];
      i := i + 1;
    }
  }

  /** The name before the `k`-th. */
  function NameBefore(lines: seq<Ent>, k: nat): Option<Name>
    requires k < |lines|
  {
    if k == 0 then None else Some(lines[k - 1].name)
  }

  function FactsUpTo(lines: seq<Ent>, i: nat): Layout.Facts
    requires i <= |lines|
  {
    if i == 0 then map[] else FactsUpTo(lines, i - 1)[lines[i - 1].name := NameBefore(lines, i - 1)]
  }

  /** Who precedes me, along a line order. */
  function AnchorFacts(lines: seq<Ent>): Layout.Facts {
    FactsUpTo(lines, |lines|)
  }

  lemma {:induction false} FactKeys(lines: seq<Ent>, i: nat)
    requires i <= |lines|
    ensures forall n :: n in FactsUpTo(lines, i) <==> NamedBefore(lines, i, n)
  {
    if i > 0 {
      FactKeys(lines, i - 1);
      hide NameBefore;
    }
  }

  lemma {:induction false} FactAt(lines: seq<Ent>, i: nat, k: nat)
    requires Distinct(NamesOf(lines)) && k < i <= |lines|
    ensures lines[k].name in FactsUpTo(lines, i) && FactsUpTo(lines, i)[lines[k].name] == NameBefore(lines, k)
  {
    if k < i - 1 {
      FactAt(lines, i - 1, k);
      assert NamesOf(lines)[k] != NamesOf(lines)[i - 1];
    }
  }

  /** `_top_level_anchor_facts`: one pass in line order, remembering the previous name. */
  method TopLevelAnchorFacts(ents: seq<Ent>) returns (facts: Layout.Facts)
    ensures facts == AnchorFacts(InLines(ents))
  {
    var lines := InLines(ents);
    facts := map[];
    var prev: Option<Name> := None;
    var i := 0;
    while i < |lines|
      invariant 0 <= i <= |lines|
      invariant prev == if i == 0 then None else Some(lines[i - 1].name)
      invariant facts == FactsUpTo(lines, i)
    {
      facts := facts[lines[i].name := prev];
      prev := Some(lines[i].name);
      i := i + 1;
    }
  }

  lemma FactsFormChain(lines: seq<Ent>)
    requires Distinct(NamesOf(lines))
    ensures Layout.FactsOf(NamesOf(lines), AnchorFacts(lines))
    ensures forall n :: n in NamesOf(lines) ==> n in AnchorFacts(lines)
  {
    hide FactsUpTo, Distinct;
    forall i | 0 <= i < |lines|
      ensures NamesOf(lines)[i] in AnchorFacts(lines)
      ensures Layout.Predecessor(AnchorFacts(lines), NamesOf(lines)[i]) == Layout.Before(NamesOf(lines), i)
    {
      FactAt(lines, |lines|, i);
    }
  }

  // ---------------------------------------------------------------------------------------
  // The partition gives the file back.

  /** Images and trailing gaps along an order. */
  ghost function Splice(raw: Bytes, doc: seq<Ent>, order: seq<Name>): Bytes
    requires LaidOut(raw, doc) && forall n :: n in order ==> n in NamesOf(doc)
  {
    if order == [] then []
    else
      var i := IndexOf(NamesOf(doc), order[0]);
      EntBytes(raw, doc[i]) + GapAfter(raw, doc, i) + Splice(raw, doc, order[1..])
  }

  lemma SpanAndGap(raw: Bytes, doc: seq<Ent>, i: nat)
    requires LaidOut(raw, doc) && i < |doc|
    ensures EntBytes(raw, doc[i]) + GapAfter(raw, doc, i) + (if i + 1 < |doc| then raw[doc[i + 1].start..] else [])
            == raw[doc[i].start..]
  {
    var next := if i + 1 < |doc| then doc[i + 1].start else |raw|;
    assert raw[doc[i].start..doc[i].end] + raw[doc[i].end..next] == raw[doc[i].start..next];
    assert raw[doc[i].start..next] + raw[next..] == raw[doc[i].start..];
  }

  lemma SpliceStep(raw: Bytes, doc: seq<Ent>, i: nat)
    requires LaidOut(raw, doc) && i < |doc|
    ensures Splice(raw, doc, NamesOf(doc)[i..]) == EntBytes(raw, doc[i]) + GapAfter(raw, doc, i)
            + Splice(raw, doc, NamesOf(doc)[i + 1..])
  {
    var names := NamesOf(doc);
    IndexIs(names, i);
    assert names[i..][0] == names[i] && names[i..][1..] == names[i + 1..];
    hide EntBytes, GapAfter, NamesOf;
  }

  lemma {:induction false} SpliceInOrder(raw: Bytes, doc: seq<Ent>, i: nat)
    requires LaidOut(raw, doc) && i <= |doc|
    ensures Splice(raw, doc, NamesOf(doc)[i..]) == if i < |doc| then raw[doc[i].start..] else []
    decreases |doc| - i
  {
    if i < |doc| {
      SpliceStep(raw, doc, i);
      SpanAndGap(raw, doc, i);
      SpliceInOrder(raw, doc, i + 1);
      hide Splice, EntBytes, GapAfter;
    }
  }

  /** Head gap, then every entity with its trailing gap, in document order: the whole file. */
  lemma PartitionRestoresFile(raw: Bytes, doc: seq<Ent>)
    requires LaidOut(raw, doc)
    ensures HeadGap(raw, doc) + Splice(raw, doc, NamesOf(doc)) == raw
  {
    SpliceInOrder(raw, doc, 0);
    assert NamesOf(doc)[0..] == NamesOf(doc);
    if doc != [] { assert raw[..doc[0].start] + raw[doc[0].start..] == raw; }
  }

  // ---------------------------------------------------------------------------------------
  // Representation and table.

  /** How mining represents a file: not at all, as one whole-file symbol, or by its parts. */
  datatype Rep = NotTracked | WholeFile | ByParts

  predicate Unparseable(s: Snapshot) {
    s.Present? && s.raw != [] && s.ents == [] && s.hasError
  }

  function RepOf(tier: Tier, s: Snapshot): Rep {
    if s.Absent? || tier.IgnoredTier? then NotTracked
    else if tier.OpaqueTier? || Unparseable(s) then WholeFile
    else ByParts
  }

  function EntSym(e: Ent): Sym {
    NameSym(e.name)
  }

  function EntEntry(raw: Bytes, e: Ent): Entry
    requires e.start <= e.end <= |raw|
  {
    Entry(Positional(e.name, EntBytes(raw, e)), Data(EntBytes(raw, e)))
  }

  function EntTable(raw: Bytes, ents: seq<Ent>): Table
    requires forall e :: e in ents ==> e.start <= e.end <= |raw|
  {
    if ents == [] then map[]
    else EntTable(raw, ents[1..])[EntSym(ents[0]) := EntEntry(raw, ents[0])]
  }

  function GapEntry(b: Bytes): Entry { Entry(Content(b), Data(b)) }

  function GapTable(segments: map<Option<Name>, Bytes>): (r: Table)
    ensures forall s :: s in r <==> s.Residue? && s.after in segments
    ensures forall a :: a in segments ==> r[Residue(a)] == GapEntry(segments[a])
  {
    map s | s in (set a | a in segments :: Residue(a)) :: GapEntry(segments[s.after])
  }

  function FactEntry(p: Option<Name>): Entry { Entry(Marker(p), Fact(p)) }

  function FactTable(facts: Layout.Facts): (r: Table)
    ensures forall s :: s in r <==> s.Anchor? && s.name in facts
    ensures forall n :: n in facts ==> r[Anchor(n)] == FactEntry(facts[n])
  {
    map s | s in (set n | n in facts :: Anchor(n)) :: FactEntry(facts[s.name])
  }

  /** A parsed file's entities, gaps and facts. */
  function PartTable(raw: Bytes, ents: seq<Ent>): Table
    requires Extracted(raw, ents)
  {
    InBytesIsLaidOut(raw, ents);
    EntTable(raw, ents) + GapTable(Segments(raw, InBytes(ents))) + FactTable(AnchorFacts(InLines(ents)))
  }

  /** What should be live after a commit that leaves the file as `s`. */
  function TableOf(tier: Tier, s: Snapshot): Table
    requires WellFormed(s)
  {
    match RepOf(tier, s)
    case NotTracked => map[]
    case WholeFile => map[Whole := Entry(Blob(s.raw), Data(s.raw))]
    case ByParts => PartTable(s.raw, s.ents)
  }

  lemma {:induction false} EntTableIs(raw: Bytes, ents: seq<Ent>)
    requires Distinct(NamesOf(ents)) && forall e :: e in ents ==> e.start <= e.end <= |raw|
    ensures forall s :: s in EntTable(raw, ents) <==> exists e :: e in ents && s == EntSym(e)
    ensures forall e :: e in ents
              ==> EntSym(e) in EntTable(raw, ents) && EntTable(raw, ents)[EntSym(e)] == EntEntry(raw, e)
  {
    if ents != [] {
      var e0, rest := ents[0], ents[1..];
      RestNames(ents);
      assert forall e :: e in ents <==> e == e0 || e in rest;
      EntTableIs(raw, rest);
      assert EntTable(raw, ents) == EntTable(raw, rest)[EntSym(e0) := EntEntry(raw, e0)];
      hide EntTable, EntEntry, EntSym;
    }
  }

  lemma RestNames(ents: seq<Ent>)
    requires ents != [] && Distinct(NamesOf(ents))
    ensures Distinct(NamesOf(ents[1..]))
    ensures forall e :: e in ents[1..] ==> EntSym(e) != EntSym(ents[0])
  {
    var rest := ents[1..];
    assert forall i :: 0 <= i < |rest| ==> NamesOf(rest)[i] == NamesOf(ents)[i + 1];
    forall e | e in rest ensures EntSym(e) != EntSym(ents[0]) {
      var i :| 0 <= i < |rest| && rest[i] == e;
      assert NamesOf(ents)[0] != NamesOf(ents)[i + 1];
    }
  }
}
