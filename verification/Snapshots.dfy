/** One file at one commit, as mining sees it (`sgt/core/mine.py`, `sgt/entities/extract.py`):
    the raw bytes with the entities extracted from them, the byte partition they induce, and
    the symbols the file is represented by. */
module Snapshots {
  import opened Names
  import opened Symbols
  import Sorting

  /** An extracted entity: its span in bytes, and the display line it starts on. */
  datatype Ent = Ent(name: Name, container: Option<Name>, start: nat, end: nat, line: nat)

  /** `ents` is in the extractor's order: definitions as walked, then imports. */
  datatype Snapshot = Absent | Present(raw: Bytes, ents: seq<Ent>, hasError: bool)

  datatype Tier = EntityTier | OpaqueTier | IgnoredTier

  predicate IsTop(e: Ent) {
    e.container.None?
  }

  function Top(ents: seq<Ent>): (r: seq<Ent>)
    ensures forall e :: e in r <==> e in ents && IsTop(e)
    ensures |r| <= |ents|
  {
    if ents == [] then [] else (if IsTop(ents[0]) then [ents[0]] else []) + Top(ents[1..])
  }

  function StartOf(e: Ent): int { e.start }

  function LineOf(e: Ent): int { e.line }

  /** The top-level entities as the residue pass sorts them ... */
  function InBytes(ents: seq<Ent>): seq<Ent> {
    Sorting.StableSort(Top(ents), StartOf)
  }

  /** ... and as the anchor pass sorts them. */
  function InLines(ents: seq<Ent>): seq<Ent> {
    Sorting.StableSort(Top(ents), LineOf)
  }

  function NamesOf(ents: seq<Ent>): (r: seq<Name>)
    ensures |r| == |ents| && forall i :: 0 <= i < |r| ==> r[i] == ents[i].name
  {
    seq(|ents|, i requires 0 <= i < |ents| => ents[i].name)
  }

  // ---------------------------------------------------------------------------------------
  // What the extractor guarantees.

  /** Spans are non-empty and in bounds, names are unique and show their nesting, top-level
      spans are disjoint, and lines grow with bytes. */
  ghost predicate Extracted(raw: Bytes, ents: seq<Ent>) {
    && Distinct(NamesOf(ents))
    && (forall e :: e in ents ==> e.start < e.end <= |raw|)
    && (forall e :: e in ents ==> (IsTop(e) <==> !IsNested(e.name)))
    && (forall d, e :: d in ents && e in ents && IsTop(d) && IsTop(e) && d != e
          ==> d.end <= e.start || e.end <= d.start)
    && (forall d, e :: d in ents && e in ents && IsTop(d) && IsTop(e) && d.start <= e.start ==> d.line <= e.line)
  }

  ghost predicate WellFormed(s: Snapshot) {
    s.Present? ==> Extracted(s.raw, s.ents)
  }

  /** A document: top-level entities laid out one after the other. */
  ghost predicate LaidOut(raw: Bytes, doc: seq<Ent>) {
    && Distinct(NamesOf(doc))
    && (forall i :: 0 <= i < |doc| ==> doc[i].start < doc[i].end <= |raw|)
    && (forall i, j :: 0 <= i < j < |doc| ==> doc[i].end <= doc[j].start)
  }

  lemma NamesDistinctEnts(ents: seq<Ent>)
    requires Distinct(NamesOf(ents))
    ensures Distinct(ents)
    ensures forall d, e :: d in ents && e in ents && d.name == e.name ==> d == e
  {
    forall i, j | 0 <= i < j < |ents| ensures ents[i] != ents[j] {
      assert NamesOf(ents)[i] != NamesOf(ents)[j];
    }
    forall d, e | d in ents && e in ents && d.name == e.name ensures d == e {
      var i :| 0 <= i < |ents| && ents[i] == d;
      var j :| 0 <= j < |ents| && ents[j] == e;
      assert NamesOf(ents)[i] == NamesOf(ents)[j];
    }
  }

  lemma EntsDistinctNames(ents: seq<Ent>)
    requires Distinct(ents)
    requires forall d, e :: d in ents && e in ents && d.name == e.name ==> d == e
    ensures Distinct(NamesOf(ents))
  {
    forall i, j | 0 <= i < j < |ents| ensures NamesOf(ents)[i] != NamesOf(ents)[j] {
      assert ents[i] != ents[j] && ents[i] in ents && ents[j] in ents;
    }
  }

  lemma {:induction false} TopIsDistinct(ents: seq<Ent>)
    requires Distinct(ents)
    ensures Distinct(Top(ents))
  {
    if ents != [] {
      TopIsDistinct(ents[1..]);
      assert ents[0] !in ents[1..];
      DistinctConcat(if IsTop(ents[0]) then [ents[0]] else [], Top(ents[1..]));
    }
  }

  lemma SortedTopIsDistinct(ents: seq<Ent>, key: Ent -> int)
    requires Distinct(NamesOf(ents))
    ensures var r := Sorting.StableSort(Top(ents), key);
            && Distinct(r) && Distinct(NamesOf(r))
            && forall e :: e in r <==> e in ents && IsTop(e)
  {
    NamesDistinctEnts(ents);
    TopIsDistinct(ents);
    Sorting.StaysDistinct(Top(ents), key);
    Sorting.SameElements(Top(ents), key);
    EntsDistinctNames(Sorting.StableSort(Top(ents), key));
  }

  lemma InBytesIsLaidOut(raw: Bytes, ents: seq<Ent>)
    requires Extracted(raw, ents)
    ensures LaidOut(raw, InBytes(ents))
  {
    var doc := InBytes(ents);
    SortedTopIsDistinct(ents, StartOf);
    Sorting.SortsStably(Top(ents), StartOf);
    forall i | 0 <= i < |doc| ensures doc[i].start < doc[i].end <= |raw| { assert doc[i] in doc; }
    forall i, j | 0 <= i < j < |doc| ensures doc[i].end <= doc[j].start {
      assert doc[i] in doc && doc[j] in doc && doc[i] != doc[j];
      assert StartOf(doc[i]) <= StartOf(doc[j]);
    }
  }

  // ---------------------------------------------------------------------------------------
  // The two sorts agree exactly when no line holds two entities listed against byte order.

  ghost predicate SameLineInOrder(ents: seq<Ent>) {
    var top := Top(ents);
    forall i, j :: 0 <= i < j < |top| && top[i].line == top[j].line ==> top[i].start < top[j].start
  }

  lemma LineOrderFromBytes(raw: Bytes, ents: seq<Ent>)
    requires Extracted(raw, ents) && InLines(ents) == InBytes(ents)
    ensures SameLineInOrder(ents)
  {
    var top := Top(ents);
    InBytesIsLaidOut(raw, ents);
    hide Extracted, LaidOut, Top, Sorting.StableSort, Sorting.Precedes;
    forall i, j | 0 <= i < j < |top| && top[i].line == top[j].line ensures top[i].start < top[j].start {
      Sorting.KeepsEqualKeys(top, LineOf, i, j);
      LaterStartsLater(raw, InBytes(ents), top[i], top[j]);
    }
  }

  lemma LaterStartsLater(raw: Bytes, doc: seq<Ent>, d: Ent, e: Ent)
    requires LaidOut(raw, doc) && Sorting.Precedes(doc, d, e)
    ensures d.start < e.start
  {
    hide NamesOf, Distinct;
    var a, b :| 0 <= a < b < |doc| && doc[a] == d && doc[b] == e;
    assert doc[a].start < doc[a].end <= doc[b].start;
  }

  lemma LineOrderIsByteOrder(raw: Bytes, ents: seq<Ent>)
    requires Extracted(raw, ents) && SameLineInOrder(ents)
    ensures InLines(ents) == InBytes(ents)
  {
    var top, lines, doc := Top(ents), InLines(ents), InBytes(ents);
    Sorting.SortsStably(top, LineOf);
    Sorting.SortsStably(top, StartOf);
    SortedTopIsDistinct(ents, LineOf);
    forall i, j | 0 <= i < j < |lines| ensures lines[i].start < lines[j].start {
      LinesAscend(raw, ents, i, j);
    }
    assert Sorting.Ordered(lines, StartOf) && Sorting.Strict(lines, StartOf);
    Sorting.StrictSortIsUnique(lines, doc, StartOf);
  }

  lemma LinesAscend(raw: Bytes, ents: seq<Ent>, i: nat, j: nat)
    requires Extracted(raw, ents) && SameLineInOrder(ents) && i < j < |InLines(ents)|
    ensures InLines(ents)[i].start < InLines(ents)[j].start
  {
    hide *;
    var d, e := InLines(ents)[i], InLines(ents)[j];
    LinesKeep(raw, ents, i, j);
    if d.line < e.line {
      LowerIsEarlier(raw, ents, d, e);
    } else {
      ListedBefore(ents, i, j);
    }
  }

  lemma LinesKeep(raw: Bytes, ents: seq<Ent>, i: nat, j: nat)
    requires Extracted(raw, ents) && i < j < |InLines(ents)|
    ensures var lines := InLines(ents);
            && Distinct(lines) && lines[i] != lines[j] && lines[i].line <= lines[j].line
            && lines[i] in Top(ents) && lines[j] in Top(ents)
  {
    var lines := InLines(ents);
    Sorting.SortsStably(Top(ents), LineOf);
    SortedTopIsDistinct(ents, LineOf);
    hide Sorting.StableSort, Top, Extracted, NamesOf;
    assert lines[i] in lines && lines[j] in lines;
    assert LineOf(lines[i]) <= LineOf(lines[j]);
  }

  lemma LowerIsEarlier(raw: Bytes, ents: seq<Ent>, d: Ent, e: Ent)
    requires Extracted(raw, ents) && d in Top(ents) && e in Top(ents) && d.line < e.line
    ensures d.start < e.start
  {
    hide Top, NamesOf, Distinct;
  }

  lemma ListedBefore(ents: seq<Ent>, i: nat, j: nat)
    requires SameLineInOrder(ents) && i < j < |InLines(ents)| && Distinct(InLines(ents))
    requires var d, e := InLines(ents)[i], InLines(ents)[j];
             d != e && d.line == e.line && d in Top(ents) && e in Top(ents)
    ensures InLines(ents)[i].start < InLines(ents)[j].start
  {
    var top, lines := Top(ents), InLines(ents);
    hide Top, Sorting.StableSort, Distinct;
    var a :| 0 <= a < |top| && top[a] == lines[i];
    var b :| 0 <= b < |top| && top[b] == lines[j];
    if b < a { SwappedIsListed(ents, top, lines, b, a, j, i); }
  }

  /** Entities of one line come out as listed. */
  lemma SwappedIsListed(ents: seq<Ent>, top: seq<Ent>, lines: seq<Ent>, b: nat, a: nat, j: nat, i: nat)
    requires top == Top(ents) && lines == Sorting.StableSort(top, LineOf) && Distinct(lines)
    requires b < a < |top| && i < |lines| && j < |lines| && lines[i] == top[a] && lines[j] == top[b]
             && top[a].line == top[b].line
    ensures j < i
  {
    hide Top, Sorting.StableSort, Sorting.Precedes;
    Sorting.KeepsEqualKeys(top, LineOf, b, a);
    Sorting.PrecedesAt(lines, j, i);
  }

  /** The anchor pass sees document order exactly when lines do not hide a swap. */
  lemma SortsAgree(raw: Bytes, ents: seq<Ent>)
    requires Extracted(raw, ents)
    ensures InLines(ents) == InBytes(ents) <==> SameLineInOrder(ents)
  {
    if SameLineInOrder(ents) { LineOrderIsByteOrder(raw, ents); }
    if InLines(ents) == InBytes(ents) { LineOrderFromBytes(raw, ents); }
  }
}
