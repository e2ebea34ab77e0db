/** The per-file body of `_mine_one` and the rebirth pass, as the loops they are
    (`sgt/core/mine.py`), each proved to emit exactly the difference of the two symbol tables.

    The model is for link-free commits: an entity is matched by its surface id alone. */
module Mining {
  import opened Names
  import opened Symbols
  import opened Snapshots
  import opened Tables
  import opened Chains
  import opened History
  import Layout

  // ---------------------------------------------------------------------------------------
  // A list of touches as the map it stands for.

  function AsMap(touches: seq<Touch>): map<Sym, Touch> {
    if touches == [] then map[]
    else AsMap(touches[..|touches| - 1])[touches[|touches| - 1].sym := touches[|touches| - 1]]
  }

  lemma AsMapAppend(touches: seq<Touch>, t: Touch)
    ensures AsMap(touches + [t]) == AsMap(touches)[t.sym := t]
  {
    assert (touches + [t])[..|touches|] == touches;
  }

  ghost predicate OneEach(touches: seq<Touch>) {
    forall i, j :: 0 <= i < j < |touches| ==> touches[i].sym != touches[j].sym
  }

  /** Of the symbols in `done`, exactly the ones `step` touches have been emitted, once each and
      as `step` says. */
  ghost predicate Emitted(touches: seq<Touch>, step: map<Sym, Touch>, done: set<Sym>) {
    && OneEach(touches)
    && (forall t :: t in touches ==> t.sym in done && t.sym in step && t == step[t.sym])
    && (forall s :: s in AsMap(touches) <==> s in done && s in step)
    && (forall s :: s in AsMap(touches) ==> AsMap(touches)[s] == step[s])
  }

  lemma EmitNone(touches: seq<Touch>, step: map<Sym, Touch>, done: set<Sym>, s: Sym)
    requires Emitted(touches, step, done) && s !in step
    ensures Emitted(touches, step, done + {s})
  {
  }

  lemma EmitOne(touches: seq<Touch>, step: map<Sym, Touch>, done: set<Sym>, t: Touch)
    requires Emitted(touches, step, done) && t.sym !in done && t.sym in step && t == step[t.sym]
    ensures Emitted(touches + [t], step, done + {t.sym})
  {
    AsMapAppend(touches, t);
    hide AsMap;
  }

  lemma EmittedNothing(step: map<Sym, Touch>)
    ensures Emitted([], step, {})
  {
  }

  /** Once every touched symbol is done, the list stands for the whole step. */
  lemma EmittedAll(touches: seq<Touch>, step: map<Sym, Touch>, done: set<Sym>)
    requires Emitted(touches, step, done) && forall s :: s in step ==> s in done
    ensures AsMap(touches) == step && OneEach(touches)
  {
    assert AsMap(touches).Keys == step.Keys;
  }

  // ---------------------------------------------------------------------------------------
  // What a commit is asked to record, by symbol kind.

  function FileStep(tier: Tier, before: Snapshot, after: Snapshot, k: nat): map<Sym, Touch>
    requires WellFormed(before) && WellFormed(after)
  {
    Step(TableOf(tier, before), Point(TableOf(tier, after), true, Flips(tier, before, after), false), k)
  }

  /** The entities a representation by parts has, and none otherwise. */
  function PartsEnts(tier: Tier, s: Snapshot): seq<Ent> {
    if RepOf(tier, s) == ByParts then s.ents else []
  }

  function PartsRaw(tier: Tier, s: Snapshot): Bytes {
    if RepOf(tier, s) == ByParts then s.raw else []
  }

  function PartsSegments(tier: Tier, s: Snapshot): map<Option<Name>, Bytes>
    requires WellFormed(s)
  {
    if RepOf(tier, s) == ByParts then
      InBytesIsLaidOut(s.raw, s.ents);
      Segments(s.raw, InBytes(s.ents))
    else map[]
  }

  function PartsFacts(tier: Tier, s: Snapshot): Layout.Facts {
    if RepOf(tier, s) == ByParts then AnchorFacts(InLines(s.ents)) else map[]
  }

  function Find(ents: seq<Ent>, n: Name): (r: Option<Ent>)
    ensures r.Some? ==> r.value in ents && r.value.name == n
    ensures r.None? ==> forall e :: e in ents ==> e.name != n
  {
    if ents == [] then None else if ents[0].name == n then Some(ents[0]) else Find(ents[1..], n)
  }

  ghost predicate InBounds(raw: Bytes, ents: seq<Ent>) {
    Distinct(NamesOf(ents)) && forall e :: e in ents ==> e.start <= e.end <= |raw|
  }

  /** A table in terms of the source's own data. */
  lemma TableParts(tier: Tier, s: Snapshot, x: Sym)
    requires WellFormed(s)
    ensures InBounds(PartsRaw(tier, s), PartsEnts(tier, s))
    ensures x.Whole? ==> WholeShows(tier, s)
    ensures !x.Whole? ==> MadeOf(TableOf(tier, s), EntTable(PartsRaw(tier, s), PartsEnts(tier, s)),
                                 PartsSegments(tier, s), PartsFacts(tier, s), x)
  {
    BoundsHold(tier, s);
    if RepOf(tier, s) == ByParts {
      PartsTable(tier, s, x);
      PartsUnfold(tier, s);
      hide EntTable, Segments, AnchorFacts, TableOf, InBounds, PartsRaw, PartsEnts, PartsSegments, PartsFacts;
    } else {
      NoPartsTable(tier, s, x);
      hide EntTable, TableOf, PartsRaw, PartsEnts, PartsSegments, PartsFacts;
    }
  }

  lemma BoundsHold(tier: Tier, s: Snapshot)
    requires WellFormed(s)
    ensures InBounds(PartsRaw(tier, s), PartsEnts(tier, s))
  {
  }

  lemma PartsUnfold(tier: Tier, s: Snapshot)
    requires WellFormed(s) && RepOf(tier, s) == ByParts && LaidOut(s.raw, InBytes(s.ents))
    ensures PartsRaw(tier, s) == s.raw && PartsEnts(tier, s) == s.ents
    ensures PartsSegments(tier, s) == Segments(s.raw, InBytes(s.ents))
            && PartsFacts(tier, s) == AnchorFacts(InLines(s.ents))
  {
    hide Segments, AnchorFacts, InLines, InBytes, WellFormed;
  }

  lemma NoPartsTable(tier: Tier, s: Snapshot, x: Sym)
    requires WellFormed(s) && RepOf(tier, s) != ByParts
    ensures WholeShows(tier, s)
    ensures InBounds(PartsRaw(tier, s), PartsEnts(tier, s)) && EntTable(PartsRaw(tier, s), PartsEnts(tier, s)) == map[]
    ensures PartsSegments(tier, s) == map[] && PartsFacts(tier, s) == map[]
    ensures x != Whole ==> x !in TableOf(tier, s)
  {
    hide WellFormed, Segments, InLines, InBytes, AnchorFacts;
    assert PartsEnts(tier, s) == [];
  }

  ghost predicate WholeShows(tier: Tier, s: Snapshot)
    requires WellFormed(s)
  {
    var t := TableOf(tier, s);
    (Whole in t <==> RepOf(tier, s) == WholeFile) && (Whole in t ==> t[Whole] == Entry(Blob(s.raw), Data(s.raw)))
  }

  lemma EntLookup(raw: Bytes, ents: seq<Ent>, n: Name)
    requires InBounds(raw, ents)
    ensures NameSym(n) in EntTable(raw, ents) <==> Find(ents, n).Some?
    ensures Find(ents, n).Some? ==> EntTable(raw, ents)[NameSym(n)] == EntEntry(raw, Find(ents, n).value)
  {
    EntTableIs(raw, ents);
    if NameSym(n) in EntTable(raw, ents) {
      var e :| e in ents && NameSym(n) == EntSym(e);
      assert e.name == n;
    }
    if Find(ents, n).Some? { assert EntSym(Find(ents, n).value) == NameSym(n); }
  }

  /** What the step says about a name that is `was` on one side and `now` on the other. */
  ghost predicate SaysOfName(step: map<Sym, Touch>, k: nat, n: Name, was: Option<Bytes>, now: Option<Bytes>) {
    var x := NameSym(n);
    if was == now then x !in step
    else
      x in step && step[x] == Touch(x, if was.Some? then Some(Positional(n, was.value)) else None,
                                    if now.Some? then Positional(n, now.value) else Bottom(k),
                                    if now.Some? then Data(now.value) else Gone)
  }

  /** The bytes of the entity with that name, if there is one. */
  ghost function BytesNamed(raw: Bytes, ents: seq<Ent>, n: Name): Option<Bytes>
    requires InBounds(raw, ents)
  {
    var e := Find(ents, n);
    if e.None? then None else Some(EntBytes(raw, e.value))
  }

  lemma EntDiff(prev: Table, p: Point, k: nat, e1: Table, e2: Table, g1: map<Option<Name>, Bytes>,
                g2: map<Option<Name>, Bytes>,
                f1: Layout.Facts, f2: Layout.Facts, n: Name, was: Option<Bytes>, now: Option<Bytes>)
    requires p.listed && MadeOf(prev, e1, g1, f1, NameSym(n)) && MadeOf(p.table, e2, g2, f2, NameSym(n))
    requires Named(e1, n, was) && Named(e2, n, now)
    ensures SaysOfName(Step(prev, p, k), k, n, was, now)
  {
  }

  ghost predicate Named(t: Table, n: Name, b: Option<Bytes>) {
    && (NameSym(n) in t <==> b.Some?)
    && (b.Some? ==> t[NameSym(n)] == Entry(Positional(n, b.value), Data(b.value)))
  }

  lemma NamedIn(raw: Bytes, ents: seq<Ent>, n: Name)
    requires InBounds(raw, ents)
    ensures Named(EntTable(raw, ents), n, BytesNamed(raw, ents, n))
  {
    EntLookup(raw, ents, n);
    hide EntTable, EntBytes;
  }

  lemma EntStep(tier: Tier, before: Snapshot, after: Snapshot, k: nat, n: Name)
    requires WellFormed(before) && WellFormed(after)
    ensures InBounds(PartsRaw(tier, before), PartsEnts(tier, before))
            && InBounds(PartsRaw(tier, after), PartsEnts(tier, after))
    ensures SaysOfName(FileStep(tier, before, after, k), k, n,
                       BytesNamed(PartsRaw(tier, before), PartsEnts(tier, before), n),
                       BytesNamed(PartsRaw(tier, after), PartsEnts(tier, after), n))
  {
    var x := NameSym(n);
    TableParts(tier, before, x);
    TableParts(tier, after, x);
    hide EntTable, TableOf, PartsEnts, PartsRaw, PartsSegments, PartsFacts, WellFormed, Flips, MadeOf, SaysOfName,
         InBounds, Named, BytesNamed;
    NamedIn(PartsRaw(tier, before), PartsEnts(tier, before), n);
    NamedIn(PartsRaw(tier, after), PartsEnts(tier, after), n);
    EntDiff(TableOf(tier, before), Point(TableOf(tier, after), true, Flips(tier, before, after), false), k,
            EntTable(PartsRaw(tier, before), PartsEnts(tier, before)),
            EntTable(PartsRaw(tier, after), PartsEnts(tier, after)),
            PartsSegments(tier, before), PartsSegments(tier, after), PartsFacts(tier, before), PartsFacts(tier, after),
            n,
            BytesNamed(PartsRaw(tier, before), PartsEnts(tier, before), n),
            BytesNamed(PartsRaw(tier, after), PartsEnts(tier, after), n));
  }

  lemma GapDiff(prev: Table, p: Point, k: nat, e1: Table, e2: Table, was: map<Option<Name>, Bytes>,
                now: map<Option<Name>, Bytes>,
                f1: Layout.Facts, f2: Layout.Facts, a: Option<Name>)
    requires p.listed && MadeOf(prev, e1, was, f1, Residue(a)) && MadeOf(p.table, e2, now, f2, Residue(a))
    ensures SaysOfGap(Step(prev, p, k), k, was, now, p.flip, a)
  {
  }

  lemma GapStep(tier: Tier, before: Snapshot, after: Snapshot, k: nat, a: Option<Name>)
    requires WellFormed(before) && WellFormed(after)
    ensures SaysOfGap(FileStep(tier, before, after, k), k, PartsSegments(tier, before), PartsSegments(tier, after),
                      Flips(tier, before, after), a)
  {
    TableParts(tier, before, Residue(a));
    TableParts(tier, after, Residue(a));
    hide EntTable, TableOf, PartsEnts, PartsRaw, PartsSegments, PartsFacts, WellFormed, Flips, MadeOf, SaysOfGap,
         InBounds;
    GapDiff(TableOf(tier, before), Point(TableOf(tier, after), true, Flips(tier, before, after), false), k,
            EntTable(PartsRaw(tier, before), PartsEnts(tier, before)),
            EntTable(PartsRaw(tier, after), PartsEnts(tier, after)),
            PartsSegments(tier, before), PartsSegments(tier, after), PartsFacts(tier, before), PartsFacts(tier, after),
            a);
  }

  lemma FactDiff(prev: Table, p: Point, k: nat, e1: Table, e2: Table, g1: map<Option<Name>, Bytes>,
                 g2: map<Option<Name>, Bytes>,
                 was: Layout.Facts, now: Layout.Facts, n: Name)
    requires p.listed && MadeOf(prev, e1, g1, was, Anchor(n)) && MadeOf(p.table, e2, g2, now, Anchor(n))
    ensures SaysOfFact(Step(prev, p, k), was, now, n)
  {
  }

  lemma FactStep(tier: Tier, before: Snapshot, after: Snapshot, k: nat, n: Name)
    requires WellFormed(before) && WellFormed(after)
    ensures SaysOfFact(FileStep(tier, before, after, k), PartsFacts(tier, before), PartsFacts(tier, after), n)
  {
    TableParts(tier, before, Anchor(n));
    TableParts(tier, after, Anchor(n));
    hide EntTable, TableOf, PartsEnts, PartsRaw, PartsSegments, PartsFacts, WellFormed, Flips, MadeOf, SaysOfFact,
         InBounds;
    FactDiff(TableOf(tier, before), Point(TableOf(tier, after), true, Flips(tier, before, after), false), k,
             EntTable(PartsRaw(tier, before), PartsEnts(tier, before)),
             EntTable(PartsRaw(tier, after), PartsEnts(tier, after)),
             PartsSegments(tier, before), PartsSegments(tier, after), PartsFacts(tier, before), PartsFacts(tier, after),
             n);
  }

  lemma WholeStep(tier: Tier, before: Snapshot, after: Snapshot, k: nat)
    requires WellFormed(before) && WellFormed(after)
    ensures var step := FileStep(tier, before, after, k);
            var was := if RepOf(tier, before) == WholeFile then Some(Blob(before.raw)) else None;
            if RepOf(tier, after) == WholeFile then
              Whole in step && step[Whole] == Touch(Whole, was, Blob(after.raw), Data(after.raw))
            else if was.Some? then Whole in step && step[Whole] == Touch(Whole, was, Bottom(k), Gone)
            else Whole !in step
  {
    TableParts(tier, before, Whole);
    TableParts(tier, after, Whole);
    hide EntTable, TableOf, PartsEnts, PartsRaw, PartsSegments, PartsFacts, WellFormed;
  }

  // ---------------------------------------------------------------------------------------
  // The loops.

  /** The step says of every name what the two entity lists imply. */
  ghost predicate EntitySide(step: map<Sym, Touch>, k: nat, oldRaw: Bytes, oldEnts: seq<Ent>, newRaw: Bytes,
                             newEnts: seq<Ent>) {
    && InBounds(oldRaw, oldEnts) && InBounds(newRaw, newEnts)
    && forall n: Name :: SaysOfName(step, k, n, BytesNamed(oldRaw, oldEnts, n), BytesNamed(newRaw, newEnts, n))
  }

  function NameSyms(ents: seq<Ent>): (r: set<Sym>)
    ensures forall e :: e in ents ==> EntSym(e) in r
    ensures forall s :: s in r ==> s.Entity? || s.Nested?
    ensures forall s :: s in r ==> exists e :: e in ents && EntSym(e) == s
  {
    set e | e in ents :: EntSym(e)
  }

  /** The names of `ents[i..]` are not done yet. */
  lemma NextEntFresh(ents: seq<Ent>, i: nat, done: set<Sym>)
    requires Distinct(NamesOf(ents)) && i < |ents|
    requires forall j :: i <= j < |ents| ==> EntSym(ents[j]) !in done
    ensures forall j :: i + 1 <= j < |ents| ==> EntSym(ents[j]) !in done + {EntSym(ents[i])}
  {
    forall j | i + 1 <= j < |ents| ensures EntSym(ents[j]) != EntSym(ents[i]) {
      assert NamesOf(ents)[j] != NamesOf(ents)[i];
    }
  }

  /** `m.modified` and `res_added`: every entity of the new side, against its namesake. */
  method RecordNew(oldRaw: Bytes, oldEnts: seq<Ent>, newRaw: Bytes, newEnts: seq<Ent>, touches0: seq<Touch>,
                   ghost k: nat, ghost step: map<Sym, Touch>, ghost done0: set<Sym>)
    returns (touches: seq<Touch>, ghost done: set<Sym>)
    requires EntitySide(step, k, oldRaw, oldEnts, newRaw, newEnts) && Emitted(touches0, step, done0)
    requires forall e :: e in newEnts ==> EntSym(e) !in done0
    ensures Emitted(touches, step, done) && done == done0 + NameSyms(newEnts)
  {
    touches, done := touches0, done0;
    var i := 0;
    while i < |newEnts|
      invariant 0 <= i <= |newEnts|
      invariant Emitted(touches, step, done)
      invariant done == done0 + NameSyms(newEnts[..i])
      invariant forall j :: i <= j < |newEnts| ==> EntSym(newEnts[j]) !in done
    {
      var a := newEnts[i];
      NewSays(step, k, oldRaw, oldEnts, newRaw, newEnts, i);
      NextEntFresh(newEnts, i, done);
      NameSymsGrow(newEnts, i);
      hide EntitySide, Emitted, NameSyms, EntBytes;
      var b := Find(oldEnts, a.name);
      var now := EntBytes(newRaw, a);
      if b.Some? && EntBytes(oldRaw, b.value) == now {
        EmitNone(touches, step, done, EntSym(a));
      } else {
        var before := if b.Some? then Some(Positional(a.name, EntBytes(oldRaw, b.value))) else None;
        var t := Touch(EntSym(a), before, Positional(a.name, now), Data(now));
        EmitOne(touches, step, done, t);
        touches := touches + [t];
      }
      done := done + {EntSym(a)};
      i := i + 1;
    }
    assert newEnts[..i] == newEnts;
  }

  lemma NameSymsGrow(ents: seq<Ent>, i: nat)
    requires i < |ents|
    ensures NameSyms(ents[..i + 1]) == NameSyms(ents[..i]) + {EntSym(ents[i])}
  {
    assert ents[..i + 1] == ents[..i] + [ents[i]];
  }

  lemma NewSays(step: map<Sym, Touch>, k: nat, oldRaw: Bytes, oldEnts: seq<Ent>, newRaw: Bytes, newEnts: seq<Ent>,
                i: nat)
    requires EntitySide(step, k, oldRaw, oldEnts, newRaw, newEnts) && i < |newEnts|
    ensures var a := newEnts[i];
            var b := Find(oldEnts, a.name);
            && a.start <= a.end <= |newRaw| && (b.Some? ==> b.value.start <= b.value.end <= |oldRaw|)
            && SaysOfName(step, k, a.name, if b.Some? then Some(EntBytes(oldRaw, b.value))
                                           else None, Some(EntBytes(newRaw, a)))
  {
    var a := newEnts[i];
    assert a in newEnts;
    FindIs(newEnts, i);
    assert SaysOfName(step, k, a.name, BytesNamed(oldRaw, oldEnts, a.name), BytesNamed(newRaw, newEnts, a.name));
  }

  lemma {:induction false} FindIs(ents: seq<Ent>, i: nat)
    requires Distinct(NamesOf(ents)) && i < |ents|
    ensures Find(ents, ents[i].name) == Some(ents[i])
  {
    if i > 0 {
      assert NamesOf(ents)[0] != NamesOf(ents)[i];
      RestNames(ents);
      hide NamesOf, Distinct;
      FindIs(ents[1..], i - 1);
    }
  }

  /** `res_removed`: every entity of the old side without a namesake. */
  method RecordRemoved(oldRaw: Bytes, oldEnts: seq<Ent>, newEnts: seq<Ent>, k: nat, touches0: seq<Touch>,
                       ghost newRaw: Bytes, ghost step: map<Sym, Touch>, ghost done0: set<Sym>)
    returns (touches: seq<Touch>, ghost done: set<Sym>)
    requires EntitySide(step, k, oldRaw, oldEnts, newRaw, newEnts) && Emitted(touches0, step, done0)
    requires forall e :: e in oldEnts && Find(newEnts, e.name).None? ==> EntSym(e) !in done0
    requires forall e :: e in newEnts ==> EntSym(e) in done0
    ensures Emitted(touches, step, done) && done == done0 + NameSyms(oldEnts)
  {
    touches, done := touches0, done0;
    RemovingStarts(oldEnts, newEnts, done);
    hide *;
    var i := 0;
    while i < |oldEnts|
      invariant 0 <= i <= |oldEnts|
      invariant Emitted(touches, step, done) && Removing(oldEnts, newEnts, i, done0, done)
    {
      var b := oldEnts[i];
      OldSays(step, k, oldRaw, oldEnts, newRaw, newEnts, i);
      RemovingStep(oldEnts, newEnts, i, done0, done);
      var a := Find(newEnts, b.name);
      if a.None? {
        var t := Touch(EntSym(b), Some(Positional(b.name, EntBytes(oldRaw, b))), Bottom(k), Gone);
        RemovalSays(step, k, b, EntBytes(oldRaw, b));
        EmitOne(touches, step, done, t);
        touches := touches + [t];
      }
      done := done + {EntSym(b)};
      i := i + 1;
    }
    assert oldEnts[..i] == oldEnts;
    RemovingEnds(oldEnts, newEnts, done0, done);
  }

  /** The first `i` old names are dealt with; of the rest, those without a namesake are not. */
  ghost predicate Removing(oldEnts: seq<Ent>, newEnts: seq<Ent>, i: nat, done0: set<Sym>, done: set<Sym>) {
    && i <= |oldEnts| && Distinct(NamesOf(oldEnts))
    && done == done0 + NameSyms(oldEnts[..i])
    && (forall e :: e in newEnts ==> EntSym(e) in done0)
    && UnmatchedFrom(oldEnts, newEnts, i, done)
  }

  ghost predicate UnmatchedFrom(oldEnts: seq<Ent>, newEnts: seq<Ent>, i: nat, done: set<Sym>) {
    forall j :: i <= j < |oldEnts| && Find(newEnts, oldEnts[j].name).None? ==> EntSym(oldEnts[j]) !in done
  }

  lemma RemovingStarts(oldEnts: seq<Ent>, newEnts: seq<Ent>, done: set<Sym>)
    requires Distinct(NamesOf(oldEnts)) && forall e :: e in newEnts ==> EntSym(e) in done
    requires forall e :: e in oldEnts && Find(newEnts, e.name).None? ==> EntSym(e) !in done
    ensures Removing(oldEnts, newEnts, 0, done, done)
  {
    NoNames();
    assert oldEnts[..0] == [];
    hide NameSyms, Distinct, NamesOf, EntSym;
  }

  lemma RemovingStep(oldEnts: seq<Ent>, newEnts: seq<Ent>, i: nat, done0: set<Sym>, done: set<Sym>)
    requires Removing(oldEnts, newEnts, i, done0, done) && i < |oldEnts|
    ensures Removing(oldEnts, newEnts, i + 1, done0, done + {EntSym(oldEnts[i])})
    ensures Find(newEnts, oldEnts[i].name).None? ==> EntSym(oldEnts[i]) !in done
    ensures Find(newEnts, oldEnts[i].name).Some? ==> done + {EntSym(oldEnts[i])} == done
  {
    var x, a := EntSym(oldEnts[i]), Find(newEnts, oldEnts[i].name);
    assert a.None? ==> x !in done by { hide NameSyms, NamesOf, Distinct, Find, EntSym; }
    assert a.Some? ==> x in done0 by {
      if a.Some? { assert EntSym(a.value) == x; }
    }
    hide *;
    NextOldFresh(oldEnts, newEnts, i, done0, done);
    NameSymsGrow(oldEnts, i);
    RemovingMore(oldEnts, newEnts, i, done0, done);
  }

  lemma RemovingMore(oldEnts: seq<Ent>, newEnts: seq<Ent>, i: nat, done0: set<Sym>, done: set<Sym>)
    requires Removing(oldEnts, newEnts, i, done0, done) && i < |oldEnts|
    requires UnmatchedFrom(oldEnts, newEnts, i + 1, done + {EntSym(oldEnts[i])})
    requires NameSyms(oldEnts[..i + 1]) == NameSyms(oldEnts[..i]) + {EntSym(oldEnts[i])}
    ensures Removing(oldEnts, newEnts, i + 1, done0, done + {EntSym(oldEnts[i])})
    ensures EntSym(oldEnts[i]) in done0 ==> done + {EntSym(oldEnts[i])} == done
  {
    hide NameSyms, UnmatchedFrom, EntSym, Find, NamesOf, Distinct;
  }

  lemma RemovingEnds(oldEnts: seq<Ent>, newEnts: seq<Ent>, done0: set<Sym>, done: set<Sym>)
    requires Removing(oldEnts, newEnts, |oldEnts|, done0, done)
    ensures done == done0 + NameSyms(oldEnts)
  {
    assert oldEnts[..|oldEnts|] == oldEnts;
    hide NameSyms, Distinct, NamesOf, EntSym, Find;
  }

  lemma RemovalSays(step: map<Sym, Touch>, k: nat, b: Ent, bytes: Bytes)
    requires SaysOfName(step, k, b.name, Some(bytes), None)
    ensures EntSym(b) in step && step[EntSym(b)] == Touch(EntSym(b), Some(Positional(b.name, bytes)), Bottom(k), Gone)
  {
  }

  lemma NextOldFresh(oldEnts: seq<Ent>, newEnts: seq<Ent>, i: nat, done0: set<Sym>, done: set<Sym>)
    requires Removing(oldEnts, newEnts, i, done0, done) && i < |oldEnts|
    ensures UnmatchedFrom(oldEnts, newEnts, i + 1, done + {EntSym(oldEnts[i])})
  {
    hide Find, NameSyms;
    forall j | i + 1 <= j < |oldEnts| ensures EntSym(oldEnts[j]) != EntSym(oldEnts[i]) {
      assert NamesOf(oldEnts)[j] != NamesOf(oldEnts)[i];
    }
  }

  lemma OldSays(step: map<Sym, Touch>, k: nat, oldRaw: Bytes, oldEnts: seq<Ent>, newRaw: Bytes, newEnts: seq<Ent>,
                i: nat)
    requires EntitySide(step, k, oldRaw, oldEnts, newRaw, newEnts) && i < |oldEnts|
    ensures var b := oldEnts[i];
            && b.start <= b.end <= |oldRaw|
            && (Find(newEnts, b.name).None? ==> SaysOfName(step, k, b.name, Some(EntBytes(oldRaw, b)), None))
  {
    var b := oldEnts[i];
    assert b in oldEnts;
    FindIs(oldEnts, i);
    assert SaysOfName(step, k, b.name, BytesNamed(oldRaw, oldEnts, b.name), BytesNamed(newRaw, newEnts, b.name));
  }

  // ---------------------------------------------------------------------------------------

  /** `sorted(set(old) | set(new))`: the head sentinel sorts before every name. */
  function SortedKeys(keys: set<Option<Name>>): seq<Option<Name>> {
    (if None in keys then [None] else []) + SomeEach(Sorted(set a | a in keys && a.Some? :: a.value))
  }

  function SomeEach(names: seq<Name>): (r: seq<Option<Name>>)
    ensures |r| == |names| && forall i :: 0 <= i < |r| ==> r[i] == Some(names[i])
  {
    seq(|names|, i requires 0 <= i < |names| => Some(names[i]))
  }

  lemma SomeEachIs(names: seq<Name>)
    requires Distinct(names)
    ensures Distinct(SomeEach(names))
    ensures forall a :: a in SomeEach(names) <==> a.Some? && a.value in names
  {
    forall a: Option<Name> | a.Some? && a.value in names ensures a in SomeEach(names) {
      var i :| 0 <= i < |names| && names[i] == a.value;
      assert SomeEach(names)[i] == a;
    }
  }

  lemma SortedKeysIs(keys: set<Option<Name>>)
    ensures Distinct(SortedKeys(keys))
    ensures forall a :: a in SortedKeys(keys) <==> a in keys
  {
    var values := set a | a in keys && a.Some? :: a.value;
    forall a: Option<Name> | a.Some? ensures a.value in values <==> a in keys {
      if a.value in values { var b :| b in keys && b.Some? && b.value == a.value; assert b == a; }
    }
    SomeEachIs(Sorted(values));
    hide Sorted, SomeEach;
    DistinctConcat(if None in keys then [None] else [], SomeEach(Sorted(values)));
  }

  /** The step says of every gap what the two partitions imply; `skip` is the flip's omission. */
  ghost predicate SaysOfGap(step: map<Sym, Touch>, k: nat, was: map<Option<Name>, Bytes>, now: map<Option<Name>, Bytes>,
                            skip: bool, a: Option<Name>) {
    var x := Residue(a);
    if a in now then
      if a in was && was[a] == now[a] then x !in step
      else x in step && step[x] == Touch(x, if a in was then Some(Content(was[a]))
                                            else None, Content(now[a]), Data(now[a]))
    else if a in was && !(skip && was[a] == []) then
      x in step && step[x] == Touch(x, Some(Content(was[a])), Bottom(k), Gone)
    else x !in step
  }

  ghost predicate GapSide(step: map<Sym, Touch>, k: nat, was: map<Option<Name>, Bytes>, now: map<Option<Name>, Bytes>,
                          skip: bool) {
    forall a: Option<Name> :: SaysOfGap(step, k, was, now, skip, a)
  }

  function GapSyms(keys: seq<Option<Name>>): (r: set<Sym>)
    ensures forall s :: s in r <==> s.Residue? && s.after in keys
  {
    set a | a in keys :: Residue(a)
  }

  /** The residue diff: a gap whose text or existence changed. */
  method RecordGaps(was: map<Option<Name>, Bytes>, now: map<Option<Name>, Bytes>, k: nat, skip: bool,
                    touches0: seq<Touch>,
                    ghost step: map<Sym, Touch>, ghost done0: set<Sym>)
    returns (touches: seq<Touch>, ghost done: set<Sym>)
    requires GapSide(step, k, was, now, skip) && Emitted(touches0, step, done0)
    requires forall s :: s in done0 ==> !s.Residue?
    ensures Emitted(touches, step, done)
    ensures forall s :: s in done <==> s in done0 || (s.Residue? && (s.after in was || s.after in now))
  {
    touches, done := touches0, done0;
    var keys := SortedKeys(was.Keys + now.Keys);
    SortedKeysIs(was.Keys + now.Keys);
    hide SortedKeys;
    assert keys[..0] == [];
    var i := 0;
    while i < |keys|
      invariant 0 <= i <= |keys|
      invariant Emitted(touches, step, done)
      invariant done == done0 + GapSyms(keys[..i])
    {
      var a := keys[i];
      assert SaysOfGap(step, k, was, now, skip, a);
      assert a in keys;
      NextGap(keys, i, done0);
      hide GapSide, Emitted, GapSyms;
      if a in now {
        if a in was && was[a] == now[a] {
          EmitNone(touches, step, done, Residue(a));
        } else {
          var t := Touch(Residue(a), if a in was then Some(Content(was[a])) else None, Content(now[a]), Data(now[a]));
          EmitOne(touches, step, done, t);
          touches := touches + [t];
        }
      } else if skip && was[a] == [] {
        EmitNone(touches, step, done, Residue(a));
      } else {
        var t := Touch(Residue(a), Some(Content(was[a])), Bottom(k), Gone);
        EmitOne(touches, step, done, t);
        touches := touches + [t];
      }
      done := done + {Residue(a)};
      i := i + 1;
    }
    assert keys[..i] == keys;
  }

  lemma NextGap(keys: seq<Option<Name>>, i: nat, done0: set<Sym>)
    requires Distinct(keys) && i < |keys| && forall s :: s in done0 ==> !s.Residue?
    ensures Residue(keys[i]) !in done0 + GapSyms(keys[..i])
    ensures GapSyms(keys[..i + 1]) == GapSyms(keys[..i]) + {Residue(keys[i])}
  {
    assert keys[..i + 1] == keys[..i] + [keys[i]];
  }

  // ---------------------------------------------------------------------------------------

  ghost predicate SaysOfFact(step: map<Sym, Touch>, was: Layout.Facts, now: Layout.Facts, n: Name) {
    var x := Anchor(n);
    if n in now then
      if n in was && was[n] == now[n] then x !in step
      else x in step && step[x] == Touch(x, if n in was then Some(Marker(was[n]))
                                            else None, Marker(now[n]), Fact(now[n]))
    else x !in step
  }

  ghost predicate FactSide(step: map<Sym, Touch>, was: Layout.Facts, now: Layout.Facts) {
    forall n: Name :: SaysOfFact(step, was, now, n)
  }

  function AnchorSyms(names: seq<Name>): (r: set<Sym>)
    ensures forall s :: s in r <==> s.Anchor? && s.name in names
  {
    set n | n in names :: Anchor(n)
  }

  /** The anchor diff: a fresh name births its fact, a surviving one whose predecessor changed
      revises it; a fact is never closed. */
  method RecordFacts(was: Layout.Facts, now: Layout.Facts, touches0: seq<Touch>, ghost step: map<Sym, Touch>,
                     ghost done0: set<Sym>)
    returns (touches: seq<Touch>, ghost done: set<Sym>)
    requires FactSide(step, was, now) && Emitted(touches0, step, done0)
    requires forall s :: s in done0 ==> !s.Anchor?
    ensures Emitted(touches, step, done)
    ensures forall s :: s in done <==> s in done0 || (s.Anchor? && s.name in now)
  {
    touches, done := touches0, done0;
    var names := Sorted(now.Keys);
    hide Sorted;
    assert names[..0] == [];
    var i := 0;
    while i < |names|
      invariant 0 <= i <= |names|
      invariant Emitted(touches, step, done)
      invariant done == done0 + AnchorSyms(names[..i])
    {
      var n := names[i];
      assert SaysOfFact(step, was, now, n);
      assert n in names;
      NextFact(names, i, done0);
      hide FactSide, Emitted, AnchorSyms;
      if n in was && was[n] == now[n] {
        EmitNone(touches, step, done, Anchor(n));
      } else {
        var t := Touch(Anchor(n), if n in was then Some(Marker(was[n])) else None, Marker(now[n]), Fact(now[n]));
        EmitOne(touches, step, done, t);
        touches := touches + [t];
      }
      done := done + {Anchor(n)};
      i := i + 1;
    }
    assert names[..i] == names;
  }

  lemma NextFact(names: seq<Name>, i: nat, done0: set<Sym>)
    requires Distinct(names) && i < |names| && forall s :: s in done0 ==> !s.Anchor?
    ensures Anchor(names[i]) !in done0 + AnchorSyms(names[..i])
    ensures AnchorSyms(names[..i + 1]) == AnchorSyms(names[..i]) + {Anchor(names[i])}
  {
    assert names[..i + 1] == names[..i] + [names[i]];
  }

  // ---------------------------------------------------------------------------------------
  // One file at one commit.

  lemma StepSides(tier: Tier, before: Snapshot, after: Snapshot, k: nat)
    requires WellFormed(before) && WellFormed(after)
    ensures var step := FileStep(tier, before, after, k);
            && EntitySide(step, k, PartsRaw(tier, before), PartsEnts(tier, before), PartsRaw(tier, after),
                          PartsEnts(tier, after))
            && GapSide(step, k, PartsSegments(tier, before), PartsSegments(tier, after), Flips(tier, before, after))
            && FactSide(step, PartsFacts(tier, before), PartsFacts(tier, after))
  {
    var step := FileStep(tier, before, after, k);
    hide FileStep, WellFormed, Flips, PartsRaw, PartsEnts, PartsSegments, PartsFacts, SaysOfName, SaysOfGap, SaysOfFact,
         BytesNamed;
    EntStep(tier, before, after, k, []);
    forall n: Name
      ensures SaysOfName(step, k, n, BytesNamed(PartsRaw(tier, before), PartsEnts(tier, before), n),
                         BytesNamed(PartsRaw(tier, after), PartsEnts(tier, after), n))
    {
      EntStep(tier, before, after, k, n);
    }
    forall a: Option<Name>
      ensures SaysOfGap(step, k, PartsSegments(tier, before), PartsSegments(tier, after), Flips(tier, before, after), a)
    {
      GapStep(tier, before, after, k, a);
    }
    forall n: Name ensures SaysOfFact(step, PartsFacts(tier, before), PartsFacts(tier, after), n) {
      FactStep(tier, before, after, k, n);
    }
  }

  /** Everything a step can touch is one of these. */
  lemma StepCovered(tier: Tier, before: Snapshot, after: Snapshot, k: nat, s: Sym)
    requires WellFormed(before) && WellFormed(after) && s in FileStep(tier, before, after, k)
    ensures s.Whole? ==> RepOf(tier, before) == WholeFile || RepOf(tier, after) == WholeFile
    ensures s.Entity? || s.Nested? ==> s in NameSyms(PartsEnts(tier, before)) || s in NameSyms(PartsEnts(tier, after))
    ensures s.Residue? ==> s.after in PartsSegments(tier, before) || s.after in PartsSegments(tier, after)
    ensures s.Anchor? ==> s.name in PartsFacts(tier, after)
  {
    TableParts(tier, before, s);
    TableParts(tier, after, s);
    if s.Entity? || s.Nested? {
      SymIsNamed(tier, before, s);
      SymIsNamed(tier, after, s);
    }
    hide TableOf, EntTable, PartsRaw, PartsEnts, PartsSegments, PartsFacts, WellFormed, NameSyms;
  }

  lemma SymIsNamed(tier: Tier, f: Snapshot, s: Sym)
    requires WellFormed(f) && InBounds(PartsRaw(tier, f), PartsEnts(tier, f))
    ensures s in EntTable(PartsRaw(tier, f), PartsEnts(tier, f)) ==> s in NameSyms(PartsEnts(tier, f))
  {
    EntTableIs(PartsRaw(tier, f), PartsEnts(tier, f));
  }

  /** `_close_entity_rep`: the losing side of a flip closes its entities and its non-empty gaps. */
  method CloseEntityRep(raw: Bytes, ents: seq<Ent>, segments: map<Option<Name>, Bytes>, k: nat,
                        ghost step: map<Sym, Touch>)
    returns (touches: seq<Touch>, ghost done: set<Sym>)
    requires EntitySide(step, k, raw, ents, [], []) && GapSide(step, k, segments, map[], true)
    ensures Emitted(touches, step, done)
    ensures forall s :: s in done <==> s in NameSyms(ents) || (s.Residue? && s.after in segments)
  {
    EmittedNothing(step);
    touches, done := RecordRemoved(raw, ents, [], k, [], [], step, {});
    assert {} + NameSyms(ents) == NameSyms(ents);
    hide EntitySide, GapSide, Emitted;
    touches, done := RecordGaps(segments, map[], k, true, touches, step, done);
  }

  /** The diff of two representations by parts (an absent or just-closed side has none). */
  method DiffParts(oldRaw: Bytes, oldEnts: seq<Ent>, was: map<Option<Name>, Bytes>, oldFacts: Layout.Facts,
                   newRaw: Bytes, newEnts: seq<Ent>, now: map<Option<Name>, Bytes>, newFacts: Layout.Facts,
                   k: nat, touches0: seq<Touch>, ghost step: map<Sym, Touch>, ghost done0: set<Sym>)
    returns (touches: seq<Touch>, ghost done: set<Sym>)
    requires EntitySide(step, k, oldRaw, oldEnts, newRaw, newEnts) && GapSide(step, k, was, now, false)
             && FactSide(step, oldFacts, newFacts)
    requires Emitted(touches0, step, done0) && done0 <= {Whole}
    ensures Emitted(touches, step, done)
    ensures forall s :: s in done <==>
      s in done0 || s in NameSyms(oldEnts) || s in NameSyms(newEnts)
      || (s.Residue? && (s.after in was || s.after in now)) || (s.Anchor? && s.name in newFacts)
  {
    EntsFresh(newEnts, done0);
    UnmatchedFresh(oldEnts, newEnts, done0);
    NamesAlone(done0, newEnts, oldEnts);
    hide *;
    touches, done := RecordNew(oldRaw, oldEnts, newRaw, newEnts, touches0, k, step, done0);
    touches, done := RecordRemoved(oldRaw, oldEnts, newEnts, k, touches, newRaw, step, done);
    touches, done := RecordGaps(was, now, k, false, touches, step, done);
    touches, done := RecordFacts(oldFacts, newFacts, touches, step, done);
  }

  lemma NamesAlone(done0: set<Sym>, newEnts: seq<Ent>, oldEnts: seq<Ent>)
    requires done0 <= {Whole}
    ensures forall s :: s in done0 + NameSyms(newEnts) + NameSyms(oldEnts) ==> !s.Residue? && !s.Anchor?
  {
  }

  lemma EntsFresh(ents: seq<Ent>, done0: set<Sym>)
    requires done0 <= {Whole}
    ensures forall e :: e in ents ==> EntSym(e) !in done0
  {
  }

  lemma UnmatchedFresh(oldEnts: seq<Ent>, newEnts: seq<Ent>, done0: set<Sym>)
    requires done0 <= {Whole}
    ensures forall e :: e in oldEnts && Find(newEnts, e.name).None? ==> EntSym(e) !in done0 + NameSyms(newEnts)
  {
    forall e | e in oldEnts && Find(newEnts, e.name).None? ensures EntSym(e) !in NameSyms(newEnts) {
      forall d | d in newEnts ensures EntSym(d) != EntSym(e) { }
    }
  }

  lemma EmitWhole(tier: Tier, before: Snapshot, after: Snapshot, k: nat, touches: seq<Touch>, done: set<Sym>)
    requires WellFormed(before) && WellFormed(after)
    requires RepOf(tier, before) == WholeFile || RepOf(tier, after) == WholeFile
    requires Emitted(touches, FileStep(tier, before, after, k), done) && Whole !in done
    ensures var was := if RepOf(tier, before) == WholeFile then Some(Blob(before.raw)) else None;
            var t := if RepOf(tier, after) == WholeFile then Touch(Whole, was, Blob(after.raw), Data(after.raw))
                     else Touch(Whole, was, Bottom(k), Gone);
            Emitted(touches + [t], FileStep(tier, before, after, k), done + {Whole})
  {
    WholeStep(tier, before, after, k);
    var was := if RepOf(tier, before) == WholeFile then Some(Blob(before.raw)) else None;
    var t := if RepOf(tier, after) == WholeFile then Touch(Whole, was, Blob(after.raw), Data(after.raw))
             else Touch(Whole, was, Bottom(k), Gone);
    hide FileStep, WellFormed, RepOf;
    EmitOne(touches, FileStep(tier, before, after, k), done, t);
  }

  /** Every symbol the step can touch has been looked at. */
  ghost predicate Covered(tier: Tier, before: Snapshot, after: Snapshot, done: set<Sym>)
    requires WellFormed(before) && WellFormed(after)
  {
    && (RepOf(tier, before) == WholeFile || RepOf(tier, after) == WholeFile ==> Whole in done)
    && NameSyms(PartsEnts(tier, before)) <= done && NameSyms(PartsEnts(tier, after)) <= done
    && (forall s: Sym :: s.Residue? && (s.after in PartsSegments(tier, before) || s.after in PartsSegments(tier, after))
          ==> s in done)
    && (forall s: Sym :: s.Anchor? && s.name in PartsFacts(tier, after) ==> s in done)
  }

  lemma CoveredIsAll(tier: Tier, before: Snapshot, after: Snapshot, k: nat, done: set<Sym>)
    requires WellFormed(before) && WellFormed(after) && Covered(tier, before, after, done)
    ensures forall s :: s in FileStep(tier, before, after, k) ==> s in done
  {
    hide FileStep, NameSyms, PartsEnts, PartsSegments, PartsFacts, WellFormed, RepOf;
    forall s | s in FileStep(tier, before, after, k) ensures s in done { StepCovered(tier, before, after, k, s); }
  }

  lemma FlipSides(tier: Tier, before: Snapshot, after: Snapshot, k: nat)
    requires WellFormed(before) && WellFormed(after) && RepOf(tier, before) == ByParts
             && RepOf(tier, after) == WholeFile
    ensures LaidOut(before.raw, InBytes(before.ents))
    ensures EntitySide(FileStep(tier, before, after, k), k, before.raw, before.ents, [], [])
    ensures GapSide(FileStep(tier, before, after, k), k, Segments(before.raw, InBytes(before.ents)), map[], true)
    ensures PartsEnts(tier, before) == before.ents
            && PartsSegments(tier, before) == Segments(before.raw, InBytes(before.ents))
  {
    StepSides(tier, before, after, k);
    InBytesIsLaidOut(before.raw, before.ents);
    PartsUnfold(tier, before);
    NoParts(tier, after);
    hide FileStep, EntitySide, GapSide, FactSide, PartsEnts, PartsSegments, PartsFacts, Segments;
  }

  lemma StepDone(tier: Tier, before: Snapshot, after: Snapshot, k: nat, touches: seq<Touch>, done: set<Sym>)
    requires WellFormed(before) && WellFormed(after) && Emitted(touches, FileStep(tier, before, after, k), done)
             && Covered(tier, before, after, done)
    ensures AsMap(touches) == FileStep(tier, before, after, k) && OneEach(touches)
  {
    hide FileStep, Emitted, Covered, WellFormed;
    CoveredIsAll(tier, before, after, k, done);
    EmittedAll(touches, FileStep(tier, before, after, k), done);
  }

  /** The unparseable branch: close what the parent had by parts, then the whole-file touch. */
  method MineFlip(tier: Tier, before: Snapshot, after: Snapshot, k: nat) returns (touches: seq<Touch>)
    requires WellFormed(before) && WellFormed(after) && tier.EntityTier? && Unparseable(after)
    ensures AsMap(touches) == FileStep(tier, before, after, k) && OneEach(touches)
  {
    ghost var done;
    touches, done := MineClosing(tier, before, after, k);
    FlipCovers(tier, before, after, done);
    hide FileStep, Emitted, Covered, WellFormed, NameSyms, PartsEnts, PartsSegments;
    EmitWhole(tier, before, after, k, touches, done);
    var wholeBefore := if before.Present? && Unparseable(before) then Some(Blob(before.raw)) else None;
    touches := touches + [Touch(Whole, wholeBefore, Blob(after.raw), Data(after.raw))];
    StepDone(tier, before, after, k, touches, done + {Whole});
  }

  lemma ClosedCovers(done: set<Sym>, names: set<Sym>, segments: map<Option<Name>, Bytes>)
    requires forall s :: s in done <==> s in names || (s.Residue? && s.after in segments)
    ensures names <= done
    ensures forall a :: a in segments ==> Residue(a) in done
    ensures Whole in done ==> Whole in names
  {
  }

  /** The losing side of a flip, closed: its entities and its non-empty gaps. */
  method CloseParts(tier: Tier, before: Snapshot, ghost after: Snapshot, k: nat)
    returns (touches: seq<Touch>, ghost done: set<Sym>)
    requires WellFormed(before) && WellFormed(after) && RepOf(tier, before) == ByParts
             && RepOf(tier, after) == WholeFile && before.Present?
    ensures Emitted(touches, FileStep(tier, before, after, k), done) && Whole !in done
    ensures NameSyms(PartsEnts(tier, before)) <= done
    ensures forall a :: a in PartsSegments(tier, before) ==> Residue(a) in done
  {
    NoWholeName(before.ents);
    hide *;
    ghost var step := FileStep(tier, before, after, k);
    FlipSides(tier, before, after, k);
    var segments := ResidueSegments(before.raw, before.ents);
    touches, done := CloseEntityRep(before.raw, before.ents, segments, k, step);
    ClosedCovers(done, NameSyms(before.ents), segments);
  }

  lemma NoWholeName(ents: seq<Ent>)
    ensures Whole !in NameSyms(ents)
  {
  }

  /** Nothing to close when the parent was not represented by parts. */
  method MineClosing(tier: Tier, before: Snapshot, after: Snapshot, k: nat)
    returns (touches: seq<Touch>, ghost done: set<Sym>)
    requires WellFormed(before) && WellFormed(after) && tier.EntityTier? && Unparseable(after)
    ensures Emitted(touches, FileStep(tier, before, after, k), done) && Whole !in done
    ensures NameSyms(PartsEnts(tier, before)) <= done
    ensures forall a :: a in PartsSegments(tier, before) ==> Residue(a) in done
  {
    touches, done := [], {};
    EmittedNothing(FileStep(tier, before, after, k));
    hide FileStep, Emitted, Segments, PartsSegments, PartsEnts, Extracted, LaidOut, InBytes, NameSyms, WellFormed;
    if before.Present? && !Unparseable(before) {
      touches, done := CloseParts(tier, before, after, k);
    } else {
      NoParts(tier, before);
      NoNames();
    }
  }

  lemma NoNames()
    ensures NameSyms([]) == {}
  {
  }

  lemma FlipCovers(tier: Tier, before: Snapshot, after: Snapshot, done: set<Sym>)
    requires WellFormed(before) && WellFormed(after) && RepOf(tier, after) == WholeFile
    requires NameSyms(PartsEnts(tier, before)) <= done
    requires forall a :: a in PartsSegments(tier, before) ==> Residue(a) in done
    ensures Covered(tier, before, after, done + {Whole})
  {
    assert NameSyms(PartsEnts(tier, after)) == {};
    forall s: Sym | s.Residue? && s.after in PartsSegments(tier, before)
      ensures s in done
    {
      assert s == Residue(s.after);
    }
    hide PartsSegments, WellFormed;
    assert forall s: Sym :: s.Residue? ==> s.after !in PartsSegments(tier, after) by { NoParts(tier, after); }
    assert forall s: Sym :: s.Anchor? ==> s.name !in PartsFacts(tier, after) by { NoParts(tier, after); }
  }

  lemma NoParts(tier: Tier, s: Snapshot)
    requires WellFormed(s) && RepOf(tier, s) != ByParts
    ensures PartsSegments(tier, s) == map[] && PartsFacts(tier, s) == map[] && PartsEnts(tier, s) == []
  {
  }

  lemma OpaqueCovers(before: Snapshot, after: Snapshot)
    requires WellFormed(before) && WellFormed(after)
    ensures Covered(OpaqueTier, before, after, {Whole})
  {
    hide WellFormed;
  }

  lemma OpaqueRep(s: Snapshot)
    ensures RepOf(OpaqueTier, s) == if s.Present? then WholeFile else NotTracked
  {
  }

  /** The opaque branch. */
  method MineOpaque(before: Snapshot, after: Snapshot, k: nat) returns (touches: seq<Touch>)
    requires WellFormed(before) && WellFormed(after) && (before.Present? || after.Present?)
    ensures AsMap(touches) == FileStep(OpaqueTier, before, after, k) && OneEach(touches)
  {
    touches := [];
    OpaqueCovers(before, after);
    OpaqueRep(before);
    OpaqueRep(after);
    hide *;
    EmittedNothing(FileStep(OpaqueTier, before, after, k));
    EmitWhole(OpaqueTier, before, after, k, touches, {});
    assert {} + {Whole} == {Whole};
    var wholeBefore := if before.Present? then Some(Blob(before.raw)) else None;
    touches := touches + [if after.Absent? then Touch(Whole, wholeBefore, Bottom(k), Gone)
                          else Touch(Whole, wholeBefore, Blob(after.raw), Data(after.raw))];
    StepDone(OpaqueTier, before, after, k, touches, {Whole});
  }

  /** The parseable branch (and deletion): close a whole-file parent, then diff the parts. */
  method MineParsed(tier: Tier, before: Snapshot, after: Snapshot, k: nat) returns (touches: seq<Touch>)
    requires WellFormed(before) && WellFormed(after) && tier.EntityTier? && !Unparseable(after)
    ensures AsMap(touches) == FileStep(tier, before, after, k) && OneEach(touches)
  {
    ghost var done: set<Sym> := {};
    touches := [];
    EmittedNothing(FileStep(tier, before, after, k));
    hide FileStep, Emitted, NameSyms, WellFormed, PartsEnts, PartsSegments, PartsFacts, Covered;
    if before.Present? && Unparseable(before) {
      EmitWhole(tier, before, after, k, touches, done);
      touches := touches + [Touch(Whole, Some(Blob(before.raw)), Bottom(k), Gone)];
      done := done + {Whole};
    }
    ghost var done0 := done;
    touches, done := MineParts(tier, before, after, k, touches, done);
    PartsCover(tier, before, after, done0, done);
    hide *;
    StepDone(tier, before, after, k, touches, done);
  }

  lemma PartsCover(tier: Tier, before: Snapshot, after: Snapshot, done0: set<Sym>, done: set<Sym>)
    requires WellFormed(before) && WellFormed(after) && RepOf(tier, after) != WholeFile
    requires RepOf(tier, before) == WholeFile ==> Whole in done0
    requires forall s :: s in done <==>
      s in done0 || s in NameSyms(PartsEnts(tier, before)) || s in NameSyms(PartsEnts(tier, after))
      || (s.Residue? && (s.after in PartsSegments(tier, before) || s.after in PartsSegments(tier, after)))
      || (s.Anchor? && s.name in PartsFacts(tier, after))
    ensures Covered(tier, before, after, done)
  {
    hide PartsEnts, PartsSegments, PartsFacts, NameSyms, WellFormed;
  }

  /** The per-file body of `_mine_one` for a listed path: exactly the difference of the tables. */
  method MineFile(tier: Tier, before: Snapshot, after: Snapshot, k: nat) returns (touches: seq<Touch>)
    requires WellFormed(before) && WellFormed(after) && (before.Present? || after.Present?)
    ensures AsMap(touches) == FileStep(tier, before, after, k) && OneEach(touches)
  {
    touches := [];
    if tier.IgnoredTier? {
      assert FileStep(tier, before, after, k) == map[];
      return;
    }
    hide FileStep, WellFormed;
    if tier.OpaqueTier? {
      touches := MineOpaque(before, after, k);
    } else if Unparseable(after) {
      touches := MineFlip(tier, before, after, k);
    } else {
      touches := MineParsed(tier, before, after, k);
    }
  }

  /** The parts diff, with each side's entities, gaps and facts extracted as the source does. */
  method MineParts(tier: Tier, before: Snapshot, after: Snapshot, k: nat, touches0: seq<Touch>, ghost done0: set<Sym>)
    returns (touches: seq<Touch>, ghost done: set<Sym>)
    requires WellFormed(before) && WellFormed(after) && tier.EntityTier? && RepOf(tier, after) != WholeFile
    requires Emitted(touches0, FileStep(tier, before, after, k), done0) && done0 <= {Whole}
    ensures Emitted(touches, FileStep(tier, before, after, k), done)
    ensures forall s :: s in done <==>
      s in done0 || s in NameSyms(PartsEnts(tier, before)) || s in NameSyms(PartsEnts(tier, after))
      || (s.Residue? && (s.after in PartsSegments(tier, before) || s.after in PartsSegments(tier, after)))
      || (s.Anchor? && s.name in PartsFacts(tier, after))
  {
    StepSides(tier, before, after, k);
    ghost var step := FileStep(tier, before, after, k);
    var oldRaw, oldEnts, was, oldFacts := ExtractParts(tier, before);
    var newRaw, newEnts, now, newFacts := ExtractParts(tier, after);
    hide EntitySide, GapSide, FactSide, FileStep, Emitted, PartsRaw, PartsEnts, PartsSegments, PartsFacts;
    touches, done := DiffParts(oldRaw, oldEnts, was, oldFacts, newRaw, newEnts, now, newFacts, k, touches0, step,
                               done0);
  }

  method ExtractParts(tier: Tier, s: Snapshot)
    returns (raw: Bytes, ents: seq<Ent>, segments: map<Option<Name>, Bytes>, facts: Layout.Facts)
    requires WellFormed(s)
    ensures raw == PartsRaw(tier, s) && ents == PartsEnts(tier, s) && segments == PartsSegments(tier, s)
            && facts == PartsFacts(tier, s)
  {
    raw, ents, segments, facts := [], [], map[], map[];
    if RepOf(tier, s) == ByParts {
      raw, ents := s.raw, s.ents;
      segments := ResidueSegments(s.raw, s.ents);
      facts := TopLevelAnchorFacts(s.ents);
    }
  }
}
