/** Matching pre-v3 ops with their re-mined counterparts (`sgt/core/migrate.py`, `_build_map`). */
module BuildMap {
  import opened Names

  /** A version in a footprint; a removal is bare under the old miner and salted under the new. */
  datatype OpVersion = Hash(digest: Name) | Removed | RemovedAt(commit: Name)

  datatype Change = Change(before: Option<OpVersion>, after: OpVersion)

  /** `rehash` is the id this op's content has under the current miner version. */
  datatype Op = Op(id: Name, rehash: Name, current: bool, footprint: map<Name, Change>, provenance: set<Name>)

  datatype AfterFact = AfterFact(sym: Name, version: OpVersion)

  function Canonical(v: OpVersion): OpVersion {
    if v.RemovedAt? then Removed else v
  }

  /** The op's frontier, every removal reduced to the bare sentinel. */
  function Afterset(op: Op): set<AfterFact> {
    set s | s in op.footprint :: AfterFact(s, Canonical(op.footprint[s].after))
  }

  /** Two versions a frontier cannot tell apart: the same, or removals of whatever kind. */
  predicate SameAfter(v: OpVersion, w: OpVersion) {
    v == w || (!v.Hash? && !w.Hash?)
  }

  /** Ops have one frontier exactly when they touch the same symbols and leave each the same, whichever
      commits the removals are salted with and whatever the symbols were before. */
  lemma AftersetForgetsSalts(a: Op, b: Op)
    ensures Afterset(a) == Afterset(b) <==>
            a.footprint.Keys == b.footprint.Keys
            && forall s :: s in a.footprint ==> SameAfter(a.footprint[s].after, b.footprint[s].after)
  {
    if Afterset(a) == Afterset(b) {
      FrontierCovers(a, b);
      FrontierCovers(b, a);
    } else if a.footprint.Keys == b.footprint.Keys {
      var f :| f in Afterset(a) + Afterset(b) && !(f in Afterset(a) && f in Afterset(b));
      assert !SameAfter(a.footprint[f.sym].after, b.footprint[f.sym].after);
    }
  }

  lemma FrontierCovers(a: Op, b: Op)
    requires Afterset(a) <= Afterset(b)
    ensures forall s :: s in a.footprint ==> s in b.footprint && SameAfter(a.footprint[s].after, b.footprint[s].after)
  {
    forall s | s in a.footprint ensures s in b.footprint && SameAfter(a.footprint[s].after, b.footprint[s].after) {
      assert AfterFact(s, Canonical(a.footprint[s].after)) in Afterset(b);
    }
  }

  function IdsOf(ops: seq<Op>): (r: set<Name>)
    ensures forall id :: id in r <==> exists op :: op in ops && op.id == id
  {
    set op | op in ops :: op.id
  }

  /** The ids of the entries with that frontier, in order. */
  function Holders(ops: seq<Op>, key: set<AfterFact>): seq<Name> {
    if ops == [] then []
    else
      var init, op := Holders(ops[..|ops| - 1], key), ops[|ops| - 1];
      if Afterset(op) == key then init + [op.id] else init
  }

  datatype Rung = Clean(id: Name) | Frontier(id: Name) | Orphan

  /** Where an op goes: its re-hash if that was re-mined, else the one op with its frontier, else
      nowhere. */
  function RungOf(v3: seq<Op>, op: Op): Rung {
    if op.rehash in IdsOf(v3) then Clean(op.rehash)
    else if |Holders(v3, Afterset(op))| == 1 then Frontier(Holders(v3, Afterset(op))[0])
    else Orphan
  }

  /** Holds of exactly one entry of the list. */
  ghost predicate SoleEntry(ops: seq<Op>, key: set<AfterFact>, k: nat) {
    k < |ops| && Afterset(ops[k]) == key && forall i :: 0 <= i < |ops| && Afterset(ops[i]) == key ==> i == k
  }

  lemma {:induction false} HoldersCount(ops: seq<Op>, key: set<AfterFact>)
    ensures |Holders(ops, key)| == 0 <==> forall i :: 0 <= i < |ops| ==> Afterset(ops[i]) != key
    ensures |Holders(ops, key)| == 1 ==> exists k: nat :: SoleEntry(ops, key, k) && Holders(ops, key)[0] == ops[k].id
    ensures (exists k: nat :: SoleEntry(ops, key, k)) ==> |Holders(ops, key)| == 1
  {
    hide Afterset;
    if ops != [] {
      var n := |ops| - 1;
      var init := ops[..n];
      HoldersCount(init, key);
      assert forall i :: 0 <= i < n ==> ops[i] == init[i];
      if Afterset(ops[n]) == key {
        if |Holders(init, key)| == 0 { assert SoleEntry(ops, key, n); }
        if k: nat :| SoleEntry(ops, key, k) {
          assert k == n;
        }
      } else {
        if |Holders(init, key)| == 1 {
          var k: nat :| SoleEntry(init, key, k) && Holders(init, key)[0] == init[k].id;
          assert SoleEntry(ops, key, k);
        }
        if k: nat :| SoleEntry(ops, key, k) {
          assert SoleEntry(init, key, k);
        }
      }
    }
  }

  /** An op whose re-hash was not re-mined is bound to a re-mined op exactly when that op is the only
      entry with its frontier; otherwise it is orphaned, never bound to the wrong tip. */
  lemma FrontierBindsOnlySole(v3: seq<Op>, op: Op)
    requires op.rehash !in IdsOf(v3)
    ensures RungOf(v3, op).Frontier? <==> exists k: nat :: SoleEntry(v3, Afterset(op), k)
    ensures forall k: nat :: SoleEntry(v3, Afterset(op), k) ==> RungOf(v3, op) == Frontier(v3[k].id)
    ensures RungOf(v3, op) == Orphan <==> !exists k: nat :: SoleEntry(v3, Afterset(op), k)
  {
    HoldersCount(v3, Afterset(op));
    hide Afterset, Holders;
  }

  /** Whatever an op is mapped to was re-mined. */
  lemma {:induction false} CounterpartIsMined(v3: seq<Op>, op: Op)
    ensures !RungOf(v3, op).Orphan? ==> RungOf(v3, op).id in IdsOf(v3)
  {
    if RungOf(v3, op).Frontier? {
      HoldersCount(v3, Afterset(op));
      var k: nat :| SoleEntry(v3, Afterset(op), k) && Holders(v3, Afterset(op))[0] == v3[k].id;
      assert v3[k] in v3;
    }
  }

  // ---------------------------------------------------------------------------------------
  // The whole map.

  ghost predicate DistinctOps(ops: seq<Op>) {
    forall i, j :: 0 <= i < j < |ops| ==> ops[i].id != ops[j].id
  }

  function MappingOf(v2: seq<Op>, v3: seq<Op>): map<Name, Name> {
    if v2 == [] then map[]
    else
      var init, op := MappingOf(v2[..|v2| - 1], v3), v2[|v2| - 1];
      var rung := RungOf(v3, op);
      if rung.Orphan? then init else init[op.id := rung.id]
  }

  function OrphansOf(v2: seq<Op>, v3: seq<Op>): set<Name> {
    if v2 == [] then {}
    else
      var init, op := OrphansOf(v2[..|v2| - 1], v3), v2[|v2| - 1];
      if RungOf(v3, op).Orphan? then init + {op.id} else init
  }

  function CountClean(v2: seq<Op>, v3: seq<Op>): nat {
    if v2 == [] then 0
    else CountClean(v2[..|v2| - 1], v3) + if RungOf(v3, v2[|v2| - 1]).Clean? then 1 else 0
  }

  function CountFrontier(v2: seq<Op>, v3: seq<Op>): nat {
    if v2 == [] then 0
    else CountFrontier(v2[..|v2| - 1], v3) + if RungOf(v3, v2[|v2| - 1]).Frontier? then 1 else 0
  }

  lemma {:induction false} MappingEntries(v2: seq<Op>, v3: seq<Op>)
    requires DistinctOps(v2)
    ensures MappingOf(v2, v3).Keys + OrphansOf(v2, v3) == IdsOf(v2)
    ensures MappingOf(v2, v3).Keys !! OrphansOf(v2, v3)
    ensures forall op :: op in v2 ==> (op.id in OrphansOf(v2, v3) <==> RungOf(v3, op).Orphan?)
    ensures forall op :: op in v2 && !RungOf(v3, op).Orphan?
              ==> op.id in MappingOf(v2, v3) && MappingOf(v2, v3)[op.id] == RungOf(v3, op).id
  {
    hide RungOf;
    if v2 != [] {
      var n := |v2| - 1;
      var init, op := v2[..n], v2[n];
      MappingEntries(init, v3);
      LastId(v2);
      MapsLast(v2, v3);
      hide *;
      forall o | o in v2 && o != op ensures o in init && o.id != op.id { }
    }
  }

  lemma LastId(v2: seq<Op>)
    requires v2 != [] && DistinctOps(v2)
    ensures var n := |v2| - 1;
            && v2[n].id !in IdsOf(v2[..n]) && IdsOf(v2) == IdsOf(v2[..n]) + {v2[n].id}
            && forall o :: o in v2 && o != v2[n] ==> o in v2[..n] && o.id in IdsOf(v2[..n])
  {
    assert v2 == v2[..|v2| - 1] + [v2[|v2| - 1]];
  }

  lemma MapsLast(v2: seq<Op>, v3: seq<Op>)
    requires v2 != []
    ensures var n := |v2| - 1;
            var op, m, o := v2[n], MappingOf(v2[..n], v3), OrphansOf(v2[..n], v3);
            if RungOf(v3, op).Orphan? then MappingOf(v2, v3) == m && OrphansOf(v2, v3) == o + {op.id}
            else MappingOf(v2, v3) == m[op.id := RungOf(v3, op).id] && OrphansOf(v2, v3) == o
  {
    hide RungOf;
  }

  lemma FreshKey(m: map<Name, Name>, k: Name, v: Name)
    requires k !in m
    ensures |m[k := v]| == |m| + 1
  {
    assert m[k := v].Keys == m.Keys + {k};
  }

  lemma NewId(v2: seq<Op>, v3: seq<Op>)
    requires v2 != [] && DistinctOps(v2)
    ensures var n := |v2| - 1; v2[n].id !in MappingOf(v2[..n], v3) && v2[n].id !in OrphansOf(v2[..n], v3)
  {
    hide RungOf, MappingOf, OrphansOf;
    var n := |v2| - 1;
    MappingEntries(v2[..n], v3);
    assert v2[n].id !in IdsOf(v2[..n]);
  }

  /** Every pre-v3 op is accounted for exactly once: re-keyed, matched by frontier, or orphaned. */
  lemma {:induction false} EveryOpAccounted(v2: seq<Op>, v3: seq<Op>)
    requires DistinctOps(v2)
    ensures CountClean(v2, v3) + CountFrontier(v2, v3) == |MappingOf(v2, v3)|
    ensures |MappingOf(v2, v3)| + |OrphansOf(v2, v3)| == |v2|
  {
    hide RungOf;
    if v2 != [] {
      var n := |v2| - 1;
      NewId(v2, v3);
      assert DistinctOps(v2[..n]);
      EveryOpAccounted(v2[..n], v3);
      hide DistinctOps;
      FreshKey(MappingOf(v2[..n], v3), v2[n].id, if RungOf(v3, v2[n]).Orphan? then "" else RungOf(v3, v2[n]).id);
    }
  }

  lemma {:induction false} MappingTargets(v2: seq<Op>, v3: seq<Op>)
    ensures forall id :: id in MappingOf(v2, v3) ==> id in IdsOf(v2) && MappingOf(v2, v3)[id] in IdsOf(v3)
  {
    hide RungOf;
    if v2 != [] {
      var n := |v2| - 1;
      MappingTargets(v2[..n], v3);
      CounterpartIsMined(v3, v2[n]);
      assert v2 == v2[..n] + [v2[n]];
    }
  }

  // ---------------------------------------------------------------------------------------
  // The loops.

  ghost predicate Indexed(ops: seq<Op>, byFrontier: map<set<AfterFact>, Name>, ambiguous: set<set<AfterFact>>) {
    forall key {:trigger Holders(ops, key)} ::
      && (key in byFrontier <==> Holders(ops, key) != [])
      && (key in byFrontier ==> byFrontier[key] == Holders(ops, key)[0])
      && (key in ambiguous <==> |Holders(ops, key)| > 1)
  }

  lemma IndexMore(ops: seq<Op>, byFrontier: map<set<AfterFact>, Name>, ambiguous: set<set<AfterFact>>, i: nat)
    requires i < |ops| && Indexed(ops[..i], byFrontier, ambiguous)
    ensures var key := Afterset(ops[i]);
            if key in byFrontier then Indexed(ops[..i + 1], byFrontier, ambiguous + {key})
            else Indexed(ops[..i + 1], byFrontier[key := ops[i].id], ambiguous)
  {
    var k, more, less := Afterset(ops[i]), ops[..i + 1], ops[..i];
    hide Afterset;
    assert more[..i] == less;
    forall key ensures Holders(more, key) == if key == k then Holders(less, key) + [ops[i].id] else Holders(less, key) {
    }
    assert forall key {:trigger Holders(more, key)} :: Holders(less, key) == Holders(less, key);
  }

  method IndexFrontiers(v3: seq<Op>) returns (byFrontier: map<set<AfterFact>, Name>, ambiguous: set<set<AfterFact>>)
    ensures Indexed(v3, byFrontier, ambiguous)
  {
    byFrontier, ambiguous := map[], {};
    for i := 0 to |v3|
      invariant Indexed(v3[..i], byFrontier, ambiguous)
    {
      var key := Afterset(v3[i]);
      IndexMore(v3, byFrontier, ambiguous, i);
      hide Indexed, Afterset;
      if key in byFrontier {
        ambiguous := ambiguous + {key};
      } else {
        byFrontier := byFrontier[key := v3[i].id];
      }
    }
    assert v3[..|v3|] == v3;
  }

  lemma IndexedRung(v3: seq<Op>, byFrontier: map<set<AfterFact>, Name>, ambiguous: set<set<AfterFact>>, op: Op)
    requires Indexed(v3, byFrontier, ambiguous)
    ensures var key := Afterset(op);
            RungOf(v3, op) == if op.rehash in IdsOf(v3) then Clean(op.rehash)
                              else if key in byFrontier && key !in ambiguous then Frontier(byFrontier[key])
                              else Orphan
  {
    assert |Holders(v3, Afterset(op))| >= 0;
    hide Afterset;
  }

  method Build(v2: seq<Op>, v3: seq<Op>)
    returns (mapping: map<Name, Name>, orphaned: seq<Name>, clean: nat, remapped: nat)
    ensures mapping == MappingOf(v2, v3)
    ensures orphaned == Sorted(OrphansOf(v2, v3))
    ensures clean == CountClean(v2, v3) && remapped == CountFrontier(v2, v3)
  {
    var v3Ids := IdsOf(v3);
    var byFrontier, ambiguous := IndexFrontiers(v3);
    var orphans: set<Name> := {};
    mapping, clean, remapped := map[], 0, 0;
    for i := 0 to |v2|
      invariant mapping == MappingOf(v2[..i], v3) && orphans == OrphansOf(v2[..i], v3)
      invariant clean == CountClean(v2[..i], v3) && remapped == CountFrontier(v2[..i], v3)
    {
      var op := v2[i];
      assert v2[..i + 1][..i] == v2[..i];
      IndexedRung(v3, byFrontier, ambiguous, op);
      hide RungOf, Indexed, Afterset, IdsOf;
      if op.rehash in v3Ids {
        mapping, clean := mapping[op.id := op.rehash], clean + 1;
        continue;
      }
      var key := Afterset(op);
      if key in byFrontier && key !in ambiguous {
        mapping, remapped := mapping[op.id := byFrontier[key]], remapped + 1;
        continue;
      }
      orphans := orphans + {op.id};
    }
    assert v2[..|v2|] == v2;
    orphaned := Sorted(orphans);
  }
}
