/** Grounding by counting (`sgt/core/order.py`, `_grounded`): one pass over a growing worklist, each op's
    count of unresolved needs going down until it joins the list.  It computes the least fixpoint. */
module Grounding {
  import opened Names
  import opened Order

  type Needs = map<Name, set<Key>>

  /** How many keys are still open. */
  ghost function Open(keys: set<Key>, resolved: set<Key>): nat {
    |keys - resolved|
  }

  ghost predicate NoneOpen(keys: set<Key>, resolved: set<Key>) {
    keys <= resolved
  }

  /** The counts are right, and the worklist holds exactly the ops with nothing left to resolve. */
  ghost predicate Tally(needed: Needs, resolved: set<Key>, indegree: map<Name, nat>, grounded: seq<Name>) {
    && indegree.Keys == needed.Keys && Distinct(grounded)
    && (forall d {:trigger indegree[d]} :: d in needed ==> indegree[d] == Open(needed[d], resolved))
    && (forall d {:trigger d in grounded} :: d in grounded <==> d in needed && NoneOpen(needed[d], resolved))
  }

  /** As `Tally`, with `key` resolved for the ops in `done` only. */
  ghost predicate PartTally(needed: Needs, resolved: set<Key>, key: Key, done: set<Name>, indegree: map<Name, nat>,
                            grounded: seq<Name>) {
    && indegree.Keys == needed.Keys && Distinct(grounded)
    && (forall d {:trigger indegree[d]} :: d in needed
          ==> indegree[d] == Open(needed[d], Seen(resolved, key, d in done)))
    && (forall d {:trigger d in grounded} :: d in grounded
          <==> d in needed && NoneOpen(needed[d], Seen(resolved, key, d in done)))
  }

  ghost function Seen(resolved: set<Key>, key: Key, withKey: bool): set<Key> {
    if withKey then resolved + {key} else resolved
  }

  function Dependents(needed: Needs, key: Key): set<Name> {
    set d | d in needed && key in needed[d]
  }

  lemma PartStarts(needed: Needs, resolved: set<Key>, key: Key, indegree: map<Name, nat>, grounded: seq<Name>)
    requires Tally(needed, resolved, indegree, grounded)
    ensures PartTally(needed, resolved, key, {}, indegree, grounded)
  {
  }

  lemma NotDependent(keys: set<Key>, resolved: set<Key>, key: Key)
    requires key !in keys
    ensures Open(keys, resolved + {key}) == Open(keys, resolved)
    ensures NoneOpen(keys, resolved + {key}) <==> NoneOpen(keys, resolved)
  {
    assert keys - (resolved + {key}) == keys - resolved;
  }

  lemma PartEnds(needed: Needs, resolved: set<Key>, key: Key, indegree: map<Name, nat>, grounded: seq<Name>)
    requires PartTally(needed, resolved, key, Dependents(needed, key), indegree, grounded)
    ensures Tally(needed, resolved + {key}, indegree, grounded)
  {
    hide Distinct, Open, NoneOpen;
    forall d | d in needed && key !in needed[d]
      ensures Open(needed[d], resolved + {key}) == Open(needed[d], resolved)
      ensures NoneOpen(needed[d], resolved + {key}) <==> NoneOpen(needed[d], resolved)
    {
      NotDependent(needed[d], resolved, key);
    }
  }

  lemma CountDrops(keys: set<Key>, resolved: set<Key>, key: Key)
    requires key in keys && key !in resolved
    ensures Open(keys, resolved + {key}) == Open(keys, resolved) - 1 && !NoneOpen(keys, resolved)
    ensures Open(keys, resolved + {key}) == 0 <==> NoneOpen(keys, resolved + {key})
  {
    assert keys - resolved == keys - (resolved + {key}) + {key};
  }

  /** One dependent's count goes down by one; at zero it joins. */
  lemma PartMore(needed: Needs, resolved: set<Key>, key: Key, done: set<Name>, indegree: map<Name, nat>,
                 grounded: seq<Name>, d: Name)
    requires PartTally(needed, resolved, key, done, indegree, grounded)
    requires key !in resolved && d in Dependents(needed, key) && d !in done
    ensures d in indegree && indegree[d] > 0
    ensures var n := indegree[d] - 1;
            PartTally(needed, resolved, key, done + {d}, indegree[d := n], if n == 0 then grounded + [d] else grounded)
  {
    hide Open, NoneOpen;
    CountDrops(needed[d], resolved, key);
    var n := indegree[d] - 1;
    assert d !in grounded;
    DistinctConcat(grounded, [d]);
    hide Distinct;
  }

  /** `resolved_keys.add(key)` and the loop over the ops that need it. */
  method Resolve(needed: Needs, ghost resolved: set<Key>, key: Key, indegree0: map<Name, nat>, grounded0: seq<Name>)
    returns (indegree: map<Name, nat>, grounded: seq<Name>)
    requires Tally(needed, resolved, indegree0, grounded0) && key !in resolved
    ensures Tally(needed, resolved + {key}, indegree, grounded) && grounded0 <= grounded
  {
    indegree, grounded := indegree0, grounded0;
    var left := Dependents(needed, key);
    ghost var all, done: set<Name> := left, {};
    PartStarts(needed, resolved, key, indegree, grounded);
    assert Parted(all, {}, left);
    hide *;
    while left != {}
      invariant Parted(all, done, left) && grounded0 <= grounded
      invariant PartTally(needed, resolved, key, done, indegree, grounded)
      decreases left
    {
      var d :| d in left;
      MoveOne(all, done, left, d);
      PartMore(needed, resolved, key, done, indegree, grounded, d);
      indegree := indegree[d := indegree[d] - 1];
      if indegree[d] == 0 {
        Longer(grounded0, grounded, d);
        grounded := grounded + [d];
      }
      left, done := left - {d}, done + {d};
    }
    AllMoved(all, done);
    PartEnds(needed, resolved, key, indegree, grounded);
  }

  ghost predicate Parted(all: set<Name>, done: set<Name>, left: set<Name>) {
    done !! left && done + left == all
  }

  lemma MoveOne(all: set<Name>, done: set<Name>, left: set<Name>, d: Name)
    requires Parted(all, done, left) && d in left
    ensures d in all && d !in done && Parted(all, done + {d}, left - {d})
  {
  }

  lemma AllMoved(all: set<Name>, done: set<Name>)
    requires Parted(all, done, {})
    ensures done == all
  {
  }

  lemma Longer(a: seq<Name>, b: seq<Name>, x: Name)
    requires a <= b
    ensures a <= b + [x]
  {
  }

  // ---------------------------------------------------------------------------------------
  // What the worklist means.

  function AllNeeds(ops: Ops, declared: set<Declared>, within: set<Name>): (r: Needs)
    requires within <= ops.Keys
    ensures r.Keys == within && forall d :: d in r ==> r[d] == NeededBy(ops, declared, d)
  {
    map d | d in within :: NeededBy(ops, declared, d)
  }

  function Wanted(needed: Needs): set<Key> {
    set d, k | d in needed && k in needed[d] :: k
  }

  /** The needed keys an op produces. */
  function KeysFrom(ops: Ops, needed: Needs, id: Name): set<Key>
    requires id in ops
  {
    set k | k in Wanted(needed) && Produces(ops, id, k)
  }

  ghost predicate AllMet(ops: Ops, resolved: set<Key>, base: set<Name>)
    requires base <= ops.Keys
  {
    forall k {:trigger Met(ops, base, k)} :: k in resolved ==> Met(ops, base, k)
  }

  /** What the first `i` listed ops produce is resolved. */
  ghost predicate WorkedOff(ops: Ops, needed: Needs, resolved: set<Key>, grounded: seq<Name>, i: nat)
    requires i <= |grounded| && Elements(grounded) <= ops.Keys
  {
    forall j {:trigger grounded[j]} :: 0 <= j < i
      ==> grounded[j] in Elements(grounded) && KeysFrom(ops, needed, grounded[j]) <= resolved
  }

  /** Nothing on the list but what must be: every closed set contains it. */
  ghost predicate Forced(ops: Ops, declared: set<Declared>, within: set<Name>, grounded: seq<Name>)
    requires within <= ops.Keys
  {
    forall t {:trigger Closed(ops, declared, within, t)} :: Closed(ops, declared, within, t) ==> Elements(grounded) <= t
  }

  lemma ForcedNext(ops: Ops, declared: set<Declared>, within: set<Name>, resolved: set<Key>, before: seq<Name>,
                   grounded: seq<Name>)
    requires within <= ops.Keys && Forced(ops, declared, within, before) && Elements(before) <= within
    requires AllMet(ops, resolved, Elements(before))
    requires forall d :: d in grounded ==> d in within && NeededBy(ops, declared, d) <= resolved
    ensures Forced(ops, declared, within, grounded)
  {
    forall t {:trigger Closed(ops, declared, within, t)} | Closed(ops, declared, within, t)
      ensures Elements(grounded) <= t
    {
      forall d | d in grounded ensures d in t {
        hide NeededBy, Met, Produces;
        assert Elements(before) <= t;
        ReadyFrom(ops, declared, resolved, Elements(before), t, d);
      }
    }
  }

  lemma ReadyFrom(ops: Ops, declared: set<Declared>, resolved: set<Key>, base: set<Name>, t: set<Name>, d: Name)
    requires base <= t <= ops.Keys && d in ops && NeededBy(ops, declared, d) <= resolved
    requires AllMet(ops, resolved, base)
    ensures IsReady(ops, declared, t, d)
  {
    hide NeededBy;
    forall k | k in NeededBy(ops, declared, d) ensures Met(ops, t, k) {
      assert Met(ops, base, k);
    }
  }

  /** When the list is worked off, it is closed. */
  lemma WorkedOffIsClosed(ops: Ops, declared: set<Declared>, within: set<Name>, resolved: set<Key>,
                          indegree: map<Name, nat>, grounded: seq<Name>)
    requires within <= ops.Keys && Tally(AllNeeds(ops, declared, within), resolved, indegree, grounded)
             && Elements(grounded) <= within
    requires WorkedOff(ops, AllNeeds(ops, declared, within), resolved, grounded, |grounded|)
    ensures Closed(ops, declared, within, Elements(grounded))
  {
    var needed, s := AllNeeds(ops, declared, within), Elements(grounded);
    hide NeededBy, Produces;
    forall d | d in within && IsReady(ops, declared, s, d) ensures d in s {
      forall k | k in needed[d] ensures k in resolved {
        assert Met(ops, s, k);
        var p :| p in s && Produces(ops, p, k);
        var j :| 0 <= j < |grounded| && grounded[j] == p;
        assert k in Wanted(needed);
        assert k in KeysFrom(ops, needed, grounded[j]);
      }
      assert d in grounded;
    }
  }

  lemma MetGrows(ops: Ops, resolved: set<Key>, a: set<Name>, b: set<Name>)
    requires a <= b <= ops.Keys && AllMet(ops, resolved, a)
    ensures AllMet(ops, resolved, b)
  {
    hide Produces;
    forall k | k in resolved ensures Met(ops, b, k) { assert Met(ops, a, k); }
  }

  lemma MetMore(ops: Ops, resolved: set<Key>, base: set<Name>, id: Name, key: Key)
    requires base <= ops.Keys && AllMet(ops, resolved, base) && id in base && Produces(ops, id, key)
    ensures AllMet(ops, resolved + {key}, base)
  {
    assert Met(ops, base, key);
    hide Met;
  }

  lemma ListedAreDone(needed: Needs, resolved: set<Key>, indegree: map<Name, nat>, grounded: seq<Name>)
    requires Tally(needed, resolved, indegree, grounded)
    ensures forall d :: d in grounded ==> d in needed && needed[d] <= resolved
    ensures Elements(grounded) <= needed.Keys && |grounded| <= |needed.Keys|
  {
    DistinctCardinality(grounded);
    SubsetSize(Elements(grounded), needed.Keys);
  }

  /** The state between any two steps. */
  ghost predicate Working(ops: Ops, declared: set<Declared>, within: set<Name>, resolved: set<Key>,
                          indegree: map<Name, nat>, grounded: seq<Name>) {
    && within <= ops.Keys && Tally(AllNeeds(ops, declared, within), resolved, indegree, grounded)
    && Elements(grounded) <= within && AllMet(ops, resolved, Elements(grounded))
       && Forced(ops, declared, within, grounded)
  }

  lemma StillWorking(ops: Ops, declared: set<Declared>, within: set<Name>, resolved: set<Key>, indegree: map<Name, nat>,
                     grounded: seq<Name>,
                     id: Name, key: Key, indegree2: map<Name, nat>, grounded2: seq<Name>)
    requires Working(ops, declared, within, resolved, indegree, grounded) && id in grounded && id in ops
             && Produces(ops, id, key)
    requires Tally(AllNeeds(ops, declared, within), resolved + {key}, indegree2, grounded2) && grounded <= grounded2
    ensures Working(ops, declared, within, resolved + {key}, indegree2, grounded2)
  {
    var needed := AllNeeds(ops, declared, within);
    ListedAreDone(needed, resolved + {key}, indegree2, grounded2);
    assert Elements(grounded) <= Elements(grounded2) by {
      assert forall x :: x in grounded ==> x in grounded2;
    }
    hide Tally, Forced, AllMet, NeededBy, Produces;
    MetMore(ops, resolved, Elements(grounded), id, key);
    ForcedNext(ops, declared, within, resolved + {key}, grounded, grounded2);
    MetGrows(ops, resolved + {key}, Elements(grounded), Elements(grounded2));
  }

  lemma WorkingParts(ops: Ops, declared: set<Declared>, within: set<Name>, resolved: set<Key>, indegree: map<Name, nat>,
                     grounded: seq<Name>)
    requires Working(ops, declared, within, resolved, indegree, grounded)
    ensures within <= ops.Keys && Tally(AllNeeds(ops, declared, within), resolved, indegree, grounded)
    ensures Elements(grounded) <= within && Forced(ops, declared, within, grounded) && |grounded| <= |within|
  {
    ListedAreDone(AllNeeds(ops, declared, within), resolved, indegree, grounded);
    hide Tally, Forced, AllMet, NeededBy;
  }

  /** One key, resolved at most once. */
  method ResolveOnce(ops: Ops, declared: set<Declared>, within: set<Name>, needed: Needs, ghost id: Name, key: Key,
                     resolved0: set<Key>, indegree0: map<Name, nat>, grounded0: seq<Name>)
    returns (resolved: set<Key>, indegree: map<Name, nat>, grounded: seq<Name>)
    requires Working(ops, declared, within, resolved0, indegree0, grounded0) && id in grounded0 && id in ops
             && Produces(ops, id, key)
    requires within <= ops.Keys && needed == AllNeeds(ops, declared, within)
    ensures Working(ops, declared, within, resolved, indegree, grounded) && grounded0 <= grounded
            && resolved == resolved0 + {key}
  {
    hide *;
    resolved, indegree, grounded := resolved0, indegree0, grounded0;
    if key !in resolved {
      WorkingParts(ops, declared, within, resolved, indegree, grounded);
      indegree, grounded := Resolve(needed, resolved, key, indegree, grounded);
      StillWorking(ops, declared, within, resolved, indegree0, grounded0, id, key, indegree, grounded);
      resolved := resolved + {key};
    } else {
      assert resolved + {key} == resolved;
    }
  }

  lemma StaysListed(a: seq<Name>, b: seq<Name>, id: Name)
    requires id in a && a <= b
    ensures id in b
  {
    var j :| 0 <= j < |a| && a[j] == id;
    assert b[j] == id;
  }

  /** The keys one listed op produces, in whatever order. */
  method WorkOff(ops: Ops, declared: set<Declared>, within: set<Name>, needed: Needs, id: Name, resolved0: set<Key>,
                 indegree0: map<Name, nat>, grounded0: seq<Name>)
    returns (resolved: set<Key>, indegree: map<Name, nat>, grounded: seq<Name>)
    requires Working(ops, declared, within, resolved0, indegree0, grounded0) && id in grounded0 && id in ops
             && within <= ops.Keys && needed == AllNeeds(ops, declared, within)
    ensures Working(ops, declared, within, resolved, indegree, grounded) && grounded0 <= grounded
            && resolved0 <= resolved
    ensures KeysFrom(ops, needed, id) <= resolved
  {
    resolved, indegree, grounded := resolved0, indegree0, grounded0;
    var all := KeysFrom(ops, needed, id);
    var left := all;
    assert forall k :: k in all ==> Produces(ops, id, k);
    hide *;
    while left != {}
      invariant left <= all && all - left <= resolved && grounded0 <= grounded && resolved0 <= resolved
      invariant Working(ops, declared, within, resolved, indegree, grounded)
      decreases left
    {
      var key :| key in left;
      StaysListed(grounded0, grounded, id);
      resolved, indegree, grounded := ResolveOnce(ops, declared, within, needed, id, key, resolved, indegree, grounded);
      left := left - {key};
    }
  }

  lemma KeepsWorkedOff(ops: Ops, needed: Needs, resolved: set<Key>, grounded: seq<Name>, i: nat, resolved2: set<Key>,
                       grounded2: seq<Name>)
    requires i < |grounded| && Elements(grounded) <= ops.Keys && WorkedOff(ops, needed, resolved, grounded, i)
    requires grounded <= grounded2 && resolved <= resolved2 && Elements(grounded2) <= ops.Keys && grounded[i] in ops
             && KeysFrom(ops, needed, grounded[i]) <= resolved2
    ensures WorkedOff(ops, needed, resolved2, grounded2, i + 1)
  {
    hide KeysFrom;
    forall j {:trigger grounded2[j]} | 0 <= j < i + 1
      ensures grounded2[j] in Elements(grounded2) && KeysFrom(ops, needed, grounded2[j]) <= resolved2
    {
      assert grounded2[j] == grounded[j];
    }
  }

  function Free(needed: Needs): set<Name> {
    set d | d in needed && needed[d] == {}
  }

  lemma NoneLeft(keys: set<Key>)
    ensures Open(keys, {}) == |keys| && (NoneOpen(keys, {}) <==> keys == {})
  {
    assert keys - {} == keys;
  }

  lemma FreeTally(needed: Needs, indegree: map<Name, nat>, grounded: seq<Name>)
    requires indegree.Keys == needed.Keys
             && (forall d :: d in needed ==> indegree[d] == |needed[d]|) && grounded == Sorted(Free(needed))
    ensures Tally(needed, {}, indegree, grounded)
  {
    hide Sorted, Distinct, Open, NoneOpen;
    forall d | d in needed ensures Open(needed[d], {}) == indegree[d] && (d in grounded <==> NoneOpen(needed[d], {})) {
      NoneLeft(needed[d]);
    }
    forall d | d in grounded ensures d in needed { assert d in Free(needed); }
    hide Free;
  }

  lemma NothingForced(ops: Ops, declared: set<Declared>, within: set<Name>, grounded: seq<Name>)
    requires within <= ops.Keys && forall d :: d in grounded ==> d in within && NeededBy(ops, declared, d) <= {}
    ensures Forced(ops, declared, within, grounded)
            && (Elements(grounded) <= ops.Keys ==> AllMet(ops, {}, Elements(grounded)))
  {
    var none: seq<Name> := [];
    assert Elements(none) == {};
    hide NeededBy, Closed;
    ForcedNext(ops, declared, within, {}, none, grounded);
    hide Forced;
  }

  lemma StartsWorking(ops: Ops, declared: set<Declared>, within: set<Name>, indegree: map<Name, nat>,
                      grounded: seq<Name>)
    requires within <= ops.Keys && indegree.Keys == within
             && forall d :: d in within ==> indegree[d] == |AllNeeds(ops, declared, within)[d]|
    requires grounded == Sorted(Free(AllNeeds(ops, declared, within)))
    ensures Working(ops, declared, within, {}, indegree, grounded)
  {
    var needed := AllNeeds(ops, declared, within);
    hide NeededBy, Sorted, Tally, Forced, AllMet, AllNeeds;
    FreeTally(needed, indegree, grounded);
    ListedAreDone(needed, {}, indegree, grounded);
    NothingForced(ops, declared, within, grounded);
  }

  /** The first `i` of the list are worked off. */
  ghost predicate Reached(ops: Ops, declared: set<Declared>, within: set<Name>, resolved: set<Key>,
                          indegree: map<Name, nat>, grounded: seq<Name>, i: nat) {
    && Working(ops, declared, within, resolved, indegree, grounded) && within <= ops.Keys
    && i <= |grounded| <= |within| && Elements(grounded) <= within
    && WorkedOff(ops, AllNeeds(ops, declared, within), resolved, grounded, i)
  }

  lemma ReachedBounds(ops: Ops, declared: set<Declared>, within: set<Name>, resolved: set<Key>,
                      indegree: map<Name, nat>, grounded: seq<Name>, i: nat)
    requires Reached(ops, declared, within, resolved, indegree, grounded, i)
    ensures within <= ops.Keys && i <= |grounded| <= |within|
            && Working(ops, declared, within, resolved, indegree, grounded)
    ensures i < |grounded| ==> grounded[i] in grounded && grounded[i] in ops
  {
    hide Working, WorkedOff, AllNeeds;
    if i < |grounded| { assert grounded[i] in Elements(grounded); }
  }

  lemma ReachedNext(ops: Ops, declared: set<Declared>, within: set<Name>, resolved: set<Key>, indegree: map<Name, nat>,
                    grounded: seq<Name>, i: nat,
                    resolved2: set<Key>, indegree2: map<Name, nat>, grounded2: seq<Name>)
    requires Reached(ops, declared, within, resolved, indegree, grounded, i) && i < |grounded| && grounded[i] in ops
    requires Working(ops, declared, within, resolved2, indegree2, grounded2) && grounded <= grounded2
             && resolved <= resolved2 && within <= ops.Keys
    requires KeysFrom(ops, AllNeeds(ops, declared, within), grounded[i]) <= resolved2
    ensures Reached(ops, declared, within, resolved2, indegree2, grounded2, i + 1)
  {
    WorkingParts(ops, declared, within, resolved2, indegree2, grounded2);
    hide Working, WorkedOff, AllNeeds, KeysFrom;
    KeepsWorkedOff(ops, AllNeeds(ops, declared, within), resolved, grounded, i, resolved2, grounded2);
  }

  lemma ReachedNone(ops: Ops, declared: set<Declared>, within: set<Name>, resolved: set<Key>, indegree: map<Name, nat>,
                    grounded: seq<Name>)
    requires Working(ops, declared, within, resolved, indegree, grounded)
    ensures Reached(ops, declared, within, resolved, indegree, grounded, 0)
  {
    WorkingParts(ops, declared, within, resolved, indegree, grounded);
    hide Working, AllNeeds;
  }

  function CountsOf(needed: Needs): (r: map<Name, nat>)
    ensures r.Keys == needed.Keys && forall d :: d in r ==> r[d] == |needed[d]|
  {
    map d | d in needed :: |needed[d]|
  }

  /** `_grounded`: the list, once worked off, is the least set closed under readiness. */
  method Ground(ops: Ops, declared: set<Declared>, ids: set<Name>) returns (grounded: seq<Name>)
    ensures Distinct(grounded) && Elements(grounded) == Grounded(ops, declared, ids * ops.Keys)
  {
    hide *;
    var within := ids * ops.Keys;
    var needed := AllNeeds(ops, declared, within);
    var indegree := CountsOf(needed);
    var resolved: set<Key> := {};
    grounded := Sorted(Free(needed));
    StartsWorking(ops, declared, within, indegree, grounded);
    ReachedNone(ops, declared, within, resolved, indegree, grounded);
    var i := 0;
    ReachedBounds(ops, declared, within, resolved, indegree, grounded, i);
    while i < |grounded|
      invariant Reached(ops, declared, within, resolved, indegree, grounded, i) && i <= |grounded| <= |within|
      decreases |within| - i
    {
      ReachedBounds(ops, declared, within, resolved, indegree, grounded, i);
      ghost var resolved1, indegree1, grounded1 := resolved, indegree, grounded;
      resolved, indegree, grounded := WorkOff(ops, declared, within, needed, grounded[i], resolved, indegree, grounded);
      ReachedNext(ops, declared, within, resolved1, indegree1, grounded1, i, resolved, indegree, grounded);
      i := i + 1;
      ReachedBounds(ops, declared, within, resolved, indegree, grounded, i);
    }
    Finished(ops, declared, within, resolved, indegree, grounded);
  }

  lemma Finished(ops: Ops, declared: set<Declared>, within: set<Name>, resolved: set<Key>, indegree: map<Name, nat>,
                 grounded: seq<Name>)
    requires Reached(ops, declared, within, resolved, indegree, grounded, |grounded|) && within <= ops.Keys
    ensures Distinct(grounded) && Elements(grounded) == Grounded(ops, declared, within)
  {
    WorkedOffIsClosed(ops, declared, within, resolved, indegree, grounded);
    GroundedIsGrounding(ops, declared, within);
    hide AllMet, Grounded, Closed, NeededBy, AllNeeds;
    assert IsGrounding(ops, declared, within, Elements(grounded));
    GroundingIsUnique(ops, declared, within, Elements(grounded), Grounded(ops, declared, within));
  }
}
