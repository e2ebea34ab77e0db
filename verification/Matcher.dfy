/** The matcher's loops (`sgt/core/identity.py`): hash buckets popped from the middle, candidates by
    kind, matched ids marked as they go -- each proved to compute the plain search of `Identity`. */
module Matcher {
  import opened Names
  import opened Identity

  ghost predicate DistinctIds(side: seq<Snap>) {
    forall i, j :: 0 <= i < j < |side| ==> side[i].id != side[j].id
  }

  // ---------------------------------------------------------------------------------------
  // Buckets.

  predicate Kept(tier: Tier, older: set<Name>, key: string, s: Snap) {
    s.id !in older && KeyOf(tier, s) == key
  }

  /** The unmatched snapshots with that key, in order. */
  function Bucket(tier: Tier, older: set<Name>, key: string, from: seq<Snap>): (r: seq<Snap>)
    ensures forall s :: s in r ==> s in from && Kept(tier, older, key, s)
  {
    if from == [] then []
    else
      var init, s := Bucket(tier, older, key, from[..|from| - 1]), from[|from| - 1];
      if Kept(tier, older, key, s) then init + [s] else init
  }

  function At(pool: map<string, seq<Snap>>, key: string): seq<Snap> {
    if key in pool then pool[key] else []
  }

  /** Hash tiers index nothing under an empty hash. */
  predicate Indexed(tier: Tier, key: string) {
    tier.Fuzzy? || key != ""
  }

  ghost predicate Pools(tier: Tier, pool: map<string, seq<Snap>>, older: set<Name>, from: seq<Snap>) {
    forall key {:trigger At(pool, key)} :: Indexed(tier, key) ==> At(pool, key) == Bucket(tier, older, key, from)
  }

  /** Searching the bucket finds what searching the whole side finds, even after more ids have been
      matched than when the bucket was filled. */
  lemma {:induction false} BucketPick(tier: Tier, never: set<Pair>, filled: set<Name>, older: set<Name>,
                                      from: seq<Snap>, a: Snap)
    requires filled <= older
    ensures Pick(tier, never, older, Bucket(tier, filled, KeyOf(tier, a), from), a) == Pick(tier, never, older, from, a)
  {
    if from != [] {
      var n, key := |from| - 1, KeyOf(tier, a);
      BucketPick(tier, never, filled, older, from[..n], a);
      var init := Bucket(tier, filled, key, from[..n]);
      assert (init + [from[n]])[..|init|] == init;
      hide Allowed, SizesAgree, Jaccard, Beats;
    }
  }

  lemma PoolMore(tier: Tier, pool: map<string, seq<Snap>>, older: set<Name>, from: seq<Snap>, s: Snap)
    requires Pools(tier, pool, older, from)
    ensures var key := KeyOf(tier, s);
            Pools(tier, if s.id !in older
                  && Indexed(tier, key) then pool[key := At(pool, key) + [s]] else pool, older, from + [s])
  {
    var key := KeyOf(tier, s);
    var more := if s.id !in older && Indexed(tier, key) then pool[key := At(pool, key) + [s]] else pool;
    assert (from + [s])[..|from|] == from;
    forall k ensures Indexed(tier, k) ==> At(more, k) == Bucket(tier, older, k, from + [s]) {
      assert Indexed(tier, k) ==> At(pool, k) == Bucket(tier, older, k, from);
    }
  }

  method BuildPool(tier: Tier, before: seq<Snap>, older: set<Name>) returns (pool: map<string, seq<Snap>>)
    ensures Pools(tier, pool, older, before)
  {
    pool := map[];
    hide Indexed, KeyOf;
    for i := 0 to |before|
      invariant Pools(tier, pool, older, before[..i])
    {
      var s := before[i];
      assert before[..i + 1] == before[..i] + [s];
      PoolMore(tier, pool, older, before[..i], s);
      hide Pools;
      var key := KeyOf(tier, s);
      if s.id !in older && Indexed(tier, key) { pool := pool[key := At(pool, key) + [s]]; }
    }
    assert before[..|before|] == before;
  }

  lemma {:induction false} BucketUnmoved(tier: Tier, older: set<Name>, key: string, from: seq<Snap>, b: Snap)
    requires forall s :: s in from && KeyOf(tier, s) == key ==> s.id != b.id
    ensures Bucket(tier, older + {b.id}, key, from) == Bucket(tier, older, key, from)
  {
    if from != [] { BucketUnmoved(tier, older, key, from[..|from| - 1], b); }
  }

  /** Taking a snapshot out of the running removes exactly its place in its bucket. */
  lemma {:induction false} BucketPopped(tier: Tier, older: set<Name>, key: string, from: seq<Snap>, k: nat)
    requires DistinctIds(from) && k < |Bucket(tier, older, key, from)|
    ensures var r := Bucket(tier, older, key, from); Bucket(tier, older + {r[k].id}, key, from) == r[..k] + r[k + 1..]
  {
    var n := |from| - 1;
    var s, init := from[n], Bucket(tier, older, key, from[..n]);
    if k < |init| {
      assert init[k] in from[..n];
      assert s.id != init[k].id;
      hide DistinctIds, Bucket, Kept;
      StillDistinct(from);
      BucketPopped(tier, older, key, from[..n], k);
      LastOf(tier, older, key, from, init[k].id);
      if Kept(tier, older, key, s) { PoppedBefore(init, s, k); } else { NothingAfter(init); }
    } else {
      BucketUnmoved(tier, older, key, from[..n], s);
      LastOf(tier, older, key, from, s.id);
      hide DistinctIds, Bucket;
      PoppedLast(init, s);
    }
  }

  lemma StillDistinct(from: seq<Snap>)
    requires DistinctIds(from) && from != []
    ensures DistinctIds(from[..|from| - 1])
  {
  }

  lemma PoppedBefore(init: seq<Snap>, s: Snap, k: nat)
    requires k < |init|
    ensures (init + [s])[k] == init[k] && (init + [s])[..k] + (init + [s])[k + 1..] == init[..k] + init[k + 1..] + [s]
  {
  }

  lemma PoppedLast(init: seq<Snap>, s: Snap)
    ensures (init + [s])[|init|] == s && (init + [s])[..|init|] + (init + [s])[|init| + 1..] == init
  {
  }

  lemma NothingAfter(init: seq<Snap>)
    ensures init + [] == init
  {
  }

  lemma LastOf(tier: Tier, older: set<Name>, key: string, from: seq<Snap>, id: Name)
    requires from != []
    ensures var n := |from| - 1;
            && Bucket(tier, older, key, from) == Bucket(tier, older, key, from[..n])
               + (if Kept(tier, older, key, from[n]) then [from[n]] else [])
            && Bucket(tier, older + {id}, key, from) ==
               Bucket(tier, older + {id}, key, from[..n])
               + (if Kept(tier, older, key, from[n]) && from[n].id != id then [from[n]] else [])
  {
  }

  lemma PoolPop(tier: Tier, pool: map<string, seq<Snap>>, older: set<Name>, before: seq<Snap>, key: string, k: nat)
    requires DistinctIds(before) && Pools(tier, pool, older, before) && Indexed(tier, key) && k < |At(pool, key)|
    ensures var bucket := At(pool, key);
            Pools(tier, pool[key := bucket[..k] + bucket[k + 1..]], older + {bucket[k].id}, before)
  {
    var bucket := At(pool, key);
    var less := pool[key := bucket[..k] + bucket[k + 1..]];
    assert bucket == Bucket(tier, older, key, before);
    BucketPopped(tier, older, key, before, k);
    forall h ensures Indexed(tier, h) ==> At(less, h) == Bucket(tier, older + {bucket[k].id}, h, before) {
      assert Indexed(tier, h) ==> At(pool, h) == Bucket(tier, older, h, before);
      if h != key {
        OtherKeys(tier, older, key, h, before, bucket[k]);
        BucketUnmoved(tier, older, h, before, bucket[k]);
      }
    }
  }

  lemma OtherKeys(tier: Tier, older: set<Name>, key: string, h: string, before: seq<Snap>, b: Snap)
    requires DistinctIds(before) && b in before && KeyOf(tier, b) == key != h
    ensures forall s :: s in before && KeyOf(tier, s) == h ==> s.id != b.id
  {
  }

  // ---------------------------------------------------------------------------------------
  // The hash tiers.

  lemma {:induction false} FirstIsPick(tier: Tier, never: set<Pair>, older: set<Name>, from: seq<Snap>, a: Snap, k: nat)
    requires !tier.Fuzzy? && k <= |from|
    requires forall i :: 0 <= i < k ==> !Eligible(tier, never, older, from[i], a)
    requires k < |from| ==> Eligible(tier, never, older, from[k], a)
    ensures Pick(tier, never, older, from, a) == if k < |from| then Some(from[k]) else None
  {
    hide Eligible;
    if from != [] {
      var n := |from| - 1;
      FirstIsPick(tier, never, older, from[..n], a, if k < n then k else n);
    }
  }

  /** The first bucket entry that may link. */
  method FirstAllowed(tier: Tier, never: set<Pair>, ghost older: set<Name>, bucket: seq<Snap>, a: Snap) returns (k: nat)
    requires !tier.Fuzzy? && KeyOf(tier, a) != "" && forall s :: s in bucket ==> Kept(tier, older, KeyOf(tier, a), s)
    ensures k <= |bucket|
    ensures Pick(tier, never, older, bucket, a) == if k < |bucket| then Some(bucket[k]) else None
  {
    k := 0;
    while k < |bucket| && !Allowed(never, bucket[k], a)
      invariant k <= |bucket| && forall i :: 0 <= i < k ==> !Eligible(tier, never, older, bucket[i], a)
    {
      k := k + 1;
    }
    if k < |bucket| {
      assert bucket[k] in bucket;
      assert Eligible(tier, never, older, bucket[k], a) by { hide Allowed; }
    }
    FirstIsPick(tier, never, older, bucket, a, k);
    hide *;
  }

  lemma NoKeyNoPick(tier: Tier, never: set<Pair>, older: set<Name>, from: seq<Snap>, a: Snap)
    requires !tier.Fuzzy? && KeyOf(tier, a) == ""
    ensures Pick(tier, never, older, from, a) == None
  {
    FirstIsPick(tier, never, older, from, a, |from|);
  }

  lemma BucketAt(tier: Tier, pool: map<string, seq<Snap>>, older: set<Name>, before: seq<Snap>, key: string)
    requires Pools(tier, pool, older, before) && Indexed(tier, key)
    ensures At(pool, key) == Bucket(tier, older, key, before)
  {
  }

  /** One newer entity against the pool. */
  method HashStep(tier: Tier, never: set<Pair>, ghost before: seq<Snap>, a: Snap, pool0: map<string, seq<Snap>>,
                  st0: Matching)
    returns (pool: map<string, seq<Snap>>, st: Matching)
    requires !tier.Fuzzy? && DistinctIds(before) && Pools(tier, pool0, st0.older, before)
    ensures st == TakeStep(tier, never, before, a, st0) && Pools(tier, pool, st.older, before)
  {
    pool, st := pool0, st0;
    var key := KeyOf(tier, a);
    hide KeyOf, Pools, Bucket, Pick, At, DistinctIds;
    if a.id in st.newer || key == "" {
      if key == "" { NoKeyNoPick(tier, never, st.older, before, a); }
    } else {
      BucketAt(tier, pool, st.older, before, key);
      BucketPick(tier, never, st.older, st.older, before, a);
      var bucket := At(pool, key);
      var k := FirstAllowed(tier, never, st.older, bucket, a);
      if k < |bucket| {
        PoolPop(tier, pool, st.older, before, key, k);
        pool := pool[key := bucket[..k] + bucket[k + 1..]];
        st := Joined(st, bucket[k], a);
      }
    }
  }

  lemma TierStep(tier: Tier, never: set<Pair>, before: seq<Snap>, after: seq<Snap>, i: nat, st: Matching)
    requires i < |after|
    ensures RunTier(tier, never, before, after[..i + 1], st)
            == TakeStep(tier, never, before, after[i], RunTier(tier, never, before, after[..i], st))
  {
    assert after[..i + 1][..i] == after[..i];
    hide TakeStep;
  }

  method HashPass(tier: Tier, never: set<Pair>, before: seq<Snap>, after: seq<Snap>, st0: Matching)
    returns (st: Matching)
    requires !tier.Fuzzy? && DistinctIds(before)
    ensures st == RunTier(tier, never, before, after, st0)
  {
    st := st0;
    var pool := BuildPool(tier, before, st.older);
    assert after[..0] == [];
    for i := 0 to |after|
      invariant st == RunTier(tier, never, before, after[..i], st0) && Pools(tier, pool, st.older, before)
    {
      TierStep(tier, never, before, after, i, st0);
      hide *;
      pool, st := HashStep(tier, never, before, after[i], pool, st);
    }
    assert after[..|after|] == after;
  }

  // ---------------------------------------------------------------------------------------
  // The fuzzy tier.

  /** The best candidate, a later one only by strict improvement. */
  method BestOf(never: set<Pair>, older: set<Name>, cands: seq<Snap>, a: Snap) returns (best: Option<Snap>)
    requires forall s :: s in cands ==> s.kind == a.kind
    ensures best == Pick(Fuzzy, never, older, cands, a)
  {
    best := None;
    var bestScore := 0.0;
    hide Allowed, SizesAgree, Jaccard;
    for j := 0 to |cands|
      invariant best == Pick(Fuzzy, never, older, cands[..j], a)
      invariant bestScore == if best.Some? then Jaccard(a.tokens, best.value.tokens) else 0.0
    {
      var b := cands[j];
      assert cands[..j + 1][..j] == cands[..j];
      if b.id in older || !Allowed(never, b, a) { continue; }
      if !SizesAgree(a, b) { continue; }
      var score := Jaccard(a.tokens, b.tokens);
      if score >= 0.8 && score > bestScore {
        best, bestScore := Some(b), score;
      }
    }
    assert cands[..|cands|] == cands;
  }

  method FuzzyStep(never: set<Pair>, ghost before: seq<Snap>, a: Snap, byKind: map<string, seq<Snap>>,
                   ghost filled: set<Name>, st0: Matching)
    returns (st: Matching)
    requires Pools(Fuzzy, byKind, filled, before) && filled <= st0.older
    ensures st == TakeStep(Fuzzy, never, before, a, st0) && filled <= st.older
  {
    st := st0;
    if a.id !in st.newer {
      BucketAt(Fuzzy, byKind, filled, before, a.kind);
      BucketPick(Fuzzy, never, filled, st.older, before, a);
      hide Pools, Bucket, Pick, At;
      var best := BestOf(never, st.older, At(byKind, a.kind), a);
      if best.Some? { st := Joined(st, best.value, a); }
    }
  }

  method FuzzyPass(never: set<Pair>, before: seq<Snap>, after: seq<Snap>, st0: Matching) returns (st: Matching)
    ensures st == RunTier(Fuzzy, never, before, after, st0)
  {
    st := st0;
    var byKind := BuildPool(Fuzzy, before, st.older);
    assert after[..0] == [];
    for i := 0 to |after|
      invariant st == RunTier(Fuzzy, never, before, after[..i], st0) && st0.older <= st.older
    {
      TierStep(Fuzzy, never, before, after, i, st0);
      hide *;
      st := FuzzyStep(never, before, after[i], byKind, st0.older, st);
    }
    assert after[..|after|] == after;
  }

  // ---------------------------------------------------------------------------------------
  // Forced pairs.

  ghost predicate Indexes(index: map<Name, Snap>, side: seq<Snap>) {
    forall id {:trigger ById(side, id)} :: Get(index, id) == ById(side, id)
  }

  function Get(index: map<Name, Snap>, id: Name): Option<Snap> {
    if id in index then Some(index[id]) else None
  }

  method IndexById(side: seq<Snap>) returns (index: map<Name, Snap>)
    ensures Indexes(index, side)
  {
    index := map[];
    for i := 0 to |side|
      invariant Indexes(index, side[..i])
    {
      IndexMore(index, side, i);
      hide Indexes;
      index := index[side[i].id := side[i]];
    }
    assert side[..|side|] == side;
  }

  lemma IndexMore(index: map<Name, Snap>, side: seq<Snap>, i: nat)
    requires i < |side| && Indexes(index, side[..i])
    ensures Indexes(index[side[i].id := side[i]], side[..i + 1])
  {
    var more, upto := index[side[i].id := side[i]], side[..i + 1];
    assert upto[..i] == side[..i];
    forall id ensures Get(more, id) == ById(upto, id) {
      assert Get(index, id) == ById(side[..i], id);
    }
  }

  lemma Found(index: map<Name, Snap>, side: seq<Snap>, id: Name)
    requires Indexes(index, side)
    ensures Get(index, id) == ById(side, id)
  {
  }

  /** `_forced_links`, over the pairs in whatever order the set of them is walked. */
  method ForcedLinks(before: seq<Snap>, after: seq<Snap>, forced: seq<Pair>, st0: Matching) returns (st: Matching)
    ensures st == RunForced(before, after, forced, st0)
  {
    st := st0;
    var byBefore := IndexById(before);
    var byAfter := IndexById(after);
    assert forced[..0] == [];
    for i := 0 to |forced|
      invariant st == RunForced(before, after, forced[..i], st0)
    {
      var p := forced[i];
      assert forced[..i + 1][..i] == forced[..i];
      Found(byBefore, before, p.fst);
      Found(byBefore, before, p.snd);
      Found(byAfter, after, p.fst);
      Found(byAfter, after, p.snd);
      hide Indexes, ById, Get;
      var b := if Get(byBefore, p.fst).Some? then Get(byBefore, p.fst) else Get(byBefore, p.snd);
      var a := if Get(byBefore, p.fst).Some? then Get(byAfter, p.snd) else Get(byAfter, p.fst);
      if b.None? || a.None? || b.value.id in st.older || a.value.id in st.newer { continue; }
      st := Joined(st, b.value, a.value);
    }
    assert forced[..|forced|] == forced;
  }

  // ---------------------------------------------------------------------------------------
  // The passes together.

  /** `_link_pass`. */
  method LinkPass(before: seq<Snap>, after: seq<Snap>, never: set<Pair>, forced: seq<Pair>, st0: Matching)
    returns (st: Matching)
    requires DistinctIds(before)
    ensures st == RunAll(never, forced, before, after, st0)
  {
    hide RunForced, RunTier, DistinctIds;
    st := ForcedLinks(before, after, forced, st0);
    st := HashPass(ByContent, never, before, after, st);
    st := HashPass(ByStructure, never, before, after, st);
    st := FuzzyPass(never, before, after, st);
  }

  datatype Match = Match(modified: seq<Snap>, links: seq<Link>, added: seq<Snap>, removed: seq<Snap>)

  function IdsOf(side: seq<Snap>): set<Name> {
    set s | s in side :: s.id
  }

  /** The ids present on both sides. */
  function Surface(before: seq<Snap>, after: seq<Snap>): set<Name> {
    IdsOf(after) * IdsOf(before)
  }

  function Changed(before: seq<Snap>, after: seq<Snap>): seq<Snap> {
    if after == [] then []
    else
      var init, a := Changed(before, after[..|after| - 1]), after[|after| - 1];
      var b := ById(before, a.id);
      if b.Some? && b.value.contentHash != a.contentHash then init + [a] else init
  }

  function Unmatched(side: seq<Snap>, ids: set<Name>): (r: seq<Snap>)
    ensures forall s :: s in r <==> s in side && s.id !in ids
  {
    if side == [] then []
    else
      var init, s := Unmatched(side[..|side| - 1], ids), side[|side| - 1];
      assert side == side[..|side| - 1] + [s];
      if s.id !in ids then init + [s] else init
  }

  function Matched(never: set<Pair>, forced: seq<Pair>, before: seq<Snap>, after: seq<Snap>): Matching {
    RunAll(never, forced, before, after, Matching(Surface(before, after), Surface(before, after), []))
  }

  function MatchOf(never: set<Pair>, forced: seq<Pair>, before: seq<Snap>, after: seq<Snap>): Match {
    var st := Matched(never, forced, before, after);
    Match(Changed(before, after), st.links, Unmatched(after, st.newer), Unmatched(before, st.older))
  }

  method SelectUnmatched(side: seq<Snap>, ids: set<Name>) returns (r: seq<Snap>)
    ensures r == Unmatched(side, ids)
  {
    r := [];
    for i := 0 to |side|
      invariant r == Unmatched(side[..i], ids)
    {
      assert side[..i + 1][..i] == side[..i];
      if side[i].id !in ids { r := r + [side[i]]; }
    }
    assert side[..|side|] == side;
  }

  method SurfacePass(before: seq<Snap>, after: seq<Snap>) returns (ids: set<Name>, modified: seq<Snap>)
    ensures ids == Surface(before, after) && modified == Changed(before, after)
  {
    var byId := IndexById(before);
    ids, modified := {}, [];
    for i := 0 to |after|
      invariant ids == Surface(before, after[..i]) && modified == Changed(before, after[..i])
    {
      var a := after[i];
      Found(byId, before, a.id);
      SurfaceMore(before, after, i);
      assert after[..i + 1][..i] == after[..i];
      hide Surface, ById, Indexes, Get;
      var b := Get(byId, a.id);
      if b.Some? {
        ids := ids + {a.id};
        if b.value.contentHash != a.contentHash { modified := modified + [a]; }
      }
    }
    assert after[..|after|] == after;
  }

  lemma SurfaceMore(before: seq<Snap>, after: seq<Snap>, i: nat)
    requires i < |after|
    ensures Surface(before, after[..i + 1]) == Surface(before, after[..i])
            + (if ById(before, after[i].id).Some? then {after[i].id} else {})
  {
    assert after[..i + 1] == after[..i] + [after[i]];
    assert IdsOf(after[..i + 1]) == IdsOf(after[..i]) + {after[i].id};
    assert ById(before, after[i].id).Some? <==> after[i].id in IdsOf(before);
    hide ById, IdsOf;
  }

  /** `match_pair`. */
  method MatchPair(before: seq<Snap>, after: seq<Snap>, never: set<Pair>, forced: seq<Pair>) returns (m: Match)
    requires DistinctIds(before)
    ensures m == MatchOf(never, forced, before, after)
  {
    hide DistinctIds, Surface, RunAll, Changed, Unmatched;
    var ids, modified := SurfacePass(before, after);
    var st := LinkPass(before, after, never, forced, Matching(ids, ids, []));
    var added := SelectUnmatched(after, st.newer);
    var removed := SelectUnmatched(before, st.older);
    m := Match(modified, st.links, added, removed);
  }

  /** `link_residual`: the same passes over a commit's leftovers. */
  method LinkResidual(removed: seq<Snap>, added: seq<Snap>, never: set<Pair>, forced: seq<Pair>) returns (st: Matching)
    requires DistinctIds(removed)
    ensures st == RunAll(never, forced, removed, added, Matching({}, {}, []))
  {
    hide DistinctIds, RunAll;
    st := LinkPass(removed, added, never, forced, Matching({}, {}, []));
  }

  // ---------------------------------------------------------------------------------------
  // What a match is.

  ghost predicate LinkedFrom(m: Match, id: Name) {
    exists l :: l in m.links && l.src.id == id
  }

  ghost predicate LinkedTo(m: Match, id: Name) {
    exists l :: l in m.links && l.dst.id == id
  }

  ghost predicate ExactlyOne(p: bool, q: bool, r: bool) {
    (p && !q && !r) || (!p && q && !r) || (!p && !q && r)
  }

  /** The match partitions both sides: an older entity keeps its id, or was linked, or was removed,
      exactly one of the three; a newer one kept its id, or was linked to, or is new. */
  lemma MatchPartitions(never: set<Pair>, forced: seq<Pair>, before: seq<Snap>, after: seq<Snap>)
    ensures var m, both := MatchOf(never, forced, before, after), Surface(before, after);
            && (forall b :: b in before ==> ExactlyOne(b.id in both, LinkedFrom(m, b.id), b in m.removed))
            && (forall a :: a in after ==> ExactlyOne(a.id in both, LinkedTo(m, a.id), a in m.added))
            && Distinct(Ids(m.links, false)) && Distinct(Ids(m.links, true))
  {
    var both := Surface(before, after);
    var m, st := MatchOf(never, forced, before, after), Matched(never, forced, before, after);
    LinksAreEarned(never, forced, before, after, both, both);
    assert OneToOne(st, both, both);
    hide MatchOf, Matched, Surface, Unmatched;
    forall b | b in before ensures ExactlyOne(b.id in both, LinkedFrom(m, b.id), b in m.removed) {
      IdsAreEnds(m, b.id);
    }
    forall a | a in after ensures ExactlyOne(a.id in both, LinkedTo(m, a.id), a in m.added) {
      IdsAreEnds(m, a.id);
    }
  }

  lemma IdsAreEnds(m: Match, id: Name)
    ensures LinkedFrom(m, id) <==> id in Ids(m.links, false)
    ensures LinkedTo(m, id) <==> id in Ids(m.links, true)
  {
    EndsAre(m.links, false, id);
    EndsAre(m.links, true, id);
    hide Ids;
  }

  lemma EndsAre(links: seq<Link>, newer: bool, id: Name)
    ensures id in Ids(links, newer) <==> exists l :: l in links && (if newer then l.dst.id else l.src.id) == id
  {
    if id in Ids(links, newer) {
      var i :| 0 <= i < |links| && Ids(links, newer)[i] == id;
      assert links[i] in links;
    }
    if l :| l in links && (if newer then l.dst.id else l.src.id) == id {
      var i :| 0 <= i < |links| && links[i] == l;
      assert Ids(links, newer)[i] == id;
    }
  }

  /** What a match reports is there: links lead from one side to the other, removals were on the older side,
      additions and modifications are on the newer. */
  lemma ReportedAreThere(never: set<Pair>, forced: seq<Pair>, before: seq<Snap>, after: seq<Snap>)
    ensures var m := MatchOf(never, forced, before, after);
            && (forall l :: l in m.links ==> l.src in before && l.dst in after)
            && (forall b :: b in m.removed ==> b in before)
            && (forall a :: a in m.added ==> a in after)
            && (forall a :: a in m.modified ==> a in after && a.id in Surface(before, after))
  {
    var both := Surface(before, after);
    var st, hand := Matched(never, forced, before, after), RunForced(before, after, forced, Matching(both, both, []));
    LinksAreEarned(never, forced, before, after, both, both);
    ChangedAreThere(before, after);
    hide Changed, Unmatched, Surface, RunAll, RunForced, Evidence, Allowed;
    forall l | l in st.links ensures l.src in before && l.dst in after {
      var i :| 0 <= i < |st.links| && st.links[i] == l;
      if i < |hand.links| {
        assert hand.links[i] == l;
        AskedEnds(before, after, forced, l);
      }
    }
  }

  lemma AskedEnds(before: seq<Snap>, after: seq<Snap>, pairs: seq<Pair>, l: Link)
    requires Asked(before, after, pairs, l)
    ensures l.src in before && l.dst in after
  {
    hide ById;
  }

  lemma {:induction false} ChangedAreThere(before: seq<Snap>, after: seq<Snap>)
    ensures forall a :: a in Changed(before, after) ==> a in after && a.id in Surface(before, after)
    decreases |after|
  {
    if after != [] {
      var init, last := after[..|after| - 1], after[|after| - 1];
      assert after == init + [last];
      ChangedAreThere(before, init);
      SurfaceMore(before, after, |init|);
      assert after[..|init| + 1] == after;
      hide Surface, ById;
    }
  }

  /** No removal and addition are left standing that any tier would have linked: an entity renamed
      with its body untouched is never reported as a deletion plus an addition unless its body's
      other copies took the partners. */
  lemma NoMissedLink(never: set<Pair>, forced: seq<Pair>, before: seq<Snap>, after: seq<Snap>, b: Snap, a: Snap,
                     tier: Tier)
    requires var m := MatchOf(never, forced, before, after); b in m.removed && a in m.added
    requires Allowed(never, b, a)
    ensures !Evidence(tier, b, a)
  {
    var both := Surface(before, after);
    var st := Matched(never, forced, before, after);
    Maximal(never, forced, before, after, Matching(both, both, []), tier);
    assert Settled(tier, never, before, after, st);
    assert b in Unmatched(before, st.older) && a in Unmatched(after, st.newer);
    hide Matched, Unmatched, MatchOf, Evidence, Allowed;
    assert Refused(tier, never, st, b, a);
  }
}
