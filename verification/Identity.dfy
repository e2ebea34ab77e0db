/** Matching entities across a commit (`sgt/core/identity.py`).

    Three tiers of falling confidence -- same body, same structure, similar tokens -- each a greedy
    pass over the newer side.  The passes run over hash buckets; the specification searches the whole
    older side.  What the buckets compute is the search's answer, and the search leaves no allowed
    pair unmatched that any tier accepts. */
module Identity {
  import opened Names

  /** An entity with the signals the matcher reads. */
  datatype Snap = Snap(id: Name, file: string, kind: string, contentHash: string, structuralHash: string,
                       tokens: set<string>, ntok: nat)

  datatype Tier = ByContent | ByStructure | Fuzzy

  datatype Pair = Pair(fst: Name, snd: Name)

  datatype Link = Link(src: Snap, dst: Snap)

  /** Ids matched on either side, and the links made so far. */
  datatype Matching = Matching(older: set<Name>, newer: set<Name>, links: seq<Link>)

  const IMPORT_MARKER := "::__import__::"

  // ---------------------------------------------------------------------------------------
  // Which pairs may link.

  predicate ContainsAt(s: string, part: string, i: nat) {
    i + |part| <= |s| && s[i..i + |part|] == part
  }

  /** Whether the id names an import statement. */
  predicate IsImportId(id: Name) {
    exists i :: 0 <= i <= |id| && ContainsAt(id, IMPORT_MARKER, i)
  }

  /** An import is only ever the same import. */
  predicate MayLink(b: Name, a: Name) {
    if IsImportId(b) || IsImportId(a) then b == a else true
  }

  /** Pairs are compared in sorted order. */
  function Normal(x: Name, y: Name): Pair {
    if Le(x, y) then Pair(x, y) else Pair(y, x)
  }

  lemma NormalIgnoresOrder(x: Name, y: Name)
    ensures Normal(x, y) == Normal(y, x)
  {
    LeTotal(x, y);
    if Le(x, y) && Le(y, x) { LeAntisymmetric(x, y); }
  }

  function Normalized(pairs: set<Pair>): set<Pair> {
    set p | p in pairs :: Normal(p.fst, p.snd)
  }

  /** Neither forbidden by hand, in either order, nor two different imports. */
  predicate Allowed(never: set<Pair>, b: Snap, a: Snap) {
    Normal(b.id, a.id) !in Normalized(never) && MayLink(b.id, a.id)
  }

  /** A hand-made correction binds whichever way round it was written. */
  lemma NeverLinkBindsBothWays(never: set<Pair>, b: Snap, a: Snap)
    requires Pair(b.id, a.id) in never || Pair(a.id, b.id) in never
    ensures !Allowed(never, b, a)
  {
    NormalIgnoresOrder(b.id, a.id);
    if Pair(b.id, a.id) in never {
      assert Normal(b.id, a.id) in Normalized(never);
    } else {
      assert Normal(a.id, b.id) in Normalized(never);
    }
  }

  /** Shared tokens over all tokens. */
  function Jaccard(a: set<string>, b: set<string>): real {
    var inter := |a * b|;
    var union := |a| + |b| - inter;
    if union == 0 then 0.0 else inter as real / union as real
  }

  /** Neither side has more than twice the tokens of the other. */
  predicate SizesAgree(a: Snap, b: Snap) {
    var lo, hi := if a.ntok <= b.ntok then a.ntok else b.ntok, if a.ntok <= b.ntok then b.ntok else a.ntok;
    !(hi != 0 && lo as real / hi as real < 0.5)
  }

  function KeyOf(tier: Tier, s: Snap): string {
    match tier
    case ByContent => s.contentHash
    case ByStructure => s.structuralHash
    case Fuzzy => s.kind
  }

  /** What a tier accepts as evidence. */
  predicate Evidence(tier: Tier, b: Snap, a: Snap) {
    && KeyOf(tier, b) == KeyOf(tier, a)
    && (if tier.Fuzzy? then SizesAgree(a, b) && Jaccard(a.tokens, b.tokens) >= 0.8 else KeyOf(tier, a) != "")
  }

  // ---------------------------------------------------------------------------------------
  // The specification: one search of the older side per newer entity.

  predicate Eligible(tier: Tier, never: set<Pair>, older: set<Name>, b: Snap, a: Snap) {
    b.id !in older && Allowed(never, b, a) && Evidence(tier, b, a)
  }

  /** A later candidate displaces the one held only in the fuzzy tier, and only by a higher score. */
  predicate Beats(tier: Tier, held: Option<Snap>, b: Snap, a: Snap) {
    held.None? || (tier.Fuzzy? && Jaccard(a.tokens, b.tokens) > Jaccard(a.tokens, held.value.tokens))
  }

  /** The candidate a tier takes for `a`. */
  function Pick(tier: Tier, never: set<Pair>, older: set<Name>, from: seq<Snap>, a: Snap): Option<Snap> {
    if from == [] then None
    else
      var held, b := Pick(tier, never, older, from[..|from| - 1], a), from[|from| - 1];
      if Eligible(tier, never, older, b, a) && Beats(tier, held, b, a) then Some(b) else held
  }

  function Joined(st: Matching, b: Snap, a: Snap): Matching {
    Matching(st.older + {b.id}, st.newer + {a.id}, st.links + [Link(b, a)])
  }

  function TakeStep(tier: Tier, never: set<Pair>, before: seq<Snap>, a: Snap, st: Matching): Matching {
    if a.id in st.newer then st
    else
      var b := Pick(tier, never, st.older, before, a);
      if b.None? then st else Joined(st, b.value, a)
  }

  /** One tier over the newer side. */
  function RunTier(tier: Tier, never: set<Pair>, before: seq<Snap>, after: seq<Snap>, st: Matching): Matching {
    if after == [] then st
    else TakeStep(tier, never, before, after[|after| - 1], RunTier(tier, never, before, after[..|after| - 1], st))
  }

  /** The last snapshot with that id, as a dictionary built in order holds it. */
  function ById(side: seq<Snap>, id: Name): (r: Option<Snap>)
    ensures r.Some? <==> exists s :: s in side && s.id == id
    ensures r.Some? ==> r.value in side && r.value.id == id
  {
    if side == [] then None
    else if side[|side| - 1].id == id then Some(side[|side| - 1])
    else
      assert side == side[..|side| - 1] + [side[|side| - 1]];
      ById(side[..|side| - 1], id)
  }

  /** The two ends a forced pair names, whichever way round it was written. */
  function ForcedEnds(before: seq<Snap>, after: seq<Snap>, p: Pair): (Option<Snap>, Option<Snap>) {
    var x := ById(before, p.fst);
    (if x.Some? then x else ById(before, p.snd), if x.Some? then ById(after, p.snd) else ById(after, p.fst))
  }

  function ForceStep(before: seq<Snap>, after: seq<Snap>, p: Pair, st: Matching): Matching {
    var ends := ForcedEnds(before, after, p);
    if ends.0.None? || ends.1.None? || ends.0.value.id in st.older || ends.1.value.id in st.newer then st
    else Joined(st, ends.0.value, ends.1.value)
  }

  /** The forced pairs, in the order the set of them happens to be walked. */
  function RunForced(before: seq<Snap>, after: seq<Snap>, pairs: seq<Pair>, st: Matching): Matching {
    if pairs == [] then st
    else ForceStep(before, after, pairs[|pairs| - 1], RunForced(before, after, pairs[..|pairs| - 1], st))
  }

  /** All tiers after the forced pairs. */
  function RunAll(never: set<Pair>, forced: seq<Pair>, before: seq<Snap>, after: seq<Snap>, st: Matching): Matching {
    var s0 := RunForced(before, after, forced, st);
    var s1 := RunTier(ByContent, never, before, after, s0);
    var s2 := RunTier(ByStructure, never, before, after, s1);
    RunTier(Fuzzy, never, before, after, s2)
  }

  // ---------------------------------------------------------------------------------------
  // What a pick is.

  /** No candidate is refused, and the one taken is the first, or -- in the fuzzy tier -- the first of
      the best. */
  ghost predicate IsPick(tier: Tier, never: set<Pair>, older: set<Name>, from: seq<Snap>, a: Snap, r: Option<Snap>) {
    if r.None? then forall i :: 0 <= i < |from| ==> !Eligible(tier, never, older, from[i], a)
    else exists k :: 0 <= k < |from| && PickedAt(tier, never, older, from, a, k) && from[k] == r.value
  }

  ghost predicate PickedAt(tier: Tier, never: set<Pair>, older: set<Name>, from: seq<Snap>, a: Snap, k: nat)
    requires k < |from|
  {
    && Eligible(tier, never, older, from[k], a)
    && (forall i :: 0 <= i < k && Eligible(tier, never, older, from[i], a) ==>
          tier.Fuzzy? && Jaccard(a.tokens, from[i].tokens) < Jaccard(a.tokens, from[k].tokens))
    && (forall i :: k < i < |from| && Eligible(tier, never, older, from[i], a) && tier.Fuzzy? ==>
          Jaccard(a.tokens, from[i].tokens) <= Jaccard(a.tokens, from[k].tokens))
  }

  lemma BestMoves(tier: Tier, never: set<Pair>, older: set<Name>, from: seq<Snap>, a: Snap, k: nat)
    requires k < |from| - 1 && PickedAt(tier, never, older, from[..|from| - 1], a, k) && tier.Fuzzy?
    requires Eligible(tier, never, older, from[|from| - 1], a)
    requires Jaccard(a.tokens, from[|from| - 1].tokens) > Jaccard(a.tokens, from[k].tokens)
    ensures PickedAt(tier, never, older, from, a, |from| - 1)
  {
    hide Eligible, Jaccard;
    var init := from[..|from| - 1];
    forall i | 0 <= i < |from| - 1 && Eligible(tier, never, older, from[i], a)
      ensures Jaccard(a.tokens, from[i].tokens) < Jaccard(a.tokens, from[|from| - 1].tokens)
    {
      assert from[i] == init[i] && from[k] == init[k];
    }
  }

  lemma BestStays(tier: Tier, never: set<Pair>, older: set<Name>, from: seq<Snap>, a: Snap, k: nat)
    requires k < |from| - 1 && PickedAt(tier, never, older, from[..|from| - 1], a, k)
    requires Eligible(tier, never, older, from[|from| - 1], a) && tier.Fuzzy?
             ==> Jaccard(a.tokens, from[|from| - 1].tokens) <= Jaccard(a.tokens, from[k].tokens)
    ensures PickedAt(tier, never, older, from, a, k)
  {
    hide Eligible, Jaccard;
    var init := from[..|from| - 1];
    assert forall i :: 0 <= i < |init| ==> from[i] == init[i];
  }

  lemma OnlyPick(tier: Tier, never: set<Pair>, older: set<Name>, from: seq<Snap>, a: Snap)
    requires from != [] && IsPick(tier, never, older, from[..|from| - 1], a, None)
    ensures if Eligible(tier, never, older, from[|from| - 1], a) then PickedAt(tier, never, older, from, a, |from| - 1)
            else IsPick(tier, never, older, from, a, None)
  {
    hide Eligible, Jaccard;
    var init := from[..|from| - 1];
    assert forall i :: 0 <= i < |init| ==> from[i] == init[i];
  }

  lemma PickStep(tier: Tier, never: set<Pair>, older: set<Name>, from: seq<Snap>, a: Snap, held: Option<Snap>)
    requires from != [] && IsPick(tier, never, older, from[..|from| - 1], a, held)
    ensures var b := from[|from| - 1];
            IsPick(tier, never, older, from, a, if Eligible(tier, never, older, b, a)
                   && Beats(tier, held, b, a) then Some(b) else held)
  {
    var n := |from| - 1;
    var init, b := from[..n], from[n];
    hide Eligible, Jaccard, PickedAt;
    if held.None? {
      OnlyPick(tier, never, older, from, a);
    } else {
      var k :| 0 <= k < n && PickedAt(tier, never, older, init, a, k) && init[k] == held.value;
      assert from[k] == init[k];
      if Eligible(tier, never, older, b, a) && Beats(tier, held, b, a) {
        BestMoves(tier, never, older, from, a, k);
      } else {
        BestStays(tier, never, older, from, a, k);
      }
    }
  }

  lemma {:induction false} PickIsBest(tier: Tier, never: set<Pair>, older: set<Name>, from: seq<Snap>, a: Snap)
    ensures IsPick(tier, never, older, from, a, Pick(tier, never, older, from, a))
  {
    hide Eligible, Beats, IsPick;
    if from != [] {
      PickIsBest(tier, never, older, from[..|from| - 1], a);
      PickStep(tier, never, older, from, a, Pick(tier, never, older, from[..|from| - 1], a));
    } else {
      NothingToPick(tier, never, older, a);
    }
  }

  lemma NothingToPick(tier: Tier, never: set<Pair>, older: set<Name>, a: Snap)
    ensures IsPick(tier, never, older, [], a, None)
  {
  }

  // ---------------------------------------------------------------------------------------
  // Maximality.

  ghost predicate Grown(st: Matching, later: Matching) {
    st.older <= later.older && st.newer <= later.newer && |st.links| <= |later.links|
    && st.links == later.links[..|st.links|]
  }

  lemma GrownOnward(a: Matching, b: Matching, c: Matching)
    requires Grown(a, b) && Grown(b, c)
    ensures Grown(a, c)
  {
  }

  lemma JoinedGrows(st: Matching, b: Snap, a: Snap)
    ensures Grown(st, Joined(st, b, a))
  {
  }

  lemma StepGrows(tier: Tier, never: set<Pair>, before: seq<Snap>, a: Snap, st: Matching)
    ensures Grown(st, TakeStep(tier, never, before, a, st))
  {
    var b := Pick(tier, never, st.older, before, a);
    if b.Some? { JoinedGrows(st, b.value, a); }
    hide Pick, Joined;
  }

  lemma {:induction false} TierGrows(tier: Tier, never: set<Pair>, before: seq<Snap>, after: seq<Snap>, st: Matching)
    ensures Grown(st, RunTier(tier, never, before, after, st))
  {
    if after != [] {
      var mid := RunTier(tier, never, before, after[..|after| - 1], st);
      hide TakeStep, Grown;
      TierGrows(tier, never, before, after[..|after| - 1], st);
      StepGrows(tier, never, before, after[|after| - 1], mid);
      GrownOnward(st, mid, RunTier(tier, never, before, after, st));
    }
  }

  /** The tier turns this pair down, unless one end is taken or the pair may not link. */
  ghost predicate Refused(tier: Tier, never: set<Pair>, st: Matching, b: Snap, a: Snap) {
    b.id !in st.older && a.id !in st.newer && Allowed(never, b, a) ==> !Evidence(tier, b, a)
  }

  ghost predicate Settled(tier: Tier, never: set<Pair>, before: seq<Snap>, after: seq<Snap>, st: Matching) {
    forall b, a {:trigger Refused(tier, never, st, b, a)} :: b in before && a in after
      ==> Refused(tier, never, st, b, a)
  }

  lemma SettledStays(tier: Tier, never: set<Pair>, before: seq<Snap>, after: seq<Snap>, st: Matching, later: Matching)
    requires Settled(tier, never, before, after, st) && Grown(st, later)
    ensures Settled(tier, never, before, after, later)
  {
    hide Allowed, Evidence;
    forall b, a | b in before && a in after ensures Refused(tier, never, later, b, a) {
      assert Refused(tier, never, st, b, a);
    }
  }

  lemma StepSettles(tier: Tier, never: set<Pair>, before: seq<Snap>, a: Snap, st: Matching, b: Snap)
    requires b in before
    ensures Refused(tier, never, TakeStep(tier, never, before, a, st), b, a)
  {
    PickIsBest(tier, never, st.older, before, a);
    hide Pick, Allowed, Evidence, PickedAt;
  }

  lemma {:induction false} TierSettles(tier: Tier, never: set<Pair>, before: seq<Snap>, after: seq<Snap>, st: Matching)
    ensures Settled(tier, never, before, after, RunTier(tier, never, before, after, st))
  {
    if after != [] {
      var n := |after| - 1;
      var mid, end := RunTier(tier, never, before, after[..n], st), RunTier(tier, never, before, after, st);
      assert end == TakeStep(tier, never, before, after[n], mid);
      hide RunTier, TakeStep, Settled;
      TierSettles(tier, never, before, after[..n], st);
      StepGrows(tier, never, before, after[n], mid);
      SettledStays(tier, never, before, after[..n], mid, end);
      SettledWithLast(tier, never, before, after, mid, end);
    }
  }

  lemma SettledWithLast(tier: Tier, never: set<Pair>, before: seq<Snap>, after: seq<Snap>, mid: Matching, end: Matching)
    requires after != [] && Settled(tier, never, before, after[..|after| - 1], end)
    requires end == TakeStep(tier, never, before, after[|after| - 1], mid)
    ensures Settled(tier, never, before, after, end)
  {
    var n := |after| - 1;
    hide TakeStep, Refused;
    forall b, a | b in before && a in after ensures Refused(tier, never, end, b, a) {
      if a == after[n] { StepSettles(tier, never, before, a, mid, b); } else { assert a in after[..n]; }
    }
  }

  /** When the passes end, no tier would link any pair still unmatched on both sides. */
  lemma Maximal(never: set<Pair>, forced: seq<Pair>, before: seq<Snap>, after: seq<Snap>, st: Matching, tier: Tier)
    ensures Settled(tier, never, before, after, RunAll(never, forced, before, after, st))
  {
    var s0 := RunForced(before, after, forced, st);
    var s1 := RunTier(ByContent, never, before, after, s0);
    var s2 := RunTier(ByStructure, never, before, after, s1);
    var s3 := RunTier(Fuzzy, never, before, after, s2);
    assert RunAll(never, forced, before, after, st) == s3;
    TierGrows(ByStructure, never, before, after, s1);
    TierGrows(Fuzzy, never, before, after, s2);
    TierSettles(tier, never, before, after, match tier case ByContent => s0 case ByStructure => s1 case Fuzzy => s2);
    hide RunForced, RunTier, RunAll, Settled;
    if tier.ByContent? {
      GrownOnward(s1, s2, s3);
      SettledStays(tier, never, before, after, s1, s3);
    } else if tier.ByStructure? {
      SettledStays(tier, never, before, after, s2, s3);
    }
  }

  // ---------------------------------------------------------------------------------------
  // One to one.

  function Ids(links: seq<Link>, newer: bool): (r: seq<Name>)
    ensures |r| == |links| && forall i :: 0 <= i < |r| ==> r[i] == (if newer then links[i].dst.id else links[i].src.id)
  {
    seq(|links|, i requires 0 <= i < |links| => if newer then links[i].dst.id else links[i].src.id)
  }

  /** The ids matched are those matched at the start and those linked, none of them twice. */
  ghost predicate Ledger(start: set<Name>, ids: seq<Name>, now: set<Name>) {
    Distinct(ids) && (forall x :: x in ids ==> x !in start) && (forall x :: x in now <==> x in start || x in ids)
  }

  ghost predicate OneToOne(st: Matching, older: set<Name>, newer: set<Name>) {
    Ledger(older, Ids(st.links, false), st.older) && Ledger(newer, Ids(st.links, true), st.newer)
  }

  lemma LedgerMore(start: set<Name>, ids: seq<Name>, now: set<Name>, x: Name)
    requires Ledger(start, ids, now) && x !in now
    ensures Ledger(start, ids + [x], now + {x})
  {
    DistinctConcat(ids, [x]);
  }

  lemma JoinedStaysOneToOne(st: Matching, older: set<Name>, newer: set<Name>, b: Snap, a: Snap)
    requires OneToOne(st, older, newer) && b.id !in st.older && a.id !in st.newer
    ensures OneToOne(Joined(st, b, a), older, newer)
  {
    LedgerMore(older, Ids(st.links, false), st.older, b.id);
    LedgerMore(newer, Ids(st.links, true), st.newer, a.id);
    var more := st.links + [Link(b, a)];
    assert Ids(more, false) == Ids(st.links, false) + [b.id];
    assert Ids(more, true) == Ids(st.links, true) + [a.id];
    hide Ledger, Ids;
  }

  /** Both ends come from their side, and some tier had evidence for the pair, which was allowed. */
  ghost predicate Earned(never: set<Pair>, before: seq<Snap>, after: seq<Snap>, l: Link) {
    && l.src in before && l.dst in after && Allowed(never, l.src, l.dst)
    && exists tier :: Evidence(tier, l.src, l.dst)
  }

  ghost predicate AllEarned(never: set<Pair>, before: seq<Snap>, after: seq<Snap>, links: seq<Link>, start: nat) {
    forall i :: start <= i < |links| ==> Earned(never, before, after, links[i])
  }

  lemma PickIsEligible(tier: Tier, never: set<Pair>, older: set<Name>, from: seq<Snap>, a: Snap)
    ensures var r := Pick(tier, never, older, from, a);
            r.Some? ==> r.value in from && Eligible(tier, never, older, r.value, a)
  {
    PickIsBest(tier, never, older, from, a);
    hide Pick, Eligible;
  }

  ghost predicate Sound(never: set<Pair>, before: seq<Snap>, after: seq<Snap>, older: set<Name>, newer: set<Name>,
                        start: nat, st: Matching) {
    OneToOne(st, older, newer) && start <= |st.links| && AllEarned(never, before, after, st.links, start)
  }

  lemma StepIsSound(tier: Tier, never: set<Pair>, before: seq<Snap>, after: seq<Snap>, a: Snap, older: set<Name>,
                    newer: set<Name>, start: nat, st: Matching)
    requires Sound(never, before, after, older, newer, start, st) && a in after
    ensures Sound(never, before, after, older, newer, start, TakeStep(tier, never, before, a, st))
  {
    PickIsEligible(tier, never, st.older, before, a);
    var b := Pick(tier, never, st.older, before, a);
    if b.Some? && a.id !in st.newer {
      hide Pick, OneToOne;
      JoinedStaysOneToOne(st, older, newer, b.value, a);
      hide Evidence, Allowed;
      assert Earned(never, before, after, Link(b.value, a));
    }
  }

  lemma {:induction false} TierIsSound(tier: Tier, never: set<Pair>, before: seq<Snap>, after: seq<Snap>,
                                       all: seq<Snap>, older: set<Name>, newer: set<Name>, start: nat, st: Matching)
    requires Sound(never, before, all, older, newer, start, st) && forall a :: a in after ==> a in all
    ensures Sound(never, before, all, older, newer, start, RunTier(tier, never, before, after, st))
  {
    if after != [] {
      hide Sound, TakeStep;
      var n := |after| - 1;
      TierIsSound(tier, never, before, after[..n], all, older, newer, start, st);
      StepIsSound(tier, never, before, all, after[n], older, newer, start,
                  RunTier(tier, never, before, after[..n], st));
    }
  }

  /** The forced prefix: each link is one the caller asked for. */
  ghost predicate Asked(before: seq<Snap>, after: seq<Snap>, pairs: seq<Pair>, l: Link) {
    exists p :: p in pairs && ForcedEnds(before, after, p) == (Some(l.src), Some(l.dst))
  }

  lemma {:induction false} ForcedIsSound(before: seq<Snap>, after: seq<Snap>, pairs: seq<Pair>, all: seq<Pair>,
                                         older: set<Name>, newer: set<Name>, st: Matching)
    requires OneToOne(st, older, newer) && st.links == [] && forall p :: p in pairs ==> p in all
    ensures var r := RunForced(before, after, pairs, st);
            OneToOne(r, older, newer) && forall l :: l in r.links ==> Asked(before, after, all, l)
  {
    if pairs != [] {
      var n := |pairs| - 1;
      ForcedIsSound(before, after, pairs[..n], all, older, newer, st);
      ForceStepIsSound(before, after, pairs[n], all, older, newer, RunForced(before, after, pairs[..n], st));
    }
  }

  lemma ForceStepIsSound(before: seq<Snap>, after: seq<Snap>, p: Pair, all: seq<Pair>, older: set<Name>,
                         newer: set<Name>, st: Matching)
    requires OneToOne(st, older, newer) && p in all && forall l :: l in st.links ==> Asked(before, after, all, l)
    ensures var r := ForceStep(before, after, p, st);
            OneToOne(r, older, newer) && forall l :: l in r.links ==> Asked(before, after, all, l)
  {
    var ends := ForcedEnds(before, after, p);
    var r := ForceStep(before, after, p, st);
    if r != st {
      assert r == Joined(st, ends.0.value, ends.1.value);
      hide ForceStep, OneToOne, ForcedEnds;
      JoinedStaysOneToOne(st, older, newer, ends.0.value, ends.1.value);
      assert Asked(before, after, all, Link(ends.0.value, ends.1.value));
    }
  }

  /** Links are one to one.  Those no one forced join ends from the two sides that some tier had
      evidence for, never a forbidden pair and never two different imports. */
  lemma LinksAreEarned(never: set<Pair>, forced: seq<Pair>, before: seq<Snap>, after: seq<Snap>, older: set<Name>,
                       newer: set<Name>)
    ensures var st, hand := RunAll(never, forced, before, after, Matching(older, newer, [])),
            RunForced(before, after, forced, Matching(older, newer, []));
            && OneToOne(st, older, newer) && Grown(hand, st)
            && AllEarned(never, before, after, st.links, |hand.links|)
            && forall l :: l in hand.links ==> Asked(before, after, forced, l)
  {
    var start := Matching(older, newer, []);
    assert OneToOne(start, older, newer);
    ForcedIsSound(before, after, forced, forced, older, newer, start);
    var s0 := RunForced(before, after, forced, start);
    var s1 := RunTier(ByContent, never, before, after, s0);
    var s2 := RunTier(ByStructure, never, before, after, s1);
    var s3 := RunTier(Fuzzy, never, before, after, s2);
    assert RunAll(never, forced, before, after, start) == s3;
    var n := |s0.links|;
    assert Sound(never, before, after, older, newer, n, s0) by { hide RunForced, OneToOne; }
    TierIsSound(ByContent, never, before, after, after, older, newer, n, s0);
    TierIsSound(ByStructure, never, before, after, after, older, newer, n, s1);
    TierIsSound(Fuzzy, never, before, after, after, older, newer, n, s2);
    TierGrows(ByContent, never, before, after, s0);
    TierGrows(ByStructure, never, before, after, s1);
    TierGrows(Fuzzy, never, before, after, s2);
    GrownOnward(s0, s1, s2);
    GrownOnward(s0, s2, s3);
  }

  /** A forced pair always wins: once the forced pass is done, one of its ends at least is taken, so no
      tier can link the two ends to two other partners. */
  lemma {:induction false} ForcedFirst(before: seq<Snap>, after: seq<Snap>, pairs: seq<Pair>, st: Matching, p: Pair)
    requires p in pairs
    ensures var ends, r := ForcedEnds(before, after, p), RunForced(before, after, pairs, st);
            ends.0.Some? && ends.1.Some? ==> ends.0.value.id in r.older || ends.1.value.id in r.newer
  {
    hide ForcedEnds;
    var n := |pairs| - 1;
    if pairs[n] != p { ForcedFirst(before, after, pairs[..n], st, p); }
  }
}
