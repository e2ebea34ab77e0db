/** Which evidence wins (`sgt/core/identity.py`, `_link_pass`): a forced pair over a body, a body over a structure,
    a structure over similar tokens, whatever order the entities come in. */
module Priority {
  import opened Names
  import opened Identity
  import Matcher

  // ---------------------------------------------------------------------------------------
  // The evidence, spelled out.

  /** Which pairs may link at all: those no correction forbids, in either order, and of imports only one and the
      same. */
  lemma AllowedExactlyWhen(never: set<Pair>, b: Snap, a: Snap)
    ensures Allowed(never, b, a) <==>
            && Pair(b.id, a.id) !in never && Pair(a.id, b.id) !in never
            && (b.id != a.id ==> !NamesImport(b.id) && !NamesImport(a.id))
  {
    NormalIgnoresOrder(b.id, a.id);
    NormalInNever(never, b.id, a.id);
    ImportMarked(b.id);
    ImportMarked(a.id);
    hide Normal, Normalized, IsImportId, NamesImport;
  }

  /** The import marker stands in the id. */
  ghost predicate NamesImport(id: Name) {
    exists x: string, y: string :: x + "::__import__::" + y == id
  }

  lemma ImportMarked(id: Name)
    ensures IsImportId(id) <==> NamesImport(id)
  {
    if IsImportId(id) {
      var i :| 0 <= i <= |id| && ContainsAt(id, IMPORT_MARKER, i);
      assert id[..i] + IMPORT_MARKER + id[i + |IMPORT_MARKER|..] == id;
    }
    if x: string, y: string :| x + "::__import__::" + y == id {
      assert id[|x|..|x| + |IMPORT_MARKER|] == IMPORT_MARKER;
      assert ContainsAt(id, IMPORT_MARKER, |x|);
    }
  }

  lemma NormalInNever(never: set<Pair>, x: Name, y: Name)
    ensures Normal(x, y) in Normalized(never) <==> Pair(x, y) in never || Pair(y, x) in never
  {
    if Normal(x, y) in Normalized(never) {
      var p :| p in never && Normal(p.fst, p.snd) == Normal(x, y);
      assert p == Pair(p.fst, p.snd);
    }
    NormalIgnoresOrder(x, y);
    if Pair(x, y) in never { assert Normal(x, y) in Normalized(never); }
    if Pair(y, x) in never { assert Normal(y, x) in Normalized(never); }
  }

  lemma UnionSize(a: set<string>, b: set<string>)
    ensures |a + b| == |a| + |b| - |a * b|
  {
    assert a + b == a + (b - a * b);
    assert b == (b - a * b) + a * b;
    assert |b| == |b - a * b| + |a * b|;
    assert a !! (b - a * b);
  }

  lemma Scaled(q: real, c: real, y: real)
    requires y > 0.0
    ensures q >= c <==> q * y >= c * y
  {
    if q < c { assert (c - q) * y > 0.0; }
  }

  lemma Quotient(x: nat, y: nat, c: real)
    requires y > 0
    ensures x as real / y as real >= c <==> x as real >= c * y as real
  {
    var q := x as real / y as real;
    Scaled(q, c, y as real);
    assert q * y as real == x as real;
  }

  /** What counts as similar: one kind, neither with more than twice the other's tokens, and of all tokens of the two
      at least four in five shared. */
  lemma SimilarExactlyWhen(b: Snap, a: Snap)
    ensures Evidence(Fuzzy, b, a) <==>
            && b.kind == a.kind && a.ntok <= 2 * b.ntok && b.ntok <= 2 * a.ntok
            && a.tokens + b.tokens != {} && 5 * |a.tokens * b.tokens| >= 4 * |a.tokens + b.tokens|
  {
    UnionSize(a.tokens, b.tokens);
    var n := |a.tokens + b.tokens|;
    assert n == 0 <==> a.tokens + b.tokens == {};
    if n > 0 { Quotient(|a.tokens * b.tokens|, n, 0.8); }
    var lo, hi := if a.ntok <= b.ntok then a.ntok else b.ntok, if a.ntok <= b.ntok then b.ntok else a.ntok;
    if hi > 0 { Quotient(lo, hi, 0.5); }
  }

  // ---------------------------------------------------------------------------------------
  // What a tier adds.

  lemma {:induction false} TierAdds(tier: Tier, never: set<Pair>, before: seq<Snap>, after: seq<Snap>, st: Matching)
    ensures var r := RunTier(tier, never, before, after, st);
            |st.links| <= |r.links|
            && forall i :: |st.links| <= i < |r.links| ==> Evidence(tier, r.links[i].src, r.links[i].dst)
  {
    if after != [] {
      var n := |after| - 1;
      var mid := RunTier(tier, never, before, after[..n], st);
      TierAdds(tier, never, before, after[..n], st);
      PickIsEligible(tier, never, mid.older, before, after[n]);
      hide Pick, Evidence, Allowed;
    }
  }

  /** A link in which an end was taken by the caller's request, */
  ghost predicate ByRequest(before: seq<Snap>, after: seq<Snap>, forced: seq<Pair>, l: Link) {
    Asked(before, after, forced, l)
  }

  /** by an equal body, or */
  predicate ByBody(l: Link) {
    l.src.contentHash == l.dst.contentHash != ""
  }

  /** by an equal structure. */
  predicate ByShape(l: Link) {
    l.src.structuralHash == l.dst.structuralHash != ""
  }

  /** Some link of that standing, or a match of ids, has taken one of the two. */
  ghost predicate TakenByBody(before: seq<Snap>, after: seq<Snap>, forced: seq<Pair>, older: set<Name>,
                              newer: set<Name>,
                              links: seq<Link>, b: Snap, a: Snap) {
    || b.id in older || a.id in newer
    || exists l :: l in links && (l.src.id == b.id || l.dst.id == a.id)
         && (ByRequest(before, after, forced, l) || ByBody(l))
  }

  ghost predicate TakenByShape(before: seq<Snap>, after: seq<Snap>, forced: seq<Pair>, older: set<Name>,
                               newer: set<Name>, links: seq<Link>, b: Snap, a: Snap) {
    || b.id in older || a.id in newer
    || exists l :: l in links && (l.src.id == b.id || l.dst.id == a.id)
                   && (ByRequest(before, after, forced, l) || ByBody(l) || ByShape(l))
  }

  /** The state after the forced pairs and the first tiers, with what is known of its links. */
  ghost predicate Standing(before: seq<Snap>, after: seq<Snap>, forced: seq<Pair>, older: set<Name>, newer: set<Name>,
                           shapes: bool, st: Matching) {
    && OneToOne(st, older, newer)
    && forall l :: l in st.links ==> ByRequest(before, after, forced, l) || ByBody(l) || (shapes && ByShape(l))
  }

  lemma TierStands(tier: Tier, never: set<Pair>, before: seq<Snap>, after: seq<Snap>, forced: seq<Pair>,
                   older: set<Name>, newer: set<Name>, shapes: bool, st: Matching)
    requires Standing(before, after, forced, older, newer, shapes, st)
    requires tier.ByContent? || (tier.ByStructure? && shapes)
    ensures Standing(before, after, forced, older, newer, shapes, RunTier(tier, never, before, after, st))
  {
    var r := RunTier(tier, never, before, after, st);
    TierAdds(tier, never, before, after, st);
    TierGrows(tier, never, before, after, st);
    KeepsOneToOne(tier, never, before, after, older, newer, st);
    hide RunTier, OneToOne, ByRequest;
    forall l | l in r.links ensures ByRequest(before, after, forced, l) || ByBody(l) || (shapes && ByShape(l)) {
      var i :| 0 <= i < |r.links| && r.links[i] == l;
      if i < |st.links| { assert st.links[i] == l; }
    }
  }

  lemma {:induction false} KeepsOneToOne(tier: Tier, never: set<Pair>, before: seq<Snap>, after: seq<Snap>,
                                         older: set<Name>, newer: set<Name>, st: Matching)
    requires OneToOne(st, older, newer)
    ensures OneToOne(RunTier(tier, never, before, after, st), older, newer)
  {
    if after != [] {
      var n := |after| - 1;
      var mid := RunTier(tier, never, before, after[..n], st);
      KeepsOneToOne(tier, never, before, after[..n], older, newer, st);
      PickIsEligible(tier, never, mid.older, before, after[n]);
      var b := Pick(tier, never, mid.older, before, after[n]);
      hide Pick, Evidence, Allowed, OneToOne;
      if after[n].id !in mid.newer && b.Some? { JoinedStaysOneToOne(mid, older, newer, b.value, after[n]); }
    }
  }

  lemma RequestsStand(before: seq<Snap>, after: seq<Snap>, forced: seq<Pair>, older: set<Name>, newer: set<Name>,
                      shapes: bool)
    ensures Standing(before, after, forced, older, newer, shapes,
                     RunForced(before, after, forced, Matching(older, newer, [])))
  {
    var start := Matching(older, newer, []);
    assert OneToOne(start, older, newer);
    ForcedIsSound(before, after, forced, forced, older, newer, start);
    hide RunForced, OneToOne, Asked;
  }

  /** Whoever is matched already is matched at the start or an end of a link. */
  lemma TakenHow(st: Matching, older: set<Name>, newer: set<Name>, b: Snap, a: Snap)
    requires OneToOne(st, older, newer) && (b.id in st.older || a.id in st.newer)
    ensures b.id in older || a.id in newer || exists l :: l in st.links && (l.src.id == b.id || l.dst.id == a.id)
  {
    if b.id in st.older && b.id !in older {
      var i :| 0 <= i < |st.links| && Ids(st.links, false)[i] == b.id;
      assert st.links[i] in st.links;
    }
    if a.id in st.newer && a.id !in newer {
      var i :| 0 <= i < |st.links| && Ids(st.links, true)[i] == a.id;
      assert st.links[i] in st.links;
    }
  }

  lemma LinksStay(st: Matching, later: Matching, l: Link)
    requires Grown(st, later) && l in st.links
    ensures l in later.links
  {
    var i :| 0 <= i < |st.links| && st.links[i] == l;
    assert later.links[i] == l;
  }

  /** Of two entities with one body, at least one ends up matched by its id, by request, or on an equal body. */
  lemma BodyFirst(never: set<Pair>, forced: seq<Pair>, before: seq<Snap>, after: seq<Snap>, older: set<Name>,
                  newer: set<Name>, b: Snap, a: Snap)
    requires b in before && a in after && Allowed(never, b, a) && b.contentHash == a.contentHash != ""
    ensures var links := RunAll(never, forced, before, after, Matching(older, newer, [])).links;
            TakenByBody(before, after, forced, older, newer, links, b, a)
  {
    var start := Matching(older, newer, []);
    var s0 := RunForced(before, after, forced, start);
    var s1 := RunTier(ByContent, never, before, after, s0);
    var s2 := RunTier(ByStructure, never, before, after, s1);
    var s3 := RunTier(Fuzzy, never, before, after, s2);
    assert RunAll(never, forced, before, after, start) == s3;
    RequestsStand(before, after, forced, older, newer, false);
    TierStands(ByContent, never, before, after, forced, older, newer, false, s0);
    TierSettles(ByContent, never, before, after, s0);
    TierGrows(ByStructure, never, before, after, s1);
    TierGrows(Fuzzy, never, before, after, s2);
    GrownOnward(s1, s2, s3);
    hide RunForced, RunTier, RunAll, OneToOne, Allowed, Grown, ByRequest;
    assert Refused(ByContent, never, s1, b, a);
    TakenHow(s1, older, newer, b, a);
    if l :| l in s1.links && (l.src.id == b.id || l.dst.id == a.id) {
      LinksStay(s1, s3, l);
    }
  }

  /** And of two with one structure, at least one by its id, by request, or on an equal body or structure: similar
      tokens come last. */
  lemma ShapeNext(never: set<Pair>, forced: seq<Pair>, before: seq<Snap>, after: seq<Snap>, older: set<Name>,
                  newer: set<Name>, b: Snap, a: Snap)
    requires b in before && a in after && Allowed(never, b, a) && b.structuralHash == a.structuralHash != ""
    ensures var links := RunAll(never, forced, before, after, Matching(older, newer, [])).links;
            TakenByShape(before, after, forced, older, newer, links, b, a)
  {
    var start := Matching(older, newer, []);
    var s0 := RunForced(before, after, forced, start);
    var s1 := RunTier(ByContent, never, before, after, s0);
    var s2 := RunTier(ByStructure, never, before, after, s1);
    var s3 := RunTier(Fuzzy, never, before, after, s2);
    assert RunAll(never, forced, before, after, start) == s3;
    RequestsStand(before, after, forced, older, newer, true);
    TierStands(ByContent, never, before, after, forced, older, newer, true, s0);
    TierStands(ByStructure, never, before, after, forced, older, newer, true, s1);
    TierSettles(ByStructure, never, before, after, s1);
    TierGrows(Fuzzy, never, before, after, s2);
    hide RunForced, RunTier, RunAll, OneToOne, Allowed, Grown, ByRequest;
    assert Refused(ByStructure, never, s2, b, a);
    TakenHow(s2, older, newer, b, a);
    if l :| l in s2.links && (l.src.id == b.id || l.dst.id == a.id) {
      LinksStay(s2, s3, l);
    }
  }

  // ---------------------------------------------------------------------------------------
  // What a match does with them.

  /** Nobody asked for either end. */
  ghost predicate Unasked(forced: seq<Pair>, b: Snap, a: Snap) {
    forall p :: p in forced ==> p.fst != b.id && p.snd != b.id && p.fst != a.id && p.snd != a.id
  }

  ghost predicate OneEach(side: seq<Snap>) {
    forall x, y :: x in side && y in side && x.id == y.id ==> x == y
  }

  /** No other entity of either side has that body. */
  ghost predicate OnlyBodies(before: seq<Snap>, after: seq<Snap>, b: Snap, a: Snap) {
    && (forall x :: x in before && x.contentHash == b.contentHash ==> x == b)
    && (forall x :: x in after && x.contentHash == a.contentHash ==> x == a)
  }

  lemma AskedNames(before: seq<Snap>, after: seq<Snap>, forced: seq<Pair>, l: Link, b: Snap, a: Snap)
    requires Asked(before, after, forced, l) && Unasked(forced, b, a)
    ensures l.src.id != b.id && l.dst.id != a.id
  {
    var p :| p in forced && ForcedEnds(before, after, p) == (Some(l.src), Some(l.dst));
    hide ById;
  }

  /** An entity renamed with its body untouched, and with no other copy of that body on either side, is linked to its
      new name -- whatever else on the newer side looks like it. */
  lemma SoleBodyLinks(never: set<Pair>, forced: seq<Pair>, before: seq<Snap>, after: seq<Snap>, b: Snap, a: Snap)
    requires b in before && a in after && Allowed(never, b, a) && b.contentHash == a.contentHash != ""
    requires OneEach(before) && OneEach(after) && OnlyBodies(before, after, b, a) && Unasked(forced, b, a)
    requires (forall x :: x in after ==> x.id != b.id) && forall x :: x in before ==> x.id != a.id
    ensures Link(b, a) in Matcher.MatchOf(never, forced, before, after).links
  {
    var both := Matcher.Surface(before, after);
    var links := Matcher.MatchOf(never, forced, before, after).links;
    assert b.id !in both && a.id !in both;
    BodyFirst(never, forced, before, after, both, both, b, a);
    Matcher.ReportedAreThere(never, forced, before, after);
    hide Matcher.MatchOf, Matcher.Surface, Asked, Allowed, Unasked;
    var l :| l in links && (l.src.id == b.id || l.dst.id == a.id) && (ByRequest(before, after, forced, l) || ByBody(l));
    if ByRequest(before, after, forced, l) {
      AskedNames(before, after, forced, l, b, a);
      assert false;
    }
  }

  /** A forced pair with one id on each side, whichever way round it was written: one of the two is taken by a
      request. */
  lemma RequestFirst(never: set<Pair>, forced: seq<Pair>, before: seq<Snap>, after: seq<Snap>, older: set<Name>,
                     newer: set<Name>, b: Snap, a: Snap)
    requires Pair(b.id, a.id) in forced || Pair(a.id, b.id) in forced
    requires b in before && a in after && OneEach(before) && OneEach(after)
    requires (forall x :: x in before ==> x.id != a.id) && forall x :: x in after ==> x.id != b.id
    ensures var links := RunAll(never, forced, before, after, Matching(older, newer, [])).links;
            || b.id in older || a.id in newer
            || exists l :: l in links && (l.src.id == b.id || l.dst.id == a.id) && ByRequest(before, after, forced, l)
  {
    var start := Matching(older, newer, []);
    var p := if Pair(b.id, a.id) in forced then Pair(b.id, a.id) else Pair(a.id, b.id);
    var s0 := RunForced(before, after, forced, start);
    assert ForcedEnds(before, after, p) == (Some(b), Some(a)) by { hide ById; }
    ForcedFirst(before, after, forced, start, p);
    assert OneToOne(start, older, newer);
    ForcedIsSound(before, after, forced, forced, older, newer, start);
    LinksAreEarned(never, forced, before, after, older, newer);
    hide RunForced, RunAll, OneToOne, Asked, Grown, ForcedEnds;
    TakenHow(s0, older, newer, b, a);
    if l :| l in s0.links && (l.src.id == b.id || l.dst.id == a.id) {
      LinksStay(s0, RunAll(never, forced, before, after, start), l);
    }
  }

  // ---------------------------------------------------------------------------------------
  // A copy and a look-alike.

  const SEEN := {"a", "b", "c", "d"}
  const OLD := Snap("f", "p", "function", "body", "shape", SEEN, 4)
  const ALIKE := Snap("g", "p", "function", "other", "else", SEEN + {"e"}, 5)
  const COPY := Snap("h", "p", "function", "body", "third", {}, 0)

  lemma LooksAlike()
    ensures Evidence(Fuzzy, OLD, ALIKE)
  {
    assert ALIKE.tokens * OLD.tokens == SEEN && ALIKE.tokens + OLD.tokens == SEEN + {"e"};
    SimilarExactlyWhen(OLD, ALIKE);
    hide Evidence;
  }

  lemma CopyMayLink()
    ensures Allowed({}, OLD, COPY)
  {
  }

  /** Of a look-alike listed first and a copy listed last, the copy is the new name. */
  lemma CopyBeatsLikeness()
    ensures Evidence(Fuzzy, OLD, ALIKE)
    ensures Link(OLD, COPY) in Matcher.MatchOf({}, [], [OLD], [ALIKE, COPY]).links
  {
    LooksAlike();
    CopyMayLink();
    hide Evidence, Matcher.MatchOf, Allowed;
    SoleBodyLinks({}, [], [OLD], [ALIKE, COPY], OLD, COPY);
  }
}
