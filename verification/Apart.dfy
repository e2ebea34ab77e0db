/** Parts of an op set that keep to themselves (`sgt/core/order.py`, `reduce_to_ideal`): what they need only they
    produce, and nothing outside claims a step of theirs.  Such a part is reduced as if it were alone. */
module Apart {
  import opened Names
  import opened Order

  ghost predicate Within(ops: Ops, declared: set<Declared>, all: set<Name>, part: set<Name>) {
    && part <= all <= ops.Keys
    && (forall id, key, p :: id in part && key in NeededBy(ops, declared, id) && p in all && Produces(ops, p, key)
          ==> p in part)
    && (forall a, b :: a in part && b in all && Clash(ops, a, b) ==> b in part)
  }

  lemma GroundedGrows(ops: Ops, declared: set<Declared>, less: set<Name>, more: set<Name>)
    requires less <= more <= ops.Keys
    ensures Grounded(ops, declared, less) <= Grounded(ops, declared, more)
  {
    GroundedIsGrounding(ops, declared, less);
    GroundedIsGrounding(ops, declared, more);
    hide Grounded, IsReady;
    assert Closed(ops, declared, less, Grounded(ops, declared, more));
  }

  lemma PartReady(ops: Ops, declared: set<Declared>, all: set<Name>, part: set<Name>, base: set<Name>, id: Name)
    requires Within(ops, declared, all, part) && base <= all && id in part && IsReady(ops, declared, base, id)
    ensures IsReady(ops, declared, base * part, id)
  {
    forall key | key in NeededBy(ops, declared, id) ensures Met(ops, base * part, key) {
      assert Met(ops, base, key);
      var p :| p in base && Produces(ops, p, key);
      assert p in part;
    }
  }

  /** What bottoms out of a part does so within it. */
  lemma GroundedApart(ops: Ops, declared: set<Declared>, all: set<Name>, part: set<Name>)
    requires Within(ops, declared, all, part)
    ensures Grounded(ops, declared, all) * part == Grounded(ops, declared, part)
  {
    var less := Grounded(ops, declared, part);
    var most := (all - part) + less;
    GroundedGrows(ops, declared, part, all);
    GroundedIsGrounding(ops, declared, part);
    GroundedIsGrounding(ops, declared, all);
    hide Grounded, IsReady, NeededBy, Clash;
    forall d | d in all && IsReady(ops, declared, most, d) ensures d in most {
      if d in part {
        PartReady(ops, declared, all, part, most, d);
        assert most * part == less;
      }
    }
    assert Closed(ops, declared, all, most);
  }

  lemma FewerWithin(ops: Ops, declared: set<Declared>, all: set<Name>, part: set<Name>, less: set<Name>)
    requires Within(ops, declared, all, part) && less <= all
    ensures Within(ops, declared, less, less * part)
  {
    hide NeededBy, Clash, Produces;
  }

  lemma TipsApart(ops: Ops, declared: set<Declared>, all: set<Name>, part: set<Name>)
    requires Within(ops, declared, all, part)
    ensures Tips(ops, all) * part == Tips(ops, part)
  {
    hide NeededBy, Clash, Produces;
  }

  /** Whether or not there are forks. */
  lemma ReduceIs(ops: Ops, declared: set<Declared>, all: set<Name>)
    requires all <= ops.Keys
    ensures var g := Grounded(ops, declared, all);
            Reduce(ops, declared, all) == Grounded(ops, declared, g - Tips(ops, g))
  {
    var g := Grounded(ops, declared, all);
    assert all * ops.Keys == all;
    GroundedIsStable(ops, declared, all);
    if Tips(ops, g) == {} { assert g - Tips(ops, g) == g; }
    hide Grounded, Tips;
  }

  /** And is reduced within it. */
  lemma ReducedApart(ops: Ops, declared: set<Declared>, all: set<Name>, part: set<Name>)
    requires Within(ops, declared, all, part)
    ensures Reduce(ops, declared, all) * part == Reduce(ops, declared, part)
  {
    var g, h := Grounded(ops, declared, all), Grounded(ops, declared, part);
    GroundedApart(ops, declared, all, part);
    ReduceIs(ops, declared, all);
    ReduceIs(ops, declared, part);
    FewerWithin(ops, declared, all, part, g);
    TipsApart(ops, declared, g, h);
    var rest := g - Tips(ops, g);
    assert rest <= all && part <= all;
    FewerWithin(ops, declared, all, part, rest);
    hide *;
    SameRest(g, Tips(ops, g), h, Tips(ops, h), part);
    GroundedApart(ops, declared, rest, rest * part);
    InRest(Grounded(ops, declared, rest), rest, part);
    BelowRest(ops, declared, rest);
  }

  lemma SameRest(g: set<Name>, t: set<Name>, h: set<Name>, u: set<Name>, part: set<Name>)
    requires g * part == h && t * h == u
    ensures (g - t) * part == h - u
  {
  }

  lemma InRest(r: set<Name>, rest: set<Name>, part: set<Name>)
    ensures r <= rest ==> r * (rest * part) == r * part
  {
  }

  lemma BelowRest(ops: Ops, declared: set<Declared>, rest: set<Name>)
    requires rest <= ops.Keys
    ensures Grounded(ops, declared, rest) <= rest
  {
    hide Grounded;
  }

  // ---------------------------------------------------------------------------------------
  // Only the ops of the set matter.

  ghost predicate AgreeOn(a: Ops, b: Ops, s: set<Name>) {
    s <= a.Keys && s <= b.Keys && forall id :: id in s ==> a[id] == b[id]
  }

  lemma ReadyAlike(a: Ops, b: Ops, declared: set<Declared>, all: set<Name>, s: set<Name>, id: Name)
    requires AgreeOn(a, b, all) && s <= all && id in all
    ensures IsReady(a, declared, s, id) <==> IsReady(b, declared, s, id)
  {
    assert NeededBy(a, declared, id) == NeededBy(b, declared, id);
    forall key ensures Met(a, s, key) <==> Met(b, s, key) {
      forall p | p in s ensures Produces(a, p, key) <==> Produces(b, p, key) { }
    }
    hide NeededBy, Met;
  }

  lemma {:induction false} GrowAlike(a: Ops, b: Ops, declared: set<Declared>, all: set<Name>, within: set<Name>,
                                     s: set<Name>)
    requires AgreeOn(a, b, all) && s <= within <= all
    ensures Grow(a, declared, within, s) == Grow(b, declared, within, s)
    decreases within - s
  {
    var next := s + set d | d in within && IsReady(a, declared, s, d);
    forall d | d in within ensures IsReady(a, declared, s, d) <==> IsReady(b, declared, s, d) {
      ReadyAlike(a, b, declared, all, s, d);
    }
    assert next == s + set d | d in within && IsReady(b, declared, s, d);
    hide IsReady, AgreeOn;
    if next != s { GrowAlike(a, b, declared, all, within, next); }
  }

  lemma GroundedAlike(a: Ops, b: Ops, declared: set<Declared>, all: set<Name>, within: set<Name>)
    requires AgreeOn(a, b, all) && within <= all
    ensures Grounded(a, declared, within) == Grounded(b, declared, within)
  {
    hide Grow;
    GrowAlike(a, b, declared, all, within, {});
  }

  lemma TipsAlike(a: Ops, b: Ops, all: set<Name>, s: set<Name>)
    requires AgreeOn(a, b, all) && s <= all
    ensures Tips(a, s) == Tips(b, s)
  {
    forall x, y | x in s && y in s ensures Clash(a, x, y) <==> Clash(b, x, y) { }
    hide Clash;
  }

  lemma ReducedAlike(a: Ops, b: Ops, declared: set<Declared>, all: set<Name>)
    requires AgreeOn(a, b, all)
    ensures Reduce(a, declared, all) == Reduce(b, declared, all)
  {
    ReduceIs(a, declared, all);
    ReduceIs(b, declared, all);
    hide Grounded, Tips, AgreeOn, Reduce;
    GroundedAlike(a, b, declared, all, all);
    var g := Grounded(a, declared, all);
    TipsAlike(a, b, all, g);
    GroundedAlike(a, b, declared, all, g - Tips(a, g));
  }
}
