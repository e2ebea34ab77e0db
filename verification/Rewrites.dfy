/** The artifact rewrites as loops (`sgt/core/migrate.py`, the `_remap_*` functions), with the count of
    references each drops. */
module Rewrites {
  import opened Names
  import opened Remap

  // ---------------------------------------------------------------------------------------
  // Counting what a rewrite drops.

  /** `len(set(ids)) - len(mapped)`. */
  function Shortfall(ids: seq<Name>, m: Mapping): int {
    |Elements(ids)| - |Image(ids, m)|
  }

  function Unmappable(ids: seq<Name>, m: Mapping): set<Name> {
    set i | i in ids && i !in m
  }

  ghost predicate NoneMerge(ids: seq<Name>, m: Mapping) {
    forall i, j :: i in ids && j in ids && i in m && j in m && m[i] == m[j] ==> i == j
  }

  lemma {:induction false} ImageSize(s: set<Name>, m: Mapping, out: set<Name>)
    requires s <= m.Keys && out == (set i | i in s :: m[i])
    ensures |out| <= |s|
    ensures |out| == |s| <==> forall i, j :: i in s && j in s && m[i] == m[j] ==> i == j
  {
    if s != {} {
      var x :| x in s;
      var rest := s - {x};
      var image := set i | i in rest :: m[i];
      ImageSize(rest, m, image);
      assert out == image + {m[x]};
      if m[x] in image {
        assert out == image;
      }
    } else {
      assert out == {};
    }
  }

  /** The reported drop count is the number of unmappable ids exactly when the map sends no two of the
      listed ids to one; otherwise it counts merged ids as dropped too. */
  lemma ShortfallCountsDrops(ids: seq<Name>, m: Mapping)
    ensures Shortfall(ids, m) >= |Unmappable(ids, m)|
    ensures Shortfall(ids, m) == |Unmappable(ids, m)| <==> NoneMerge(ids, m)
  {
    var kept := Mappable(ids, m);
    KeptAndLost(ids, m);
    ImageIsOfKept(ids, m);
    ImageSize(kept, m, Image(ids, m));
    hide Image, Elements, Unmappable;
  }

  function Mappable(ids: seq<Name>, m: Mapping): set<Name> {
    set i | i in ids && i in m
  }

  lemma KeptAndLost(ids: seq<Name>, m: Mapping)
    ensures |Elements(ids)| == |Mappable(ids, m)| + |Unmappable(ids, m)|
  {
    assert Elements(ids) == Mappable(ids, m) + Unmappable(ids, m);
    assert Mappable(ids, m) !! Unmappable(ids, m);
  }

  lemma ImageIsOfKept(ids: seq<Name>, m: Mapping)
    ensures Mappable(ids, m) <= m.Keys
    ensures Image(ids, m) == set i | i in Mappable(ids, m) :: m[i]
  {
  }

  /** Two ids that map to one: neither is unmappable, and one is counted as dropped. */
  lemma MergedIdCountsAsDropped()
    ensures var ids, m := ["a", "b"], map["a" := "x", "b" := "x"];
            Unmappable(ids, m) == {} && Shortfall(ids, m) == 1
  {
    var ids: seq<Name>, m: Mapping := ["a", "b"], map["a" := "x", "b" := "x"];
    assert "a" in ids && m["a"] == "x";
    assert Image(ids, m) == {"x"};
    assert Elements(ids) == {"a", "b"};
    assert "a" != "b";
  }

  // ---------------------------------------------------------------------------------------
  // The loops.

  ghost predicate TableSoFar(new_: Table, table: Table, left: set<Name>, m: Mapping, reduce: set<Name> -> set<Name>,
                             key: Name, ideal: seq<Name>) {
    && left <= table.Keys && new_.Keys == table.Keys - left
    && forall k {:trigger new_[k]} :: k in new_ ==> new_[k] == if k == key then ideal
                                                               else RemapIdeal(table[k], m, reduce)
  }

  lemma TableMore(new_: Table, table: Table, left: set<Name>, m: Mapping, reduce: set<Name> -> set<Name>, key: Name,
                  ideal: seq<Name>, k: Name)
    requires TableSoFar(new_, table, left, m, reduce, key, ideal) && k in left
    ensures k in table && TableSoFar(new_[k := if k == key then ideal else RemapIdeal(table[k], m, reduce)], table,
                                     left - {k}, m, reduce, key, ideal)
  {
    hide RemapIdeal;
  }

  lemma TableDone(new_: Table, table: Table, m: Mapping, reduce: set<Name> -> set<Name>, key: Name, ideal: seq<Name>)
    requires TableSoFar(new_, table, {}, m, reduce, key, ideal)
    ensures new_[key := ideal] == RemapTable(table, m, reduce, key, ideal)
  {
    hide RemapIdeal;
    assert new_.Keys == table.Keys;
  }

  /** `_remap_ideal_table`. */
  method RewriteTable(table: Table, m: Mapping, reduce: set<Name> -> set<Name>, key: Name, ideal: seq<Name>)
    returns (new_: Table)
    ensures new_ == RemapTable(table, m, reduce, key, ideal)
  {
    new_ := map[];
    var left := table.Keys;
    assert TableSoFar(new_, table, left, m, reduce, key, ideal);
    hide *;
    while left != {}
      invariant TableSoFar(new_, table, left, m, reduce, key, ideal)
      decreases left
    {
      var k :| k in left;
      TableMore(new_, table, left, m, reduce, key, ideal, k);
      new_ := new_[k := if k == key then ideal else RemapIdeal(table[k], m, reduce)];
      left := left - {k};
    }
    TableDone(new_, table, m, reduce, key, ideal);
    new_ := new_[key := ideal];
  }

  /** `_remap_journal`. */
  method RewriteEvents(es: seq<Event>, m: Mapping, reduce: set<Name> -> set<Name>) returns (out: seq<Event>)
    ensures out == RemapEvents(es, m, reduce)
  {
    out := [];
    for i := 0 to |es|
      invariant |out| == i && forall j :: 0 <= j < i ==> out[j] == RemapEvent(es[j], m, reduce)
    {
      hide RemapIdeal;
      out := out + [Event(RemapIdeal(es[i].ideal, m, reduce), es[i].witnessSha, map[])];
    }
    hide RemapEvent;
  }

  method RewriteJournal(journal: Journal, m: Mapping, reduce: set<Name> -> set<Name>) returns (new_: Journal)
    ensures new_ == RemapJournal(journal, m, reduce)
  {
    new_ := map[];
    var left := journal.Keys;
    while left != {}
      invariant left <= journal.Keys && new_.Keys == journal.Keys - left
      invariant forall k {:trigger new_[k]} :: k in new_ ==> new_[k] == RemapEvents(journal[k], m, reduce)
      decreases left
    {
      hide RemapEvents;
      var k :| k in left;
      var out := RewriteEvents(journal[k], m, reduce);
      new_ := new_[k := out];
      left := left - {k};
    }
    hide RemapEvents;
  }

  /** `_remap_forks`: a record with an unmappable tip is dropped and counted. */
  method RewriteForks(rs: seq<Fork>, m: Mapping) returns (new_: seq<Fork>, dropped: nat)
    ensures new_ == RemapForks(rs, m)
    ensures dropped + |KeptForks(rs, m)| == |rs|
  {
    var kept: seq<Fork> := [];
    dropped := 0;
    for i := 0 to |rs|
      invariant kept == KeptForks(rs[..i], m) && dropped + |kept| == i
    {
      assert rs[..i + 1][..i] == rs[..i];
      hide RemapFork;
      if ForkMaps(rs[i], m) {
        kept := kept + [RemapFork(rs[i], m)];
      } else {
        dropped := dropped + 1;
      }
    }
    assert rs[..|rs|] == rs;
    new_ := SortBy(kept, ForkKey);
  }

  /** `_remap_orset`. */
  method RewriteOrSet(o: OrSet, m: Mapping) returns (new_: OrSet, dropped: nat)
    ensures new_ == RemapOrSet(o, m)
    ensures dropped + |KeptAdds(o.adds, m)| == |o.adds|
  {
    var kept: seq<Add> := [];
    dropped := 0;
    for i := 0 to |o.adds|
      invariant kept == KeptAdds(o.adds[..i], m) && dropped + |kept| == i
    {
      assert o.adds[..i + 1][..i] == o.adds[..i];
      hide RemapAdd;
      if AddMaps(o.adds[i], m) {
        kept := kept + [RemapAdd(o.adds[i], m)];
      } else {
        dropped := dropped + 1;
      }
    }
    assert o.adds[..|o.adds|] == o.adds;
    new_ := OrSet(SortBy(kept, AddKey), SortBy(o.tombstones, NameKey));
  }

  method RewriteIds(ids: seq<Name>, m: Mapping) returns (out: seq<Name>, dropped: nat)
    ensures out == MapIds(ids, m) && dropped + |out| == |ids|
  {
    out, dropped := [], 0;
    for i := 0 to |ids|
      invariant out == MapIds(ids[..i], m) && dropped + |out| == i
    {
      assert ids[..i + 1][..i] == ids[..i];
      if ids[i] in m { out := out + [m[ids[i]]]; } else { dropped := dropped + 1; }
    }
    assert ids[..|ids|] == ids;
  }

  method RewriteOptional(ids: Option<seq<Name>>, m: Mapping) returns (out: Option<seq<Name>>)
    ensures out == MapOptional(ids, m)
  {
    out := None;
    if ids.Some? {
      var r, _ := RewriteIds(ids.value, m);
      out := Some(r);
    }
  }

  /** `_remap_drafts`. */
  method RewriteDrafts(ds: Drafts, m: Mapping, hollows: Mapping) returns (new_: Drafts)
    ensures new_ == RemapDrafts(ds, m, hollows)
  {
    new_ := map[];
    var left := ds.Keys;
    while left != {}
      invariant left <= ds.Keys && new_.Keys == ds.Keys - left
      invariant forall k {:trigger new_[k]} :: k in new_ ==> new_[k] == RemapDraft(ds[k], m, hollows)
      decreases left
    {
      hide MapOptional;
      var k :| k in left;
      var removed := RewriteOptional(ds[k].removed, m);
      var required := RewriteOptional(ds[k].required, m);
      new_ := new_[k := ds[k].(hollowIds := RenameAll(ds[k].hollowIds, hollows), removed := removed,
                               required := required)];
      left := left - {k};
    }
    hide RemapDraft;
  }

  method RewriteProposal(p: Proposal, m: Mapping) returns (new_: Proposal)
    ensures new_ == RemapProposal(p, m)
  {
    var base, _ := RewriteIds(p.baseIds, m);
    var delta, _ := RewriteIds(p.deltaIds, m);
    new_ := p.(baseIds := SortBy(base, NameKey), deltaIds := SortBy(delta, NameKey));
  }
}
