/** Where the matcher and the mining of one file meet (`sgt/core/mine.py`, `sgt/core/identity.py`).

    The source takes a file's entity touches from what the matcher reports: modified, added, removed, and
    linked.  The history theorems diff two symbol tables, name by name.  The two agree on every name if and
    only if the matcher links nothing, which is what a link-free commit is. */
module LinkFree {
  import opened Names
  import opened Symbols
  import opened Snapshots
  import opened Mining
  import Tables
  import Identity
  import Matcher

  /** `path::name`. */
  function IdOf(path: Name, n: Name): Name {
    path + "::" + n
  }

  lemma IdsApart(path: Name, a: Name, b: Name)
    requires IdOf(path, a) == IdOf(path, b)
    ensures a == b
  {
    assert IdOf(path, a)[|path| + 2..] == a && IdOf(path, b)[|path| + 2..] == b;
  }

  ghost predicate Injective(hash: Bytes -> string) {
    forall a, b :: hash(a) == hash(b) ==> a == b
  }

  /** `snapshot`: the entities as the matcher sees them; what it makes of structure and tokens is left open. */
  ghost predicate Snapped(path: Name, hash: Bytes -> string, raw: Bytes, ents: seq<Ent>, snaps: seq<Identity.Snap>) {
    && InBounds(raw, ents) && |snaps| == |ents|
    && forall i :: 0 <= i < |ents| ==>
         ents[i] in ents && snaps[i].id == IdOf(path, ents[i].name)
         && snaps[i].contentHash == hash(Tables.EntBytes(raw, ents[i]))
  }

  /** A name has a snapshot exactly when it has bytes, and the snapshot carries their hash. */
  lemma SnapOfName(path: Name, hash: Bytes -> string, raw: Bytes, ents: seq<Ent>, snaps: seq<Identity.Snap>, n: Name)
    requires Snapped(path, hash, raw, ents, snaps)
    ensures BytesNamed(raw, ents, n).Some? <==> exists s :: s in snaps && s.id == IdOf(path, n)
    ensures forall s :: s in snaps && s.id == IdOf(path, n) ==> s.contentHash == hash(BytesNamed(raw, ents, n).value)
  {
    forall s | s in snaps && s.id == IdOf(path, n)
      ensures BytesNamed(raw, ents, n).Some? && s.contentHash == hash(BytesNamed(raw, ents, n).value)
    {
      var i :| 0 <= i < |snaps| && snaps[i] == s;
      IdsApart(path, ents[i].name, n);
      FindIs(ents, i);
    }
    var e := Find(ents, n);
    if e.Some? {
      var i :| 0 <= i < |ents| && ents[i] == e.value;
      assert snaps[i] in snaps && snaps[i].id == IdOf(path, n);
    }
  }

  // ---------------------------------------------------------------------------------------
  // What a match reports of one name.

  /** Exactly what became of the name's bytes. */
  ghost predicate Reported(m: Matcher.Match, id: Name, was: Option<Bytes>, now: Option<Bytes>) {
    && (id in Matcher.IdsOf(m.modified) <==> was.Some? && now.Some? && was != now)
    && (id in Matcher.IdsOf(m.added) <==> was.None? && now.Some?)
    && (id in Matcher.IdsOf(m.removed) <==> was.Some? && now.None?)
  }

  lemma {:induction false} ChangedHas(olds: seq<Identity.Snap>, news: seq<Identity.Snap>, a: Identity.Snap)
    ensures a in Matcher.Changed(olds, news)
            <==> a in news && Identity.ById(olds, a.id).Some?
                 && Identity.ById(olds, a.id).value.contentHash != a.contentHash
    decreases |news|
  {
    if news != [] {
      var init, last := news[..|news| - 1], news[|news| - 1];
      assert news == init + [last];
      ChangedHas(olds, init, a);
      hide Identity.ById;
    }
  }

  lemma IdsHave(side: seq<Identity.Snap>, id: Name)
    ensures id in Matcher.IdsOf(side) <==> exists s :: s in side && s.id == id
  {
  }

  lemma ModifiedReported(path: Name, hash: Bytes -> string, oldRaw: Bytes, oldEnts: seq<Ent>, olds: seq<Identity.Snap>,
                         newRaw: Bytes, newEnts: seq<Ent>, news: seq<Identity.Snap>, n: Name)
    requires Injective(hash) && Snapped(path, hash, oldRaw, oldEnts, olds) && Snapped(path, hash, newRaw, newEnts, news)
    ensures var was, now := BytesNamed(oldRaw, oldEnts, n), BytesNamed(newRaw, newEnts, n);
            IdOf(path, n) in Matcher.IdsOf(Matcher.Changed(olds, news)) <==> was.Some? && now.Some? && was != now
  {
    var id := IdOf(path, n);
    var was, now := BytesNamed(oldRaw, oldEnts, n), BytesNamed(newRaw, newEnts, n);
    SnapOfName(path, hash, oldRaw, oldEnts, olds, n);
    SnapOfName(path, hash, newRaw, newEnts, news, n);
    IdsHave(Matcher.Changed(olds, news), id);
    hide Snapped, BytesNamed, Matcher.Changed, Matcher.IdsOf, IdOf, Identity.ById;
    if a :| a in Matcher.Changed(olds, news) && a.id == id {
      ChangedHas(olds, news, a);
    }
    if was.Some? && now.Some? && was != now {
      var a :| a in news && a.id == id;
      assert Identity.ById(olds, a.id).Some?;
      ChangedHas(olds, news, a);
    }
  }

  /** With no link, an older entity is kept or removed and a newer one kept or added. */
  lemma RestReported(never: set<Identity.Pair>, forced: seq<Identity.Pair>, olds: seq<Identity.Snap>,
                     news: seq<Identity.Snap>, id: Name)
    requires Matcher.MatchOf(never, forced, olds, news).links == []
    ensures var m := Matcher.MatchOf(never, forced, olds, news);
            && (id in Matcher.IdsOf(m.removed) <==> id in Matcher.IdsOf(olds) && id !in Matcher.IdsOf(news))
            && (id in Matcher.IdsOf(m.added) <==> id in Matcher.IdsOf(news) && id !in Matcher.IdsOf(olds))
  {
    var m := Matcher.MatchOf(never, forced, olds, news);
    Matcher.MatchPartitions(never, forced, olds, news);
    Matcher.ReportedAreThere(never, forced, olds, news);
    assert !Matcher.LinkedFrom(m, id) && !Matcher.LinkedTo(m, id);
    hide Matcher.MatchOf, Matcher.LinkedFrom, Matcher.LinkedTo;
    IdsHave(m.removed, id);
    IdsHave(m.added, id);
    IdsHave(olds, id);
    IdsHave(news, id);
    hide Matcher.IdsOf;
  }

  lemma NameReported(path: Name, hash: Bytes -> string, never: set<Identity.Pair>, forced: seq<Identity.Pair>,
                     oldRaw: Bytes, oldEnts: seq<Ent>, olds: seq<Identity.Snap>,
                     newRaw: Bytes, newEnts: seq<Ent>, news: seq<Identity.Snap>, n: Name)
    requires Injective(hash) && Snapped(path, hash, oldRaw, oldEnts, olds) && Snapped(path, hash, newRaw, newEnts, news)
    requires Matcher.MatchOf(never, forced, olds, news).links == []
    ensures Reported(Matcher.MatchOf(never, forced, olds, news), IdOf(path, n),
                     BytesNamed(oldRaw, oldEnts, n), BytesNamed(newRaw, newEnts, n))
  {
    var id := IdOf(path, n);
    assert Matcher.MatchOf(never, forced, olds, news).modified == Matcher.Changed(olds, news);
    hide Snapped, BytesNamed, Matcher.MatchOf, Matcher.Changed, Matcher.IdsOf, IdOf, Injective;
    ModifiedReported(path, hash, oldRaw, oldEnts, olds, newRaw, newEnts, news, n);
    RestReported(never, forced, olds, news, id);
    SnapOfName(path, hash, oldRaw, oldEnts, olds, n);
    SnapOfName(path, hash, newRaw, newEnts, news, n);
    IdsHave(olds, id);
    IdsHave(news, id);
  }

  // ---------------------------------------------------------------------------------------
  // The theorem.

  /** The commit touches the name's symbol exactly when the match reports the name. */
  ghost predicate Follows(step: map<Sym, Touch>, path: Name, m: Matcher.Match, n: Name) {
    var id := IdOf(path, n);
    NameSym(n) in step <==> id in Matcher.IdsOf(m.modified) || id in Matcher.IdsOf(m.added)
                            || id in Matcher.IdsOf(m.removed)
  }

  /** And the touch says what the report says became of the name. */
  ghost predicate TouchedAsReported(tier: Tier, before: Snapshot, after: Snapshot, k: nat, path: Name, m: Matcher.Match,
                                    n: Name)
    requires WellFormed(before) && WellFormed(after)
  {
    && InBounds(PartsRaw(tier, before), PartsEnts(tier, before))
       && InBounds(PartsRaw(tier, after), PartsEnts(tier, after))
    && var was, now := BytesNamed(PartsRaw(tier, before), PartsEnts(tier, before), n),
       BytesNamed(PartsRaw(tier, after), PartsEnts(tier, after), n);
       SaysOfName(FileStep(tier, before, after, k), k, n, was, now) && Reported(m, IdOf(path, n), was, now)
  }

  lemma AsReported(tier: Tier, before: Snapshot, after: Snapshot, k: nat, path: Name, m: Matcher.Match, n: Name)
    requires WellFormed(before) && WellFormed(after)
    requires InBounds(PartsRaw(tier, before), PartsEnts(tier, before))
             && InBounds(PartsRaw(tier, after), PartsEnts(tier, after))
    requires var was, now := BytesNamed(PartsRaw(tier, before), PartsEnts(tier, before), n),
             BytesNamed(PartsRaw(tier, after), PartsEnts(tier, after), n);
             SaysOfName(FileStep(tier, before, after, k), k, n, was, now) && Reported(m, IdOf(path, n), was, now)
    ensures TouchedAsReported(tier, before, after, k, path, m, n)
  {
    hide SaysOfName, Reported, FileStep, BytesNamed, InBounds, PartsRaw, PartsEnts, WellFormed, IdOf;
  }

  /** A linked older entity is missing from the report, though the tables close it. */
  lemma LinkedIsUnreported(never: set<Identity.Pair>, forced: seq<Identity.Pair>, olds: seq<Identity.Snap>,
                           news: seq<Identity.Snap>)
    returns (b: Identity.Snap)
    requires Matcher.MatchOf(never, forced, olds, news).links != []
    ensures b in olds && b.id !in Matcher.IdsOf(news)
    ensures var m := Matcher.MatchOf(never, forced, olds, news);
            b.id !in Matcher.IdsOf(m.modified) && b.id !in Matcher.IdsOf(m.added) && b.id !in Matcher.IdsOf(m.removed)
  {
    var m := Matcher.MatchOf(never, forced, olds, news);
    b := m.links[0].src;
    assert m.links[0] in m.links && Matcher.LinkedFrom(m, b.id);
    Matcher.MatchPartitions(never, forced, olds, news);
    Matcher.ReportedAreThere(never, forced, olds, news);
    hide Matcher.MatchOf, Matcher.LinkedFrom;
    IdsHave(m.modified, b.id);
    IdsHave(m.removed, b.id);
    IdsHave(m.added, b.id);
    IdsHave(olds, b.id);
    IdsHave(news, b.id);
    hide Matcher.IdsOf;
  }

  /** Mining a file name by name touches exactly the entities the match reports if and only if the match links
      nothing; and then each is touched as the report says. */
  lemma MineFollowsMatchExactlyWhen(path: Name, hash: Bytes -> string, never: set<Identity.Pair>,
                                    forced: seq<Identity.Pair>,
                                    tier: Tier, before: Snapshot, after: Snapshot, k: nat,
                                    olds: seq<Identity.Snap>, news: seq<Identity.Snap>)
    requires WellFormed(before) && WellFormed(after) && Injective(hash)
    requires Snapped(path, hash, PartsRaw(tier, before), PartsEnts(tier, before), olds)
    requires Snapped(path, hash, PartsRaw(tier, after), PartsEnts(tier, after), news)
    ensures var m, step := Matcher.MatchOf(never, forced, olds, news), FileStep(tier, before, after, k);
            && (m.links == [] <==> forall n :: Follows(step, path, m, n))
            && (m.links == [] ==> forall n :: TouchedAsReported(tier, before, after, k, path, m, n))
  {
    var m, step := Matcher.MatchOf(never, forced, olds, news), FileStep(tier, before, after, k);
    hide *;
    if m.links == [] {
      forall n ensures Follows(step, path, m, n) {
        EntStep(tier, before, after, k, n);
        NameReported(path, hash, never, forced, PartsRaw(tier, before), PartsEnts(tier, before), olds,
                     PartsRaw(tier, after), PartsEnts(tier, after), news, n);
        ReportIsStep(step, k, path, m, n, BytesNamed(PartsRaw(tier, before), PartsEnts(tier, before), n),
                     BytesNamed(PartsRaw(tier, after), PartsEnts(tier, after), n));
      }
      forall n ensures TouchedAsReported(tier, before, after, k, path, m, n) {
        EntStep(tier, before, after, k, n);
        NameReported(path, hash, never, forced, PartsRaw(tier, before), PartsEnts(tier, before), olds,
                     PartsRaw(tier, after), PartsEnts(tier, after), news, n);
        AsReported(tier, before, after, k, path, m, n);
      }
    } else {
      var b := LinkedIsUnreported(never, forced, olds, news);
      var n := NameOfSnap(path, hash, PartsRaw(tier, before), PartsEnts(tier, before), olds, b);
      EntStep(tier, before, after, k, n);
      SnapOfName(path, hash, PartsRaw(tier, before), PartsEnts(tier, before), olds, n);
      SnapOfName(path, hash, PartsRaw(tier, after), PartsEnts(tier, after), news, n);
      IdsHave(news, b.id);
      UnreportedIsStep(step, k, path, m, n, BytesNamed(PartsRaw(tier, before), PartsEnts(tier, before), n),
                       BytesNamed(PartsRaw(tier, after), PartsEnts(tier, after), n));
    }
  }

  lemma NameOfSnap(path: Name, hash: Bytes -> string, raw: Bytes, ents: seq<Ent>, snaps: seq<Identity.Snap>,
                   s: Identity.Snap)
    returns (n: Name)
    requires Snapped(path, hash, raw, ents, snaps) && s in snaps
    ensures s.id == IdOf(path, n)
  {
    var i :| 0 <= i < |snaps| && snaps[i] == s;
    n := ents[i].name;
  }

  lemma ReportIsStep(step: map<Sym, Touch>, k: nat, path: Name, m: Matcher.Match, n: Name, was: Option<Bytes>,
                     now: Option<Bytes>)
    requires SaysOfName(step, k, n, was, now) && Reported(m, IdOf(path, n), was, now)
    ensures Follows(step, path, m, n)
  {
    hide Matcher.IdsOf, IdOf;
  }

  lemma UnreportedIsStep(step: map<Sym, Touch>, k: nat, path: Name, m: Matcher.Match, n: Name, was: Option<Bytes>,
                         now: Option<Bytes>)
    requires SaysOfName(step, k, n, was, now) && was.Some? && now.None?
    requires var id := IdOf(path, n);
             id !in Matcher.IdsOf(m.modified) && id !in Matcher.IdsOf(m.added) && id !in Matcher.IdsOf(m.removed)
    ensures !Follows(step, path, m, n)
  {
    hide Matcher.IdsOf, IdOf;
  }
}
