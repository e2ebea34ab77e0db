/** The one artifact a crash can change: drafts (`sgt/core/migrate.py`, `_rekey_hollows` and the drafts
    rewrite after it).

    The map from old hollow ids to new ones lives in memory between re-keying the hollow files and
    rewriting the drafts.  An apply cut short in between takes it along, and the next one finds nothing
    left to re-key.  So drafts converge, whatever happens, exactly when no draft names a hollow that
    still has to be re-keyed. */
module DraftWindow {
  import opened Names
  import opened BuildMap
  import opened Remap
  import opened Disk
  import opened Crossing
  import opened Runs
  import opened Convergence
  import opened Crashes

  /** No draft names an id the map renames. */
  ghost predicate Unnamed(ds: Option<Drafts>, renamed: Mapping) {
    ds.Some? ==> forall k, i :: k in ds.value && 0 <= i < |ds.value[k].hollowIds|
                   ==> ds.value[k].hollowIds[i] !in renamed
  }

  /** What a caller can look up before applying: no draft names a stale hollow. */
  ghost predicate Clear(d: Disk) {
    Unnamed(d.drafts, StaleMap(d.hollows))
  }

  // ---------------------------------------------------------------------------------------
  // Clear drafts converge.

  lemma UnnamedStays(ds: Drafts, m: Mapping, renamed: Mapping)
    requires Unnamed(Some(ds), renamed)
    ensures RemapDrafts(ds, m, renamed) == RemapDrafts(ds, m, map[])
            && Unnamed(Some(RemapDrafts(ds, m, renamed)), renamed)
  {
    hide MapOptional;
    forall k | k in ds
      ensures RemapDraft(ds[k], m, renamed) == RemapDraft(ds[k], m, map[])
              && RemapDraft(ds[k], m, renamed).hollowIds == ds[k].hollowIds
    {
      assert RenameAll(ds[k].hollowIds, renamed) == ds[k].hollowIds == RenameAll(ds[k].hollowIds, map[]);
    }
  }

  lemma UnnamedFinal(w: World, m: Manifest, ds: Option<Drafts>, renamed: Mapping)
    requires Unnamed(ds, renamed)
    ensures FinalDrafts(w, m, ds, renamed) == FinalDrafts(w, m, ds, map[])
            && Unnamed(FinalDrafts(w, m, ds, renamed), renamed)
  {
    if ds.Some? { UnnamedStays(ds.value, Full(w, m), renamed); }
    hide RemapDrafts, Full, Unnamed;
  }

  lemma FewerNamed(ds: Option<Drafts>, more: Mapping, fewer: Mapping)
    requires Unnamed(ds, more) && fewer.Keys <= more.Keys
    ensures Unnamed(ds, fewer)
  {
  }

  /** During a run over clear drafts: they name nothing the run renames, nor any hollow still stale. */
  ghost predicate Undisturbed(renamed: Mapping, d: Disk) {
    Unnamed(d.drafts, renamed) && StaleMap(d.hollows).Keys <= renamed.Keys
  }

  lemma OutcomeUndisturbed(w: World, renamed: Mapping, d: Disk)
    requires HollowsOk(d.hollows) && Undisturbed(renamed, d) && !NothingToDo(d)
    ensures Outcome(w, d).drafts == FinalDrafts(w, ManifestOf(w, d), d.drafts, map[])
  {
    hide HollowsOk, Unnamed, NothingToDo, FinalDrafts;
    FewerNamed(d.drafts, renamed, StaleMap(d.hollows));
    UnnamedFinal(w, ManifestOf(w, d), d.drafts, StaleMap(d.hollows));
    OutcomeDrafts(w, d);
  }

  lemma StaleShrinks(w: World, renamed: Mapping, d: Disk, write: Write)
    requires ValidDisk(w, d) && Good(w, renamed, d, write)
    ensures StaleMap(Do(d, write).hollows).Keys <= StaleMap(d.hollows).Keys
  {
    hide Migrated, V3Ids, FinalTable, FinalJournal, FinalForks, FinalOrSet, FinalStaged, FinalDrafts, PlanOf,
         NothingToDo, Full, RemapProposal, OpsOk, MapsAcross, Replaced;
    if write.StoreHollow? {
      var i :| Rekeys(d.hollows, i, write.id, write.hollow);
      StoredHollowKeeps(d.hollows, i, write.id, write.hollow);
    }
  }

  lemma OnlyDraftWrites(w: World, renamed: Mapping, d: Disk, write: Write)
    requires Good(w, renamed, d, write)
    ensures if write.SaveDrafts? then Do(d, write).drafts == FinalDrafts(w, ManifestOf(w, d), d.drafts, renamed)
            else Do(d, write).drafts == d.drafts
    ensures !write.DropManifest? ==> ManifestOf(w, Do(d, write)) == ManifestOf(w, d) && Do(d, write).manifest.Some?
    ensures write.DropManifest? ==> d.manifest.Some? && Migrated(w, d.manifest.value, d) && d.ops.Keys <= V3Ids(w)
    ensures !NothingToDo(d)
  {
    hide Migrated, V3Ids, FinalTable, FinalJournal, FinalForks, FinalOrSet, FinalStaged, FinalDrafts, PlanOf, PreV3,
         Full, RemapProposal, Rekeys, Replaced;
  }

  lemma UndisturbedStep(w: World, renamed: Mapping, d: Disk, write: Write)
    requires ValidWorld(w) && ValidDisk(w, d) && Good(w, renamed, d, write) && Undisturbed(renamed, d)
    ensures ValidDisk(w, Do(d, write)) && Undisturbed(renamed, Do(d, write))
            && Outcome(w, Do(d, write)) == Outcome(w, d)
  {
    var e, m := Do(d, write), ManifestOf(w, d);
    StaleShrinks(w, renamed, d, write);
    OnlyDraftWrites(w, renamed, d, write);
    UnnamedFinal(w, m, d.drafts, renamed);
    ManifestFixes(w, d);
    assert HollowsOk(d.hollows);
    hide ValidWorld, ValidDisk, Good, Do, Outcome, Migrated, V3Ids, FinalDrafts, StaleMap, Unnamed, ManifestOf, Full,
         Fixes, HollowsOk;
    GoodKeepsOutcome(w, renamed, d, write);
    if write.DropManifest? {
      DoDropManifest(w, d);
    } else {
      OutcomeUndisturbed(w, renamed, d);
      assert HollowsOk(e.hollows) by { ValidHollows(w, e); }
      OutcomeUndisturbed(w, renamed, e);
      if write.SaveDrafts? { TwiceUnnamed(w, m, d.drafts); }
      SameWithDrafts(Outcome(w, e), Outcome(w, d));
    }
  }

  lemma ValidHollows(w: World, d: Disk)
    requires ValidDisk(w, d)
    ensures HollowsOk(d.hollows)
  {
  }

  lemma TwiceUnnamed(w: World, m: Manifest, ds: Option<Drafts>)
    requires Fixes(Full(w, m))
    ensures FinalDrafts(w, m, FinalDrafts(w, m, ds, map[]), map[]) == FinalDrafts(w, m, ds, map[])
  {
    if ds.Some? { RemapDraftsAgain(ds.value, Full(w, m), map[], map[]); }
    hide RemapDrafts, Full, Fixes;
  }

  lemma {:induction false} UndisturbedRun(w: World, renamed: Mapping, d: Disk, ws: seq<Write>)
    requires ValidWorld(w) && ValidDisk(w, d) && GoodRun(w, renamed, d, ws) && Undisturbed(renamed, d)
    ensures ValidDisk(w, DoAll(d, ws)) && Undisturbed(renamed, DoAll(d, ws))
            && Outcome(w, DoAll(d, ws)) == Outcome(w, d)
    decreases |ws|
  {
    hide ValidWorld, Good, Do, Outcome, Undisturbed;
    if ws != [] {
      UndisturbedStep(w, renamed, d, ws[0]);
      UndisturbedRun(w, renamed, Do(d, ws[0]), ws[1..]);
    }
  }

  lemma ClearCut(w: World, a: Attempt, d: Disk)
    requires ValidWorld(w) && ValidDisk(w, d) && Enumerates(a.list) && Clear(d)
    ensures ValidDisk(w, Cut(w, a, d)) && Clear(Cut(w, a, d)) && Outcome(w, Cut(w, a, d)) == Outcome(w, d)
  {
    var ws, renamed := Program(w, a.list, d), StaleMap(d.hollows);
    var k := if a.writes < |ws| then a.writes else |ws|;
    var e := Cut(w, a, d);
    assert e == DoAll(d, ws[..k]);
    hide ValidWorld, ValidDisk, Program, GoodRun, DoAll, Outcome, FinalDrafts, StaleMap, NothingToDo, Enumerates,
         Unnamed, Cut;
    ProgramIsGood(w, a.list, d);
    GoodPrefix(w, renamed, d, ws, k);
    UndisturbedRun(w, renamed, d, ws[..k]);
    FewerNamed(e.drafts, renamed, StaleMap(e.hollows));
  }

  lemma {:induction false} ClearAfter(w: World, d: Disk, attempts: seq<Attempt>)
    requires ValidWorld(w) && ValidDisk(w, d) && Listings(attempts) && Clear(d)
    ensures ValidDisk(w, After(w, d, attempts)) && Outcome(w, After(w, d, attempts)) == Outcome(w, d)
    decreases |attempts|
  {
    hide ValidWorld, Outcome, Cut, Clear;
    if attempts != [] {
      assert attempts[0] in attempts;
      ClearCut(w, attempts[0], d);
      ClearAfter(w, Cut(w, attempts[0], d), attempts[1..]);
    }
  }

  lemma ClearConverges(w: World, d: Disk, attempts: seq<Attempt>, list: Listing)
    requires ValidWorld(w) && ValidDisk(w, d) && Listings(attempts) && Enumerates(list) && Clear(d)
    ensures var e := After(w, d, attempts); DoAll(e, Program(w, list, e)) == Outcome(w, d)
  {
    hide *;
    ClearAfter(w, d, attempts);
    ApplyReachesOutcome(w, list, After(w, d, attempts));
  }

  // ---------------------------------------------------------------------------------------
  // Drafts that name a stale hollow do not.

  /** After `n` writes every hollow is re-keyed and the drafts are not yet rewritten. */
  ghost predicate IsWindow(w: World, m: Manifest, d: Disk, ws: seq<Write>, n: nat) {
    n <= |ws| && Before(w, m, 7, DoAll(d, ws[..n])) && DoAll(d, ws[..n]).drafts == d.drafts
  }

  lemma WindowNow(w: World, m: Manifest, d: Disk, ws: seq<Write>)
    requires Before(w, m, 7, d)
    ensures IsWindow(w, m, d, ws, 0)
  {
    hide Before;
    NoWrites(d, ws);
  }

  lemma WindowLater(w: World, m: Manifest, d: Disk, ws: seq<Write>, rest: seq<Write>, n: nat)
    requires IsWindow(w, m, DoAll(d, ws), rest, n) && DoAll(d, ws).drafts == d.drafts
    ensures IsWindow(w, m, d, ws + rest, |ws| + n)
  {
    hide Before, DoAll;
    assert (ws + rest)[..|ws| + n] == ws + rest[..n];
    DoAllConcat(d, ws, rest[..n]);
  }

  lemma {:induction false} WindowFrom(w: World, m: Manifest, list: Listing, renamed: Mapping, k: nat, d: Disk)
    returns (n: nat)
    requires Before(w, m, k, d) && Enumerates(list) && k <= 7
    ensures IsWindow(w, m, d, From(w, m, list, renamed, k, d), n)
    decreases 7 - k
  {
    assert k + 1 <= PHASES;
    if k == 7 {
      n := 0;
      hide *;
      WindowNow(w, m, d, From(w, m, list, renamed, k, d));
    } else {
      var ws := Phase(w, m, list, renamed, k, d);
      var mid := DoAll(d, ws);
      assert From(w, m, list, renamed, k, d) == ws
             + From(w, m, list, renamed, k + 1, mid) by { hide Phase, DoAll, Before; }
      hide *;
      AnyPhase(w, m, list, renamed, k, d);
      NextBefore(w, m, list, renamed, k, d);
      PhaseDrafts(w, m, list, renamed, k, d);
      var n' := WindowFrom(w, m, list, renamed, k + 1, mid);
      n := |ws| + n';
      WindowLater(w, m, d, ws, From(w, m, list, renamed, k + 1, mid), n');
    }
  }

  lemma NoWrites(d: Disk, ws: seq<Write>)
    ensures DoAll(d, ws[..0]) == d
  {
  }

  lemma PhaseDrafts(w: World, m: Manifest, list: Listing, renamed: Mapping, k: nat, d: Disk)
    requires PhaseOk(w, m, list, renamed, k, d) && k < 7
    ensures DoAll(d, Phase(w, m, list, renamed, k, d)).drafts == d.drafts
  {
    hide Before, Phase, DoAll, GoodRun;
  }

  lemma FreshStart(w: World, list: Listing, d: Disk)
    requires d.manifest.None? && !NothingToDo(d)
    ensures var m := PlanOf(w, d);
            var e := d.(manifest := Some(m));
            && Do(d, SaveManifest(m)) == e && m == ManifestOf(w, d)
            && Program(w, list, d) == [SaveManifest(m)] + From(w, m, list, StaleMap(d.hollows), 0, e)
  {
    hide From, StaleMap, PlanOf, NothingToDo;
  }

  lemma FreshWindow(w: World, list: Listing, d: Disk) returns (n: nat)
    requires ValidWorld(w) && ValidDisk(w, d) && Enumerates(list) && d.manifest.None? && !NothingToDo(d)
    ensures IsWindow(w, PlanOf(w, d), d, Program(w, list, d), n)
  {
    var m := PlanOf(w, d);
    var e := d.(manifest := Some(m));
    assert 0 <= PHASES;
    var rest := From(w, m, list, StaleMap(d.hollows), 0, e);
    hide *;
    FreshRest(w, d, m, e);
    var n' := WindowFrom(w, m, list, StaleMap(d.hollows), 0, e);
    FreshStart(w, list, d);
    n := FreshLater(w, d, m, e, rest, n');
  }

  lemma FreshLater(w: World, d: Disk, m: Manifest, e: Disk, rest: seq<Write>, n': nat) returns (n: nat)
    requires e == d.(manifest := Some(m)) && IsWindow(w, m, e, rest, n') && Do(d, SaveManifest(m)) == e
    ensures IsWindow(w, m, d, [SaveManifest(m)] + rest, n)
  {
    hide *;
    DoOne(d, SaveManifest(m));
    n := 1 + n';
    WindowLater(w, m, d, [SaveManifest(m)], rest, n');
  }

  lemma FreshRest(w: World, d: Disk, m: Manifest, e: Disk)
    requires ValidWorld(w) && ValidDisk(w, d) && d.manifest.None? && !NothingToDo(d) && m == PlanOf(w, d)
             && e == d.(manifest := Some(m))
    ensures Before(w, m, 0, e)
  {
    assert Do(d, SaveManifest(m)) == e;
    hide *;
    DoSaveManifest(w, d);
    StartsWorking(w, e, m);
  }

  lemma ResumedWindow(w: World, list: Listing, d: Disk, m: Manifest) returns (n: nat)
    requires ValidWorld(w) && ValidDisk(w, d) && Enumerates(list) && d.manifest == Some(m)
    ensures IsWindow(w, m, d, Program(w, list, d), n)
  {
    var renamed := StaleMap(d.hollows);
    assert Program(w, list, d) == From(w, m, list, renamed, 0, d) by { hide From, StaleMap; }
    hide *;
    StartsWorking(w, d, m);
    n := WindowFrom(w, m, list, renamed, 0, d);
  }

  /** The window, from the start of an apply. */
  lemma Window(w: World, list: Listing, d: Disk) returns (n: nat)
    requires ValidWorld(w) && ValidDisk(w, d) && Enumerates(list) && !NothingToDo(d)
    ensures IsWindow(w, ManifestOf(w, d), d, Program(w, list, d), n)
  {
    hide ValidWorld, ValidDisk, Enumerates, NothingToDo, IsWindow, Program, PlanOf;
    if d.manifest.Some? {
      n := ResumedWindow(w, list, d, d.manifest.value);
    } else {
      n := FreshWindow(w, list, d);
    }
  }

  lemma WindowParts(w: World, m: Manifest, d: Disk, ws: seq<Write>, n: nat)
    requires IsWindow(w, m, d, ws, n)
    ensures n <= |ws| && Before(w, m, 7, DoAll(d, ws[..n])) && DoAll(d, ws[..n]).drafts == d.drafts
  {
    hide Before, DoAll;
  }

  lemma HasManifest(w: World, d: Disk)
    requires d.manifest.Some?
    ensures d.manifest == Some(ManifestOf(w, d))
  {
  }

  /** In the window nothing is stale any more. */
  lemma WindowIsBlind(w: World, m: Manifest, e: Disk)
    requires Before(w, m, 7, e)
    ensures StaleMap(e.hollows) == map[] && e.manifest == Some(m) && ValidWorld(w) && ValidDisk(w, e)
  {
    hide AllOnFile, TableSettled, JournalSettled, ForksSettled, OrSetSettled, StagedSettled, ValidWorld, ValidDisk;
    assert forall i :: i in StaleMap(e.hollows) ==> i in StaleIds(e.hollows);
  }

  /** Renaming the drafts and not renaming them differ, as soon as one is named. */
  lemma NamingShows(w: World, m: Manifest, d: Disk)
    requires HollowsOk(d.hollows) && !Clear(d)
    ensures FinalDrafts(w, m, d.drafts, map[]) != FinalDrafts(w, m, d.drafts, StaleMap(d.hollows))
  {
    var ds, renamed := d.drafts.value, StaleMap(d.hollows);
    var k, i :| k in ds && 0 <= i < |ds[k].hollowIds| && ds[k].hollowIds[i] in renamed;
    var x := ds[k].hollowIds[i];
    assert renamed[x] == d.hollows[x].rehash && d.hollows[x].rehash != x;
    var a, b := RemapDrafts(ds, Full(w, m), map[]), RemapDrafts(ds, Full(w, m), renamed);
    hide MapOptional, HollowsOk, StaleMap, Full;
    assert a[k].hollowIds[i] == x && b[k].hollowIds[i] == renamed[x];
  }

  /** Cut short in the window and then completed, an apply leaves drafts an uninterrupted one would
      not have. */
  lemma WindowDiverges(w: World, d: Disk, list: Listing) returns (a: Attempt)
    requires ValidWorld(w) && ValidDisk(w, d) && Enumerates(list) && !NothingToDo(d) && !Clear(d)
    ensures a.list == list
    ensures var e := Cut(w, a, d); DoAll(e, Program(w, list, e)) != Outcome(w, d)
  {
    var m := ManifestOf(w, d);
    assert HollowsOk(d.hollows);
    var n := Window(w, list, d);
    WindowParts(w, m, d, Program(w, list, d), n);
    a := Attempt(n, list);
    var e := DoAll(d, Program(w, list, d)[..n]);
    assert Cut(w, a, d) == e by { hide Program, DoAll; }
    hide *;
    WindowIsBlind(w, m, e);
    ValidHollows(w, e);
    HasManifest(w, e);
    NamingShows(w, m, d);
    OutcomeDrafts(w, d);
    OutcomeDrafts(w, e);
    StillToDo(e);
    ApplyReachesOutcome(w, list, e);
  }

  lemma StillToDo(e: Disk)
    requires e.manifest.Some?
    ensures !NothingToDo(e)
  {
  }

  ghost predicate AlwaysConverges(w: World, d: Disk, list: Listing)
    requires HollowsOk(d.hollows)
  {
    forall attempts {:trigger After(w, d, attempts)} :: Listings(attempts)
      ==> Ends(w, After(w, d, attempts), list) == Outcome(w, d)
  }

  ghost function Ends(w: World, e: Disk, list: Listing): Disk {
    DoAll(e, Program(w, list, e))
  }

  /** Every artifact, drafts included, converges whatever crashes happen, if and only if no draft names
      a hollow that has yet to be re-keyed. */
  lemma DraftsConvergeExactlyWhenClear(w: World, d: Disk, list: Listing)
    requires ValidWorld(w) && ValidDisk(w, d) && Enumerates(list) && !NothingToDo(d)
    ensures AlwaysConverges(w, d, list) <==> Clear(d)
  {
    hide ValidWorld, Program, DoAll, Outcome, Clear, NothingToDo, Enumerates, HollowsOk, OpsOk, MapsAcross;
    if Clear(d) {
      forall attempts {:trigger After(w, d, attempts)} | Listings(attempts)
        ensures Ends(w, After(w, d, attempts), list) == Outcome(w, d)
      {
        ClearConverges(w, d, attempts, list);
      }
    } else {
      var a := WindowDiverges(w, d, list);
      OneAttempt(w, d, a);
      assert Listings([a]);
      assert Ends(w, After(w, d, [a]), list) != Outcome(w, d);
    }
  }

  lemma OneAttempt(w: World, d: Disk, a: Attempt)
    ensures After(w, d, [a]) == Cut(w, a, d)
  {
    hide Cut;
    assert [a][1..] == [];
  }

  // ---------------------------------------------------------------------------------------
  // The smallest store on which they do not: one pre-v3 op, and a draft that names a stale hollow.

  function ExampleWorld(): World {
    World([Op("n", "n", true, map[], {})], ids => ids, "main", [])
  }

  function ExampleDisk(): Disk {
    Disk(map["o" := Op("o", "n", false, map[], {})], None, None, None, None, None, map["h" := Hollow("k", false, "")],
         Some(map["d" := Draft(["h"], None, None, map[])]), map[], None)
  }

  lemma ExampleIsValid()
    ensures ValidWorld(ExampleWorld()) && ValidDisk(ExampleWorld(), ExampleDisk())
  {
    var w, d := ExampleWorld(), ExampleDisk();
    assert IdsOf(w.v3) == {"n"};
    assert |"o"| == |"n"| && "o"[0] != "n"[0];
    assert "o" !in V3Ids(w);
    assert OpsOk(w, d.ops);
    assert "h"[0] != "k"[0];
    assert HollowsOk(d.hollows);
  }

  lemma ExampleIsAtRisk()
    ensures !NothingToDo(ExampleDisk()) && !Clear(ExampleDisk())
  {
    var d := ExampleDisk();
    assert "o" in d.ops && !d.ops["o"].current;
    assert PreV3(d.ops) != [] by {
      var old_ := set i | i in d.ops && !d.ops[i].current;
      assert "o" in old_ && "o" in Sorted(old_);
    }
    assert "h" in StaleMap(d.hollows);
    assert "d" in d.drafts.value && d.drafts.value["d"].hollowIds[0] == "h";
  }

  /** A crash in the window is all it takes. */
  lemma ExampleDiverges() returns (a: Attempt)
    ensures var w, d, e := ExampleWorld(), ExampleDisk(), Cut(ExampleWorld(), a, ExampleDisk());
            ValidWorld(w) && ValidDisk(w, d) && DoAll(e, Program(w, a.list, e)) != Outcome(w, d)
  {
    var list: Listing := s => Sorted(s);
    assert Enumerates(list);
    hide *;
    ExampleIsValid();
    ExampleIsAtRisk();
    a := WindowDiverges(ExampleWorld(), ExampleDisk(), list);
  }
}
