/** What the crossing promises however often it is cut short (`sgt/core/migrate.py`,
    `migrate_ops_v3`). */
module Crashes {
  import opened Names
  import opened Disk
  import opened Crossing
  import opened Runs
  import opened Convergence

  /** An apply of which only so many writes happen, in a directory listed in some order. */
  datatype Attempt = Attempt(writes: nat, list: Listing)

  function Cut(w: World, a: Attempt, d: Disk): Disk {
    var ws := Program(w, a.list, d);
    DoAll(d, ws[..if a.writes < |ws| then a.writes else |ws|])
  }

  function After(w: World, d: Disk, attempts: seq<Attempt>): Disk
    decreases |attempts|
  {
    if attempts == [] then d else After(w, Cut(w, attempts[0], d), attempts[1..])
  }

  ghost predicate Listings(attempts: seq<Attempt>) {
    forall a :: a in attempts ==> Enumerates(a.list)
  }

  // ---------------------------------------------------------------------------------------
  // One apply.

  lemma StartsWorking(w: World, d: Disk, m: Manifest)
    requires ValidWorld(w) && ValidDisk(w, d) && d.manifest == Some(m)
    ensures Before(w, m, 0, d)
  {
    hide ValidWorld, ValidDisk;
  }

  /** Every write of an apply is good, and the last leaves nothing to cross. */
  lemma ProgramIsGood(w: World, list: Listing, d: Disk)
    requires ValidWorld(w) && ValidDisk(w, d) && Enumerates(list)
    ensures var ws := Program(w, list, d);
            && GoodRun(w, StaleMap(d.hollows), d, ws) && NothingToDo(DoAll(d, ws))
            && (!NothingToDo(d) ==> DoAll(d, ws).drafts
                                    == FinalDrafts(w, ManifestOf(w, d), d.drafts, StaleMap(d.hollows)))
  {
    var renamed := StaleMap(d.hollows);
    if d.manifest.Some? {
      hide ValidWorld, ValidDisk, Before, From, GoodRun, DoAll, FinalDrafts, StaleMap, PreV3;
      StartsWorking(w, d, d.manifest.value);
      FromFinishes(w, d.manifest.value, list, renamed, 0, d);
    } else if !NothingToDo(d) {
      FreshIsGood(w, list, d);
    }
  }

  lemma FreshIsGood(w: World, list: Listing, d: Disk)
    requires ValidWorld(w) && ValidDisk(w, d) && Enumerates(list) && d.manifest.None? && !NothingToDo(d)
    ensures var ws := Program(w, list, d);
            && GoodRun(w, StaleMap(d.hollows), d, ws) && NothingToDo(DoAll(d, ws))
            && DoAll(d, ws).drafts == FinalDrafts(w, ManifestOf(w, d), d.drafts, StaleMap(d.hollows))
  {
    var m, renamed := PlanOf(w, d), StaleMap(d.hollows);
    var first := SaveManifest(m);
    var e := Do(d, first);
    assert e == d.(manifest := Some(m));
    assert Good(w, renamed, d, first);
    var rest := From(w, m, list, renamed, 0, e);
    assert Program(w, list, d) == [first] + rest;
    DoSaveManifest(w, d);
    hide ValidWorld, ValidDisk, Before, From, GoodRun, DoAll, FinalDrafts, StaleMap, PreV3, Good, Outcome, PlanOf,
         Program, NothingToDo;
    StartsWorking(w, e, m);
    FromFinishes(w, m, list, renamed, 0, e);
    GoodOne(w, renamed, d, first);
    DoOne(d, first);
    GoodConcat(w, renamed, d, [first], rest);
    DoAllConcat(d, [first], rest);
  }

  lemma NothingLeft(w: World, d: Disk)
    requires HollowsOk(d.hollows) && NothingToDo(d)
    ensures Outcome(w, d) == d
  {
    hide HollowsOk;
  }

  lemma OutcomeDrafts(w: World, d: Disk)
    requires HollowsOk(d.hollows)
    ensures Outcome(w, d).drafts == if NothingToDo(d) then d.drafts
                                    else FinalDrafts(w, ManifestOf(w, d), d.drafts, StaleMap(d.hollows))
  {
    hide HollowsOk, FinalDrafts, NothingToDo, StaleMap;
  }

  lemma SameWithDrafts(a: Disk, b: Disk)
    requires SameButDrafts(a, b) && a.drafts == b.drafts
    ensures a == b
  {
  }

  /** An apply nobody interrupts does everything: op store, tables, hollows, drafts and proposals are
      what the plan says. */
  lemma ApplyReachesOutcome(w: World, list: Listing, d: Disk)
    requires ValidWorld(w) && ValidDisk(w, d) && Enumerates(list)
    ensures DoAll(d, Program(w, list, d)) == Outcome(w, d)
  {
    ProgramIsGood(w, list, d);
    var ws := Program(w, list, d);
    var e := DoAll(d, ws);
    assert NothingToDo(d) ==> ws == [] && e == d;
    assert HollowsOk(d.hollows);
    hide ValidWorld, Program, GoodRun, DoAll, Outcome, FinalDrafts, StaleMap, HollowsOk, OpsOk, MapsAcross, NothingToDo,
         Enumerates, ManifestOf;
    GoodRunKeepsOutcome(w, StaleMap(d.hollows), d, ws);
    assert HollowsOk(e.hollows);
    NothingLeft(w, e);
    OutcomeDrafts(w, d);
    SameWithDrafts(e, Outcome(w, d));
  }

  /** Applying to a finished store changes nothing. */
  lemma FinishedIsLeftAlone(w: World, list: Listing, again: Listing, d: Disk)
    requires ValidWorld(w) && ValidDisk(w, d) && Enumerates(list)
    ensures Program(w, again, DoAll(d, Program(w, list, d))) == []
  {
    ProgramIsGood(w, list, d);
    hide GoodRun, DoAll, From, PreV3;
  }

  // ---------------------------------------------------------------------------------------
  // Any number of crashes.

  lemma CutKeeps(w: World, a: Attempt, d: Disk)
    requires ValidWorld(w) && ValidDisk(w, d) && Enumerates(a.list)
    ensures ValidDisk(w, Cut(w, a, d)) && SameButDrafts(Outcome(w, Cut(w, a, d)), Outcome(w, d))
  {
    ProgramIsGood(w, a.list, d);
    var ws := Program(w, a.list, d);
    var k := if a.writes < |ws| then a.writes else |ws|;
    hide ValidWorld, ValidDisk, Program, GoodRun, DoAll, Outcome, FinalDrafts, StaleMap, NothingToDo, SameButDrafts;
    GoodPrefix(w, StaleMap(d.hollows), d, ws, k);
    GoodRunKeepsOutcome(w, StaleMap(d.hollows), d, ws[..k]);
  }

  lemma {:induction false} AfterKeeps(w: World, d: Disk, attempts: seq<Attempt>)
    requires ValidWorld(w) && ValidDisk(w, d) && Listings(attempts)
    ensures ValidDisk(w, After(w, d, attempts)) && SameButDrafts(Outcome(w, After(w, d, attempts)), Outcome(w, d))
    decreases |attempts|
  {
    hide ValidWorld, Outcome, Cut;
    if attempts != [] {
      var e := Cut(w, attempts[0], d);
      assert attempts[0] in attempts;
      CutKeeps(w, attempts[0], d);
      AfterKeeps(w, e, attempts[1..]);
    }
  }

  /** Any number of applies, each cut short between any two writes, and one that completes, leave the
      op store, hollow store, ideal table, journal, forks, OR-Set, staged candidate and proposals of a
      single uninterrupted apply. */
  lemma CrashesConverge(w: World, d: Disk, attempts: seq<Attempt>, list: Listing)
    requires ValidWorld(w) && ValidDisk(w, d) && Listings(attempts) && Enumerates(list)
    ensures var e := After(w, d, attempts);
            SameButDrafts(DoAll(e, Program(w, list, e)), Outcome(w, d))
  {
    hide *;
    AfterKeeps(w, d, attempts);
    ApplyReachesOutcome(w, list, After(w, d, attempts));
  }
}
