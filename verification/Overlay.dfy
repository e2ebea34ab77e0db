/** Synchronizing a folded tree into a directory that also holds other things (`sgt/api.py`,
    `_sync_fold_dir` and `_prune_fold_leftovers`).

    What the previous sync wrote is on record; a sync writes the new fold, then deletes exactly what
    the record lists and the fold no longer has, then collects the directories that emptied. */
module Overlay {
  import opened Names
  import opened Symbols
  import Sorting

  /** Relative paths, `/` between names; `""` is the overlay's own directory. */
  type Path = string

  type Files = map<Path, Bytes>

  function LastSlash(p: Path): (i: int)
    ensures -1 <= i < |p|
  {
    if p == "" then -1 else if p[|p| - 1] == '/' then |p| - 1 else LastSlash(p[..|p| - 1])
  }

  function Parent(p: Path): (r: Path)
    ensures p != "" ==> |r| < |p|
  {
    var i := LastSlash(p);
    if i < 0 then "" else p[..i]
  }

  function CountSlashes(p: Path): int {
    if p == "" then 0 else CountSlashes(p[..|p| - 1]) + if p[|p| - 1] == '/' then 1 else 0
  }

  /** The directories above a path, the overlay itself aside. */
  function Above(p: Path): set<Path>
    decreases |p|
  {
    var d := Parent(p);
    if p == "" || d == "" then {} else {d} + Above(d)
  }

  lemma {:induction false} AboveIsShorter(p: Path)
    ensures forall d :: d in Above(p) ==> d != "" && |d| < |p|
    decreases |p|
  {
    var d := Parent(p);
    if p != "" && d != "" { AboveIsShorter(d); }
  }

  lemma {:induction false} AboveChains(p: Path, d: Path)
    requires d in Above(p)
    ensures Above(d) <= Above(p)
    ensures Parent(d) != "" ==> Parent(d) in Above(p)
    decreases |p|
  {
    hide LastSlash;
    if d != Parent(p) { AboveChains(Parent(p), d); }
  }

  function AboveAll(ps: set<Path>): (r: set<Path>)
    ensures forall d :: d in r <==> exists p :: p in ps && d in Above(p)
  {
    set p, d | p in ps && d in Above(p) :: d
  }

  // ---------------------------------------------------------------------------------------
  // A directory tree.

  /** Every file and directory sits in a directory that is there. */
  ghost predicate IsTree(files: Files, dirs: set<Path>) {
    && "" in dirs && files.Keys !! dirs
    && (forall p {:trigger Parent(p)} :: p in files ==> Parent(p) in dirs)
    && (forall d {:trigger Parent(d)} :: d in dirs && d != "" ==> Parent(d) in dirs)
  }

  /** Holds anything at all. */
  predicate Holds(files: Files, dirs: set<Path>, d: Path) {
    (exists p :: p in files && Parent(p) == d) || (exists e :: e in dirs && e != "" && Parent(e) == d)
  }

  lemma {:induction false} TreeHasAbove(files: Files, dirs: set<Path>, p: Path)
    requires IsTree(files, dirs) && (p in files || p in dirs)
    ensures Above(p) <= dirs
    decreases |p|
  {
    hide LastSlash;
    var d := Parent(p);
    if p != "" && d != "" { TreeHasAbove(files, dirs, d); }
  }

  /** A kept entry keeps everything above it, so whatever directory is gone had nothing left in it. */
  lemma RemovedWereEmpty(files: Files, dirs: set<Path>, gone: Path)
    requires IsTree(files, dirs) && gone !in dirs && gone != ""
    ensures forall p :: p in files.Keys + dirs ==> gone !in Above(p)
  {
    forall p | p in files.Keys + dirs ensures gone !in Above(p) {
      TreeHasAbove(files, dirs, p);
    }
  }

  /** What pruning leaves of the directories, given what it deleted: only directories above a deleted
      path are gone, and of those only the ones that ended up empty. */
  ghost predicate Collected(files: Files, before: set<Path>, deleted: set<Path>, dirs: set<Path>) {
    && IsTree(files, dirs) && dirs <= before && before - dirs <= AboveAll(deleted)
    && forall d {:trigger Holds(files, dirs, d)} :: d in dirs && d in AboveAll(deleted) ==> Holds(files, dirs, d)
  }

  lemma HasBound(s: set<Path>) returns (b: nat)
    ensures forall x :: x in s ==> |x| <= b
  {
    if s == {} {
      b := 0;
    } else {
      var x :| x in s;
      var c := HasBound(s - {x});
      b := if |x| > c then |x| else c;
    }
  }

  lemma {:induction false} InOther(files: Files, before: set<Path>, deleted: set<Path>, a: set<Path>, b: set<Path>,
                                   d: Path, bound: nat)
    requires Collected(files, before, deleted, a) && Collected(files, before, deleted, b) && d in a
    requires forall x :: x in a ==> |x| <= bound
    ensures d in b
    decreases bound - |d|
  {
    if d in AboveAll(deleted) {
      assert Holds(files, a, d);
      if p :| p in files && Parent(p) == d {
      } else {
        var e :| e in a && e != "" && Parent(e) == d;
        InOther(files, before, deleted, a, b, e, bound);
      }
    }
  }

  /** The rule leaves no choice: deletion order cannot show in the result. */
  lemma CollectedIsUnique(files: Files, before: set<Path>, deleted: set<Path>, a: set<Path>, b: set<Path>)
    requires Collected(files, before, deleted, a) && Collected(files, before, deleted, b)
    ensures a == b
  {
    var n := HasBound(a);
    var m := HasBound(b);
    hide Collected;
    forall d ensures d in a <==> d in b {
      if d in a { InOther(files, before, deleted, a, b, d, n); }
      if d in b { InOther(files, before, deleted, b, a, d, m); }
    }
  }

  // ---------------------------------------------------------------------------------------
  // Collecting emptied directories, climb by climb.

  /** Directories above the paths handled so far hold something, except perhaps `hole`. */
  ghost predicate Swept(files: Files, before: set<Path>, handled: set<Path>, dirs: set<Path>, hole: Path) {
    && IsTree(files, dirs) && dirs <= before && before - dirs <= AboveAll(handled)
    && forall d {:trigger Holds(files, dirs, d)} ::
         d in dirs && d in AboveAll(handled) && d != hole ==> Holds(files, dirs, d)
  }

  lemma AboveAllMore(handled: set<Path>, p: Path)
    ensures AboveAll(handled + {p}) == AboveAll(handled) + Above(p)
  {
  }

  /** Handling one more path puts only its own directory in doubt. */
  lemma SweepStarts(files: Files, before: set<Path>, handled: set<Path>, dirs: set<Path>, p: Path)
    requires Swept(files, before, handled, dirs, "") && p != "" && (Parent(p) == "" || Parent(p) in before)
    ensures Swept(files, before, handled + {p}, dirs, Parent(p))
    ensures Parent(p) !in dirs ==> Swept(files, before, handled + {p}, dirs, "")
  {
    AboveAllMore(handled, p);
    var more := handled + {p};
    forall d {:trigger Holds(files, dirs, d)} | d in dirs && d in AboveAll(more) && d != Parent(p)
      ensures Holds(files, dirs, d)
    {
      if d in AboveAll(handled) {
        SweptHolds(files, before, handled, dirs, d);
      } else {
        AboveHolds(files, before, handled, dirs, p, d);
      }
    }
    hide IsTree, Holds, AboveAll, Parent;
  }

  lemma SweptHolds(files: Files, before: set<Path>, handled: set<Path>, dirs: set<Path>, d: Path)
    requires Swept(files, before, handled, dirs, "") && d in dirs && d in AboveAll(handled)
    ensures Holds(files, dirs, d)
  {
    var p :| p in handled && d in Above(p);
    AboveIsShorter(p);
    hide IsTree, Holds;
  }

  /** A directory strictly above `p`'s own holds the next one down -- or was swept with it. */
  lemma {:induction false} AboveHolds(files: Files, before: set<Path>, handled: set<Path>, dirs: set<Path>, p: Path,
                                      d: Path)
    requires Swept(files, before, handled, dirs, "") && p != "" && d in Above(p) && d != Parent(p) && d in dirs
    requires Parent(p) == "" || Parent(p) in before
    ensures Holds(files, dirs, d)
    decreases |p|
  {
    AboveIsShorter(p);
    hide LastSlash;
    var q := Parent(p);
    if q in dirs {
      if Parent(q) == d {
        assert q in dirs && q != "" && Parent(q) == d;
      } else {
        AboveHolds(files, before, handled, dirs, q, d);
      }
    } else {
      assert q in AboveAll(handled);
      var r :| r in handled && q in Above(r);
      AboveChains(r, q);
      assert d in Above(q);
      assert d in AboveAll(handled) && d != "";
    }
  }

  /** Nothing to remove there: the climb ends with everything swept. */
  lemma ClimbEnds(files: Files, before: set<Path>, handled: set<Path>, dirs: set<Path>, hole: Path)
    requires Swept(files, before, handled, dirs, hole) && (hole in dirs && hole != "" ==> Holds(files, dirs, hole))
    ensures Swept(files, before, handled, dirs, "")
  {
    hide IsTree, Holds, AboveAll;
  }

  lemma RemovedHolds(files: Files, dirs: set<Path>, hole: Path, d: Path)
    requires Holds(files, dirs, d) && d != Parent(hole) && d != hole
    ensures Holds(files, dirs - {hole}, d)
  {
    if !(exists p :: p in files && Parent(p) == d) {
      var e :| e in dirs && e != "" && Parent(e) == d;
      assert e in dirs - {hole};
    }
  }

  /** `rmdir` on an empty directory keeps the tree and moves the doubt one level up. */
  lemma ClimbStep(files: Files, before: set<Path>, handled: set<Path>, dirs: set<Path>, hole: Path)
    requires Swept(files, before, handled, dirs, hole) && hole in dirs && hole != "" && !Holds(files, dirs, hole)
    requires hole in AboveAll(handled)
    ensures Swept(files, before, handled, dirs - {hole}, Parent(hole))
    ensures Parent(hole) != "" ==> Parent(hole) in AboveAll(handled)
  {
    var less := dirs - {hole};
    assert IsTree(files, dirs) by { hide Above, AboveAll, Holds; }
    TreeWithout(files, dirs, hole);
    ParentIsAbove(handled, hole);
    hide IsTree, Holds, Above, Parent;
    forall d {:trigger Holds(files, less, d)} | d in less && d in AboveAll(handled) && d != Parent(hole)
      ensures Holds(files, less, d)
    {
      assert Holds(files, dirs, d);
      RemovedHolds(files, dirs, hole, d);
    }
    hide AboveAll;
  }

  lemma TreeWithout(files: Files, dirs: set<Path>, hole: Path)
    requires IsTree(files, dirs) && hole != "" && !Holds(files, dirs, hole)
    ensures IsTree(files, dirs - {hole})
  {
    hide Parent;
    assert forall p :: p in files ==> Parent(p) != hole;
    assert forall e :: e in dirs && e != "" ==> Parent(e) != hole;
  }

  lemma ParentIsAbove(handled: set<Path>, d: Path)
    requires d in AboveAll(handled)
    ensures Parent(d) != "" ==> Parent(d) in AboveAll(handled)
  {
    var p :| p in handled && d in Above(p);
    AboveChains(p, d);
    hide Above, Parent;
  }

  // ---------------------------------------------------------------------------------------
  // The files a sync leaves.

  /** The new fold over what was there, less what the record lists and the fold no longer has. */
  function Synced(files: Files, record: set<Path>, fold: Files): (r: Files)
    ensures r.Keys == (files.Keys - (record - fold.Keys)) + fold.Keys
    ensures forall p :: p in r ==> r[p] == if p in fold then fold[p] else files[p]
  {
    map p | p in (files.Keys - (record - fold.Keys)) + fold.Keys :: if p in fold then fold[p] else files[p]
  }

  /** Files after a whole history of folds, and every path any of them materialized. */
  function AfterFolds(files: Files, folds: seq<Files>): Files {
    if folds == [] then files
    else
      var n := |folds| - 1;
      Synced(AfterFolds(files, folds[..n]), Record(folds[..n]), folds[n])
  }

  /** What the record lists after those folds; before the first there is none. */
  function Record(folds: seq<Files>): set<Path> {
    if folds == [] then {} else folds[|folds| - 1].Keys
  }

  function Materialized(folds: seq<Files>): set<Path> {
    if folds == [] then {} else Materialized(folds[..|folds| - 1]) + folds[|folds| - 1].Keys
  }

  /** After any sequence of syncs, what no fold ever named is untouched, and of what any fold named
      exactly the last fold is there. */
  lemma {:induction false} SyncsAreScoped(files: Files, folds: seq<Files>)
    ensures var now, ours := AfterFolds(files, folds), Materialized(folds);
            && (forall p :: p !in ours ==> (p in now <==> p in files) && (p in now ==> now[p] == files[p]))
            && (folds != [] ==>
                  var last := folds[|folds| - 1];
                  forall p :: p in ours ==> (p in now <==> p in last) && (p in last ==> now[p] == last[p]))
  {
    if folds != [] {
      SyncsAreScoped(files, folds[..|folds| - 1]);
    }
  }

  // ---------------------------------------------------------------------------------------
  // When a fold cannot be written.

  /** No folded path is a directory, and none needs a file to be one. */
  ghost predicate NoClash(files: Files, dirs: set<Path>, fold: Files) {
    forall p {:trigger Above(p)} :: p in fold ==> p !in dirs && Above(p) !! files.Keys + fold.Keys
  }

  /** Writing comes before deleting, so a fold in which a file takes the place of a directory cannot be
      synced over one that filled the directory, though every file in it is about to be deleted; nor
      the other way round. */
  lemma ReplacingClashes(files: Files, dirs: set<Path>, fold: Files, p: Path, q: Path)
    requires IsTree(files, dirs) && q in Above(p)
    requires (p in files && q in fold) || (q in files && p in fold)
    ensures !NoClash(files, dirs, fold)
  {
    if p in files && q in fold {
      TreeHasAbove(files, dirs, p);
      assert Above(q) == Above(q);
    }
    hide IsTree;
  }

  ghost predicate StepClashes(files: Files, dirs: set<Path>, p: Path) {
    !(Above(p) !! files.Keys) || p in dirs + Above(p)
  }

  /** The files and directories after writing some of the fold. */
  function WrittenFiles(files: Files, fold: Files, names: seq<Path>): Files {
    map p | p in files.Keys + fold.Keys && (p in files || p in names) :: if p in fold
      && p in names then fold[p] else files[p]
  }

  function WrittenDirs(dirs: set<Path>, names: seq<Path>): set<Path> {
    dirs + AboveAll(Elements(names))
  }

  lemma WrittenMore(files: Files, dirs: set<Path>, fold: Files, names: seq<Path>, p: Path)
    requires p in fold
    ensures WrittenFiles(files, fold, names + [p]) == WrittenFiles(files, fold, names)[p := fold[p]]
    ensures WrittenDirs(dirs, names + [p]) == WrittenDirs(dirs, names) + Above(p)
  {
    assert Elements(names + [p]) == Elements(names) + {p};
    AboveAllMore(Elements(names), p);
    hide Above, AboveAll, Elements;
    WrittenFilesMore(files, fold, names, p);
    hide WrittenFiles;
  }

  lemma WrittenFilesMore(files: Files, fold: Files, names: seq<Path>, p: Path)
    requires p in fold
    ensures WrittenFiles(files, fold, names + [p]) == WrittenFiles(files, fold, names)[p := fold[p]]
  {
    var less, more := WrittenFiles(files, fold, names), WrittenFiles(files, fold, names + [p]);
    assert more.Keys == less.Keys + {p};
    forall q | q in more && q != p ensures more[q] == less[q] { }
  }

  lemma WrittenKeys(files: Files, fold: Files, names: seq<Path>)
    requires forall p :: p in names ==> p in fold
    ensures WrittenFiles(files, fold, names).Keys == files.Keys + Elements(names)
  {
  }

  lemma TreeGrows(files: Files, dirs: set<Path>, p: Path, data: Bytes)
    requires IsTree(files, dirs) && !StepClashes(files, dirs, p)
    ensures IsTree(files[p := data], dirs + Above(p))
  {
    forall d | d in Above(p) ensures Parent(d) != "" ==> Parent(d) in Above(p) { AboveChains(p, d); }
    hide LastSlash;
    assert Parent(p) == "" || Parent(p) in Above(p);
    hide Above, Parent;
  }

  /** A step fails only on a real clash. */
  lemma ClashIsReal(files: Files, dirs: set<Path>, fold: Files, names: seq<Path>, p: Path)
    requires p in fold && forall x :: x in names ==> x in fold
    requires StepClashes(WrittenFiles(files, fold, names), WrittenDirs(dirs, names), p)
    ensures !NoClash(files, dirs, fold)
  {
    WrittenKeys(files, fold, names);
    AboveIsShorter(p);
    hide Above, WrittenFiles;
    var now := WrittenFiles(files, fold, names);
    if !(Above(p) !! now.Keys) {
      var d :| d in Above(p) && d in now.Keys;
      assert d in files.Keys + fold.Keys;
    } else if p !in dirs {
      var q :| q in Elements(names) && p in Above(q);
    } else {
      assert Above(p) == Above(p);
    }
  }

  /** If every step went through, there was no clash to begin with. */
  lemma NoStepNoClash(files: Files, dirs: set<Path>, fold: Files, names: seq<Path>)
    requires IsTree(files, dirs) && Elements(names) == fold.Keys
             && IsTree(WrittenFiles(files, fold, names), WrittenDirs(dirs, names))
    ensures NoClash(files, dirs, fold)
  {
    WrittenKeys(files, fold, names);
    hide WrittenFiles;
    var now := WrittenFiles(files, fold, names);
    forall p {:trigger Above(p)} | p in fold ensures p !in dirs && Above(p) !! files.Keys + fold.Keys {
      assert p in now;
      TreeHasAbove(now, WrittenDirs(dirs, names), p);
    }
    hide Above, Parent;
  }

  lemma NothingWritten(files: Files, dirs: set<Path>, fold: Files, names: seq<Path>)
    ensures files == WrittenFiles(files, fold, names[..0]) && dirs == WrittenDirs(dirs, names[..0])
  {
    assert names[..0] == [];
    assert AboveAll(Elements<Path>([])) == {};
  }

  lemma SameWrite(files: Files, p: Path, data: Bytes)
    requires p in files && files[p] == data
    ensures files[p := data] == files
  {
  }

  lemma NamesAre(fold: Files, names: seq<Path>)
    requires names == Sorted(fold.Keys)
    ensures Elements(names) == fold.Keys
  {
    hide Sorted;
  }

  lemma ParentShorter(d: Path)
    ensures d != "" ==> |Parent(d)| < |d|
  {
  }

  /** `key=count("/"), reverse=True`. */
  function DeepestFirst(p: Path): int {
    -CountSlashes(p)
  }

  lemma SweepNothing(files: Files, dirs: set<Path>)
    requires IsTree(files, dirs)
    ensures Swept(files, dirs, {}, dirs, "")
  {
    hide IsTree, Above;
  }

  lemma AllSwept(files: Files, before: set<Path>, handled: set<Path>, dirs: set<Path>)
    requires Swept(files, before, handled, dirs, "")
    ensures Collected(files, before, handled, dirs)
  {
    forall d | d in AboveAll(handled) ensures d != "" {
      var p :| p in handled && d in Above(p);
      AboveIsShorter(p);
    }
    hide IsTree, Holds, AboveAll;
  }

  lemma CollectedIsTree(files: Files, before: set<Path>, deleted: set<Path>, dirs: set<Path>)
    requires Collected(files, before, deleted, dirs)
    ensures IsTree(files, dirs)
  {
    hide IsTree, Holds, AboveAll;
  }

  lemma DeletedHadParents(files: Files, dirs: set<Path>, deleted: seq<Path>)
    requires IsTree(files, dirs) && forall p :: p in Elements(deleted) ==> p in files
    ensures forall p :: p in deleted ==> p != "" && (Parent(p) == "" || Parent(p) in dirs)
  {
    hide LastSlash;
  }

  lemma ElementsAppend(names: seq<Path>, p: Path)
    ensures Elements(names + [p]) == Elements(names) + {p}
  {
  }

  lemma NoneDeleted(files: Files, names: seq<Path>)
    ensures files == files - Elements(names[..0]) && Elements<Path>([]) == Elements(names[..0]) * files.Keys
  {
    assert names[..0] == [];
  }

  lemma DeleteOne(files0: Files, files: Files, names: seq<Path>, i: nat, deleted: seq<Path>)
    requires i < |names| && files == files0 - Elements(names[..i])
             && Elements(deleted) == Elements(names[..i]) * files0.Keys
    requires names[i] !in names[..i]
    ensures names[i] !in files ==> files == files0 - Elements(names[..i + 1])
                                   && Elements(deleted) == Elements(names[..i + 1]) * files0.Keys
    ensures names[i] in files ==> files - {names[i]} == files0 - Elements(names[..i + 1])
                                  && Elements(deleted + [names[i]]) == Elements(names[..i + 1]) * files0.Keys
  {
    PrefixGrows(names, i);
    ElementsAppend(deleted, names[i]);
  }

  lemma TreeShrinks(files: Files, dirs: set<Path>, p: Path)
    requires IsTree(files, dirs)
    ensures IsTree(files - {p}, dirs)
  {
    hide LastSlash;
  }

  lemma WrittenAll(files: Files, fold: Files, names: seq<Path>, record: set<Path>)
    requires Elements(names) == fold.Keys
    ensures WrittenFiles(files, fold, names) - (record - fold.Keys) == Synced(files, record, fold)
    ensures (record - fold.Keys) * WrittenFiles(files, fold, names).Keys == (record - fold.Keys) * files.Keys
  {
    assert forall p :: p in fold ==> p in names;
  }

  lemma FullyWritten(files: Files, dirs: set<Path>, fold: Files, record: set<Path>)
    ensures WrittenFiles(files, fold, Sorted(fold.Keys)) - (record - fold.Keys) == Synced(files, record, fold)
    ensures (record - fold.Keys) * WrittenFiles(files, fold, Sorted(fold.Keys)).Keys
            == (record - fold.Keys) * files.Keys
    ensures WrittenDirs(dirs, Sorted(fold.Keys)) == dirs + AboveAll(fold.Keys)
  {
    NamesAre(fold, Sorted(fold.Keys));
    hide Sorted, AboveAll, Above, WrittenFiles, Synced;
    WrittenAll(files, fold, Sorted(fold.Keys), record);
  }

  /** Every file is as it was, or as the fold has it. */
  ghost predicate PartlyFrom(files: Files, fold: Files, now: Files) {
    && files.Keys <= now.Keys <= files.Keys + fold.Keys
    && forall p :: p in now ==> (p in files && now[p] == files[p]) || (p in fold && now[p] == fold[p])
  }

  lemma PartlyWritten(files: Files, fold: Files, names: seq<Path>)
    ensures PartlyFrom(files, fold, WrittenFiles(files, fold, names))
  {
  }

  /** No directory is gone, and what is new lies above the fold's files. */
  ghost predicate PartlyMade(dirs: set<Path>, fold: Files, now: set<Path>) {
    dirs <= now <= dirs + AboveAll(fold.Keys)
  }

  lemma PartlyMadeDirs(dirs: set<Path>, fold: Files, names: seq<Path>)
    requires forall x :: x in names ==> x in fold
    ensures PartlyMade(dirs, fold, WrittenDirs(dirs, names))
  {
    hide Above;
  }

  /** A sync that raised part-way leaves its record as it was, so what it wrote is on no record.  The
      next sync is exact over everything ever materialized if and only if all of that is in the next
      fold or was on the old record. */
  lemma FailedSyncLingers(files: Files, ours: set<Path>, record: set<Path>, failed: Files, now: Files, next: Files)
    requires record <= ours && PartlyFrom(files, failed, now)
    requires forall p :: p in ours ==> (p in files <==> p in record)
    ensures (forall p :: p in ours + failed.Keys + next.Keys ==> (p in Synced(now, record, next) <==> p in next))
            <==> (forall p :: p in failed && p in now ==> p in next || p in record)
  {
    var end := Synced(now, record, next);
    if forall p :: p in failed && p in now ==> p in next || p in record {
      forall p | p in ours + failed.Keys + next.Keys ensures p in end <==> p in next { }
    }
    if forall p :: p in ours + failed.Keys + next.Keys ==> (p in end <==> p in next) {
      forall p | p in failed && p in now ensures p in next || p in record {
        assert p in end <==> p in next;
      }
    }
  }

  // ---------------------------------------------------------------------------------------
  // Both in the small.

  lemma FlatPath(p: Path)
    requires |p| == 1 && p[0] != '/'
    ensures Parent(p) == "" && Above(p) == {}
  {
    assert p[..0] == "";
    assert LastSlash(p) == -1;
  }

  /** `d/x`. */
  lemma NestedPath(d: char, x: char)
    requires d != '/' && x != '/'
    ensures Parent([d, '/', x]) == [d] && Above([d, '/', x]) == {[d]}
  {
    var p := [d, '/', x];
    assert p[..2] == [d, '/'];
    assert LastSlash(p[..2]) == 1;
    assert LastSlash(p) == 1;
    assert p[..1] == [d];
    FlatPath([d]);
  }

  lemma NestedTree(d: char, x: char, data: Bytes)
    requires d != '/' && x != '/'
    ensures IsTree(map[[d, '/', x] := data], {"", [d]})
  {
    NestedPath(d, x);
    FlatPath([d]);
    hide Parent, Above;
  }

  /** A directory `a` with one file in it, and a fold in which `a` is a file. */
  lemma FileOverDirectory()
    ensures var files: Files, fold: Files := map["a/b" := [1]], map["a" := [2]];
            IsTree(files, {"", "a"}) && !NoClash(files, {"", "a"}, fold)
  {
    var files: Files, fold: Files := map["a/b" := [1]], map["a" := [2]];
    assert ['a', '/', 'b'] == "a/b" && ['a'] == "a";
    NestedPath('a', 'b');
    NestedTree('a', 'b', [1]);
    hide *;
    ReplacingClashes(files, {"", "a"}, fold, "a/b", "a");
  }

  /** A fold of `a` and `b` over a directory `b`: `a` is written, `b` cannot be.  The next fold, the one
      that was there before, leaves `a` behind: it is on no record. */
  lemma WrittenFileIsLeftBehind()
    ensures var files: Files, dirs: set<Path>, failed: Files := map["b/c" := [1]], {"", "b"},
            map["a" := [2], "b" := [3]];
            var now := WrittenFiles(files, failed, ["a"]);
            var end := Synced(now, files.Keys, files);
            && IsTree(files, dirs) && Sorted(failed.Keys) == ["a", "b"]
            && !StepClashes(files, dirs, "a") && StepClashes(now, WrittenDirs(dirs, ["a"]), "b")
            && "a" in end && "a" !in files
  {
    var files: Files, dirs: set<Path>, failed: Files := map["b/c" := [1]], {"", "b"}, map["a" := [2], "b" := [3]];
    assert ['b', '/', 'c'] == "b/c" && ['b'] == "b";
    assert "a"[0] < "b"[0];
    assert failed.Keys == {"a", "b"};
    assert "a" !in files && "a" !in dirs && |"b/c"| == 3;
    NestedTree('b', 'c', [1]);
    FlatPath("a");
    hide Parent, Above, LastSlash, IsTree, Synced, AboveAll;
    SortedPair("a", "b");
    assert "a" in WrittenFiles(files, failed, ["a"]);
    assert "a" !in files.Keys;
  }

  lemma SortedPair(a: Path, b: Path)
    requires Le(a, b) && a != b
    ensures Sorted({a, b}) == [a, b]
  {
    assert Increasing([a, b]) by { hide Le; }
    hide *;
    SortedIs({a, b}, [a, b]);
  }

  // ---------------------------------------------------------------------------------------
  // The sync.

  class Directory {
    var files: Files
    var dirs: set<Path>
    /** The manifest file: the paths the last completed sync wrote. */
    var record: Option<set<Path>>

    ghost predicate Valid()
      reads this
    {
      IsTree(files, dirs)
    }

    lemma IsValid()
      requires IsTree(files, dirs)
      ensures Valid()
    {
    }

    constructor (files: Files, dirs: set<Path>)
      requires IsTree(files, dirs)
      ensures Valid() && this.files == files && this.dirs == dirs && record == None
    {
      this.files, this.dirs, record := files, dirs, None;
    }

    /** One file: its directories made, its bytes written unless they are already there. */
    method WriteFile(p: Path, data: Bytes) returns (ok: bool)
      requires IsTree(files, dirs)
      modifies this`files, this`dirs
      ensures IsTree(files, dirs) && (ok <==> !StepClashes(old(files), old(dirs), p))
      ensures if ok then files == old(files)[p := data] && dirs == old(dirs) + Above(p)
              else files == old(files) && dirs == old(dirs)
    {
      hide IsTree, Above;
      if !(Above(p) !! files.Keys) || p in dirs + Above(p) { return false; }
      TreeGrows(files, dirs, p, data);
      dirs := dirs + Above(p);
      if p !in files || files[p] != data {
        files := files[p := data];
      } else {
        SameWrite(files, p, data);
      }
      ok := true;
    }

    /** The next file of the fold, the ones before it written. */
    method WriteNext(ghost files0: Files, ghost dirs0: set<Path>, fold: Files, ghost names: seq<Path>, p: Path)
      returns (ok: bool)
      requires IsTree(files, dirs) && p in fold && forall x :: x in names ==> x in fold
      requires files == WrittenFiles(files0, fold, names) && dirs == WrittenDirs(dirs0, names)
      modifies this`files, this`dirs
      ensures IsTree(files, dirs)
      ensures if ok then files == WrittenFiles(files0, fold, names + [p]) && dirs == WrittenDirs(dirs0, names + [p])
              else !NoClash(files0, dirs0, fold) && PartlyFrom(files0, fold, files) && PartlyMade(dirs0, fold, dirs)
    {
      hide *;
      ok := WriteFile(p, fold[p]);
      if ok {
        WrittenMore(files0, dirs0, fold, names, p);
      } else {
        ClashIsReal(files0, dirs0, fold, names, p);
        PartlyWritten(files0, fold, names);
        PartlyMadeDirs(dirs0, fold, names);
      }
    }

    /** The files of the fold one after another, until one cannot be written. */
    method WriteEach(ghost files0: Files, ghost dirs0: set<Path>, fold: Files, names: seq<Path>) returns (ok: bool)
      requires IsTree(files, dirs) && files == files0 && dirs == dirs0 && forall x :: x in names ==> x in fold
      modifies this`files, this`dirs
      ensures IsTree(files, dirs)
      ensures if ok then files == WrittenFiles(files0, fold, names) && dirs == WrittenDirs(dirs0, names)
              else !NoClash(files0, dirs0, fold) && PartlyFrom(files0, fold, files) && PartlyMade(dirs0, fold, dirs)
    {
      NothingWritten(files0, dirs0, fold, names);
      hide *;
      ok := true;
      var i := 0;
      while i < |names| && ok
        invariant 0 <= i <= |names| && IsTree(files, dirs)
        invariant if ok then files == WrittenFiles(files0, fold, names[..i]) && dirs == WrittenDirs(dirs0, names[..i])
                  else !NoClash(files0, dirs0, fold) && PartlyFrom(files0, fold, files) && PartlyMade(dirs0, fold, dirs)
      {
        assert names[i] in names;
        ok := WriteNext(files0, dirs0, fold, names[..i], names[i]);
        assert names[..i + 1] == names[..i] + [names[i]];
        i := i + 1;
      }
      assert names[..|names|] == names;
    }

    /** The writing half: stops at the first path that cannot be written. */
    method WriteFold(fold: Files) returns (ok: bool)
      requires Valid()
      modifies this`files, this`dirs
      ensures Valid() && (ok <==> NoClash(old(files), old(dirs), fold))
      ensures ok ==> files == WrittenFiles(old(files), fold, Sorted(fold.Keys))
                     && dirs == WrittenDirs(old(dirs), Sorted(fold.Keys))
      ensures !ok ==> PartlyFrom(old(files), fold, files) && PartlyMade(old(dirs), fold, dirs)
    {
      var names := Sorted(fold.Keys);
      ghost var files0, dirs0 := files, dirs;
      hide Sorted, IsTree, NoClash, WrittenFiles, WrittenDirs, PartlyFrom, PartlyMade;
      ok := WriteEach(files0, dirs0, fold, names);
      if ok {
        NamesAre(fold, names);
        NoStepNoClash(files0, dirs0, fold, names);
      }
    }

    /** Climbs from a deleted path's directory, removing each that is empty. */
    method Climb(ghost before: set<Path>, ghost handled: set<Path>, p: Path)
      requires Swept(files, before, handled, dirs, "") && p != "" && (Parent(p) == "" || Parent(p) in before)
      modifies this`dirs
      ensures Swept(files, before, handled + {p}, dirs, "")
    {
      SweepStarts(files, before, handled, dirs, p);
      var d := Parent(p);
      AboveAllMore(handled, p);
      ghost var all := handled + {p};
      assert d != "" ==> d in AboveAll(all);
      hide *;
      while d != "" && d in dirs
        invariant Swept(files, before, all, dirs, d)
        invariant d != "" ==> d in AboveAll(all)
        decreases |d|
      {
        if Holds(files, dirs, d) { break; }
        ClimbStep(files, before, all, dirs, d);
        dirs := dirs - {d};
        ParentShorter(d);
        d := Parent(d);
      }
      ClimbEnds(files, before, all, dirs, d);
    }

    /** `_prune_fold_leftovers`. */
    method Prune(stale: set<Path>) returns (deleted: seq<Path>)
      requires Valid()
      modifies this`files, this`dirs
      ensures Elements(deleted) == stale * old(files).Keys
      ensures files == old(files) - stale
      ensures Collected(files, old(dirs), Elements(deleted), dirs)
    {
      ghost var files0, dirs0 := files, dirs;
      deleted := Unlink(stale);
      Sorting.SameElements(deleted, DeepestFirst);
      var order := Sorting.StableSort(deleted, DeepestFirst);
      ghost var handled: set<Path> := {};
      SweepNothing(files, dirs);
      DeletedHadParents(files0, dirs0, deleted);
      hide *;
      assert Elements(order[..0]) == {};
      for i := 0 to |order|
        invariant Swept(files, dirs0, Elements(order[..i]), dirs, "") && files == files0 - stale
      {
        assert order[i] in order;
        PrefixGrows(order, i);
        Climb(dirs0, Elements(order[..i]), order[i]);
      }
      assert order[..|order|] == order;
      assert Elements(order) == Elements(deleted);
      AllSwept(files, dirs0, Elements(order), dirs);
    }

    /** Deletes the stale paths that are files, in order. */
    method Unlink(stale: set<Path>) returns (deleted: seq<Path>)
      requires Valid()
      modifies this`files
      ensures Valid() && files == old(files) - stale && Elements(deleted) == stale * old(files).Keys
    {
      deleted := [];
      var names := Sorted(stale);
      ghost var files0 := files;
      NoneDeleted(files0, names);
      assert Elements(names) == stale;
      hide *;
      for i := 0 to |names|
        invariant files == files0 - Elements(names[..i]) && Elements(deleted) == Elements(names[..i]) * files0.Keys
        invariant IsTree(files, dirs)
      {
        DeleteOne(files0, files, names, i, deleted);
        if names[i] !in files { continue; }
        TreeShrinks(files, dirs, names[i]);
        files := files - {names[i]};
        deleted := deleted + [names[i]];
      }
      assert names[..|names|] == names;
      IsValid();
    }

    /** `_sync_fold_dir`; not ok when a write raised, the rest not done. */
    method Sync(fold: Files) returns (ok: bool, deleted: seq<Path>)
      requires Valid()
      modifies this
      ensures Valid() && (ok <==> NoClash(old(files), old(dirs), fold))
      ensures ok ==> files == Synced(old(files), if old(record).Some? then old(record).value else {}, fold)
                     && record == Some(fold.Keys)
      ensures ok ==> Elements(deleted)
                     == ((if old(record).Some? then old(record).value else {}) - fold.Keys) * old(files).Keys
      ensures ok ==> Collected(files, old(dirs) + AboveAll(fold.Keys), Elements(deleted), dirs)
      ensures !ok ==> record == old(record) && PartlyFrom(old(files), fold, files)
                      && old(dirs) <= dirs <= old(dirs) + AboveAll(fold.Keys)
    {
      var previous := if record.Some? then record.value else {};
      ghost var files0, dirs0 := files, dirs;
      deleted := [];
      ok := WriteFold(fold);
      if !ok {
        return;
      }
      FullyWritten(files0, dirs0, fold, previous);
      hide *;
      deleted := Prune(previous - fold.Keys);
      record := Some(fold.Keys);
      CollectedIsTree(files, dirs0 + AboveAll(fold.Keys), Elements(deleted), dirs);
      IsValid();
    }
  }
}
