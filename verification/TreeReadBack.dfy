/** The whole tree read back through one store (`sgt/core/fold.py`, `fold_at` and `code`). */
module TreeReadBack {
  import opened Names
  import opened Symbols
  import opened Snapshots
  import opened Tables
  import opened Chains
  import opened History
  import opened Codecs
  import opened MinedOps
  import opened ReadBack
  import opened Materialize
  import Fold
  import Order

  function PathLine(repo: Repo, n: nat, p: Name): Timeline
    requires ValidRepo(repo, n) && p in repo
  {
    TimelineOf(repo[p].tier, repo[p].commits)
  }

  /** A store of a whole tree: ops by id, the order declared between them, the ids held; and for every path how it
      writes its symbols and which op each of its touches is in. */
  datatype TreeStore = TreeStore(ops: Order.Ops, declared: set<Order.Declared>, held: set<Name>,
                                 codecs: map<Name, Codec>, made: map<Name, seq<map<Sym, Name>>>)

  /** The store as one path sees it: the ops of all, and where its own touches went. */
  function View(ts: TreeStore, p: Name): Store
    requires p in ts.made
  {
    Store(ts.ops, ts.declared, ts.held, ts.made[p])
  }

  /** The store holds the ops of every path. */
  ghost predicate HoldsTree(ts: TreeStore, repo: Repo, n: nat) {
    && ValidRepo(repo, n) && repo.Keys <= ts.codecs.Keys && repo.Keys <= ts.made.Keys
    && forall p :: p in repo ==> HoldsPath(ts, repo, n, p)
  }

  ghost predicate HoldsPath(ts: TreeStore, repo: Repo, n: nat, p: Name)
    requires ValidRepo(repo, n) && p in repo && p in ts.codecs && p in ts.made
  {
    IsCodec(ts.codecs[p]) && Mined(ts.codecs[p], PathLine(repo, n, p), View(ts, p))
  }

  lemma HeldPath(ts: TreeStore, repo: Repo, n: nat, p: Name)
    requires HoldsTree(ts, repo, n) && p in repo
    ensures p in ts.codecs && p in ts.made && ValidRepo(repo, n)
    ensures IsCodec(ts.codecs[p]) && Mined(ts.codecs[p], PathLine(repo, n, p), View(ts, p))
  {
    assert HoldsPath(ts, repo, n, p);
    hide IsCodec, Mined, ValidRepo, PathLine, View;
  }

  /** What the tip of a path's symbol leaves. */
  ghost function TipThere(ts: TreeStore, p: Name, s: Sym): Option<Version>
    requires p in ts.codecs && p in ts.made
  {
    TipValue(ts.codecs[p], View(ts, p), s)
  }

  ghost function LiveThere(ts: TreeStore, repo: Repo, n: nat, p: Name): Fold.LiveSet
    requires HoldsTree(ts, repo, n) && p in repo
  {
    FrontierLive(ts.codecs[p], PathLine(repo, n, p), View(ts, p))
  }

  /** The frontier's live symbols, over all paths. */
  ghost function FrontierTip(ts: TreeStore, repo: Repo, n: nat): (r: Materialize.Tip)
    requires HoldsTree(ts, repo, n)
    ensures forall a :: a in r <==> a.path in repo && a.sym in LiveThere(ts, repo, n, a.path)
    ensures forall a :: a in r ==> r[a].image == LiveThere(ts, repo, n, a.path)[a.sym]
                                   && Some(r[a].version) == TipThere(ts, a.path, a.sym) && !r[a].version.Bottom?
  {
    hide LiveThere, TipThere, HoldsPath, FrontierLive, ValidRepo;
    var all := set p, s | p in repo && s in LiveThere(ts, repo, n, p) :: Materialize.At(p, s);
    forall a: Address | a.path in repo && a.sym in LiveThere(ts, repo, n, a.path) ensures a in all {
      assert a == Materialize.At(a.path, a.sym);
    }
    forall a: Address | a in all
      ensures TipThere(ts, a.path, a.sym).Some? && !TipThere(ts, a.path, a.sym).value.Bottom?
    {
      LiveHasTip(ts, repo, n, a.path, a.sym);
    }
    map a | a in all :: Entry(TipThere(ts, a.path, a.sym).value, LiveThere(ts, repo, n, a.path)[a.sym])
  }

  lemma LiveHasTip(ts: TreeStore, repo: Repo, n: nat, p: Name, s: Sym)
    requires HoldsTree(ts, repo, n) && p in repo
    ensures p in ts.codecs && p in ts.made
    ensures s in LiveThere(ts, repo, n, p) <==> IsLeft(TipThere(ts, p, s))
    ensures s in LiveThere(ts, repo, n, p) ==> TipThere(ts, p, s).Some? && !TipThere(ts, p, s).value.Bottom?
  {
    HeldPath(ts, repo, n, p);
    hide HoldsTree, HoldsPath, Mined, IsCodec, ValidRepo, TipValue, FrontierLive, PathLine, View;
    LiveByTip(ts.codecs[p], PathLine(repo, n, p), View(ts, p), s);
  }

  lemma LiveInTree(ts: TreeStore, repo: Repo, n: nat, p: Name)
    requires HoldsTree(ts, repo, n)
    ensures p in repo ==> LiveIn(FrontierTip(ts, repo, n), p) == LiveThere(ts, repo, n, p)
    ensures p !in repo ==> LiveIn(FrontierTip(ts, repo, n), p) == map[]
  {
    hide FrontierTip, LiveThere, HoldsTree;
    if p in repo {
      SameMap(LiveIn(FrontierTip(ts, repo, n), p), LiveThere(ts, repo, n, p));
    }
  }

  lemma NoContentNoBytes(live: Fold.LiveSet)
    requires !Materializes(live)
    ensures Fold.FoldFile(live) == []
  {
    forall s | s in live ensures !ContentBearing(s) { }
    assert Whole !in live by { assert ContentBearing(Whole); }
    assert (set s | s in live && Fold.Carries(live, s)) == {};
    hide Fold.FoldFile;
    Fold.LengthIsConserved(live);
  }

  /** Which paths are in the folded tree: those with a content-bearing symbol whose tip leaves something; and each
      folds from its own live symbols. */
  lemma TreePathsExactlyWhen(ts: TreeStore, repo: Repo, n: nat, p: Name)
    requires HoldsTree(ts, repo, n)
    ensures var code := Code(FrontierTip(ts, repo, n), None);
            && (p in code <==> p in repo && exists s :: ContentBearing(s) && IsLeft(TipThere(ts, p, s)))
            && (p in code ==> code[p] == Fold.FoldFile(LiveThere(ts, repo, n, p)))
  {
    LiveInTree(ts, repo, n, p);
    assert Wanted(None, p);
    hide HoldsTree, FrontierTip, Fold.FoldFile, LiveThere, TipThere, ContentBearing, IsLeft;
    if p in repo {
      forall s ensures s in LiveThere(ts, repo, n, p) <==> IsLeft(TipThere(ts, p, s)) {
        LiveHasTip(ts, repo, n, p, s);
      }
    }
  }

  /** The tree round trip through the store: a path whose file the frontier shows is in the folded tree with the
      committed bytes, other paths and their ops notwithstanding; only an empty file may be missing. */
  lemma TreeReadsBack(ts: TreeStore, repo: Repo, n: nat, p: Name, f: Snapshot)
    requires HoldsTree(ts, repo, n) && p in repo && EndsWith(repo[p].tier, repo[p].commits, f)
    requires WellFormed(f) && ShowsFile(ts.codecs[p], View(ts, p), TableOf(repo[p].tier, f))
    requires RepOf(repo[p].tier, f) == WholeFile || SameLineInOrder(f.ents)
    ensures var code := Code(FrontierTip(ts, repo, n), None);
            (p in code ==> code[p] == f.raw) && (f.raw != [] ==> p in code)
  {
    HeldPath(ts, repo, n, p);
    LiveInTree(ts, repo, n, p);
    var live := LiveThere(ts, repo, n, p);
    assert live == FrontierLive(ts.codecs[p], TimelineOf(repo[p].tier, repo[p].commits), View(ts, p));
    assert Wanted(None, p);
    hide HoldsTree, HoldsPath, Mined, ShowsFile, EndsWith, IsCodec, WellFormed, FrontierLive, LiveThere, FrontierTip,
         Fold.FoldFile, Materializes, ValidRepo, TimelineOf, TableOf, View;
    FrontierFoldsBack(ts.codecs[p], repo[p].tier, repo[p].commits, f, View(ts, p));
    if !Materializes(live) { NoContentNoBytes(live); }
  }
}
