/** From the per-symbol frontier of a whole repository to its files (`sgt/core/fold.py`, `code`;
    `sgt/core/ideal.py`, `covered_paths`), and the round trip for every path at once. */
module Materialize {
  import opened Names
  import opened Symbols
  import opened Snapshots
  import opened Tables
  import opened History
  import Chains
  import Fold

  datatype Address = At(path: Name, sym: Sym)

  /** Each symbol's newest entry. */
  type Tip = map<Address, Entry>

  predicate IsLive(tip: Tip, a: Address) {
    a in tip && !tip[a].version.Bottom?
  }

  function SymsAt(tip: Tip, p: Name): (r: set<Sym>)
    ensures forall s :: s in r <==> IsLive(tip, At(p, s))
  {
    set a | a in tip && IsLive(tip, a) && a.path == p :: a.sym
  }

  /** One path's live symbols. */
  function LiveIn(tip: Tip, p: Name): (r: Fold.LiveSet)
    ensures forall s :: s in r <==> IsLive(tip, At(p, s))
    ensures forall s :: s in r ==> IsLive(tip, At(p, s)) && r[s] == tip[At(p, s)].image
  {
    map s | s in SymsAt(tip, p) && At(p, s) in tip :: tip[At(p, s)].image
  }

  /** The paths with a live content-bearing symbol. */
  function CoveredPaths(tip: Tip): (r: set<Name>)
    ensures forall p :: p in r <==> Materializes(LiveIn(tip, p))
  {
    var r := set a | a in tip && IsLive(tip, a) && ContentBearing(a.sym) :: a.path;
    assert forall p :: p in r <==> Materializes(LiveIn(tip, p)) by {
      forall p | Materializes(LiveIn(tip, p)) ensures p in r {
        var s :| s in LiveIn(tip, p) && ContentBearing(s);
        assert At(p, s) in tip;
      }
      forall p | p in r ensures Materializes(LiveIn(tip, p)) {
        var a :| a in tip && IsLive(tip, a) && ContentBearing(a.sym) && a.path == p;
        assert At(p, a.sym) == a;
        assert a.sym in LiveIn(tip, p);
      }
    }
    r
  }

  predicate Wanted(only: Option<set<Name>>, p: Name) {
    only.Some? ==> p in only.value
  }

  /** The folded tree, restricted to `only` when given. */
  function Code(tip: Tip, only: Option<set<Name>>): (r: map<Name, Bytes>)
    ensures forall p :: p in r <==> p in CoveredPaths(tip) && Wanted(only, p)
    ensures forall p :: p in r ==> r[p] == Fold.FoldFile(LiveIn(tip, p))
  {
    map p | p in CoveredPaths(tip) && Wanted(only, p) :: Fold.FoldFile(LiveIn(tip, p))
  }

  // ---------------------------------------------------------------------------------------
  // The two passes of the source over the frontier.

  /** `covered_paths`: one accumulating pass. */
  method CoverPaths(tip: Tip, items: seq<Address>) returns (paths: set<Name>)
    requires forall a :: a in items <==> a in tip
    ensures paths == CoveredPaths(tip)
  {
    paths := {};
    var i := 0;
    while i < |items|
      invariant 0 <= i <= |items|
      invariant forall p :: p in paths <==> exists j :: 0 <= j < i && CarriesPath(tip, items[j], p)
    {
      if !tip[items[i]].version.Bottom? && ContentBearing(items[i].sym) {
        paths := paths + {items[i].path};
      }
      i := i + 1;
    }
    forall p ensures p in paths <==> p in CoveredPaths(tip) { CarriedIsCovered(tip, items, p); }
  }

  ghost predicate CarriesPath(tip: Tip, a: Address, p: Name) {
    IsLive(tip, a) && ContentBearing(a.sym) && a.path == p
  }

  lemma CarriedIsCovered(tip: Tip, items: seq<Address>, p: Name)
    requires forall a :: a in items <==> a in tip
    ensures p in CoveredPaths(tip) <==> exists j :: 0 <= j < |items| && CarriesPath(tip, items[j], p)
  {
    if p in CoveredPaths(tip) {
      var s :| s in LiveIn(tip, p) && ContentBearing(s);
      assert At(p, s) in items;
      var j :| 0 <= j < |items| && items[j] == At(p, s);
      assert CarriesPath(tip, items[j], p);
    }
    if j :| 0 <= j < |items| && CarriesPath(tip, items[j], p) {
      assert At(p, items[j].sym) == items[j];
      assert items[j].sym in LiveIn(tip, p);
      assert Materializes(LiveIn(tip, p));
    }
  }

  /** What the first pass of `code` has gathered from the addresses in `seen`: the live symbols, */
  ghost predicate HasSyms(tip: Tip, only: Option<set<Name>>, seen: set<Address>, byPath: map<Name, Fold.LiveSet>) {
    && (forall p, s :: p in byPath && s in byPath[p] <==> At(p, s) in seen && IsLive(tip, At(p, s)) && Wanted(only, p))
    && (forall p, s :: p in byPath && s in byPath[p] ==> byPath[p][s] == tip[At(p, s)].image)
  }

  /** and the paths that carry content. */
  ghost predicate HasContent(only: Option<set<Name>>, byPath: map<Name, Fold.LiveSet>, content: set<Name>) {
    && (forall p :: p in content ==> p in byPath && Wanted(only, p) && Materializes(byPath[p]))
    && (forall p :: p in byPath && Materializes(byPath[p]) ==> p in content)
  }

  ghost predicate Gathered(tip: Tip, only: Option<set<Name>>, seen: set<Address>, byPath: map<Name, Fold.LiveSet>,
                           content: set<Name>) {
    HasSyms(tip, only, seen, byPath) && HasContent(only, byPath, content)
  }

  /** `code`: gather live symbols by path, note which paths carry content, then fold those. */
  method CodeOf(tip: Tip, items: seq<Address>, only: Option<set<Name>>) returns (files: map<Name, Bytes>)
    requires Distinct(items) && forall a :: a in items <==> a in tip
    ensures files == Code(tip, only)
  {
    var byPath: map<Name, Fold.LiveSet>, content: set<Name> := map[], {};
    GatheredNothing(tip, only, items);
    hide Gathered, Materializes, Elements, ContentBearing, Fold.FoldFile, Distinct, Code;
    var i := 0;
    while i < |items|
      invariant 0 <= i <= |items|
      invariant Gathered(tip, only, Elements(items[..i]), byPath, content)
    {
      var a := items[i];
      assert a in items;
      PrefixGrows(items, i);
      if tip[a].version.Bottom? || !Wanted(only, a.path) {
        GatherSkip(tip, only, Elements(items[..i]), byPath, content, a);
      } else {
        GatherOne(tip, only, Elements(items[..i]), byPath, content, a);
        var live := if a.path in byPath then byPath[a.path] else map[];
        byPath := byPath[a.path := live[a.sym := tip[a].image]];
        if ContentBearing(a.sym) { content := content + {a.path}; }
      }
      i := i + 1;
    }
    assert items[..i] == items;
    files := map p | p in byPath && p in content :: Fold.FoldFile(byPath[p]);
    GatheredAll(tip, only, Elements(items), byPath, content, files);
  }

  lemma GatheredNothing(tip: Tip, only: Option<set<Name>>, items: seq<Address>)
    ensures Gathered(tip, only, Elements(items[..0]), map[], {})
  {
  }

  lemma GatherSkip(tip: Tip, only: Option<set<Name>>, seen: set<Address>, byPath: map<Name, Fold.LiveSet>,
                   content: set<Name>, a: Address)
    requires Gathered(tip, only, seen, byPath, content) && a in tip && (tip[a].version.Bottom? || !Wanted(only, a.path))
    ensures Gathered(tip, only, seen + {a}, byPath, content)
  {
    hide HasContent;
  }

  lemma GatherOne(tip: Tip, only: Option<set<Name>>, seen: set<Address>, byPath: map<Name, Fold.LiveSet>,
                  content: set<Name>, a: Address)
    requires Gathered(tip, only, seen, byPath, content) && a !in seen && IsLive(tip, a) && Wanted(only, a.path)
    ensures var live := if a.path in byPath then byPath[a.path] else map[];
            Gathered(tip, only, seen + {a}, byPath[a.path := live[a.sym := tip[a].image]],
                     if ContentBearing(a.sym) then content + {a.path} else content)
  {
    hide HasSyms, HasContent, ContentBearing;
    SymsGrow(tip, only, seen, byPath, a);
    ContentGrows(only, byPath, content, a.path, a.sym, tip[a].image);
  }

  lemma SymsGrow(tip: Tip, only: Option<set<Name>>, seen: set<Address>, byPath: map<Name, Fold.LiveSet>, a: Address)
    requires HasSyms(tip, only, seen, byPath) && IsLive(tip, a) && Wanted(only, a.path)
    ensures var live := if a.path in byPath then byPath[a.path] else map[];
            HasSyms(tip, only, seen + {a}, byPath[a.path := live[a.sym := tip[a].image]])
  {
    var live := if a.path in byPath then byPath[a.path] else map[];
    var grown := byPath[a.path := live[a.sym := tip[a].image]];
    assert a == At(a.path, a.sym);
    hide IsLive, Wanted;
    forall p | p in grown && p != a.path ensures p in byPath && grown[p] == byPath[p] { }
  }

  lemma ContentGrows(only: Option<set<Name>>, byPath: map<Name, Fold.LiveSet>, content: set<Name>, p: Name, s: Sym,
                     image: Image)
    requires HasContent(only, byPath, content) && Wanted(only, p)
    ensures var live := if p in byPath then byPath[p] else map[];
            HasContent(only, byPath[p := live[s := image]], if ContentBearing(s) then content + {p} else content)
  {
    var live := if p in byPath then byPath[p] else map[];
    var grown := byPath[p := live[s := image]];
    MaterializesGrows(live, s, image);
    NothingLive();
    hide Materializes, ContentBearing, Wanted;
    forall q | q in grown && q != p ensures q in byPath && grown[q] == byPath[q] { }
  }

  lemma NothingLive()
    ensures !Materializes(map[])
  {
  }

  lemma MaterializesGrows(live: Fold.LiveSet, s: Sym, i: Image)
    ensures Materializes(live[s := i]) <==> Materializes(live) || ContentBearing(s)
  {
    if Materializes(live) {
      var t :| t in live && ContentBearing(t);
      assert t in live[s := i];
    }
    if ContentBearing(s) { assert s in live[s := i]; }
  }

  lemma GatheredAll(tip: Tip, only: Option<set<Name>>, seen: set<Address>, byPath: map<Name, Fold.LiveSet>,
                    content: set<Name>,
                    files: map<Name, Bytes>)
    requires Gathered(tip, only, seen, byPath, content) && forall a :: a in seen <==> a in tip
    requires files == map p | p in byPath && p in content :: Fold.FoldFile(byPath[p])
    ensures files == Code(tip, only)
  {
    hide Materializes, Fold.FoldFile, Gathered, CoveredPaths, LiveIn, Wanted;
    forall p ensures (p in files <==> p in Code(tip, only)) && (p in files ==> files[p] == Code(tip, only)[p]) {
      GatheredPath(tip, only, seen, byPath, content, p);
    }
    hide *;
    assert files.Keys == Code(tip, only).Keys;
  }

  lemma GatheredPath(tip: Tip, only: Option<set<Name>>, seen: set<Address>, byPath: map<Name, Fold.LiveSet>,
                     content: set<Name>, p: Name)
    requires Gathered(tip, only, seen, byPath, content) && forall a :: a in seen <==> a in tip
    ensures p in byPath && p in content <==> Wanted(only, p) && Materializes(LiveIn(tip, p))
    ensures p in byPath && p in content ==> byPath[p] == LiveIn(tip, p)
  {
    if Wanted(only, p) && Materializes(LiveIn(tip, p)) {
      var s :| s in LiveIn(tip, p) && ContentBearing(s);
      assert p in byPath && s in byPath[p];
    }
    hide Materializes;
    if p in byPath && Wanted(only, p) {
      assert forall s :: s in byPath[p] <==> s in LiveIn(tip, p);
      assert byPath[p] == LiveIn(tip, p);
    }
  }

  // ---------------------------------------------------------------------------------------
  // Every path at once.

  /** A repository's history, path by path. */
  datatype Tracked = Tracked(tier: Tier, commits: Commits)

  type Repo = map<Name, Tracked>

  ghost predicate ValidRepo(repo: Repo, n: nat) {
    forall p :: p in repo ==> |repo[p].commits| == n && ValidHistory(repo[p].commits)
  }

  function StateOfPath(repo: Repo, n: nat, p: Name, k: nat): Table
    requires ValidRepo(repo, n) && k <= n && p in repo
  {
    StateAfter(repo[p].tier, repo[p].commits, k)
  }

  /** Every path's replayed state, as one frontier. */
  function TipAfter(repo: Repo, n: nat, k: nat): (r: Tip)
    requires ValidRepo(repo, n) && k <= n
    ensures forall a :: a in r <==> a.path in repo && a.sym in StateOfPath(repo, n, a.path, k)
    ensures forall a :: a in r ==> r[a] == StateOfPath(repo, n, a.path, k)[a.sym]
  {
    var all := set p, s | p in repo && s in StateOfPath(repo, n, p, k) :: At(p, s);
    assert forall a :: a in all <==> a.path in repo && a.sym in StateOfPath(repo, n, a.path, k) by {
      forall a: Address | a.path in repo && a.sym in StateOfPath(repo, n, a.path, k)
        ensures a in all
      {
        assert a == At(a.path, a.sym);
      }
    }
    map a | a in all :: StateOfPath(repo, n, a.path, k)[a.sym]
  }

  lemma LiveOfPath(repo: Repo, n: nat, k: nat, p: Name)
    requires ValidRepo(repo, n) && k <= n
    ensures p in repo ==> LiveIn(TipAfter(repo, n, k), p) == LiveOf(StateOfPath(repo, n, p, k))
    ensures p !in repo ==> LiveIn(TipAfter(repo, n, k), p) == map[]
  {
    hide StateOfPath;
    var tip := TipAfter(repo, n, k);
    assert p in repo ==> forall s :: At(p, s) in tip <==> s in StateOfPath(repo, n, p, k);
  }

  /** After every commit the folded tree has exactly the tracked files of that commit -- and, as
      empty files, the paths where an empty gap lingers from a flip -- each with its own bytes
      wherever no line hides a swap. */
  lemma TreeRoundTrip(repo: Repo, n: nat, k: nat, p: Name)
    requires ValidRepo(repo, n) && 0 < k <= n && p in repo
    ensures var t, h := repo[p].tier, repo[p].commits;
            var f, code := h[k - 1].file, Code(TipAfter(repo, n, k), None);
            && (p in code <==> RepOf(t, f) != NotTracked || exists a :: Lingers(t, h, k, a))
            && (RepOf(t, f) == WholeFile || (RepOf(t, f) == ByParts && SameLineInOrder(f.ents)) ==> code[p] == f.raw)
            && (RepOf(t, f) == NotTracked && p in code ==> code[p] == [])
  {
    var t, h := repo[p].tier, repo[p].commits;
    CodeAt(repo, n, k, p);
    hide TipAfter, Code, ValidRepo, LiveOf, StateAfter, Materializes, Fold.FoldFile;
    PathRoundTrip(t, h, k);
  }

  lemma CodeAt(repo: Repo, n: nat, k: nat, p: Name)
    requires ValidRepo(repo, n) && 0 < k <= n && p in repo
    ensures var live, code := LiveOf(StateAfter(repo[p].tier, repo[p].commits, k)), Code(TipAfter(repo, n, k), None);
            (p in code <==> Materializes(live)) && (p in code ==> code[p] == Fold.FoldFile(live))
  {
    LiveOfPath(repo, n, k, p);
    hide TipAfter, LiveOf, StateAfter, Materializes, Fold.FoldFile;
  }

  lemma PathRoundTrip(t: Tier, h: Commits, k: nat)
    requires ValidHistory(h) && 0 < k <= |h|
    ensures var f, live := h[k - 1].file, LiveOf(StateAfter(t, h, k));
            && (Materializes(live) <==> RepOf(t, f) != NotTracked || exists a :: Lingers(t, h, k, a))
            && (RepOf(t, f) == WholeFile || (RepOf(t, f) == ByParts && SameLineInOrder(f.ents))
                ==> Fold.FoldFile(live) == f.raw)
            && (RepOf(t, f) == NotTracked ==> Fold.FoldFile(live) == [])
  {
    hide Fold.FoldFile, LiveOf, SameLineInOrder, StateAfter, ValidHistory, Materializes, Lingers;
    var f := h[k - 1].file;
    if RepOf(t, f) == NotTracked {
      DeletedPathMaterializesExactlyWhen(t, h, k);
    } else {
      PresentMaterializes(t, h, k);
      if RepOf(t, f) == WholeFile || SameLineInOrder(f.ents) { RoundTrip(t, h, k - 1); }
    }
  }

  lemma PresentMaterializes(tier: Tier, h: Commits, k: nat)
    requires ValidHistory(h) && 0 < k <= |h| && RepOf(tier, h[k - 1].file) != NotTracked
    ensures Materializes(LiveOf(StateAfter(tier, h, k)))
  {
    hide ValidHistory, StateAfter, LiveOf, TableOf, Chains.Faithful, Chains.Coherent, WellFormed;
    var f, state := h[k - 1].file, StateAfter(tier, h, k);
    StateIsFaithful(tier, h, k - 1);
    TablesAreCoherent(tier, f);
    var s := if RepOf(tier, f) == WholeFile then Whole else Residue(None);
    CarriesContent(tier, f);
    LiveAt(TableOf(tier, f), state, s);
    assert s in LiveOf(state) && ContentBearing(s);
  }

  lemma CarriesContent(tier: Tier, f: Snapshot)
    requires WellFormed(f) && RepOf(tier, f) != NotTracked
    ensures (if RepOf(tier, f) == WholeFile then Whole else Residue(None)) in TableOf(tier, f)
  {
    if RepOf(tier, f) == ByParts {
      PartsTable(tier, f, Residue(None));
      hide *;
      HeadIsKeyed(f.raw, InBytes(f.ents));
      GapIsKept(TableOf(tier, f), EntTable(f.raw, f.ents), Segments(f.raw, InBytes(f.ents)),
                AnchorFacts(InLines(f.ents)), None);
    }
  }

  lemma GapIsKept(t: Table, ents: Table, segments: map<Option<Name>, Bytes>, facts: Layout.Facts, a: Option<Name>)
    requires MadeOf(t, ents, segments, facts, Residue(a)) && a in segments
    ensures Residue(a) in t
  {
  }

  lemma HeadIsKeyed(raw: Bytes, doc: seq<Ent>)
    requires LaidOut(raw, doc)
    ensures None in Segments(raw, doc)
  {
    SegmentKeys(raw, doc, |doc|);
  }
}
