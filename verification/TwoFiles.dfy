/** Two opaque files written by one commit, in one store. */
module TwoFiles {
  import opened Names
  import opened Symbols
  import opened Snapshots
  import opened History
  import opened MinedOps
  import opened Materialize
  import opened TreeReadBack
  import opened TreeOps
  import opened Returns

  /** What one commit writes at two paths. */
  function Pair(a: Name, b: Name, x: Bytes, y: Bytes): Repo {
    map[a := Tracked(OpaqueTier, Contents([x])), b := Tracked(OpaqueTier, Contents([y]))]
  }

  lemma PairIsValid(a: Name, b: Name, x: Bytes, y: Bytes)
    requires a != b
    ensures var repo := Pair(a, b, x, y);
            && ValidRepo(repo, 1) && repo.Keys == {a, b}
            && repo[a].tier.OpaqueTier? && repo[b].tier.OpaqueTier?
            && repo[a].commits == Contents([x]) && repo[b].commits == Contents([y])
  {
    ContentsAreValid([x]);
    ContentsAreValid([y]);
    hide ValidHistory, Contents;
  }

  lemma WrittenOnce(x: Bytes)
    ensures Follow(AllHops(Line([x]), Whole), None, {}) == Some(Blob(x))
  {
    var hops := AllHops(Line([x]), Whole);
    hide *;
    OneContent(x);
    forall p ensures p in hops <==> p == Hop(None, Blob(x)) { LineHops([x], p); FirstOnly(x, p); }
    OneWayIs(hops, Blob(x));
    Follows(hops, None, Blob(x), {});
    FollowEnds(hops, Some(Blob(x)), {} + {None});
  }

  lemma OneContent(x: Bytes)
    ensures |[x]| == 1 && Was([x], 0) == None
  {
  }

  lemma FirstOnly(x: Bytes, p: Hop)
    ensures (exists k :: 0 <= k < |[x]| && p == Hop(Was([x], k), Blob([x][k]))) <==> p == Hop(None, Blob(x))
  {
    if p == Hop(None, Blob(x)) { assert p == Hop(Was([x], 0), Blob([x][0])); }
  }

  lemma OneWayIs(hops: set<Hop>, v: Version)
    requires forall p :: p in hops <==> p == Hop(None, v)
    ensures OnlyWay(hops, None, v) && forall w :: !OnlyWay(hops, Some(v), w)
  {
  }

  /** However alike the two files are to the miner -- one symbol, one commit, even the same bytes -- the store holds
      both, and reads both back. */
  lemma BothReadBack(a: Name, b: Name, x: Bytes, y: Bytes)
    requires a != b
    ensures var repo := Pair(a, b, x, y);
            && ValidRepo(repo, 1) && AreTreeCuts(repo, 1, TreeSingles(repo, 1))
            && var ts := Union(repo, 1, TreeSingles(repo, 1));
               HoldsTree(ts, repo, 1) && Code(FrontierTip(ts, repo, 1), None) == map[a := x, b := y]
  {
    hide *;
    var repo := Pair(a, b, x, y);
    PairIsValid(a, b, x, y);
    SinglesAreTreeCuts(repo, 1);
    var cuts := TreeSingles(repo, 1);
    UnionHoldsTree(repo, 1, cuts);
    var code := Code(FrontierTip(Union(repo, 1, cuts), repo, 1), None);
    OneReadsBack(repo, 1, a, x);
    OneReadsBack(repo, 1, b, y);
    forall p ensures p in code ==> p == a || p == b { TreeIsItsPaths(repo, 1, cuts, p); }
    TwoIn(code, a, b, x, y);
  }

  lemma OneReadsBack(repo: Repo, n: nat, p: Name, x: Bytes)
    requires ValidRepo(repo, n) && p in repo && repo[p].tier.OpaqueTier? && repo[p].commits == Contents([x])
    ensures AreTreeCuts(repo, n, TreeSingles(repo, n))
    ensures var ts := Union(repo, n, TreeSingles(repo, n));
            && HoldsTree(ts, repo, n)
            && var code := Code(FrontierTip(ts, repo, n), None);
               p in code && code[p] == x
  {
    hide *;
    SinglesAreTreeCuts(repo, n);
    OpaqueInTree(repo, n, TreeSingles(repo, n), p);
    OpaqueLine(repo, n, p);
    LineIs([x]);
    WrittenOnce(x);
    BlobIsLeft(x);
  }

  lemma TwoIn(code: map<Name, Bytes>, a: Name, b: Name, x: Bytes, y: Bytes)
    requires a != b && forall p :: p in code ==> p == a || p == b
    requires a in code && code[a] == x && b in code && code[b] == y
    ensures code == map[a := x, b := y]
  {
    assert code.Keys == {a, b};
  }
}
