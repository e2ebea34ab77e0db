/** Bodies split into several, and several merged into one (`sgt/core/identity.py`,
    `detect_splits_merges`): what one-to-one matching left over, grouped within a file by how much of
    their tokens they share.

    A split and a merge are one relation read two ways: a whole, and parts mostly made of it that
    together mostly make it up. */
module Reshapes {
  import opened Names
  import opened Identity
  import Priority

  datatype Reshape = Reshape(whole: Snap, parts: seq<Snap>)

  /** The fraction of `inner` found in `outer`. */
  function Contains(inner: set<string>, outer: set<string>): real {
    if inner == {} then 0.0 else |inner * outer| as real / |inner| as real
  }

  predicate Mostly(inner: set<string>, outer: set<string>) {
    Contains(inner, outer) >= 0.6
  }

  /** At least three in five of the tokens, of which there are some. */
  lemma MostlyExactlyWhen(inner: set<string>, outer: set<string>)
    ensures Mostly(inner, outer) <==> inner != {} && 5 * |inner * outer| >= 3 * |inner|
  {
    if inner != {} { Priority.Quotient(|inner * outer|, |inner|, 0.6); }
  }

  function Tokens(parts: seq<Snap>): (r: set<string>)
    ensures forall p :: p in parts ==> p.tokens <= r
  {
    if parts == [] then {}
    else
      assert parts == parts[..|parts| - 1] + [parts[|parts| - 1]];
      Tokens(parts[..|parts| - 1]) + parts[|parts| - 1].tokens
  }

  predicate IsPart(whole: Snap, used: set<Name>, p: Snap) {
    p.file == whole.file && p.id !in used && p.tokens != {} && Mostly(p.tokens, whole.tokens)
  }

  /** The unused parts of a whole, in order. */
  function PartsOf(whole: Snap, used: set<Name>, from: seq<Snap>): (r: seq<Snap>)
    ensures forall p :: p in r <==> p in from && IsPart(whole, used, p)
  {
    if from == [] then []
    else
      var init, p := PartsOf(whole, used, from[..|from| - 1]), from[|from| - 1];
      assert from == from[..|from| - 1] + [p];
      if IsPart(whole, used, p) then init + [p] else init
  }

  /** At least two, and together most of the whole. */
  predicate Covers(whole: Snap, parts: seq<Snap>) {
    |parts| >= 2 && Mostly(whole.tokens, Tokens(parts))
  }

  /** What is consumed so far. */
  datatype Used = Used(wholes: set<Name>, parts: set<Name>)

  predicate Reshapes(from: seq<Snap>, used: Used, whole: Snap) {
    whole.id !in used.wholes && whole.tokens != {} && Covers(whole, PartsOf(whole, used.parts, from))
  }

  function PartIds(parts: seq<Snap>): (r: set<Name>)
    ensures forall id :: id in r <==> exists p :: p in parts && p.id == id
  {
    set p | p in parts :: p.id
  }

  // ---------------------------------------------------------------------------------------
  // Using things up only makes fewer reshapes possible.

  lemma DivisionGrows(x: nat, y: nat, n: nat)
    requires x <= y && n > 0
    ensures x as real / n as real <= y as real / n as real
  {
  }

  lemma ContainsGrows(inner: set<string>, a: set<string>, b: set<string>)
    requires a <= b
    ensures Contains(inner, a) <= Contains(inner, b)
  {
    if inner != {} {
      SubsetSize(inner * a, inner * b);
      DivisionGrows(|inner * a|, |inner * b|, |inner|);
    }
  }

  lemma {:induction false} FewerParts(whole: Snap, used: set<Name>, more: set<Name>, from: seq<Snap>)
    requires used <= more
    ensures |PartsOf(whole, more, from)| <= |PartsOf(whole, used, from)|
    ensures Tokens(PartsOf(whole, more, from)) <= Tokens(PartsOf(whole, used, from))
  {
    hide Mostly;
    if from != [] {
      var n := |from| - 1;
      FewerParts(whole, used, more, from[..n]);
      var a, b := PartsOf(whole, more, from[..n]), PartsOf(whole, used, from[..n]);
      assert (a + [from[n]])[..|a|] == a && (b + [from[n]])[..|b|] == b;
    }
  }

  lemma StaysImpossible(from: seq<Snap>, used: Used, more: Used, whole: Snap)
    requires used.wholes <= more.wholes && used.parts <= more.parts && !Reshapes(from, used, whole)
    ensures !Reshapes(from, more, whole)
  {
    FewerParts(whole, used.parts, more.parts, from);
    ContainsGrows(whole.tokens, Tokens(PartsOf(whole, more.parts, from)), Tokens(PartsOf(whole, used.parts, from)));
    hide Contains, Tokens, PartsOf;
  }

  // ---------------------------------------------------------------------------------------
  // What a list of reshapes is.

  /** Same file, each part mostly of the whole, the whole mostly of the parts. */
  ghost predicate IsReshape(wholes: seq<Snap>, parts: seq<Snap>, r: Reshape) {
    && r.whole in wholes && Covers(r.whole, r.parts)
    && forall p :: p in r.parts ==> p in parts && p.file == r.whole.file && Mostly(p.tokens, r.whole.tokens)
  }

  /** `r` is consumed, and nothing of it was before. */
  ghost predicate Consumes(before: Used, r: Reshape, after: Used) {
    && r.whole.id !in before.wholes && PartIds(r.parts) !! before.parts
    && after == Used(before.wholes + {r.whole.id}, before.parts + PartIds(r.parts))
  }

  /** The reshapes in turn, each consuming what none before it had. */
  ghost predicate Chain(start: Used, rs: seq<Reshape>, end: Used)
    decreases |rs|
  {
    if rs == [] then start == end
    else
      var init, last := rs[..|rs| - 1], rs[|rs| - 1];
      exists mid :: Chain(start, init, mid) && Consumes(mid, last, end)
  }

  lemma {:induction false} ChainGrows(start: Used, rs: seq<Reshape>, end: Used)
    requires Chain(start, rs, end)
    ensures start.wholes <= end.wholes && start.parts <= end.parts
    ensures forall r :: r in rs ==> r.whole.id in end.wholes && r.whole.id !in start.wholes
                                    && PartIds(r.parts) <= end.parts && PartIds(r.parts) !! start.parts
    decreases |rs|
  {
    if rs != [] {
      var init, last := rs[..|rs| - 1], rs[|rs| - 1];
      assert rs == init + [last];
      var mid :| Chain(start, init, mid) && Consumes(mid, last, end);
      ChainGrows(start, init, mid);
    }
  }

  /** No entity is consumed twice. */
  lemma {:induction false} ConsumedOnce(start: Used, rs: seq<Reshape>, end: Used, i: nat, j: nat)
    requires Chain(start, rs, end) && i < j < |rs|
    ensures rs[i].whole.id != rs[j].whole.id && PartIds(rs[i].parts) !! PartIds(rs[j].parts)
    decreases |rs|
  {
    var init, last := rs[..|rs| - 1], rs[|rs| - 1];
    var mid :| Chain(start, init, mid) && Consumes(mid, last, end);
    if j < |rs| - 1 {
      ConsumedOnce(start, init, mid, i, j);
    } else {
      ChainGrows(start, init, mid);
      assert rs[i] == init[i] && init[i] in init;
    }
  }

  ghost predicate Settled(wholes: seq<Snap>, parts: seq<Snap>, used: Used) {
    forall w :: w in wholes ==> !Reshapes(parts, used, w)
  }

  // ---------------------------------------------------------------------------------------
  // The loops.

  function Files(side: seq<Snap>): (r: seq<string>)
    ensures forall f :: f in r <==> exists s :: s in side && s.file == f
  {
    if side == [] then []
    else
      var init, s := Files(side[..|side| - 1]), side[|side| - 1];
      assert side == side[..|side| - 1] + [s];
      if s.file in init then init else init + [s.file]
  }

  function InFile(side: seq<Snap>, f: string): (r: seq<Snap>)
    ensures forall s :: s in r <==> s in side && s.file == f
  {
    if side == [] then []
    else
      var init, s := InFile(side[..|side| - 1], f), side[|side| - 1];
      assert side == side[..|side| - 1] + [s];
      if s.file == f then init + [s] else init
  }

  lemma {:induction false} PartsInFile(whole: Snap, used: set<Name>, from: seq<Snap>)
    ensures PartsOf(whole, used, InFile(from, whole.file)) == PartsOf(whole, used, from)
  {
    hide Mostly;
    if from != [] {
      var n := |from| - 1;
      PartsInFile(whole, used, from[..n]);
      var init := InFile(from[..n], whole.file);
      assert (init + [from[n]])[..|init|] == init;
    }
  }

  /** One whole. */
  method DetectOne(wholes: seq<Snap>, parts: seq<Snap>, inFile: seq<Snap>, w: Snap, ghost start: Used,
                   rs0: seq<Reshape>, used0: Used)
    returns (rs: seq<Reshape>, used: Used)
    requires w in wholes && inFile == InFile(parts, w.file) && Chain(start, rs0, used0)
             && forall r :: r in rs0 ==> IsReshape(wholes, parts, r)
    ensures Chain(start, rs, used) && forall r :: r in rs ==> IsReshape(wholes, parts, r)
    ensures used0.wholes <= used.wholes && used0.parts <= used.parts && !Reshapes(parts, used, w)
  {
    rs, used := rs0, used0;
    hide Chain, Tokens, Mostly, Files;
    if w.id in used.wholes || w.tokens == {} { return; }
    var kids := PartsOf(w, used.parts, inFile);
    PartsInFile(w, used.parts, parts);
    if Covers(w, kids) {
      var r := Reshape(w, kids);
      var after := Used(used.wholes + {w.id}, used.parts + PartIds(kids));
      assert Consumes(used, r, after);
      assert IsReshape(wholes, parts, r);
      ChainMore(start, rs, used, r, after);
      rs, used := rs + [r], after;
    }
  }

  lemma ChainMore(start: Used, rs: seq<Reshape>, mid: Used, r: Reshape, end: Used)
    requires Chain(start, rs, mid) && Consumes(mid, r, end)
    ensures Chain(start, rs + [r], end)
  {
    var all := rs + [r];
    assert all[..|all| - 1] == rs && all[|all| - 1] == r;
    assert Chain(start, all[..|all| - 1], mid) && Consumes(mid, all[|all| - 1], end);
  }

  /** Every whole of one file. */
  method DetectInFile(wholes: seq<Snap>, parts: seq<Snap>, f: string, ghost start: Used, rs0: seq<Reshape>, used0: Used)
    returns (rs: seq<Reshape>, used: Used)
    requires Chain(start, rs0, used0) && forall r :: r in rs0 ==> IsReshape(wholes, parts, r)
    ensures Chain(start, rs, used) && forall r :: r in rs ==> IsReshape(wholes, parts, r)
    ensures used0.wholes <= used.wholes && used0.parts <= used.parts
    ensures forall w :: w in wholes && w.file == f ==> !Reshapes(parts, used, w)
  {
    rs, used := rs0, used0;
    var mine, inFile := InFile(wholes, f), InFile(parts, f);
    hide Chain, IsReshape, Reshapes;
    for i := 0 to |mine|
      invariant Chain(start, rs, used) && forall r :: r in rs ==> IsReshape(wholes, parts, r)
      invariant used0.wholes <= used.wholes && used0.parts <= used.parts
      invariant forall k :: 0 <= k < i ==> !Reshapes(parts, used, mine[k])
    {
      assert mine[i] in mine;
      ghost var was := used;
      rs, used := DetectOne(wholes, parts, inFile, mine[i], start, rs, used);
      forall k | 0 <= k < i ensures !Reshapes(parts, used, mine[k]) { StaysImpossible(parts, was, used, mine[k]); }
    }
  }

  /** Every file, in the order the wholes first name them. */
  method Detect(wholes: seq<Snap>, parts: seq<Snap>, start: Used) returns (rs: seq<Reshape>, used: Used)
    ensures Chain(start, rs, used) && forall r :: r in rs ==> IsReshape(wholes, parts, r)
    ensures start.wholes <= used.wholes && start.parts <= used.parts
    ensures Settled(wholes, parts, used)
  {
    rs, used := [], start;
    var files := Files(wholes);
    hide Chain, IsReshape, Reshapes;
    ChainNothing(start);
    for i := 0 to |files|
      invariant Chain(start, rs, used) && forall r :: r in rs ==> IsReshape(wholes, parts, r)
      invariant start.wholes <= used.wholes && start.parts <= used.parts
      invariant forall w :: w in wholes && w.file in files[..i] ==> !Reshapes(parts, used, w)
    {
      ghost var was := used;
      rs, used := DetectInFile(wholes, parts, files[i], start, rs, used);
      assert files[..i + 1] == files[..i] + [files[i]];
      forall w | w in wholes && w.file in files[..i]
        ensures !Reshapes(parts, used, w)
      {
        StaysImpossible(parts, was, used, w);
      }
    }
    assert files[..|files|] == files;
  }

  lemma ChainNothing(start: Used)
    ensures Chain(start, [], start)
  {
  }

  function Flipped(used: Used): Used {
    Used(used.parts, used.wholes)
  }

  /** `detect_splits_merges`: splits first, then merges of what they left.  Nothing is consumed twice, and
      when it ends no leftover removal could still be split nor leftover addition still be merged into. */
  method DetectSplitsMerges(removed: seq<Snap>, added: seq<Snap>)
    returns (splits: seq<Reshape>, merges: seq<Reshape>, used: Used, ghost between: Used)
    ensures Chain(Used({}, {}), splits, between) && Chain(Flipped(between), merges, Flipped(used))
    ensures forall r :: r in splits ==> IsReshape(removed, added, r)
    ensures forall r :: r in merges ==> IsReshape(added, removed, r)
    ensures Settled(removed, added, used) && Settled(added, removed, Flipped(used))
  {
    var mid, end;
    hide Chain, IsReshape, Reshapes;
    splits, mid := Detect(removed, added, Used({}, {}));
    merges, end := Detect(added, removed, Flipped(mid));
    used := Flipped(end);
    between := mid;
    assert Flipped(used) == end;
    forall w | w in removed ensures !Reshapes(added, used, w) { StaysImpossible(added, mid, used, w); }
  }
}
