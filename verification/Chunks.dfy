/** From touches to ops, and mining in chunks (`sgt/core/mine.py`, `mine` and `_build_ops`).

    A run resolves names by the renames its own commits made, all of them, before it builds any op.  So a
    history mined in chunks may file an op under another name than a single run would; the theorems say
    exactly when it does not. */
module Chunks {
  import opened Names
  import opened Symbols
  import opened BuildMap
  import opened UnionFind

  /** A commit's group of connected touches, named by its smallest member. */
  datatype Bucket = Bucket(sha: Name, anchor: Name)

  datatype Need = Need(id: Name, version: OpVersion)

  datatype MinedTouch = MinedTouch(
    id: Name, before: Option<OpVersion>, after: OpVersion, image: Option<Bytes>, needs: set<Need>,
    viaMove: bool, pending: bool, derived: bool, bucket: Bucket)

  datatype OpKind = Move | Prune | Add | Extend | Rework

  datatype MinedOp = MinedOp(
    footprint: map<Name, Change>, images: map<Name, Option<Bytes>>, needs: set<Need>, kind: OpKind,
    provenance: Option<Name>, derived: bool)

  /** Which name a surface id resolves to once every rename is known. */
  type Resolver = Name -> Name

  predicate IsRemoval(v: OpVersion) {
    !v.Hash?
  }

  // ---------------------------------------------------------------------------------------
  // One bucket, one op.

  function Footprint(group: seq<MinedTouch>, canon: Resolver): map<Name, Change> {
    if group == [] then map[]
    else
      var t := group[|group| - 1];
      Footprint(group[..|group| - 1], canon)[canon(t.id) := Change(t.before, t.after)]
  }

  function Images(group: seq<MinedTouch>, canon: Resolver): map<Name, Option<Bytes>> {
    if group == [] then map[]
    else
      var t := group[|group| - 1];
      Images(group[..|group| - 1], canon)[canon(t.id) := t.image]
  }

  function Needs(group: seq<MinedTouch>, canon: Resolver): set<Need> {
    if group == [] then {}
    else
      var t := group[|group| - 1];
      Needs(group[..|group| - 1], canon) + Resolved(t.needs, canon)
  }

  function Resolved(needs: set<Need>, canon: Resolver): set<Need> {
    set n | n in needs :: Need(canon(n.id), n.version)
  }

  /** What is seen on the way through a group. */
  datatype Flags = Flags(added: bool, removed: bool, moved: bool, derived: bool, pending: bool, allAdded: bool,
                         allRemoved: bool)

  function Noted(f: Flags, t: MinedTouch): Flags {
    Flags(f.added || t.before.None?, f.removed || IsRemoval(t.after), f.moved || t.viaMove, f.derived
          || t.derived, f.pending || t.pending,
          f.allAdded && t.before.None?, f.allRemoved && IsRemoval(t.after))
  }

  function FlagsOf(group: seq<MinedTouch>): Flags {
    if group == [] then Flags(false, false, false, false, false, true, true)
    else Noted(FlagsOf(group[..|group| - 1]), group[|group| - 1])
  }

  lemma {:induction false} FlagsMean(group: seq<MinedTouch>)
    ensures var f := FlagsOf(group);
            && (f.added <==> exists t :: t in group && t.before.None?)
            && (f.removed <==> exists t :: t in group && IsRemoval(t.after))
            && (f.allAdded <==> forall t :: t in group ==> t.before.None?)
            && (f.allRemoved <==> forall t :: t in group ==> IsRemoval(t.after))
  {
    if group != [] {
      var init, last := group[..|group| - 1], group[|group| - 1];
      assert group == init + [last];
      FlagsMean(init);
      hide IsRemoval;
    }
  }

  lemma {:induction false} MarksMean(group: seq<MinedTouch>)
    ensures var f := FlagsOf(group);
            && (f.moved <==> exists t :: t in group && t.viaMove)
            && (f.derived <==> exists t :: t in group && t.derived)
            && (f.pending <==> exists t :: t in group && t.pending)
  {
    if group != [] {
      var init, last := group[..|group| - 1], group[|group| - 1];
      assert group == init + [last];
      MarksMean(init);
      hide IsRemoval;
    }
  }

  function KindOf(f: Flags): OpKind {
    if f.moved && !f.added && !f.removed then Move
    else if f.removed && f.allRemoved then Prune
    else if f.added && f.allAdded then Add
    else if f.added then Extend
    else Rework
  }

  /** What a group is called: a move when something moved and nothing appeared or went away; else a prune when all
      went away, an add when all appeared, an extend when some did, and a rework when none did. */
  lemma KindsMean(group: seq<MinedTouch>)
    ensures KindOf(FlagsOf(group)) == Prune <==> group != [] && forall t :: t in group ==> IsRemoval(t.after)
    ensures KindOf(FlagsOf(group)) == Add <==> group != [] && (forall t :: t in group ==> t.before.None?)
                                               && exists t :: t in group && !IsRemoval(t.after)
    ensures KindOf(FlagsOf(group)) == Move <==> (exists t :: t in group && t.viaMove)
                                                && forall t :: t in group ==> t.before.Some? && !IsRemoval(t.after)
    ensures KindOf(FlagsOf(group)) == Extend <==> (exists t :: t in group && t.before.None?)
                                                  && (exists t :: t in group && t.before.Some?)
                                                  && exists t :: t in group && !IsRemoval(t.after)
    ensures KindOf(FlagsOf(group)) == Rework <==>
            && (forall t :: t in group ==> t.before.Some?)
            && (group == [] || exists t :: t in group && !IsRemoval(t.after))
            && ((exists t :: t in group && t.viaMove) ==> exists t :: t in group && IsRemoval(t.after))
  {
    FlagsMean(group);
    MarksMean(group);
    hide IsRemoval, FlagsOf;
    if group != [] { assert group[0] in group; }
  }

  function OpOf(b: Bucket, group: seq<MinedTouch>, canon: Resolver): MinedOp {
    var footprint, f := Footprint(group, canon), FlagsOf(group);
    MinedOp(footprint, Images(group, canon), Outside(Needs(group, canon), footprint), KindOf(f),
            if f.pending then None else Some(b.sha), f.derived)
  }

  /** An op never needs itself. */
  function Outside(needs: set<Need>, footprint: map<Name, Change>): set<Need> {
    set n | n in needs && n.id !in footprint
  }

  // ---------------------------------------------------------------------------------------
  // All buckets, in order of first appearance.

  function Group(touches: seq<MinedTouch>, b: Bucket): (r: seq<MinedTouch>)
    ensures forall t :: t in r <==> t in touches && t.bucket == b
  {
    if touches == [] then []
    else
      var init, t := touches[..|touches| - 1], touches[|touches| - 1];
      assert touches == init + [t];
      if t.bucket == b then Group(init, b) + [t] else Group(init, b)
  }

  function Buckets(touches: seq<MinedTouch>): (r: seq<Bucket>)
    ensures forall b :: b in r <==> exists t :: t in touches && t.bucket == b
    ensures Distinct(r)
  {
    if touches == [] then []
    else
      var init, t := touches[..|touches| - 1], touches[|touches| - 1];
      assert touches == init + [t];
      if t.bucket in Buckets(init) then Buckets(init) else Buckets(init) + [t.bucket]
  }

  /** The `k`-th bucket is first named by touch `i`. */
  ghost predicate FirstNamedAt(touches: seq<MinedTouch>, order: seq<Bucket>, k: nat, i: nat)
    requires k < |order|
  {
    i < |touches| && touches[i].bucket == order[k] && forall j :: 0 <= j < i ==> touches[j].bucket in order[..k]
  }

  /** Buckets come in the order the touches first name them. */
  lemma {:induction false} BucketFirstSeen(touches: seq<MinedTouch>, k: nat)
    requires k < |Buckets(touches)|
    ensures exists i :: FirstNamedAt(touches, Buckets(touches), k, i)
  {
    hide *;
    NoneWithout(touches);
    var init, t := touches[..|touches| - 1], touches[|touches| - 1];
    assert touches == init + [t];
    BucketsMore(init, t);
    var r := Buckets(init);
    if k < |r| {
      BucketFirstSeen(init, k);
      var i :| FirstNamedAt(init, r, k, i);
      NamedEarlier(init, t, r, Buckets(touches), k, i);
    } else {
      NamedLast(init, t, r, Buckets(touches));
    }
  }

  lemma NoneWithout(touches: seq<MinedTouch>)
    ensures Buckets(touches) != [] ==> touches != []
  {
  }

  lemma NamedEarlier(init: seq<MinedTouch>, t: MinedTouch, r: seq<Bucket>, more: seq<Bucket>, k: nat, i: nat)
    requires k < |r| && (more == r || more == r + [t.bucket]) && FirstNamedAt(init, r, k, i)
    ensures FirstNamedAt(init + [t], more, k, i)
  {
    assert more[..k] == r[..k];
  }

  lemma NamedLast(init: seq<MinedTouch>, t: MinedTouch, r: seq<Bucket>, more: seq<Bucket>)
    requires more == r + [t.bucket] && r == Buckets(init)
    ensures FirstNamedAt(init + [t], more, |r|, |init|)
  {
    hide Buckets;
    assert more[..|r|] == r;
    assert forall j :: 0 <= j < |init| ==> init[j] in init;
  }

  function OpsFor(buckets: seq<Bucket>, touches: seq<MinedTouch>, canon: Resolver): (r: seq<MinedOp>)
    ensures |r| == |buckets| && forall i :: 0 <= i < |r| ==> r[i] == OpOf(buckets[i], Group(touches, buckets[i]), canon)
  {
    seq(|buckets|, i requires 0 <= i < |buckets| => OpOf(buckets[i], Group(touches, buckets[i]), canon))
  }

  /** `_build_ops`. */
  function OpsOf(touches: seq<MinedTouch>, canon: Resolver): seq<MinedOp> {
    OpsFor(Buckets(touches), touches, canon)
  }

  lemma {:induction false} GroupSplits(a: seq<MinedTouch>, c: seq<MinedTouch>, b: Bucket)
    ensures Group(a + c, b) == Group(a, b) + Group(c, b)
    decreases |c|
  {
    if c == [] {
      assert a + c == a;
    } else {
      var init, t := c[..|c| - 1], c[|c| - 1];
      assert (a + c)[..|a + c| - 1] == a + init && (a + c)[|a + c| - 1] == t;
      GroupSplits(a, init, b);
    }
  }

  ghost predicate Apart(a: seq<MinedTouch>, c: seq<MinedTouch>) {
    forall s, t :: s in a && t in c ==> s.bucket != t.bucket
  }

  lemma {:induction false} BucketsSplit(a: seq<MinedTouch>, c: seq<MinedTouch>)
    requires Apart(a, c)
    ensures Buckets(a + c) == Buckets(a) + Buckets(c)
    decreases |c|
  {
    if c == [] {
      assert a + c == a;
    } else {
      var init, t := c[..|c| - 1], c[|c| - 1];
      assert c == init + [t] && a + c == a + init + [t];
      assert t.bucket !in Buckets(a);
      assert Apart(a, init);
      BucketsMore(a + init, t);
      BucketsMore(init, t);
      hide Buckets, Apart;
      BucketsSplit(a, init);
      Associates(Buckets(a), Buckets(init), [t.bucket]);
    }
  }

  lemma BucketsMore(touches: seq<MinedTouch>, t: MinedTouch)
    ensures Buckets(touches + [t]) == if t.bucket in Buckets(touches) then Buckets(touches)
                                      else Buckets(touches) + [t.bucket]
  {
    assert (touches + [t])[..|touches|] == touches;
  }

  lemma NotHere(a: seq<MinedTouch>, b: Bucket)
    requires b !in Buckets(a)
    ensures Group(a, b) == []
  {
    if Group(a, b) != [] {
      assert Group(a, b)[0] in Group(a, b);
    }
  }

  lemma OpAt(touches: seq<MinedTouch>, canon: Resolver, i: nat)
    requires i < |Buckets(touches)|
    ensures |OpsOf(touches, canon)| == |Buckets(touches)|
            && OpsOf(touches, canon)[i] == OpOf(Buckets(touches)[i], Group(touches, Buckets(touches)[i]), canon)
  {
    hide OpOf, Buckets, Group;
  }

  lemma OpsLength(touches: seq<MinedTouch>, canon: Resolver)
    ensures |OpsOf(touches, canon)| == |Buckets(touches)|
  {
    hide OpOf, Buckets, Group;
  }

  lemma SameOp(a: seq<MinedTouch>, c: seq<MinedTouch>, canon: Resolver, i: nat)
    requires Apart(a, c) && Buckets(a + c) == Buckets(a) + Buckets(c) && i < |Buckets(a + c)|
    ensures |OpsOf(a + c, canon)| == |Buckets(a + c)| && |OpsOf(a, canon)| == |Buckets(a)|
            && |OpsOf(c, canon)| == |Buckets(c)|
    ensures OpsOf(a + c, canon)[i] == if i < |Buckets(a)| then OpsOf(a, canon)[i] else OpsOf(c, canon)[i - |Buckets(a)|]
  {
    hide OpOf, Buckets, Group, Apart, OpsFor;
    SameGroup(a, c, i);
    OpAt(a + c, canon, i);
    if i < |Buckets(a)| { OpAt(a, canon, i); } else { OpAt(c, canon, i - |Buckets(a)|); }
  }

  /** Touches of different buckets make their ops separately. */
  lemma OpsSplit(a: seq<MinedTouch>, c: seq<MinedTouch>, canon: Resolver)
    requires Apart(a, c)
    ensures OpsOf(a + c, canon) == OpsOf(a, canon) + OpsOf(c, canon)
  {
    hide *;
    BucketsSplit(a, c);
    OpsLength(a + c, canon);
    OpsLength(a, canon);
    OpsLength(c, canon);
    var l, r := OpsOf(a + c, canon), OpsOf(a, canon) + OpsOf(c, canon);
    forall i | 0 <= i < |l| ensures l[i] == r[i] {
      SameOp(a, c, canon, i);
    }
  }

  lemma SameGroup(a: seq<MinedTouch>, c: seq<MinedTouch>, i: nat)
    requires Apart(a, c) && Buckets(a + c) == Buckets(a) + Buckets(c) && i < |Buckets(a + c)|
    ensures var b := Buckets(a + c)[i]; Group(a + c, b) == if i < |Buckets(a)| then Group(a, b) else Group(c, b)
  {
    var b := Buckets(a + c)[i];
    GroupSplits(a, c, b);
    hide Group;
    if i < |Buckets(a)| {
      assert b in Buckets(a);
      OtherSide(a, c, b);
    } else {
      assert b == Buckets(c)[i - |Buckets(a)|];
      assert b in Buckets(c);
      OtherSide(c, a, b);
    }
  }

  lemma OtherSide(a: seq<MinedTouch>, c: seq<MinedTouch>, b: Bucket)
    requires b in Buckets(a) && (Apart(a, c) || Apart(c, a))
    ensures Group(c, b) == []
  {
    hide Buckets, Group;
    var s :| s in a && s.bucket == b;
    assert forall t :: t in c ==> t.bucket != b;
    NotHere(c, b);
  }

  // ---------------------------------------------------------------------------------------
  // What an op says of its bucket's touches.

  ghost predicate IsIn(touches: seq<MinedTouch>, b: Bucket, t: MinedTouch) {
    t in touches && t.bucket == b
  }

  /** No later touch of the bucket is of the same resolved name. */
  ghost predicate LastOfName(touches: seq<MinedTouch>, b: Bucket, canon: Resolver, i: nat)
    requires i < |touches|
  {
    && touches[i].bucket == b
    && forall j :: i < j < |touches| && touches[j].bucket == b ==> canon(touches[j].id) != canon(touches[i].id)
  }

  lemma {:induction false} LastWins(touches: seq<MinedTouch>, b: Bucket, canon: Resolver, i: nat)
    requires i < |touches| && LastOfName(touches, b, canon, i)
    ensures Shows(Group(touches, b), canon, touches[i])
  {
    hide *;
    var n := |touches| - 1;
    var init, last := touches[..n], touches[n];
    assert touches == init + [last];
    GroupWith(init, last, b);
    LastStays(init, last, b, canon, i);
    if i == n {
      ShowsLast(Group(init, b), last, canon);
    } else {
      LastWins(init, b, canon, i);
      if last.bucket == b { ShowsStill(Group(init, b), last, canon, init[i]); }
    }
  }

  lemma LastStays(init: seq<MinedTouch>, last: MinedTouch, b: Bucket, canon: Resolver, i: nat)
    requires i <= |init| && LastOfName(init + [last], b, canon, i)
    ensures i == |init| ==> last.bucket == b
    ensures i < |init| ==> LastOfName(init, b, canon, i)
    ensures i < |init| && last.bucket == b ==> canon(last.id) != canon(init[i].id)
  {
    var all := init + [last];
    assert all[|init|] == last;
    assert forall j :: 0 <= j < |init| ==> all[j] == init[j];
  }

  /** What the group's op has under this touch's name is what this touch left. */
  ghost predicate Shows(group: seq<MinedTouch>, canon: Resolver, t: MinedTouch) {
    var n := canon(t.id);
    && n in Footprint(group, canon) && Footprint(group, canon)[n] == Change(t.before, t.after)
    && n in Images(group, canon) && Images(group, canon)[n] == t.image
  }

  lemma ShowsLast(group: seq<MinedTouch>, t: MinedTouch, canon: Resolver)
    ensures Shows(group + [t], canon, t)
  {
    TouchesOn(group, t, canon);
    hide Footprint, Images;
  }

  lemma ShowsStill(group: seq<MinedTouch>, t: MinedTouch, canon: Resolver, s: MinedTouch)
    requires Shows(group, canon, s) && canon(t.id) != canon(s.id)
    ensures Shows(group + [t], canon, s)
  {
    TouchesOn(group, t, canon);
    hide Footprint, Images;
  }

  lemma GroupWith(touches: seq<MinedTouch>, t: MinedTouch, b: Bucket)
    ensures Group(touches + [t], b) == if t.bucket == b then Group(touches, b) + [t] else Group(touches, b)
  {
    assert (touches + [t])[..|touches|] == touches;
  }

  lemma TouchesOn(group: seq<MinedTouch>, t: MinedTouch, canon: Resolver)
    ensures Footprint(group + [t], canon) == Footprint(group, canon)[canon(t.id) := Change(t.before, t.after)]
    ensures Images(group + [t], canon) == Images(group, canon)[canon(t.id) := t.image]
    ensures Needs(group + [t], canon) == Needs(group, canon) + Resolved(t.needs, canon)
  {
    assert (group + [t])[..|group|] == group;
  }

  lemma {:induction false} NamesOf(group: seq<MinedTouch>, canon: Resolver, n: Name)
    ensures n in Footprint(group, canon) <==> exists t :: t in group && canon(t.id) == n
    ensures n in Images(group, canon) <==> exists t :: t in group && canon(t.id) == n
  {
    if group != [] {
      var init, last := group[..|group| - 1], group[|group| - 1];
      assert group == init + [last];
      NamesOf(init, canon, n);
      TouchesOn(init, last, canon);
      hide Footprint, Images;
    }
  }

  lemma {:induction false} NeedsOf(group: seq<MinedTouch>, canon: Resolver, n: Need)
    ensures n in Needs(group, canon) <==>
            exists t, m :: t in group && m in t.needs && n == Need(canon(m.id), m.version)
  {
    if group != [] {
      var init, last := group[..|group| - 1], group[|group| - 1];
      assert group == init + [last];
      NeedsOf(init, canon, n);
      TouchesOn(init, last, canon);
      hide Needs;
    }
  }

  /** An op holds the last touch of each name its bucket resolves to, under that name, and no other name; */
  lemma OpHoldsLast(touches: seq<MinedTouch>, canon: Resolver, k: nat)
    requires k < |Buckets(touches)|
    ensures |OpsOf(touches, canon)| == |Buckets(touches)|
    ensures var b, o := Buckets(touches)[k], OpsOf(touches, canon)[k];
            && (forall n :: n in o.footprint <==> exists t :: IsIn(touches, b, t) && canon(t.id) == n)
            && (forall n :: n in o.images <==> n in o.footprint)
            && forall i :: 0 <= i < |touches| && LastOfName(touches, b, canon, i) ==>
                 var n := canon(touches[i].id);
                 && n in o.footprint && o.footprint[n] == Change(touches[i].before, touches[i].after)
                 && n in o.images && o.images[n] == touches[i].image
  {
    OpAt(touches, canon, k);
    var b := Buckets(touches)[k];
    var g := Group(touches, b);
    hide Buckets, Group, Footprint, Images, Needs, OpsOf, FlagsOf, KindOf, LastOfName, Shows, Outside;
    forall n
      ensures n in Footprint(g, canon) <==> exists t :: IsIn(touches, b, t) && canon(t.id) == n
      ensures n in Images(g, canon) <==> n in Footprint(g, canon)
    {
      NamesOf(g, canon, n);
    }
    forall i | 0 <= i < |touches| && LastOfName(touches, b, canon, i)
      ensures var n := canon(touches[i].id);
              && n in Footprint(g, canon) && Footprint(g, canon)[n] == Change(touches[i].before, touches[i].after)
              && n in Images(g, canon) && Images(g, canon)[n] == touches[i].image
    {
      LastWins(touches, b, canon, i);
      ShownIs(g, canon, touches[i]);
    }
  }

  lemma ShownIs(group: seq<MinedTouch>, canon: Resolver, t: MinedTouch)
    requires Shows(group, canon, t)
    ensures var n := canon(t.id);
            && n in Footprint(group, canon) && Footprint(group, canon)[n] == Change(t.before, t.after)
            && n in Images(group, canon) && Images(group, canon)[n] == t.image
  {
    hide Footprint, Images;
  }

  /** it needs what its touches need and does not itself touch; */
  lemma OpNeeds(touches: seq<MinedTouch>, canon: Resolver, k: nat, n: Need)
    requires k < |Buckets(touches)|
    ensures |OpsOf(touches, canon)| == |Buckets(touches)|
    ensures var b, o := Buckets(touches)[k], OpsOf(touches, canon)[k];
            n in o.needs <==>
            && (forall t :: IsIn(touches, b, t) ==> canon(t.id) != n.id)
            && exists t, m :: IsIn(touches, b, t) && m in t.needs && n == Need(canon(m.id), m.version)
  {
    OpAt(touches, canon, k);
    var b := Buckets(touches)[k];
    var g := Group(touches, b);
    hide Buckets, Group, Footprint, Images, Needs, OpsOf, FlagsOf, KindOf;
    NamesOf(g, canon, n.id);
    NeedsOf(g, canon, n);
  }

  /** and it is dated by its commit unless something in it is uncommitted. */
  lemma OpComesFrom(touches: seq<MinedTouch>, canon: Resolver, k: nat)
    requires k < |Buckets(touches)|
    ensures |OpsOf(touches, canon)| == |Buckets(touches)|
    ensures var b, o := Buckets(touches)[k], OpsOf(touches, canon)[k];
            && o.provenance == (if exists t :: IsIn(touches, b, t) && t.pending then None else Some(b.sha))
            && (o.derived <==> exists t :: IsIn(touches, b, t) && t.derived)
            && o.kind == KindOf(FlagsOf(Group(touches, b)))
  {
    OpAt(touches, canon, k);
    var b := Buckets(touches)[k];
    MarksMean(Group(touches, b));
    hide Buckets, Group, Footprint, Images, Needs, OpsOf, FlagsOf, KindOf, Outside, IsRemoval;
  }

  /** A plain edit, alone in its bucket, is a rework. */
  lemma PlainEditIsRework(t: MinedTouch, canon: Resolver)
    requires t.before == Some(Hash("1")) && t.after == Hash("2") && !t.viaMove
    ensures |OpsOf([t], canon)| == 1 && OpsOf([t], canon)[0].kind == Rework
  {
    BucketsMore([], t);
    GroupWith([], t, t.bucket);
    assert [] + [t] == [t];
    KindsMean([t]);
    OpAt([t], canon, 0);
    hide FlagsOf, KindOf, OpsOf, Group, Buckets;
    assert !IsRemoval(t.after) && t in [t];
    NothingYet(t.bucket);
  }

  lemma NothingYet(b: Bucket)
    ensures Buckets([]) == [] && Group([], b) == []
  {
  }

  // ---------------------------------------------------------------------------------------
  // Chunks.

  /** A commit with what mining it against its parent emits, whatever call mines it: its touches, and the
      renames it links. */
  datatype Commit = Commit(sha: Name, touches: seq<MinedTouch>, links: seq<Rename>)

  ghost predicate IsHistory(h: seq<Commit>) {
    && (forall i, j :: 0 <= i < j < |h| ==> h[i].sha != h[j].sha)
    && (forall c, t :: c in h && t in c.touches ==> t.bucket.sha == c.sha)
  }

  function Touches(h: seq<Commit>): seq<MinedTouch> {
    if h == [] then [] else Touches(h[..|h| - 1]) + h[|h| - 1].touches
  }

  lemma {:induction false} TouchesSplit(a: seq<Commit>, c: seq<Commit>)
    ensures Touches(a + c) == Touches(a) + Touches(c)
    decreases |c|
  {
    hide *;
    if c == [] {
      assert a + c == a && Touches(a) + [] == Touches(a);
      NoTouches();
    } else {
      var init, x := c[..|c| - 1], c[|c| - 1];
      assert a + c == a + init + [x] && c == init + [x];
      TouchesSplit(a, init);
      TouchesMore(a + init, x);
      TouchesMore(init, x);
      Associates(Touches(a), Touches(init), x.touches);
    }
  }

  lemma TouchesMore(h: seq<Commit>, c: Commit)
    ensures Touches(h + [c]) == Touches(h) + c.touches
  {
    assert (h + [c])[..|h|] == h;
  }

  lemma NoTouches()
    ensures Touches([]) == []
  {
  }

  lemma {:induction false} TouchHasCommit(h: seq<Commit>, t: MinedTouch)
    requires t in Touches(h)
    ensures exists c :: c in h && t in c.touches
  {
    var n := |h| - 1;
    assert h == h[..n] + [h[n]];
    if t in Touches(h[..n]) {
      TouchHasCommit(h[..n], t);
    }
  }

  lemma CommitsApart(a: seq<Commit>, c: seq<Commit>)
    requires IsHistory(a + c)
    ensures Apart(Touches(a), Touches(c))
  {
    forall s, t | s in Touches(a) && t in Touches(c) ensures s.bucket != t.bucket {
      TouchHasCommit(a, s);
      TouchHasCommit(c, t);
      var x :| x in a && s in x.touches;
      var y :| y in c && t in y.touches;
      var i :| 0 <= i < |a| && a[i] == x;
      var j :| 0 <= j < |c| && c[j] == y;
      assert (a + c)[i] == x && (a + c)[|a| + j] == y;
      assert x in a + c && y in a + c;
    }
  }

  /** Under one resolver, cutting the history anywhere makes no difference. */
  lemma CutAlike(a: seq<Commit>, c: seq<Commit>, canon: Resolver)
    requires IsHistory(a + c)
    ensures OpsOf(Touches(a + c), canon) == OpsOf(Touches(a), canon) + OpsOf(Touches(c), canon)
  {
    hide IsHistory, OpsOf, Touches, Apart;
    TouchesSplit(a, c);
    CommitsApart(a, c);
    OpsSplit(Touches(a), Touches(c), canon);
  }

  function Joined(chunks: seq<seq<Commit>>): seq<Commit> {
    if chunks == [] then [] else Joined(chunks[..|chunks| - 1]) + chunks[|chunks| - 1]
  }

  /** The chunks mined one after another, all with the same resolver. */
  function MinedAs(chunks: seq<seq<Commit>>, canon: Resolver): seq<MinedOp> {
    if chunks == [] then [] else MinedAs(chunks[..|chunks| - 1], canon) + OpsOf(Touches(chunks[|chunks| - 1]), canon)
  }

  lemma HistoryPrefix(a: seq<Commit>, c: seq<Commit>)
    requires IsHistory(a + c)
    ensures IsHistory(a)
  {
    assert forall i :: 0 <= i < |a| ==> (a + c)[i] == a[i];
    assert forall x :: x in a ==> x in a + c;
  }

  lemma {:induction false} JoinedAlike(chunks: seq<seq<Commit>>, canon: Resolver)
    requires IsHistory(Joined(chunks))
    ensures MinedAs(chunks, canon) == OpsOf(Touches(Joined(chunks)), canon)
    decreases |chunks|
  {
    hide IsHistory, OpsOf, Touches;
    if chunks == [] {
      NothingMined(canon);
    } else {
      var init, last := chunks[..|chunks| - 1], chunks[|chunks| - 1];
      HistoryPrefix(Joined(init), last);
      JoinedAlike(init, canon);
      CutAlike(Joined(init), last, canon);
    }
  }

  lemma NothingMined(canon: Resolver)
    ensures OpsOf(Touches([]), canon) == []
  {
  }

  // ---------------------------------------------------------------------------------------
  // Each run with its own renames.

  function Renames(h: seq<Commit>): seq<Rename> {
    if h == [] then [] else Renames(h[..|h| - 1]) + h[|h| - 1].links
  }

  /** How a run over these commits resolves names. */
  function ResolverOf(h: seq<Commit>): Resolver {
    x => Canon(Renames(h), x)
  }

  /** One run. */
  function MinedOnce(h: seq<Commit>): seq<MinedOp> {
    OpsOf(Touches(h), ResolverOf(h))
  }

  /** One run per chunk. */
  function MinedEach(chunks: seq<seq<Commit>>): seq<MinedOp> {
    if chunks == [] then [] else MinedEach(chunks[..|chunks| - 1]) + MinedOnce(chunks[|chunks| - 1])
  }

  /** `there` knows every rename `here` does. */
  ghost predicate Coarsens(here: Resolver, there: Resolver) {
    forall x :: there(here(x)) == there(x) && there(there(x)) == there(x)
  }

  /** The touched name and every needed one resolve alike. */
  ghost predicate AlikeAt(t: MinedTouch, here: Resolver, there: Resolver) {
    here(t.id) == there(t.id) && forall n :: n in t.needs ==> here(n.id) == there(n.id)
  }

  ghost predicate Alike(touches: seq<MinedTouch>, here: Resolver, there: Resolver) {
    forall t :: t in touches ==> AlikeAt(t, here, there)
  }

  lemma {:induction false} FootprintKeys(group: seq<MinedTouch>, canon: Resolver)
    ensures forall k :: k in Footprint(group, canon) <==> exists t :: t in group && canon(t.id) == k
  {
    if group != [] {
      var init, t := group[..|group| - 1], group[|group| - 1];
      assert group == init + [t];
      FootprintKeys(init, canon);
    }
  }

  lemma {:induction false} NeedsAre(group: seq<MinedTouch>, canon: Resolver)
    ensures forall m :: m in Needs(group, canon)
              <==> exists t, n :: t in group && n in t.needs && m == Need(canon(n.id), n.version)
  {
    if group != [] {
      var init, t := group[..|group| - 1], group[|group| - 1];
      assert group == init + [t];
      NeedsAre(init, canon);
      assert Needs(group, canon) == Needs(init, canon) + Resolved(t.needs, canon);
      hide Needs;
    }
  }

  lemma {:induction false} AlikeGroup(group: seq<MinedTouch>, here: Resolver, there: Resolver)
    requires Alike(group, here, there)
    ensures Footprint(group, here) == Footprint(group, there) && Images(group, here) == Images(group, there)
    ensures Needs(group, here) == Needs(group, there)
  {
    if group != [] {
      var init, t := group[..|group| - 1], group[|group| - 1];
      assert group == init + [t];
      assert AlikeAt(t, here, there);
      assert Resolved(t.needs, here) == Resolved(t.needs, there);
      hide AlikeAt, Resolved;
      AlikeGroup(init, here, there);
    }
  }

  /** A name this run resolves to, that the other run also resolves something to, is the other run's answer
      for everything this run sends there. */
  lemma SharedAnswer(here: Resolver, there: Resolver, x: Name, y: Name)
    requires Coarsens(here, there) && here(x) == there(y)
    ensures here(x) == there(x)
  {
    assert there(here(x)) == there(x) && there(there(y)) == there(y);
  }

  lemma FootprintShows(group: seq<MinedTouch>, here: Resolver, there: Resolver, t: MinedTouch)
    requires Coarsens(here, there) && t in group && Footprint(group, here).Keys == Footprint(group, there).Keys
    ensures here(t.id) == there(t.id)
  {
    FootprintKeys(group, here);
    FootprintKeys(group, there);
    hide Footprint, Coarsens;
    assert here(t.id) in Footprint(group, there);
    var u :| u in group && there(u.id) == here(t.id);
    SharedAnswer(here, there, t.id, u.id);
  }

  lemma NeedShows(group: seq<MinedTouch>, here: Resolver, there: Resolver, t: MinedTouch, n: Need)
    requires Coarsens(here, there) && t in group && n in t.needs
             && Footprint(group, here).Keys == Footprint(group, there).Keys
    requires Outside(Needs(group, here), Footprint(group, here))
             == Outside(Needs(group, there), Footprint(group, there))
    ensures here(n.id) == there(n.id)
  {
    hide *;
    var m := Need(here(n.id), n.version);
    if m.id in Footprint(group, there) {
      FootprintKeys(group, there);
      var u :| u in group && there(u.id) == here(n.id);
      SharedAnswer(here, there, n.id, u.id);
    } else {
      NeedIs(group, here, t, n);
      IsOutside(Needs(group, here), Footprint(group, here), m);
      IsOutside(Needs(group, there), Footprint(group, there), m);
      var o := NeededFor(group, there, m);
      SharedAnswer(here, there, n.id, o.id);
    }
  }

  lemma IsOutside(needs: set<Need>, footprint: map<Name, Change>, m: Need)
    ensures m in Outside(needs, footprint) <==> m in needs && m.id !in footprint
  {
  }

  lemma NeedIs(group: seq<MinedTouch>, canon: Resolver, t: MinedTouch, n: Need)
    requires t in group && n in t.needs
    ensures Need(canon(n.id), n.version) in Needs(group, canon)
  {
    NeedsAre(group, canon);
    hide Needs;
  }

  lemma NeededFor(group: seq<MinedTouch>, canon: Resolver, m: Need) returns (n: Need)
    requires m in Needs(group, canon)
    ensures m == Need(canon(n.id), n.version)
  {
    NeedsAre(group, canon);
    hide Needs;
    var t, o :| t in group && o in t.needs && m == Need(canon(o.id), o.version);
    n := o;
  }

  /** A run that knows more renames makes the same op of a group exactly when it resolves every touched and
      every needed name of the group alike. */
  lemma OpShows(b: Bucket, group: seq<MinedTouch>, here: Resolver, there: Resolver)
    requires Coarsens(here, there)
    ensures OpOf(b, group, here) == OpOf(b, group, there) <==> Alike(group, here, there)
  {
    if Alike(group, here, there) {
      AlikeGroup(group, here, there);
    }
    if OpOf(b, group, here) == OpOf(b, group, there) {
      assert Footprint(group, here).Keys == Footprint(group, there).Keys;
      hide Footprint, Images, Needs, Coarsens, FlagsOf, KindOf;
      forall t | t in group ensures AlikeAt(t, here, there) {
        FootprintShows(group, here, there, t);
        forall n | n in t.needs ensures here(n.id) == there(n.id) { NeedShows(group, here, there, t, n); }
      }
    }
  }

  lemma OpsShow(touches: seq<MinedTouch>, here: Resolver, there: Resolver)
    requires Coarsens(here, there)
    ensures OpsOf(touches, here) == OpsOf(touches, there) <==> Alike(touches, here, there)
  {
    OpsLength(touches, here);
    OpsLength(touches, there);
    var bs, a, c := Buckets(touches), OpsOf(touches, here), OpsOf(touches, there);
    forall i | 0 <= i < |bs| ensures a[i] == c[i] <==> Alike(Group(touches, bs[i]), here, there) {
      OpAt(touches, here, i);
      OpAt(touches, there, i);
      hide *;
      OpShows(bs[i], Group(touches, bs[i]), here, there);
    }
    hide OpsOf, Buckets, Group, Coarsens, AlikeAt;
    if Alike(touches, here, there) {
      forall i | 0 <= i < |bs| ensures a[i] == c[i] { assert Alike(Group(touches, bs[i]), here, there); }
      assert a == c;
    }
    if a == c {
      forall t | t in touches ensures AlikeAt(t, here, there) {
        assert t.bucket in bs;
        var i :| 0 <= i < |bs| && bs[i] == t.bucket;
        assert t in Group(touches, bs[i]);
      }
    }
  }

  lemma RunsCoarsen(part: seq<Commit>, whole: seq<Commit>)
    requires forall l :: l in Renames(part) ==> l in Renames(whole)
    ensures Coarsens(ResolverOf(part), ResolverOf(whole))
  {
    forall x ensures Canon(Renames(whole), Canon(Renames(part), x)) == Canon(Renames(whole), x)
      ensures Canon(Renames(whole), Canon(Renames(whole), x)) == Canon(Renames(whole), x)
    {
      CanonIsCoarser(Renames(part), Renames(whole), x);
      CanonIsFixed(Renames(whole), x);
    }
    hide Canon, Renames;
  }

  lemma {:induction false} RenamesSplit(a: seq<Commit>, c: seq<Commit>)
    ensures Renames(a + c) == Renames(a) + Renames(c)
    decreases |c|
  {
    hide *;
    if c == [] {
      assert a + c == a && Renames(a) + [] == Renames(a);
      NothingRenamed();
    } else {
      var init, x := c[..|c| - 1], c[|c| - 1];
      assert a + c == a + init + [x] && c == init + [x];
      RenamesSplit(a, init);
      RenamesMore(a + init, x);
      RenamesMore(init, x);
      Associates(Renames(a), Renames(init), x.links);
    }
  }

  lemma RenamesMore(h: seq<Commit>, c: Commit)
    ensures Renames(h + [c]) == Renames(h) + c.links
  {
    assert (h + [c])[..|h|] == h;
  }

  lemma NothingRenamed()
    ensures Renames([]) == []
  {
  }

  lemma {:induction false} RenamesOfChunk(chunks: seq<seq<Commit>>, i: nat)
    requires i < |chunks|
    ensures forall l :: l in Renames(chunks[i]) ==> l in Renames(Joined(chunks))
    decreases |chunks|
  {
    var n := |chunks| - 1;
    RenamesSplit(Joined(chunks[..n]), chunks[n]);
    hide Renames;
    if i < n { RenamesOfChunk(chunks[..n], i); }
  }

  /** Every chunk's run resolves its names as a run over all of `h` does. */
  ghost predicate AllAlike(chunks: seq<seq<Commit>>, h: seq<Commit>) {
    forall i :: 0 <= i < |chunks| ==> Alike(Touches(chunks[i]), ResolverOf(chunks[i]), ResolverOf(h))
  }

  lemma SameLengths<T>(a: seq<T>, b: seq<T>, c: seq<T>, d: seq<T>)
    requires |a| == |c|
    ensures a + b == c + d <==> a == c && b == d
  {
    if a + b == c + d {
      assert a == (a + b)[..|a|] && c == (c + d)[..|a|];
      assert b == (a + b)[|a|..] && d == (c + d)[|a|..];
    }
  }

  lemma {:induction false} ChunksShow(chunks: seq<seq<Commit>>, h: seq<Commit>)
    requires forall i :: 0 <= i < |chunks| ==> Coarsens(ResolverOf(chunks[i]), ResolverOf(h))
    ensures |MinedEach(chunks)| == |MinedAs(chunks, ResolverOf(h))|
    ensures MinedEach(chunks) == MinedAs(chunks, ResolverOf(h)) <==> AllAlike(chunks, h)
    decreases |chunks|
  {
    if chunks == [] {
      assert MinedEach(chunks) == [] == MinedAs(chunks, ResolverOf(h)) && AllAlike(chunks, h);
    } else {
      var n := |chunks| - 1;
      var init, last := chunks[..n], chunks[n];
      hide *;
      ChunksShow(init, h);
      ChunkShows(last, h);
      AllAlikeMore(chunks, h);
      MinedMore(chunks, ResolverOf(h));
      SameLengths(MinedEach(init), MinedOnce(last), MinedAs(init, ResolverOf(h)), OpsOf(Touches(last), ResolverOf(h)));
    }
  }

  lemma ChunkShows(chunk: seq<Commit>, h: seq<Commit>)
    requires Coarsens(ResolverOf(chunk), ResolverOf(h))
    ensures |MinedOnce(chunk)| == |OpsOf(Touches(chunk), ResolverOf(h))|
    ensures MinedOnce(chunk) == OpsOf(Touches(chunk), ResolverOf(h))
            <==> Alike(Touches(chunk), ResolverOf(chunk), ResolverOf(h))
  {
    OpsShow(Touches(chunk), ResolverOf(chunk), ResolverOf(h));
    OpsLength(Touches(chunk), ResolverOf(chunk));
    OpsLength(Touches(chunk), ResolverOf(h));
    hide OpsOf, Touches, ResolverOf, Coarsens, Alike;
  }

  lemma AllAlikeMore(chunks: seq<seq<Commit>>, h: seq<Commit>)
    requires chunks != []
    ensures var n := |chunks| - 1;
            AllAlike(chunks, h) <==> AllAlike(chunks[..n], h)
                                     && Alike(Touches(chunks[n]), ResolverOf(chunks[n]), ResolverOf(h))
  {
    hide Alike, Touches, ResolverOf;
    assert forall i :: 0 <= i < |chunks| - 1 ==> chunks[..|chunks| - 1][i] == chunks[i];
  }

  lemma MinedMore(chunks: seq<seq<Commit>>, canon: Resolver)
    requires chunks != []
    ensures var n := |chunks| - 1;
            && MinedEach(chunks) == MinedEach(chunks[..n]) + MinedOnce(chunks[n])
            && MinedAs(chunks, canon) == MinedAs(chunks[..n], canon) + OpsOf(Touches(chunks[n]), canon)
  {
    hide OpsOf, Touches, MinedOnce;
  }

  /** However a history is cut into chunks, mining them one after another, each with the renames of its own
      commits, gives the op list of a single run if and only if every name touched or needed in a chunk
      resolves there as it does in the single run. */
  lemma ChunksMakeTheWholeExactlyWhen(chunks: seq<seq<Commit>>)
    requires IsHistory(Joined(chunks))
    ensures MinedEach(chunks) == MinedOnce(Joined(chunks)) <==> AllAlike(chunks, Joined(chunks))
  {
    var h := Joined(chunks);
    JoinedAlike(chunks, ResolverOf(h));
    forall i | 0 <= i < |chunks| ensures Coarsens(ResolverOf(chunks[i]), ResolverOf(h)) {
      RenamesOfChunk(chunks, i);
      hide *;
      RunsCoarsen(chunks[i], h);
    }
    hide IsHistory, Joined, MinedEach, MinedAs, OpsOf, Touches, ResolverOf, Coarsens, AllAlike;
    ChunksShow(chunks, h);
  }

  lemma {:induction false} NoRenames(h: seq<Commit>)
    requires forall c :: c in h ==> c.links == []
    ensures Renames(h) == []
  {
    if h != [] {
      var init, c := h[..|h| - 1], h[|h| - 1];
      assert h == init + [c] && c in h;
      NoRenames(init);
    }
  }

  lemma {:induction false} JoinedHas(chunks: seq<seq<Commit>>, i: nat, c: Commit)
    requires i < |chunks| && c in chunks[i]
    ensures c in Joined(chunks)
    decreases |chunks|
  {
    var n := |chunks| - 1;
    if i < n { JoinedHas(chunks[..n], i, c); }
  }

  /** So chunks never show in a history without renames. */
  lemma LinkFreeChunksMakeTheWhole(chunks: seq<seq<Commit>>)
    requires IsHistory(Joined(chunks)) && forall c :: c in Joined(chunks) ==> c.links == []
    ensures MinedEach(chunks) == MinedOnce(Joined(chunks))
  {
    var h := Joined(chunks);
    NoRenames(h);
    forall i | 0 <= i < |chunks| ensures Alike(Touches(chunks[i]), ResolverOf(chunks[i]), ResolverOf(h)) {
      forall c | c in chunks[i] ensures c.links == [] { JoinedHas(chunks, i, c); }
      NoRenames(chunks[i]);
      hide Joined, Touches, Renames;
    }
    hide IsHistory, Joined, MinedEach, MinedOnce, Touches, ResolverOf;
    ChunksMakeTheWholeExactlyWhen(chunks);
  }

  /** A rename in one chunk and a touch of the new name in the next: the second run, which never saw the
      rename, files the touch under a name the single run does not. */
  lemma RenameShowsAcrossCut(first: Commit, second: Commit, older: Name, t: MinedTouch)
    requires IsHistory([first, second]) && first.links == [Rename(older, t.id)] && older != t.id
    requires second.links == [] && second.touches == [t]
    ensures MinedEach([[first], [second]]) != MinedOnce([first, second])
  {
    var chunks, h := [[first], [second]], [first, second];
    TwoChunks(first, second);
    OneRename(first, second, older, t);
    hide *;
    NotAlike(chunks, h, 1, t);
    ChunksMakeTheWholeExactlyWhen(chunks);
  }

  lemma OnePlusOne<T>(a: T, b: T)
    ensures [] + [a] == [a] && [] + [b] == [b] && [a] + [b] == [a, b]
  {
  }

  lemma TwoJoined(a: seq<Commit>, b: seq<Commit>)
    ensures Joined([a, b]) == a + b
  {
    hide *;
    OnePlusOne(a, b);
    JoinedMore([], a);
    JoinedMore([a], b);
    NothingJoined(a);
  }

  lemma JoinedMore(chunks: seq<seq<Commit>>, c: seq<Commit>)
    ensures Joined(chunks + [c]) == Joined(chunks) + c
  {
    assert (chunks + [c])[..|chunks|] == chunks;
  }

  lemma NothingJoined(c: seq<Commit>)
    ensures Joined([]) + c == c
  {
  }

  lemma TwoChunks(first: Commit, second: Commit)
    ensures Joined([[first], [second]]) == [first, second]
    ensures Touches([second]) == second.touches && Renames([second]) == second.links
    ensures Renames([first, second]) == first.links + second.links
  {
    hide *;
    TwoJoined([first], [second]);
    OnePlusOne(first, second);
    NoTouches();
    NothingRenamed();
    TouchesMore([], second);
    RenamesMore([], second);
    RenamesMore([], first);
    RenamesMore([first], second);
  }

  lemma OneRename(first: Commit, second: Commit, older: Name, t: MinedTouch)
    requires first.links == [Rename(older, t.id)] && older != t.id && second.links == []
    ensures ResolverOf([second])(t.id) == t.id && ResolverOf([first, second])(t.id) == older
  {
    TwoChunks(first, second);
    var links := [Rename(older, t.id)];
    assert links + [] == links && links[..0] == [];
    hide Renames;
    assert Canon(links, t.id) == older;
    assert Canon([], t.id) == t.id;
  }

  lemma NotAlike(chunks: seq<seq<Commit>>, h: seq<Commit>, i: nat, t: MinedTouch)
    requires i < |chunks| && t in Touches(chunks[i]) && ResolverOf(chunks[i])(t.id) != ResolverOf(h)(t.id)
    ensures !AllAlike(chunks, h)
  {
    hide ResolverOf, Touches;
    assert !AlikeAt(t, ResolverOf(chunks[i]), ResolverOf(h));
    assert !Alike(Touches(chunks[i]), ResolverOf(chunks[i]), ResolverOf(h));
  }

  // ---------------------------------------------------------------------------------------
  // No touch is lost.

  lemma {:induction false} FootprintHas(group: seq<MinedTouch>, canon: Resolver, k: nat)
    requires k < |group| && forall j :: k < j < |group| ==> canon(group[j].id) != canon(group[k].id)
    ensures canon(group[k].id) in Footprint(group, canon)
    ensures Footprint(group, canon)[canon(group[k].id)] == Change(group[k].before, group[k].after)
  {
    var n := |group| - 1;
    if k < n { FootprintHas(group[..n], canon, k); }
  }

  /** Each touch lands in exactly one op, that of its bucket, with its versions unless a later touch of
      the same bucket is of the same resolved name. */
  lemma EveryTouchLands(touches: seq<MinedTouch>, canon: Resolver, t: MinedTouch)
    requires t in touches
    ensures exists i :: 0 <= i < |OpsOf(touches, canon)| && Buckets(touches)[i] == t.bucket
              && canon(t.id) in OpsOf(touches, canon)[i].footprint
    ensures forall i, j :: 0 <= i < |Buckets(touches)| && 0 <= j < |Buckets(touches)|
                           && Buckets(touches)[i] == t.bucket == Buckets(touches)[j]
                           ==> i == j
  {
    var b := t.bucket;
    assert b in Buckets(touches);
    OpsLength(touches, canon);
    hide Buckets, Group, Footprint, OpsOf;
    var i :| 0 <= i < |Buckets(touches)| && Buckets(touches)[i] == b;
    OpCovers(touches, canon, t, i);
  }

  lemma OpCovers(touches: seq<MinedTouch>, canon: Resolver, t: MinedTouch, i: nat)
    requires t in touches && i < |Buckets(touches)| && Buckets(touches)[i] == t.bucket
    ensures i < |OpsOf(touches, canon)| && canon(t.id) in OpsOf(touches, canon)[i].footprint
  {
    OpAt(touches, canon, i);
    var g := Group(touches, t.bucket);
    hide Buckets, Group, Footprint, OpsOf, FlagsOf, KindOf;
    var k :| 0 <= k < |g| && g[k] == t;
    FootprintCovers(g, canon, k);
  }

  lemma {:induction false} FootprintCovers(group: seq<MinedTouch>, canon: Resolver, k: nat)
    requires k < |group|
    ensures canon(group[k].id) in Footprint(group, canon)
  {
    var n := |group| - 1;
    if k < n { FootprintCovers(group[..n], canon, k); }
  }

  // ---------------------------------------------------------------------------------------
  // The loops.

  ghost predicate HoldsGroup(byBucket: map<Bucket, seq<MinedTouch>>, touches: seq<MinedTouch>, b: Bucket) {
    (b in byBucket <==> b in Buckets(touches)) && (b in byBucket ==> byBucket[b] == Group(touches, b))
  }

  ghost predicate Grouped(byBucket: map<Bucket, seq<MinedTouch>>, order: seq<Bucket>, touches: seq<MinedTouch>) {
    order == Buckets(touches) && forall b :: HoldsGroup(byBucket, touches, b)
  }

  lemma GroupsAppend(touches: seq<MinedTouch>, t: MinedTouch)
    ensures forall b :: Group(touches + [t], b) == if b == t.bucket then Group(touches, b) + [t] else Group(touches, b)
    ensures Buckets(touches + [t]) == if t.bucket in Buckets(touches) then Buckets(touches)
                                      else Buckets(touches) + [t.bucket]
  {
    assert (touches + [t])[..|touches|] == touches;
  }

  lemma GroupAt(byBucket: map<Bucket, seq<MinedTouch>>, order: seq<Bucket>, touches: seq<MinedTouch>, b: Bucket)
    requires Grouped(byBucket, order, touches)
    ensures (b in byBucket <==> b in Buckets(touches)) && order == Buckets(touches)
            && (b in byBucket ==> byBucket[b] == Group(touches, b))
  {
    assert HoldsGroup(byBucket, touches, b);
    hide Group, Buckets;
  }

  lemma RegroupAt(byBucket: map<Bucket, seq<MinedTouch>>, order: seq<Bucket>, touches: seq<MinedTouch>, t: MinedTouch,
                  b: Bucket)
    requires Grouped(byBucket, order, touches)
    ensures var k := t.bucket;
            var more := byBucket[k := (if k in byBucket then byBucket[k] else []) + [t]];
            HoldsGroup(more, touches + [t], b)
  {
    hide Grouped, Group, Buckets;
    GroupsAppend(touches, t);
    GroupAt(byBucket, order, touches, b);
    GroupAt(byBucket, order, touches, t.bucket);
    if b == t.bucket && b !in byBucket { NotHere(touches, b); }
  }

  /** `setdefault(bucket, []).append(t)`. */
  lemma GroupMore(byBucket: map<Bucket, seq<MinedTouch>>, order: seq<Bucket>, touches: seq<MinedTouch>, t: MinedTouch)
    requires Grouped(byBucket, order, touches)
    ensures var more := byBucket[t.bucket := (if t.bucket in byBucket then byBucket[t.bucket] else []) + [t]];
            Grouped(more, if t.bucket in byBucket then order else order + [t.bucket], touches + [t])
  {
    var k := t.bucket;
    var more := byBucket[k := (if k in byBucket then byBucket[k] else []) + [t]];
    GroupsAppend(touches, t);
    GroupAt(byBucket, order, touches, k);
    var all := touches + [t];
    hide Group, Buckets, HoldsGroup;
    forall b ensures HoldsGroup(more, all, b) {
      hide Grouped;
      RegroupAt(byBucket, order, touches, t, b);
    }
  }

  lemma GroupedNothing(touches: seq<MinedTouch>)
    ensures Grouped(map[], [], touches[..0])
  {
    var none := touches[..0];
    assert none == [] && Buckets(none) == [];
  }

  /** The dictionary of groups, in insertion order. */
  method GroupTouches(touches: seq<MinedTouch>) returns (byBucket: map<Bucket, seq<MinedTouch>>, order: seq<Bucket>)
    ensures Grouped(byBucket, order, touches)
  {
    byBucket, order := map[], [];
    GroupedNothing(touches);
    hide *;
    for i := 0 to |touches|
      invariant Grouped(byBucket, order, touches[..i])
    {
      var t := touches[i];
      GroupMore(byBucket, order, touches[..i], t);
      assert touches[..i + 1] == touches[..i] + [t];
      if t.bucket !in byBucket { order := order + [t.bucket]; }
      byBucket := byBucket[t.bucket := (if t.bucket in byBucket then byBucket[t.bucket] else []) + [t]];
    }
    assert touches[..|touches|] == touches;
  }

  lemma FoldMore(group: seq<MinedTouch>, canon: Resolver, i: nat)
    requires i < |group|
    ensures var t := group[i];
            && Footprint(group[..i + 1], canon)
               == Footprint(group[..i], canon)[canon(t.id) := Change(t.before, t.after)]
            && Images(group[..i + 1], canon) == Images(group[..i], canon)[canon(t.id) := t.image]
            && Needs(group[..i + 1], canon) == Needs(group[..i], canon) + Resolved(t.needs, canon)
            && FlagsOf(group[..i + 1]) == Noted(FlagsOf(group[..i]), t)
  {
    assert group[..i + 1][..i] == group[..i];
    hide Resolved, Noted;
  }

  lemma FoldNothing(group: seq<MinedTouch>, canon: Resolver)
    ensures Footprint(group[..0], canon) == map[] && Images(group[..0], canon) == map[]
            && Needs(group[..0], canon) == {}
    ensures FlagsOf(group[..0]) == Flags(false, false, false, false, false, true, true)
  {
  }

  /** The forest resolves names as `canon` does. */
  ghost predicate Resolves(root: Parents, canon: Resolver) {
    Settled(root) && forall x :: Resolve(root, x) == canon(x)
  }

  lemma FindKeeps(root: Parents, canon: Resolver, x: Name)
    requires Resolves(root, canon)
    ensures Resolves(Include(root, x), canon) && x in Include(root, x) && Include(root, x)[x] == canon(x)
  {
    forall y
      ensures Settled(Include(root, x)) && Resolve(Include(root, x), y) == canon(y)
    {
      IncludeSettled(root, x, y);
    }
    assert Resolve(Include(root, x), x) == canon(x);
    hide Settled, Include;
  }

  lemma ResolvedMore(needs: set<Need>, done: set<Need>, n: Need, canon: Resolver)
    ensures Resolved(done + {n}, canon) == Resolved(done, canon) + {Need(canon(n.id), n.version)}
  {
  }

  /** The needs of one touch, each with its name looked up. */
  method ResolveNeeds(needs: set<Need>, uf: RenameForest, ghost canon: Resolver) returns (r: set<Need>)
    requires uf.Valid() && Resolves(uf.root, canon)
    modifies uf
    ensures uf.Valid() && Resolves(uf.root, canon)
    ensures r == Resolved(needs, canon)
  {
    r := {};
    var left := needs;
    ghost var done: set<Need> := {};
    assert Resolved({}, canon) == {};
    hide *;
    while left != {}
      invariant uf.Valid() && Resolves(uf.root, canon)
      invariant done !! left && done + left == needs && r == Resolved(done, canon)
      decreases left
    {
      var n :| n in left;
      FindKeeps(uf.root, canon, n.id);
      var id := uf.Find(n.id);
      ResolvedMore(needs, done, n, canon);
      r := r + {Need(id, n.version)};
      left, done := left - {n}, done + {n};
    }
    assert done == needs;
  }

  /** One group folded into one op, a touch at a time. */
  method FoldGroup(b: Bucket, group: seq<MinedTouch>, uf: RenameForest, ghost canon: Resolver) returns (op: MinedOp)
    requires uf.Valid() && Resolves(uf.root, canon)
    modifies uf
    ensures uf.Valid() && Resolves(uf.root, canon)
    ensures op == OpOf(b, group, canon)
  {
    var footprint: map<Name, Change> := map[];
    var images: map<Name, Option<Bytes>> := map[];
    var needs: set<Need> := {};
    var f := Flags(false, false, false, false, false, true, true);
    FoldNothing(group, canon);
    OpIs(b, group, canon);
    hide *;
    for i := 0 to |group|
      invariant uf.Valid() && Resolves(uf.root, canon)
      invariant footprint == Footprint(group[..i], canon) && images == Images(group[..i], canon)
      invariant needs == Needs(group[..i], canon) && f == FlagsOf(group[..i])
    {
      var t := group[i];
      FoldMore(group, canon, i);
      FindKeeps(uf.root, canon, t.id);
      var id := uf.Find(t.id);
      footprint := footprint[id := Change(t.before, t.after)];
      images := images[id := t.image];
      var resolved := ResolveNeeds(t.needs, uf, canon);
      needs := needs + resolved;
      f := Noted(f, t);
    }
    assert group[..|group|] == group;
    op := MinedOp(footprint, images, Outside(needs, footprint), KindOf(f),
                  if f.pending then None else Some(b.sha), f.derived);
  }

  lemma OpIs(b: Bucket, group: seq<MinedTouch>, canon: Resolver)
    ensures var footprint, f := Footprint(group, canon), FlagsOf(group);
            OpOf(b, group, canon) ==
            MinedOp(footprint, Images(group, canon), Outside(Needs(group, canon), footprint), KindOf(f),
                    if f.pending then None else Some(b.sha), f.derived)
  {
  }

  /** `_build_ops`, looking names up in the forest as it goes. */
  method BuildOps(touches: seq<MinedTouch>, uf: RenameForest, ghost canon: Resolver) returns (ops: seq<MinedOp>)
    requires uf.Valid() && Resolves(uf.root, canon)
    modifies uf
    ensures ops == OpsOf(touches, canon)
  {
    hide *;
    var byBucket, order := GroupTouches(touches);
    ops := [];
    NothingBuilt(order, touches, canon);
    for i := 0 to |order|
      invariant uf.Valid() && Resolves(uf.root, canon)
      invariant BuiltSoFar(ops, order[..i], touches, canon)
    {
      GroupOf(byBucket, order, touches, i);
      var op := FoldGroup(order[i], byBucket[order[i]], uf, canon);
      BuiltMore(ops, order, i, touches, canon);
      ops := ops + [op];
    }
    assert order[..|order|] == order;
    BuiltAll(ops, byBucket, order, touches, canon);
  }

  ghost predicate BuiltSoFar(ops: seq<MinedOp>, order: seq<Bucket>, touches: seq<MinedTouch>, canon: Resolver) {
    |ops| == |order| && forall j :: 0 <= j < |ops| ==> ops[j] == OpOf(order[j], Group(touches, order[j]), canon)
  }

  lemma GroupOf(byBucket: map<Bucket, seq<MinedTouch>>, order: seq<Bucket>, touches: seq<MinedTouch>, i: nat)
    requires Grouped(byBucket, order, touches) && i < |order|
    ensures order[i] in byBucket && byBucket[order[i]] == Group(touches, order[i])
  {
    GroupAt(byBucket, order, touches, order[i]);
    hide Grouped, Group, Buckets;
    assert order[i] in order;
  }

  lemma NothingBuilt(order: seq<Bucket>, touches: seq<MinedTouch>, canon: Resolver)
    ensures BuiltSoFar([], order[..0], touches, canon)
  {
  }

  lemma BuiltMore(ops: seq<MinedOp>, order: seq<Bucket>, i: nat, touches: seq<MinedTouch>, canon: Resolver)
    requires i < |order| && BuiltSoFar(ops, order[..i], touches, canon)
    ensures BuiltSoFar(ops + [OpOf(order[i], Group(touches, order[i]), canon)], order[..i + 1], touches, canon)
  {
    hide OpOf, Group;
  }

  lemma BuiltAll(ops: seq<MinedOp>, byBucket: map<Bucket, seq<MinedTouch>>, order: seq<Bucket>,
                 touches: seq<MinedTouch>, canon: Resolver)
    requires Grouped(byBucket, order, touches) && BuiltSoFar(ops, order, touches, canon)
    ensures ops == OpsOf(touches, canon)
  {
    hide OpOf, Group, Buckets;
  }

  /** The commits a call of `mine` takes in: those before the deadline passed, and the uncommitted changes if
      they were asked for and it did not. */
  function Taken(history: seq<Commit>, n: nat, dirty: Option<Commit>, hit: bool): seq<Commit>
    requires n <= |history|
  {
    history[..n] + if dirty.Some? && !hit then [dirty.value] else []
  }

  /** Everything the commits in `taken` emitted, and a forest of all their renames. */
  ghost predicate Holds(taken: seq<Commit>, touches: seq<MinedTouch>, root: Parents) {
    touches == Touches(taken) && root == AfterRenames(map[], Renames(taken))
  }

  lemma HoldsNothing()
    ensures Holds([], [], map[])
  {
  }

  lemma HoldsMore(taken: seq<Commit>, touches: seq<MinedTouch>, root: Parents, c: Commit)
    requires Holds(taken, touches, root)
    ensures Holds(taken + [c], touches + c.touches, AfterRenames(root, c.links))
  {
    TouchesMore(taken, c);
    RenamesMore(taken, c);
    RenamesConcat(map[], Renames(taken), c.links);
    hide Touches, AfterRenames, Renames;
  }

  /** The commit loop of `mine`: the clock passes the deadline before the first commit or after any. */
  method TakeIn(history: seq<Commit>, late: nat -> bool, uf: RenameForest)
    returns (touches: seq<MinedTouch>, last: Option<Name>, n: nat)
    requires uf.Valid() && uf.root == map[]
    modifies uf
    ensures n <= |history| && uf.Valid() && Holds(history[..n], touches, uf.root)
    ensures last == if n == 0 then None else Some(history[n - 1].sha)
    ensures n == |history| || late(n)
    ensures forall k :: 0 <= k < n ==> !late(k)
  {
    hide *;
    touches, last, n := [], None, 0;
    HoldsNothing();
    assert history[..0] == [];
    while n < |history| && !late(n)
      invariant 0 <= n <= |history| && uf.Valid() && Holds(history[..n], touches, uf.root)
      invariant last == if n == 0 then None else Some(history[n - 1].sha)
      invariant forall k :: 0 <= k < n ==> !late(k)
    {
      HoldsMore(history[..n], touches, uf.root, history[n]);
      assert history[..n + 1] == history[..n] + [history[n]];
      uf.UnionAll(history[n].links);
      touches := touches + history[n].touches;
      last := Some(history[n].sha);
      n := n + 1;
    }
  }

  /** `mine` over an ordered history: the commits before the deadline are mined, and the last of them is
      reported; the uncommitted changes come after the last commit, if time is left. */
  method Mine(history: seq<Commit>, late: nat -> bool, dirty: Option<Commit>)
    returns (ops: seq<MinedOp>, last: Option<Name>, n: nat)
    ensures n <= |history| && ops == MinedOnce(Taken(history, n, dirty, late(n)))
    ensures last == if n == 0 then None else Some(history[n - 1].sha)
    ensures n == |history| || late(n)
    ensures forall k :: 0 <= k < n ==> !late(k)
  {
    hide *;
    var uf := new RenameForest();
    var touches: seq<MinedTouch>;
    touches, last, n := TakeIn(history, late, uf);
    ghost var taken := history[..n];
    if dirty.Some? && !late(n) {
      HoldsMore(taken, touches, uf.root, dirty.value);
      uf.UnionAll(dirty.value.links);
      touches := touches + dirty.value.touches;
      taken := taken + [dirty.value];
    }
    HoldsAll(taken, touches, uf.root);
    TakenIs(history, n, dirty, late(n), taken);
    ops := BuildOps(touches, uf, ResolverOf(taken));
  }

  lemma HoldsAll(taken: seq<Commit>, touches: seq<MinedTouch>, root: Parents)
    requires Holds(taken, touches, root)
    ensures touches == Touches(taken) && Resolves(root, ResolverOf(taken))
  {
    ForestResolves(taken);
    hide Touches, AfterRenames, Renames, ResolverOf, Resolves;
  }

  lemma ForestResolves(h: seq<Commit>)
    ensures Resolves(AfterRenames(map[], Renames(h)), ResolverOf(h))
  {
    var root := AfterRenames(map[], Renames(h));
    hide AfterRenames, Renames, Canon, Settled;
    RootsAreCanon(Renames(h), "");
    forall x ensures Resolve(root, x) == Canon(Renames(h), x) { RootsAreCanon(Renames(h), x); }
  }

  lemma TakenIs(history: seq<Commit>, n: nat, dirty: Option<Commit>, hit: bool, taken: seq<Commit>)
    requires n <= |history| && taken == if dirty.Some? && !hit then history[..n] + [dirty.value] else history[..n]
    ensures taken == Taken(history, n, dirty, hit) && MinedOnce(taken) == OpsOf(Touches(taken), ResolverOf(taken))
  {
    hide OpsOf, Touches, ResolverOf;
    assert history[..n] + [] == history[..n];
  }
}
