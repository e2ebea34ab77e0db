/** Mining a history as a sequence of symbol tables (`sgt/core/mine.py`, `_mine_one` and
    `_apply_rebirth_chaining`).

    A commit emits one touch per symbol whose table entry changed; a symbol that comes back is
    chained onto the commit that closed it.  Replaying the touches, last writer per symbol,
    gives the state the fold reads. */
module Chains {
  import opened Names
  import opened Symbols
  import opened Tables

  /** One commit of a path's history: the symbol table it leaves, whether the diff lists the
      path, whether the path flips from parts to one whole-file symbol, and whether the commit
      is sgt's own bookkeeping. */
  datatype Point = Point(table: Table, listed: bool, flip: bool, bookkeeping: bool)

  type Timeline = seq<Point>

  /** The table before commit `i`. */
  function Prior(h: Timeline, i: nat): Table
    requires i <= |h|
  {
    if i == 0 then map[] else h[i - 1].table
  }

  /** An entry is determined by its version: versions are hashes of what they stand for. */
  ghost predicate Coherent(t: Table) {
    forall s :: s in t ==> CoherentAt(t, s)
  }

  ghost predicate CoherentAt(t: Table, s: Sym)
    requires s in t
  {
    match t[s].version
    case Blob(b) => s == Whole && t[s].image == Data(b)
    case Positional(n, b) => s == NameSym(n) && t[s].image == Data(b)
    case Content(b) => s.Residue? && t[s].image == Data(b)
    case Marker(p) => s.Anchor? && t[s].image == Fact(p)
    case Bottom(_) => false
  }

  ghost predicate ValidTimeline(h: Timeline) {
    && (forall i :: 0 <= i < |h| ==> Coherent(h[i].table))
    && (forall i :: 0 <= i < |h| && !h[i].listed ==> h[i].table == Prior(h, i))
    && (forall i :: 0 <= i < |h| && h[i].flip ==> forall s :: s in h[i].table ==> s == Whole)
  }

  predicate IsEmptyGap(t: Table, s: Sym)
    requires s in t
  {
    s.Residue? && BytesOf(t[s].image) == []
  }

  /** Which vanishing symbols a commit closes: never an anchor, and on a flip to whole-file no
      empty gap (`_close_entity_rep` skips them). */
  predicate Closes(prev: Table, flip: bool, s: Sym)
    requires s in prev
  {
    !s.Anchor? && !(flip && IsEmptyGap(prev, s))
  }

  predicate IsTouched(prev: Table, p: Point, s: Sym) {
    if s in p.table then s !in prev || prev[s].version != p.table[s].version || s == Whole
    else s in prev && Closes(prev, p.flip, s)
  }

  function TouchOf(prev: Table, p: Point, k: nat, s: Sym): Touch
    requires s in prev || s in p.table
  {
    var before := if s in prev then Some(prev[s].version) else None;
    if s in p.table then Touch(s, before, p.table[s].version, p.table[s].image)
    else Touch(s, before, Bottom(k), Gone)
  }

  /** The touches commit `k` emits, before rebirth chaining. */
  function Step(prev: Table, p: Point, k: nat): (r: map<Sym, Touch>)
    ensures forall s :: s in r <==> p.listed && (s in prev || s in p.table) && IsTouched(prev, p, s)
    ensures forall s :: s in r ==> r[s] == TouchOf(prev, p, k, s)
  {
    map s | s in prev.Keys + p.table.Keys && p.listed && IsTouched(prev, p, s) :: TouchOf(prev, p, k, s)
  }

  // ---------------------------------------------------------------------------------------
  // Rebirth chaining.

  /** What the lookback counts as present: empty gaps and anchors do not. */
  predicate IsPresent(t: Table, s: Sym) {
    s in t && !s.Anchor? && !IsEmptyGap(t, s)
  }

  /** Commit `d` closed `s`, as far as the lookback sees. */
  predicate SeenClosing(h: Timeline, d: nat, s: Sym)
    requires d < |h|
  {
    !h[d].bookkeeping && IsPresent(Prior(h, d), s) && !IsPresent(h[d].table, s)
  }

  /** The newest commit before `k` that the lookback takes to have closed `s`. */
  function LastClosing(h: Timeline, k: nat, s: Sym): (r: Option<nat>)
    requires k <= |h|
    ensures r.Some? ==> r.value < k && SeenClosing(h, r.value, s)
    ensures forall d :: 0 <= d < k && SeenClosing(h, d, s) ==> r.Some? && d <= r.value
  {
    if k == 0 then None
    else if SeenClosing(h, k - 1, s) then Some(k - 1)
    else LastClosing(h, k - 1, s)
  }

  function Chained(h: Timeline, k: nat, t: Touch): Touch
    requires k <= |h|
  {
    if t.before.Some? || t.sym.Anchor? then t
    else match LastClosing(h, k, t.sym)
      case None => t
      case Some(d) => t.(before := Some(Bottom(d)))
  }

  /** What commit `k` finally emits. */
  function Touches(h: Timeline, k: nat): (r: map<Sym, Touch>)
    requires k < |h|
    ensures r.Keys == Step(Prior(h, k), h[k], k).Keys
    ensures forall s :: s in r ==> r[s] == Chained(h, k, Step(Prior(h, k), h[k], k)[s])
  {
    var raw := Step(Prior(h, k), h[k], k);
    map s | s in raw :: Chained(h, k, raw[s])
  }

  // ---------------------------------------------------------------------------------------
  // Replay, last writer per symbol.

  function Apply(state: Table, touches: map<Sym, Touch>): (r: Table)
    ensures forall s :: s in r <==> s in state || s in touches
    ensures forall s :: s in touches ==> r[s] == Entry(touches[s].after, touches[s].image)
    ensures forall s :: s in state && s !in touches ==> r[s] == state[s]
  {
    state + map s | s in touches :: Entry(touches[s].after, touches[s].image)
  }

  /** The state after the first `k` commits. */
  function Replay(h: Timeline, k: nat): Table
    requires k <= |h|
  {
    if k == 0 then map[] else Apply(Replay(h, k - 1), Touches(h, k - 1))
  }

  lemma ReplayStep(h: Timeline, k: nat, s: Sym)
    requires k < |h|
    ensures var prev, p := Prior(h, k), h[k];
            var was, now := Replay(h, k), Replay(h, k + 1);
            && (p.listed && (s in prev || s in p.table) && IsTouched(prev, p, s) ==>
                  s in now && now[s] == if s in p.table then p.table[s] else Entry(Bottom(k), Gone))
            && (!(p.listed && (s in prev || s in p.table) && IsTouched(prev, p, s)) ==>
                  (s in now <==> s in was) && (s in was ==> now[s] == was[s]))
  {
    hide Replay, IsTouched, LastClosing;
    assert Replay(h, k + 1) == Apply(Replay(h, k), Touches(h, k)) by { ReplayUnfolds(h, k); }
  }

  lemma ReplayUnfolds(h: Timeline, k: nat)
    requires k < |h|
    ensures Replay(h, k + 1) == Apply(Replay(h, k), Touches(h, k))
  {
  }

  /** Everything the file's table asks for is live exactly as asked; whatever else the state
      still holds is closed, or an anchor, or an empty gap. */
  ghost predicate Faithful(table: Table, state: Table) {
    && (forall s :: s in table ==> s in state && state[s] == table[s])
    && (forall s :: s in state && s !in table ==>
          s.Anchor? || state[s].version.Bottom? || (s.Residue? && state[s] == GapEntry([])))
  }

  lemma CoherentEntry(a: Table, b: Table, s: Sym)
    requires Coherent(a) && Coherent(b) && s in a && s in b && a[s].version == b[s].version
    ensures a[s] == b[s]
  {
    assert CoherentAt(a, s) && CoherentAt(b, s);
  }

  lemma EmptyGapEntry(t: Table, s: Sym)
    requires Coherent(t) && s in t && IsEmptyGap(t, s)
    ensures t[s] == GapEntry([])
  {
    assert CoherentAt(t, s);
  }

  /** How one symbol's state moves at a commit. */
  ghost predicate Moves(prev: Table, p: Point, k: nat, was: Table, now: Table, s: Sym) {
    if p.listed && (s in prev || s in p.table) && IsTouched(prev, p, s)
    then s in now && now[s] == (if s in p.table then p.table[s] else Entry(Bottom(k), Gone))
    else (s in now <==> s in was) && (s in was ==> now[s] == was[s])
  }

  lemma ReplayMoves(h: Timeline, k: nat, s: Sym)
    requires k < |h|
    ensures Moves(Prior(h, k), h[k], k, Replay(h, k), Replay(h, k + 1), s)
  {
    ReplayStep(h, k, s);
    hide Replay, IsTouched;
  }

  lemma StaysFaithful(prev: Table, p: Point, k: nat, was: Table, now: Table)
    requires Faithful(prev, was) && Coherent(prev) && Coherent(p.table)
    requires !p.listed ==> p.table == prev
    requires forall s: Sym :: Moves(prev, p, k, was, now, s)
    ensures Faithful(p.table, now)
  {
    forall s | s in p.table ensures s in now && now[s] == p.table[s] {
      assert Moves(prev, p, k, was, now, s);
      if s in prev && prev[s].version == p.table[s].version { CoherentEntry(prev, p.table, s); }
    }
    forall s | s in now && s !in p.table
      ensures s.Anchor? || now[s].version.Bottom? || (s.Residue? && now[s] == GapEntry([]))
    {
      assert Moves(prev, p, k, was, now, s);
      if s in prev && IsEmptyGap(prev, s) { EmptyGapEntry(prev, s); }
    }
  }

  lemma {:induction false} ReplayIsFaithful(h: Timeline, k: nat)
    requires ValidTimeline(h) && k <= |h|
    ensures Faithful(Prior(h, k), Replay(h, k))
  {
    hide *;
    if k == 0 {
      NothingYet(h);
    } else {
      ReplayIsFaithful(h, k - 1);
      FaithfulStep(h, k);
    }
  }

  lemma FaithfulStep(h: Timeline, k: nat)
    requires ValidTimeline(h) && 0 < k <= |h| && Faithful(Prior(h, k - 1), Replay(h, k - 1))
    ensures Faithful(Prior(h, k), Replay(h, k))
  {
    hide Replay, Faithful, Coherent;
    ValidAt(h, k - 1);
    hide ValidTimeline;
    var j := k - 1;
    var prev, p, was, now := Prior(h, j), h[j], Replay(h, j), Replay(h, k);
    forall s: Sym ensures Moves(prev, p, j, was, now, s) {
      ReplayMoves(h, j, s);
    }
    StaysFaithful(prev, p, j, was, now);
  }

  lemma NothingYet(h: Timeline)
    ensures Replay(h, 0) == map[] && Faithful(Prior(h, 0), Replay(h, 0))
  {
  }

  lemma ValidAt(h: Timeline, k: nat)
    requires ValidTimeline(h) && k < |h|
    ensures Coherent(Prior(h, k)) && Coherent(h[k].table)
    ensures !h[k].listed ==> h[k].table == Prior(h, k)
  {
  }

  // ---------------------------------------------------------------------------------------
  // Linked chains.

  /** The newest commit before `k` at which `s` left the table. */
  function LastExit(h: Timeline, k: nat, s: Sym): (r: Option<nat>)
    requires k <= |h|
    ensures r.Some? ==> r.value < k && s in Prior(h, r.value) && s !in h[r.value].table
    ensures forall d :: 0 <= d < k && s in Prior(h, d) && s !in h[d].table ==> r.Some? && d <= r.value
  {
    if k == 0 then None
    else if s in Prior(h, k - 1) && s !in h[k - 1].table then Some(k - 1)
    else LastExit(h, k - 1, s)
  }

  /** The exit at `d` is one the lookback will recognize: not a bookkeeping commit, and the
      symbol did not leave as an empty gap or an anchor. */
  predicate CleanExit(h: Timeline, d: nat, s: Sym)
    requires d < |h| && s in Prior(h, d)
  {
    !h[d].bookkeeping && !s.Anchor? && !IsEmptyGap(Prior(h, d), s)
  }

  /** The version an absent symbol was left with. */
  function LeftWith(h: Timeline, d: nat, s: Sym): Version
    requires d < |h| && s in Prior(h, d)
  {
    if Closes(Prior(h, d), h[d].flip, s) then Bottom(d) else Prior(h, d)[s].version
  }

  ghost predicate Remembers(h: Timeline, k: nat, s: Sym)
    requires k <= |h|
  {
    s !in Prior(h, k) ==>
      var exit := LastExit(h, k, s);
      && (s in Replay(h, k) <==> exit.Some?)
      && (exit.Some? ==> Replay(h, k)[s].version == LeftWith(h, exit.value, s))
  }

  /** While a symbol is absent the state remembers precisely its last exit. */
  lemma {:induction false} StateRemembersExit(h: Timeline, k: nat, s: Sym)
    requires ValidTimeline(h) && k <= |h|
    ensures Remembers(h, k, s)
  {
    hide *;
    if k == 0 {
      NothingRemembered(h, s);
    } else {
      StateRemembersExit(h, k - 1, s);
      ReplayMoves(h, k - 1, s);
      ReplayIsFaithful(h, k - 1);
      ValidAt(h, k - 1);
      RemembersStep(h, k, s);
    }
  }

  lemma NothingRemembered(h: Timeline, s: Sym)
    ensures Remembers(h, 0, s)
  {
    assert Replay(h, 0) == map[] && LastExit(h, 0, s) == None;
  }

  lemma RemembersStep(h: Timeline, k: nat, s: Sym)
    requires 0 < k <= |h| && Remembers(h, k - 1, s)
    requires Moves(Prior(h, k - 1), h[k - 1], k - 1, Replay(h, k - 1), Replay(h, k), s)
    requires Faithful(Prior(h, k - 1), Replay(h, k - 1))
    requires !h[k - 1].listed ==> h[k - 1].table == Prior(h, k - 1)
    ensures Remembers(h, k, s)
  {
    hide Replay, Coherent;
    if s !in Prior(h, k) {
      assert LastExit(h, k, s) == if s in Prior(h, k - 1)
             && s !in h[k - 1].table then Some(k - 1) else LastExit(h, k - 1, s);
      hide LastExit;
    }
  }

  /** The lookback finds the last exit exactly when that exit was clean. */
  lemma LookbackFindsCleanExit(h: Timeline, k: nat, s: Sym)
    requires k <= |h| && s !in Prior(h, k) && !s.Anchor?
    ensures LastExit(h, k, s).None? ==> LastClosing(h, k, s).None?
    ensures LastExit(h, k, s).Some? ==>
      (LastClosing(h, k, s) == LastExit(h, k, s) <==> CleanExit(h, LastExit(h, k, s).value, s))
  {
    var exit, closing := LastExit(h, k, s), LastClosing(h, k, s);
    if closing.Some? {
      LeavesAfter(h, closing.value, k, s);
    }
  }

  /** Between a commit that holds `s` and a later one that does not, `s` exits. */
  lemma {:induction false} LeavesAfter(h: Timeline, d: nat, k: nat, s: Sym)
    requires d < k <= |h| && s in Prior(h, d) && s !in Prior(h, k)
    ensures LastExit(h, k, s).Some? && LastExit(h, k, s).value >= d
    decreases k
  {
    if s !in Prior(h, k - 1) {
      assert d < k - 1;
      LeavesAfter(h, d, k - 1, s);
    }
  }

  /** A touch is linked when it builds on the version its symbol's previous touch produced, or
      on nothing when there was none. */
  ghost predicate Linked(h: Timeline, k: nat, s: Sym)
    requires k < |h| && s in Touches(h, k)
  {
    Touches(h, k)[s].before == if s in Replay(h, k) then Some(Replay(h, k)[s].version) else None
  }

  /** Exactly when a touch is linked: the symbol was in the file just before, or it was never
      there, or it last left in a way the lookback recognizes. */
  lemma LinkedExactlyWhen(h: Timeline, k: nat, s: Sym)
    requires ValidTimeline(h) && k < |h| && s in Touches(h, k)
    ensures Linked(h, k, s) <==>
            s in Prior(h, k) || LastExit(h, k, s).None? || CleanExit(h, LastExit(h, k, s).value, s)
  {
    ReplayIsFaithful(h, k);
    StateRemembersExit(h, k, s);
    var prev := Prior(h, k);
    hide Replay, ValidTimeline;
    var raw := Step(prev, h[k], k)[s];
    assert raw == TouchOf(prev, h[k], k, s);
    if s !in prev && !s.Anchor? { LookbackFindsCleanExit(h, k, s); }
    if s !in prev && LastExit(h, k, s).Some? && !CleanExit(h, LastExit(h, k, s).value, s) {
      UncleanIsUnlinked(h, k, s);
    }
  }

  lemma UncleanIsUnlinked(h: Timeline, k: nat, s: Sym)
    requires k < |h| && s !in Prior(h, k) && LastExit(h, k, s).Some?
    requires !CleanExit(h, LastExit(h, k, s).value, s)
    requires k > 0 ==> Coherent(Prior(h, LastExit(h, k, s).value))
    ensures s.Anchor? || LastClosing(h, k, s).None?
            || Bottom(LastClosing(h, k, s).value) != LeftWith(h, LastExit(h, k, s).value, s)
  {
    if !s.Anchor? {
      LookbackFindsCleanExit(h, k, s);
    }
  }

  /** Entities and whole files: with no bookkeeping commit in the history every touch is linked,
      and a rebirth builds on the bottom its closing commit really emitted. */
  lemma EntityChainsAreLinked(h: Timeline, k: nat, s: Sym)
    requires ValidTimeline(h) && k < |h| && s in Touches(h, k)
    requires s.Entity? || s.Nested? || s.Whole?
    requires forall d :: 0 <= d < k ==> !h[d].bookkeeping
    ensures Linked(h, k, s)
    ensures s !in Prior(h, k) && s in Replay(h, k) ==>
      exists d :: 0 <= d < k && s in Touches(h, d) && Touches(h, d)[s].after == Bottom(d)
        && Touches(h, k)[s].before == Some(Bottom(d))
  {
    LinkedExactlyWhen(h, k, s);
    StateRemembersExit(h, k, s);
    if s !in Prior(h, k) && s in Replay(h, k) {
      var d := LastExit(h, k, s).value;
      ExitIsTouched(h, d, s);
    }
    hide *;
  }

  /** Leaving is a touch. */
  lemma ExitIsTouched(h: Timeline, d: nat, s: Sym)
    requires ValidTimeline(h) && d < |h| && s in Prior(h, d) && s !in h[d].table && Closes(Prior(h, d), h[d].flip, s)
    ensures s in Touches(h, d) && Touches(h, d)[s].after == Bottom(d)
  {
    ValidAt(h, d);
    hide ValidTimeline, Closes, Chained;
    assert h[d].listed;
    assert s in Step(Prior(h, d), h[d], d);
  }

  /** The state holds what the newest touch of a symbol left, so `Linked` really speaks of
      consecutive touches. */
  lemma {:induction false} StateIsLastTouch(h: Timeline, i: nat, k: nat, s: Sym)
    requires i < k <= |h| && s in Touches(h, i) && forall j :: i < j < k ==> s !in Touches(h, j)
    ensures s in Replay(h, k) && Replay(h, k)[s] == Entry(Touches(h, i)[s].after, Touches(h, i)[s].image)
    decreases k
  {
    hide *;
    ReplayUnfolds(h, k - 1);
    if i < k - 1 {
      StateIsLastTouch(h, i, k - 1, s);
    }
  }

  lemma {:induction false} NoTouchNoState(h: Timeline, k: nat, s: Sym)
    requires k <= |h| && forall j :: 0 <= j < k ==> s !in Touches(h, j)
    ensures s !in Replay(h, k)
  {
    hide *;
    if k == 0 {
      NothingYet(h);
    } else {
      NoTouchNoState(h, k - 1, s);
      ReplayUnfolds(h, k - 1);
    }
  }

  lemma LinkedIs(h: Timeline, k: nat, s: Sym)
    requires k < |h| && s in Touches(h, k) && Linked(h, k, s)
    ensures Touches(h, k)[s].before == if s in Replay(h, k) then Some(Replay(h, k)[s].version) else None
  {
    hide Replay, Touches;
  }

  /** `k` is the next commit after `i` to touch `s`. */
  ghost predicate NextTouch(h: Timeline, i: nat, k: nat, s: Sym) {
    i < k < |h| && s in Touches(h, i) && s in Touches(h, k) && forall j :: i < j < k ==> s !in Touches(h, j)
  }

  ghost predicate FirstTouch(h: Timeline, k: nat, s: Sym) {
    k < |h| && s in Touches(h, k) && forall j :: 0 <= j < k ==> s !in Touches(h, j)
  }

  /** The touch at `k` starts from the version the one at `i` ended with. */
  ghost predicate BuildsOn(h: Timeline, i: nat, k: nat, s: Sym) {
    && i < |h| && k < |h| && s in Touches(h, i) && s in Touches(h, k)
    && Touches(h, k)[s].before == Some(Touches(h, i)[s].after)
  }

  ghost predicate IsBirth(h: Timeline, k: nat, s: Sym) {
    k < |h| && s in Touches(h, k) && Touches(h, k)[s].before == None
  }

  lemma BuildsOnLastTouch(h: Timeline, i: nat, k: nat, s: Sym)
    requires ValidTimeline(h) && NextTouch(h, i, k, s)
    requires (s.Entity? || s.Nested? || s.Whole?) && forall d :: 0 <= d < k ==> !h[d].bookkeeping
    ensures BuildsOn(h, i, k, s)
  {
    hide Touches, Replay, ValidTimeline;
    EntityChainsAreLinked(h, k, s);
    LinkedIs(h, k, s);
    StateIsLastTouch(h, i, k, s);
  }

  lemma BirthIsFirstTouch(h: Timeline, k: nat, s: Sym)
    requires ValidTimeline(h) && FirstTouch(h, k, s)
    requires (s.Entity? || s.Nested? || s.Whole?) && forall d :: 0 <= d < k ==> !h[d].bookkeeping
    ensures IsBirth(h, k, s)
  {
    hide Touches, Replay, ValidTimeline;
    EntityChainsAreLinked(h, k, s);
    LinkedIs(h, k, s);
    NoTouchNoState(h, k, s);
  }
}
