/** The fold (`sgt/core/fold.py`): a file as the verbatim concatenation of its live symbols. */
module Fold {
  import opened Names
  import opened Symbols
  import Layout

  /** One file's live symbols with their images. */
  type LiveSet = map<Sym, Image>

  /** A stretch of the folded file and the symbol it was copied from. */
  datatype Part = Part(sym: Sym, bytes: Bytes)

  function Join(parts: seq<Part>): Bytes {
    if parts == [] then [] else parts[0].bytes + Join(parts[1..])
  }

  function LiveNames(symbols: LiveSet): (r: set<Name>)
    ensures forall n :: n in r <==> Entity(n) in symbols
  {
    set s | s in symbols && s.Entity? :: s.name
  }

  /** The marker an anchor's image decodes to; an image that is no marker reads as a name. */
  function FactOf(i: Image): Option<Name> {
    match i
    case Fact(p) => p
    case _ => Some([])
  }

  function LiveFacts(symbols: LiveSet): (r: Layout.Facts)
    ensures forall n :: n in r <==> Anchor(n) in symbols
    ensures forall n :: n in r ==> r[n] == FactOf(symbols[Anchor(n)])
  {
    map n | n in (set s | s in symbols && s.Anchor? :: s.name) :: FactOf(symbols[Anchor(n)])
  }

  /** A gap that is missing or empty contributes nothing. */
  function GapPart(symbols: LiveSet, after: Option<Name>): seq<Part> {
    if Residue(after) in symbols && BytesOf(symbols[Residue(after)]) != []
    then [Part(Residue(after), BytesOf(symbols[Residue(after)]))]
    else []
  }

  function EntityPart(symbols: LiveSet, n: Name): Part {
    Part(Entity(n), if Entity(n) in symbols then BytesOf(symbols[Entity(n)]) else [])
  }

  function EntityParts(symbols: LiveSet, order: seq<Name>): seq<Part> {
    if order == [] then []
    else [EntityPart(symbols, order[0])] + GapPart(symbols, Some(order[0])) + EntityParts(symbols, order[1..])
  }

  function GapParts(symbols: LiveSet, names: seq<Name>): seq<Part> {
    if names == [] then [] else GapPart(symbols, Some(names[0])) + GapParts(symbols, names[1..])
  }

  /** Names of gaps whose own entity is not live. */
  function Orphans(symbols: LiveSet): (r: set<Name>)
    ensures forall n :: n in r <==> Residue(Some(n)) in symbols && Entity(n) !in symbols
  {
    set s | s in symbols && s.Residue? && s.after.Some? && Entity(s.after.value) !in symbols :: s.after.value
  }

  function FileOrder(symbols: LiveSet): seq<Name> {
    Layout.Order(LiveNames(symbols), LiveFacts(symbols))
  }

  function FileParts(symbols: LiveSet): seq<Part> {
    GapPart(symbols, None) + EntityParts(symbols, FileOrder(symbols)) + GapParts(symbols, Sorted(Orphans(symbols)))
  }

  /** The bytes a path folds to. */
  function FoldFile(symbols: LiveSet): Bytes {
    if Whole in symbols then BytesOf(symbols[Whole]) else Join(FileParts(symbols))
  }

  // ---------------------------------------------------------------------------------------
  // Conservation: every image exactly once, nothing else.

  /** The symbols whose bytes the fold of a file without a whole-file symbol must contain. */
  ghost predicate Carries(symbols: LiveSet, s: Sym) {
    s in symbols && (s.Entity? || (s.Residue? && BytesOf(symbols[s]) != []))
  }

  function Labels(parts: seq<Part>): (r: seq<Sym>)
    ensures |r| == |parts| && forall i :: 0 <= i < |r| ==> r[i] == parts[i].sym
  {
    seq(|parts|, i requires 0 <= i < |parts| => parts[i].sym)
  }

  lemma LabelsConcat(a: seq<Part>, b: seq<Part>)
    ensures Labels(a + b) == Labels(a) + Labels(b)
  {
  }

  lemma {:induction false} JoinConcat(a: seq<Part>, b: seq<Part>)
    ensures Join(a + b) == Join(a) + Join(b)
  {
    if a == [] {
      assert a + b == b;
    } else {
      assert (a + b)[1..] == a[1..] + b && (a + b)[0] == a[0];
      assert Join(a + b) == a[0].bytes + Join(a[1..] + b);
      assert Join(a) == a[0].bytes + Join(a[1..]);
      hide Join;
      JoinConcat(a[1..], b);
      Associates(a[0].bytes, Join(a[1..]), Join(b));
    }
  }

  /** Every part is a live image, copied whole. */
  ghost predicate Verbatim(symbols: LiveSet, parts: seq<Part>) {
    forall p :: p in parts ==> p.sym in symbols && p.bytes == BytesOf(symbols[p.sym])
  }

  /** `s` is the image of a name in `names`, or the gap behind one. */
  ghost predicate OwnedBy(s: Sym, names: seq<Name>) {
    (s.Entity? && s.name in names) || (s.Residue? && s.after.Some? && s.after.value in names)
  }

  /** The labels of `parts` are exactly the byte-carrying symbols owned by `names`, once each. */
  ghost predicate CoversNames(symbols: LiveSet, parts: seq<Part>, names: seq<Name>) {
    && Distinct(Labels(parts))
    && (forall s :: s in Labels(parts) <==> Carries(symbols, s) && OwnedBy(s, names))
    && Verbatim(symbols, parts)
  }

  lemma HeadCovers(symbols: LiveSet, n: Name)
    requires Entity(n) in symbols
    ensures CoversNames(symbols, [EntityPart(symbols, n)] + GapPart(symbols, Some(n)), [n])
  {
    var parts := [EntityPart(symbols, n)] + GapPart(symbols, Some(n));
    var labels := Labels(parts);
    assert labels == if GapPart(symbols, Some(n)) == [] then [Entity(n)] else [Entity(n), Residue(Some(n))];
  }

  lemma CoversConcat(symbols: LiveSet, a: seq<Part>, x: seq<Name>, b: seq<Part>, y: seq<Name>)
    requires CoversNames(symbols, a, x) && CoversNames(symbols, b, y)
    requires forall n :: n in y ==> n !in x
    ensures CoversNames(symbols, a + b, x + y)
  {
    LabelsConcat(a, b);
    hide Labels, Carries;
    assert forall s :: OwnedBy(s, x + y) <==> OwnedBy(s, x) || OwnedBy(s, y);
    DistinctConcat(Labels(a), Labels(b));
  }

  lemma {:induction false} EntityPartsCover(symbols: LiveSet, order: seq<Name>)
    requires Distinct(order) && forall n :: n in order ==> Entity(n) in symbols
    ensures CoversNames(symbols, EntityParts(symbols, order), order)
  {
    if order == [] {
      assert Labels(EntityParts(symbols, order)) == [];
    } else {
      var n, rest := order[0], order[1..];
      assert order == [n] + rest && n !in rest;
      hide CoversNames;
      EntityPartsCover(symbols, rest);
      HeadCovers(symbols, n);
      CoversConcat(symbols, [EntityPart(symbols, n)] + GapPart(symbols, Some(n)), [n], EntityParts(symbols, rest),
                   rest);
    }
  }

  lemma OneGapCovers(symbols: LiveSet, n: Name)
    ensures Distinct(Labels(GapPart(symbols, Some(n)))) && Verbatim(symbols, GapPart(symbols, Some(n)))
    ensures forall s :: s in Labels(GapPart(symbols, Some(n))) <==> Carries(symbols, s) && s == Residue(Some(n))
  {
    var head := GapPart(symbols, Some(n));
    assert Labels(head) == if head == [] then [] else [Residue(Some(n))];
  }

  lemma {:induction false} GapPartsCover(symbols: LiveSet, names: seq<Name>)
    requires Distinct(names)
    ensures Distinct(Labels(GapParts(symbols, names)))
    ensures forall s :: s in Labels(GapParts(symbols, names)) <==>
      Carries(symbols, s) && s.Residue? && s.after.Some? && s.after.value in names
    ensures Verbatim(symbols, GapParts(symbols, names))
  {
    if names == [] {
      assert Labels(GapParts(symbols, names)) == [];
    } else {
      var n, rest := names[0], names[1..];
      assert names == [n] + rest && n !in rest;
      var head, tail := GapPart(symbols, Some(n)), GapParts(symbols, rest);
      assert GapParts(symbols, names) == head + tail;
      hide Carries, Labels, Verbatim, GapPart, GapParts;
      GapPartsCover(symbols, rest);
      OneGapCovers(symbols, n);
      LabelsConcat(head, tail);
      VerbatimConcat(symbols, head, tail);
      DistinctConcat(Labels(head), Labels(tail));
    }
  }

  /** Any live symbol set at all, orphans and stale facts included: each top-level image and
      each non-empty gap is spliced exactly once, verbatim, and nothing else is. */
  lemma EachImageOnce(symbols: LiveSet)
    ensures Distinct(Labels(FileParts(symbols)))
    ensures forall s :: s in Labels(FileParts(symbols)) <==> Carries(symbols, s)
    ensures Verbatim(symbols, FileParts(symbols))
  {
    hide Carries, Labels, Verbatim, Distinct, Join;
    var order, orphans := FileOrder(symbols), Sorted(Orphans(symbols));
    OrderIsLive(symbols);
    EntityPartsCover(symbols, order);
    GapPartsCover(symbols, orphans);
    HeadGapCovers(symbols);
    var head, mid, last := GapPart(symbols, None), EntityParts(symbols, order), GapParts(symbols, orphans);
    assert FileParts(symbols) == head + mid + last;
    hide FileParts, EntityParts, GapParts, GapPart, FileOrder, OwnedBy;
    LabelsConcat(head, mid);
    LabelsConcat(head + mid, last);
    VerbatimConcat(symbols, head, mid);
    VerbatimConcat(symbols, head + mid, last);
    ThreeCover(symbols, order, Labels(head), Labels(mid), Labels(last));
  }

  lemma OrderIsLive(symbols: LiveSet)
    ensures Distinct(FileOrder(symbols))
    ensures forall n :: n in FileOrder(symbols) <==> Entity(n) in symbols
  {
    hide Layout.Order;
    Layout.OrderPlacesEachNameOnce(LiveNames(symbols), LiveFacts(symbols));
  }

  lemma HeadGapCovers(symbols: LiveSet)
    ensures Distinct(Labels(GapPart(symbols, None)))
    ensures forall s :: s in Labels(GapPart(symbols, None)) <==> Carries(symbols, s) && s == Residue(None)
    ensures Verbatim(symbols, GapPart(symbols, None))
  {
    var head := GapPart(symbols, None);
    assert Labels(head) == if head == [] then [] else [Residue(None)];
  }

  lemma VerbatimConcat(symbols: LiveSet, a: seq<Part>, b: seq<Part>)
    requires Verbatim(symbols, a) && Verbatim(symbols, b)
    ensures Verbatim(symbols, a + b)
  {
  }

  lemma ThreeCover(symbols: LiveSet, order: seq<Name>, a: seq<Sym>, b: seq<Sym>, c: seq<Sym>)
    requires forall n :: n in order <==> Entity(n) in symbols
    requires Distinct(a) && Distinct(b) && Distinct(c)
    requires forall s :: s in a <==> Carries(symbols, s) && s == Residue(None)
    requires forall s :: s in b <==> Carries(symbols, s) && OwnedBy(s, order)
    requires forall s :: s in c <==> Carries(symbols, s) && s.Residue? && s.after.Some?
                                     && s.after.value in Orphans(symbols)
    ensures Distinct(a + b + c)
    ensures forall s :: s in a + b + c <==> Carries(symbols, s)
  {
    DistinctConcat(a, b);
    DistinctConcat(a + b, c);
    hide Distinct;
  }

  /** Total size of the images of a set of symbols. */
  ghost function Size(symbols: LiveSet, ss: set<Sym>): nat
    requires forall s :: s in ss ==> s in symbols
  {
    if ss == {} then 0
    else
      var s :| s in ss;
      |BytesOf(symbols[s])| + Size(symbols, ss - {s})
  }

  lemma {:induction false} SizeSplits(symbols: LiveSet, ss: set<Sym>, s: Sym)
    requires s in ss && forall t :: t in ss ==> t in symbols
    ensures Size(symbols, ss) == |BytesOf(symbols[s])| + Size(symbols, ss - {s})
    decreases |ss|
  {
    var t :| t in ss && Size(symbols, ss) == |BytesOf(symbols[t])| + Size(symbols, ss - {t});
    if t != s {
      SizeSplits(symbols, ss - {t}, s);
      SizeSplits(symbols, ss - {s}, t);
      assert ss - {t} - {s} == ss - {s} - {t};
    }
  }

  lemma {:induction false} JoinLength(symbols: LiveSet, parts: seq<Part>, ss: set<Sym>)
    requires Distinct(Labels(parts)) && Verbatim(symbols, parts)
    requires forall s :: s in ss <==> s in Labels(parts)
    ensures forall s :: s in ss ==> s in symbols
    ensures |Join(parts)| == Size(symbols, ss)
  {
    LabelsAreLive(symbols, parts);
    if parts == [] {
      assert Labels(parts) == [];
      assert ss == {};
    } else {
      var s := parts[0].sym;
      assert parts[0] in parts;
      LabelsHead(parts);
      hide Labels, Size, BytesOf, Distinct;
      JoinLength(symbols, parts[1..], ss - {s});
      SizeSplits(symbols, ss, s);
    }
  }

  lemma LabelsHead(parts: seq<Part>)
    requires parts != []
    ensures Labels(parts) == [parts[0].sym] + Labels(parts[1..])
    ensures Distinct(Labels(parts)) ==> Distinct(Labels(parts[1..])) && parts[0].sym !in Labels(parts[1..])
  {
    var l, rest := Labels(parts), Labels(parts[1..]);
    assert l == [parts[0].sym] + rest;
    if Distinct(l) {
      assert forall i :: 0 <= i < |rest| ==> l[i + 1] == rest[i];
    }
  }

  lemma LabelsAreLive(symbols: LiveSet, parts: seq<Part>)
    requires Verbatim(symbols, parts)
    ensures forall s :: s in Labels(parts) ==> s in symbols
  {
    forall s | s in Labels(parts) ensures s in symbols {
      var i :| 0 <= i < |parts| && Labels(parts)[i] == s;
      assert parts[i] in parts;
    }
  }

  /** No byte is dropped and none is synthesized: the file is as long as its parts together. */
  lemma LengthIsConserved(symbols: LiveSet)
    requires Whole !in symbols
    ensures |FoldFile(symbols)| == Size(symbols, set s | s in symbols && Carries(symbols, s))
  {
    EachImageOnce(symbols);
    JoinLength(symbols, FileParts(symbols), set s | s in symbols && Carries(symbols, s));
  }

  // ---------------------------------------------------------------------------------------
  // The imperative fold.

  function Flatten(parts: seq<Bytes>): Bytes {
    if parts == [] then [] else Flatten(parts[..|parts| - 1]) + parts[|parts| - 1]
  }

  lemma FlattenAppend(parts: seq<Bytes>, x: Bytes)
    ensures Flatten(parts + [x]) == Flatten(parts) + x
  {
    assert (parts + [x])[..|parts|] == parts;
  }

  /** The parts so far and the bytes still to come make up `all`. */
  ghost predicate Accounts(parts: seq<Bytes>, rest: Bytes, all: Bytes) {
    Flatten(parts) + rest == all
  }

  /** `if gap: parts.append(gap)`. */
  function AppendGap(parts: seq<Bytes>, gap: Bytes): seq<Bytes> {
    if gap != [] then parts + [gap] else parts
  }

  lemma AccountGap(parts: seq<Bytes>, gap: Bytes, rest: Bytes, all: Bytes)
    requires Accounts(parts, gap + rest, all)
    ensures Accounts(AppendGap(parts, gap), rest, all)
  {
    FlattenAppend(parts, gap);
    hide Flatten;
    Associates(Flatten(parts), gap, rest);
    if gap == [] { assert gap + rest == rest; }
  }

  lemma AccountImage(parts: seq<Bytes>, image: Bytes, gap: Bytes, rest: Bytes, all: Bytes)
    requires Accounts(parts, image + gap + rest, all)
    ensures Accounts(AppendGap(parts + [image], gap), rest, all)
  {
    FlattenAppend(parts, image);
    hide Flatten, AppendGap;
    Associates(image, gap, rest);
    Associates(Flatten(parts), image, gap + rest);
    AccountGap(parts + [image], gap, rest, all);
  }

  /** What the four dictionaries `_fold_file` fills hold after the symbols in `seen`: the anchors, */
  ghost predicate AnchorsSoFar(symbols: LiveSet, seen: seq<Sym>, anchorOf: Layout.Facts) {
    && (forall n :: n in anchorOf <==> Anchor(n) in seen)
    && (forall n :: n in anchorOf ==> Anchor(n) in symbols && anchorOf[n] == FactOf(symbols[Anchor(n)]))
  }

  /** the entities and their images, */
  ghost predicate EntitiesSoFar(symbols: LiveSet, seen: seq<Sym>, names: seq<Name>, images: map<Name, Bytes>) {
    && Distinct(names)
    && (forall n :: n in names <==> Entity(n) in seen)
    && (forall n :: n in images <==> Entity(n) in seen)
    && (forall n :: n in images ==> Entity(n) in symbols && images[n] == BytesOf(symbols[Entity(n)]))
  }

  /** and the gaps. */
  ghost predicate GapsSoFar(symbols: LiveSet, seen: seq<Sym>, gaps: map<Option<Name>, Bytes>) {
    && (forall a :: a in gaps <==> Residue(a) in seen)
    && (forall a :: a in gaps ==> Residue(a) in symbols && gaps[a] == BytesOf(symbols[Residue(a)]))
  }

  ghost predicate Collected(symbols: LiveSet, seen: seq<Sym>, anchorOf: Layout.Facts, names: seq<Name>,
                            images: map<Name, Bytes>, gaps: map<Option<Name>, Bytes>) {
    && AnchorsSoFar(symbols, seen, anchorOf)
    && EntitiesSoFar(symbols, seen, names, images)
    && GapsSoFar(symbols, seen, gaps)
  }

  lemma AnchorsMore(symbols: LiveSet, seen: seq<Sym>, s: Sym, anchorOf: Layout.Facts)
    requires AnchorsSoFar(symbols, seen, anchorOf) && s in symbols
    ensures AnchorsSoFar(symbols, seen + [s], if s.Anchor? then anchorOf[s.name := FactOf(symbols[s])] else anchorOf)
  {
  }

  lemma EntitiesMore(symbols: LiveSet, seen: seq<Sym>, s: Sym, names: seq<Name>, images: map<Name, Bytes>)
    requires EntitiesSoFar(symbols, seen, names, images) && s in symbols && s !in seen
    ensures EntitiesSoFar(symbols, seen + [s], if s.Entity? then names + [s.name] else names,
                          if s.Entity? then images[s.name := BytesOf(symbols[s])] else images)
  {
    hide Distinct;
    if s.Entity? {
      assert Distinct([s.name]) by { OneIsDistinct(s.name); }
      DistinctConcat(names, [s.name]);
    }
  }

  lemma OneIsDistinct(n: Name)
    ensures Distinct([n])
  {
  }

  lemma GapsMore(symbols: LiveSet, seen: seq<Sym>, s: Sym, gaps: map<Option<Name>, Bytes>)
    requires GapsSoFar(symbols, seen, gaps) && s in symbols
    ensures GapsSoFar(symbols, seen + [s], if s.Residue? then gaps[s.after := BytesOf(symbols[s])] else gaps)
  {
  }

  lemma CollectMore(symbols: LiveSet, items: seq<Sym>, i: nat, anchorOf: Layout.Facts, names: seq<Name>,
                    images: map<Name, Bytes>, gaps: map<Option<Name>, Bytes>)
    requires Distinct(items) && i < |items| && items[i] in symbols
    requires Collected(symbols, items[..i], anchorOf, names, images, gaps)
    ensures var s := items[i];
            Collected(symbols, items[..i + 1],
                      if s.Anchor? then anchorOf[s.name := FactOf(symbols[s])] else anchorOf,
                      if s.Entity? then names + [s.name] else names,
                      if s.Entity? then images[s.name := BytesOf(symbols[s])] else images,
                      if s.Residue? then gaps[s.after := BytesOf(symbols[s])] else gaps)
  {
    var s := items[i];
    assert items[..i + 1] == items[..i] + [s];
    assert s !in items[..i];
    AnchorsMore(symbols, items[..i], s, anchorOf);
    EntitiesMore(symbols, items[..i], s, names, images);
    GapsMore(symbols, items[..i], s, gaps);
    hide AnchorsSoFar, EntitiesSoFar, GapsSoFar, FactOf, BytesOf, Distinct;
  }

  lemma CollectedNothing(symbols: LiveSet, items: seq<Sym>)
    ensures Collected(symbols, items[..0], map[], [], map[], map[])
  {
    assert items[..0] == [];
  }

  /** `items` lists the keys of the dictionary, in some order. */
  ghost predicate Lists(items: seq<Sym>, symbols: LiveSet) {
    Distinct(items) && forall s :: s in items <==> s in symbols
  }

  lemma ListedIsLive(items: seq<Sym>, symbols: LiveSet, i: nat)
    requires Lists(items, symbols) && i < |items|
    ensures Distinct(items) && items[i] in symbols
  {
    assert items[i] in items;
  }

  method Collect(symbols: LiveSet, items: seq<Sym>)
    returns (anchorOf: Layout.Facts, names: seq<Name>, images: map<Name, Bytes>, gaps: map<Option<Name>, Bytes>)
    requires Lists(items, symbols)
    ensures Collected(symbols, items, anchorOf, names, images, gaps)
  {
    anchorOf, names, images, gaps := map[], [], map[], map[];
    hide *;
    CollectedNothing(symbols, items);
    var i := 0;
    while i < |items|
      invariant 0 <= i <= |items|
      invariant Collected(symbols, items[..i], anchorOf, names, images, gaps)
    {
      var s := items[i];
      ListedIsLive(items, symbols, i);
      CollectMore(symbols, items, i, anchorOf, names, images, gaps);
      match s {
        case Anchor(n) => anchorOf := anchorOf[n := FactOf(symbols[s])];
        case Entity(n) =>
          names := names + [n];
          images := images[n := BytesOf(symbols[s])];
        case Residue(a) => gaps := gaps[a := BytesOf(symbols[s])];
        case _ =>
      }
      i := i + 1;
    }
    assert items[..i] == items;
  }

  lemma CollectedIsLive(symbols: LiveSet, items: seq<Sym>, anchorOf: Layout.Facts, names: seq<Name>,
                        images: map<Name, Bytes>, gaps: map<Option<Name>, Bytes>)
    requires Lists(items, symbols) && Collected(symbols, items, anchorOf, names, images, gaps)
    ensures anchorOf == LiveFacts(symbols)
    ensures Elements(names) == LiveNames(symbols) && Distinct(names)
    ensures EntitiesSoFar(symbols, items, names, images) && GapsSoFar(symbols, items, gaps)
  {
  }

  /** The gaps not yet popped: all but those of the names already spliced. */
  ghost predicate Unpopped(symbols: LiveSet, spliced: seq<Name>, gaps: map<Option<Name>, Bytes>) {
    && (forall a :: a in gaps <==> Residue(a) in symbols && a.Some? && a.value !in spliced)
    && (forall a :: a in gaps ==> gaps[a] == BytesOf(symbols[Residue(a)]))
  }

  /** One entity, its trailing gap popped behind it. */
  method SpliceOne(symbols: LiveSet, order: seq<Name>, i: nat, images: map<Name, Bytes>,
                   gaps0: map<Option<Name>, Bytes>,
                   parts0: seq<Bytes>, ghost all: Bytes)
    returns (parts: seq<Bytes>, gaps: map<Option<Name>, Bytes>)
    requires i < |order| && Distinct(order) && Unpopped(symbols, order[..i], gaps0)
    requires Entity(order[i]) in symbols && order[i] in images && images[order[i]] == BytesOf(symbols[Entity(order[i])])
    requires Accounts(parts0, Join(EntityParts(symbols, order[i..])), all)
    ensures Unpopped(symbols, order[..i + 1], gaps) && Accounts(parts, Join(EntityParts(symbols, order[i + 1..])), all)
  {
    hide *;
    var name := order[i];
    EntityPartsStep(symbols, order, i);
    GapJoin(symbols, name);
    PopOne(symbols, order, i, gaps0);
    var image := images[name];
    var gap := if Some(name) in gaps0 then gaps0[Some(name)] else [];
    AccountImage(parts0, image, gap, Join(EntityParts(symbols, order[i + 1..])), all);
    parts := AppendGap(parts0 + [image], gap);
    gaps := gaps0 - {Some(name)};
  }

  /** Entities in order, each with its trailing gap popped behind it. */
  method SpliceEntities(symbols: LiveSet, order: seq<Name>, images: map<Name, Bytes>, gaps0: map<Option<Name>, Bytes>,
                        parts0: seq<Bytes>)
    returns (parts: seq<Bytes>, gaps: map<Option<Name>, Bytes>)
    requires Distinct(order) && HasImages(symbols, order, images)
    requires Unpopped(symbols, [], gaps0)
    ensures Flatten(parts) == Flatten(parts0) + Join(EntityParts(symbols, order))
    ensures Unpopped(symbols, order, gaps)
  {
    parts, gaps := parts0, gaps0;
    ghost var all := Flatten(parts0) + Join(EntityParts(symbols, order));
    hide *;
    assert order[..0] == [];
    EntitiesToCome(symbols, order, parts0);
    var i := 0;
    while i < |order|
      invariant 0 <= i <= |order|
      invariant Unpopped(symbols, order[..i], gaps)
      invariant Accounts(parts, Join(EntityParts(symbols, order[i..])), all)
    {
      ImageOf(symbols, order, images, i);
      parts, gaps := SpliceOne(symbols, order, i, images, gaps, parts, all);
      i := i + 1;
    }
    assert order[..i] == order;
    EntitiesDone(symbols, order, parts, all);
  }

  ghost predicate HasImages(symbols: LiveSet, order: seq<Name>, images: map<Name, Bytes>) {
    forall n :: n in order ==> Entity(n) in symbols && n in images && images[n] == BytesOf(symbols[Entity(n)])
  }

  lemma ImageOf(symbols: LiveSet, order: seq<Name>, images: map<Name, Bytes>, i: nat)
    requires HasImages(symbols, order, images) && i < |order|
    ensures Entity(order[i]) in symbols && order[i] in images && images[order[i]] == BytesOf(symbols[Entity(order[i])])
  {
    assert order[i] in order;
  }

  lemma EntitiesToCome(symbols: LiveSet, order: seq<Name>, parts: seq<Bytes>)
    ensures Accounts(parts, Join(EntityParts(symbols, order[0..])), Flatten(parts) + Join(EntityParts(symbols, order)))
  {
    assert order[0..] == order;
    hide Join, EntityParts, Flatten;
  }

  lemma EntitiesDone(symbols: LiveSet, order: seq<Name>, parts: seq<Bytes>, all: Bytes)
    requires Accounts(parts, Join(EntityParts(symbols, order[|order|..])), all)
    ensures Flatten(parts) == all
  {
    hide *;
    assert order[|order|..] == [];
    NoParts(symbols);
    AccountsEnd(parts, all);
  }

  lemma AccountsEnd(parts: seq<Bytes>, all: Bytes)
    requires Accounts(parts, [], all)
    ensures Flatten(parts) == all
  {
    assert Flatten(parts) + [] == Flatten(parts);
  }

  lemma NoParts(symbols: LiveSet)
    ensures Join(EntityParts(symbols, [])) == [] && Join(GapParts(symbols, [])) == []
  {
  }

  lemma PopOne(symbols: LiveSet, order: seq<Name>, i: nat, gaps: map<Option<Name>, Bytes>)
    requires Distinct(order) && i < |order| && Unpopped(symbols, order[..i], gaps)
    ensures Unpopped(symbols, order[..i + 1], gaps - {Some(order[i])})
    ensures (if Some(order[i]) in gaps then gaps[Some(order[i])] else [])
            == if Residue(Some(order[i])) in symbols then BytesOf(symbols[Residue(Some(order[i]))]) else []
  {
    assert order[..i + 1] == order[..i] + [order[i]];
    assert order[i] !in order[..i];
  }

  lemma GapJoin(symbols: LiveSet, n: Name)
    ensures Join(GapPart(symbols, Some(n))) == if Residue(Some(n)) in symbols then BytesOf(symbols[Residue(Some(n))])
                                               else []
  {
    var g := GapPart(symbols, Some(n));
    if g != [] { assert Join(g) == g[0].bytes + Join(g[1..]); }
  }

  lemma EntityPartsStep(symbols: LiveSet, order: seq<Name>, i: nat)
    requires i < |order| && Entity(order[i]) in symbols
    ensures Join(EntityParts(symbols, order[i..])) ==
            BytesOf(symbols[Entity(order[i])]) + Join(GapPart(symbols, Some(order[i])))
            + Join(EntityParts(symbols, order[i + 1..]))
  {
    var n, rest := order[i], order[i + 1..];
    assert order[i..][0] == n && order[i..][1..] == rest;
    var head, gap, tail := [EntityPart(symbols, n)], GapPart(symbols, Some(n)), EntityParts(symbols, rest);
    assert EntityParts(symbols, order[i..]) == head + gap + tail;
    hide EntityParts, GapPart;
    JoinConcat(head, gap);
    JoinConcat(head + gap, tail);
    assert Join(head) == BytesOf(symbols[Entity(n)]);
  }

  /** Whatever is left in the dictionary belongs to no live entity: it renders last, by name. */
  method SpliceOrphans(symbols: LiveSet, order: seq<Name>, gaps: map<Option<Name>, Bytes>, parts0: seq<Bytes>)
    returns (parts: seq<Bytes>)
    requires Unpopped(symbols, order, gaps) && forall n :: n in order <==> Entity(n) in symbols
    ensures Flatten(parts) == Flatten(parts0) + Join(GapParts(symbols, Sorted(Orphans(symbols))))
  {
    parts := parts0;
    var left := Sorted(set a | a in gaps && a.Some? :: a.value);
    hide *;
    LeftAreOrphans(symbols, order, gaps);
    ghost var all := Flatten(parts0) + Join(GapParts(symbols, left));
    OrphansToCome(symbols, left, parts0);
    var i := 0;
    while i < |left|
      invariant 0 <= i <= |left|
      invariant Accounts(parts, Join(GapParts(symbols, left[i..])), all)
    {
      var name := left[i];
      LeftGap(symbols, order, gaps, left, i);
      OrphanStep(symbols, left, i, parts, all);
      parts := AppendGap(parts, gaps[Some(name)]);
      i := i + 1;
    }
    OrphansDone(symbols, left, parts, all);
  }

  lemma LeftGap(symbols: LiveSet, order: seq<Name>, gaps: map<Option<Name>, Bytes>, left: seq<Name>, i: nat)
    requires Unpopped(symbols, order, gaps) && left == Sorted(set a | a in gaps && a.Some? :: a.value) && i < |left|
    ensures Some(left[i]) in gaps && Residue(Some(left[i])) in symbols
    ensures gaps[Some(left[i])] == BytesOf(symbols[Residue(Some(left[i]))])
  {
    assert left[i] in left;
    hide Sorted, BytesOf;
  }

  lemma OrphanStep(symbols: LiveSet, left: seq<Name>, i: nat, parts: seq<Bytes>, all: Bytes)
    requires i < |left| && Accounts(parts, Join(GapParts(symbols, left[i..])), all) && Residue(Some(left[i])) in symbols
    ensures Accounts(AppendGap(parts, BytesOf(symbols[Residue(Some(left[i]))])), Join(GapParts(symbols, left[i + 1..])),
                     all)
  {
    hide *;
    GapPartsStep(symbols, left, i);
    GapJoin(symbols, left[i]);
    AccountGap(parts, BytesOf(symbols[Residue(Some(left[i]))]), Join(GapParts(symbols, left[i + 1..])), all);
  }

  lemma OrphansToCome(symbols: LiveSet, left: seq<Name>, parts: seq<Bytes>)
    ensures Accounts(parts, Join(GapParts(symbols, left[0..])), Flatten(parts) + Join(GapParts(symbols, left)))
  {
    assert left[0..] == left;
    hide Join, GapParts, Flatten;
  }

  lemma OrphansDone(symbols: LiveSet, left: seq<Name>, parts: seq<Bytes>, all: Bytes)
    requires Accounts(parts, Join(GapParts(symbols, left[|left|..])), all)
    ensures Flatten(parts) == all
  {
    hide *;
    assert left[|left|..] == [];
    NoParts(symbols);
    AccountsEnd(parts, all);
  }

  lemma LeftAreOrphans(symbols: LiveSet, order: seq<Name>, gaps: map<Option<Name>, Bytes>)
    requires Unpopped(symbols, order, gaps) && forall n :: n in order <==> Entity(n) in symbols
    ensures (set a | a in gaps && a.Some? :: a.value) == Orphans(symbols)
  {
    var left := set a | a in gaps && a.Some? :: a.value;
    forall n ensures n in left <==> n in Orphans(symbols) {
      assert n in left <==> Some(n) in gaps;
    }
  }

  lemma GapPartsStep(symbols: LiveSet, names: seq<Name>, i: nat)
    requires i < |names|
    ensures Join(GapParts(symbols, names[i..])) == Join(GapPart(symbols, Some(names[i])))
            + Join(GapParts(symbols, names[i + 1..]))
  {
    assert names[i..][0] == names[i] && names[i..][1..] == names[i + 1..];
    hide GapPart;
    JoinConcat(GapPart(symbols, Some(names[i])), GapParts(symbols, names[i + 1..]));
  }

  lemma HeadJoin(symbols: LiveSet)
    ensures Join(GapPart(symbols, None)) == if Residue(None) in symbols then BytesOf(symbols[Residue(None)]) else []
  {
    var g := GapPart(symbols, None);
    if g != [] { assert Join(g) == g[0].bytes + Join(g[1..]); }
  }

  /** `_fold_file`.  `items` is the order in which the dictionary happens to list its keys. */
  method FoldPath(symbols: LiveSet, items: seq<Sym>) returns (bytes: Bytes)
    requires Lists(items, symbols)
    ensures bytes == FoldFile(symbols)
  {
    if Whole in symbols {
      return BytesOf(symbols[Whole]);
    }
    FoldIsParts(symbols);
    hide *;
    var anchorOf, names, images, gaps := Collect(symbols, items);
    CollectedIsLive(symbols, items, anchorOf, names, images, gaps);
    var order := Layout.OrderEntities(Elements(names), names, anchorOf);
    OrderIsLive(symbols);
    OrderHasImages(symbols, items, order, names, images);
    var parts;
    parts, gaps := PopHead(symbols, items, gaps);
    parts, gaps := SpliceEntities(symbols, order, images, gaps, parts);
    parts := SpliceOrphans(symbols, order, gaps, parts);
    bytes := Flatten(parts);
  }

  lemma FoldIsParts(symbols: LiveSet)
    requires Whole !in symbols
    ensures FileOrder(symbols) == Layout.Order(LiveNames(symbols), LiveFacts(symbols))
    ensures FoldFile(symbols) ==
            Join(GapPart(symbols, None)) + Join(EntityParts(symbols, FileOrder(symbols)))
            + Join(GapParts(symbols, Sorted(Orphans(symbols))))
  {
    JoinParts(symbols);
    hide Join, FileParts, EntityParts, GapParts, GapPart, Layout.Order, LiveNames, LiveFacts, Orphans;
  }

  lemma OrderHasImages(symbols: LiveSet, items: seq<Sym>, order: seq<Name>, names: seq<Name>, images: map<Name, Bytes>)
    requires Lists(items, symbols) && EntitiesSoFar(symbols, items, names, images)
    requires forall n :: n in order <==> Entity(n) in symbols
    ensures HasImages(symbols, order, images)
  {
    hide BytesOf, Distinct;
  }

  /** The head gap, popped first. */
  method PopHead(symbols: LiveSet, items: seq<Sym>, gaps0: map<Option<Name>, Bytes>)
    returns (parts: seq<Bytes>, gaps: map<Option<Name>, Bytes>)
    requires Lists(items, symbols) && GapsSoFar(symbols, items, gaps0)
    ensures Flatten(parts) == Join(GapPart(symbols, None))
    ensures Unpopped(symbols, [], gaps)
  {
    var head := if None in gaps0 then gaps0[None] else [];
    parts := AppendGap([], head);
    gaps := gaps0 - {None};
    FlattenAppend([], head);
    HeadJoin(symbols);
  }

  lemma JoinParts(symbols: LiveSet)
    ensures Join(FileParts(symbols)) ==
            Join(GapPart(symbols, None)) + Join(EntityParts(symbols, FileOrder(symbols)))
            + Join(GapParts(symbols, Sorted(Orphans(symbols))))
  {
    hide Join, GapPart, EntityParts, GapParts, FileOrder;
    JoinConcat(GapPart(symbols, None), EntityParts(symbols, FileOrder(symbols)));
    JoinConcat(GapPart(symbols, None) + EntityParts(symbols, FileOrder(symbols)),
               GapParts(symbols, Sorted(Orphans(symbols))));
  }
}
