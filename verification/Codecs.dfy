/** How ops are written down and addressed (`sgt/core/op.py`, `compute_id`).

    An op's id is computed from its content and nothing else: symbols sorted, each with its versions, then
    what it requires.  Hashing is left out -- it is taken to be injective -- and the canonical text itself
    stands for the digest.  What matters is that the text determines the content. */
module Codecs {
  import opened Names
  import opened Symbols
  import opened BuildMap
  import opened Order

  /** How symbols, versions and ops are written down. */
  datatype Codec = Codec(name: Sym -> Name, version: Version -> OpVersion, id: OrderedOp -> Name)

  /** None is mistaken for another; in particular ops are content-addressed: same content, same id, and
      same id, same content. */
  ghost predicate IsCodec(c: Codec) {
    && (forall a, b :: c.name(a) == c.name(b) ==> a == b)
    && (forall a, b :: c.version(a) == c.version(b) ==> a == b)
    && (forall a, b :: c.id(a) == c.id(b) ==> a == b)
  }

  // ---------------------------------------------------------------------------------------
  // Texts that can be read back.

  function Tally(n: nat): string {
    if n == 0 then "" else "1" + Tally(n - 1)
  }

  lemma {:induction false} TallyIs(n: nat)
    ensures |Tally(n)| == n && forall i :: 0 <= i < n ==> Tally(n)[i] == '1'
  {
    if n > 0 { TallyIs(n - 1); }
  }

  /** A text with its length in front. */
  function Quoted(s: string): string {
    Tally(|s|) + "." + s
  }

  lemma TallyReads(n: nat, m: nat, x: string, y: string)
    requires Tally(n) + "." + x == Tally(m) + "." + y
    ensures n == m && x == y
  {
    TallyIs(n);
    TallyIs(m);
    hide Tally;
    var a, b := Tally(n) + "." + x, Tally(m) + "." + y;
    assert a[n] == '.' && forall i :: 0 <= i < n ==> a[i] == '1';
    assert b[m] == '.' && forall i :: 0 <= i < m ==> b[i] == '1';
    assert x == a[n + 1..] && y == b[m + 1..];
  }

  lemma QuotedReads(s: string, t: string, x: string, y: string)
    requires Quoted(s) + x == Quoted(t) + y
    ensures s == t && x == y
  {
    hide Tally;
    assert Quoted(s) + x == Tally(|s|) + "." + (s + x);
    assert Quoted(t) + y == Tally(|t|) + "." + (t + y);
    TallyReads(|s|, |t|, s + x, t + y);
    assert s == (s + x)[..|s|] && t == (t + y)[..|t|];
    assert x == (s + x)[|s|..] && y == (t + y)[|t|..];
  }

  function Listed(ss: seq<string>): string {
    if ss == [] then "" else Quoted(ss[0]) + Listed(ss[1..])
  }

  lemma QuotedIsLong()
    ensures forall s {:trigger Quoted(s)} :: |Quoted(s)| > 0
  {
  }

  lemma {:induction false} ListedReads(a: seq<string>, b: seq<string>)
    requires Listed(a) == Listed(b)
    ensures a == b
  {
    QuotedIsLong();
    hide Quoted;
    if a != [] && b != [] {
      QuotedReads(a[0], b[0], Listed(a[1..]), Listed(b[1..]));
      ListedReads(a[1..], b[1..]);
      assert a == [a[0]] + a[1..] && b == [b[0]] + b[1..];
    }
  }

  // ---------------------------------------------------------------------------------------
  // Symbols and versions.

  function SymName(s: Sym): Name {
    match s
    case Whole => "w"
    case Entity(n) => "e" + n
    case Nested(n) => "n" + n
    case Residue(None) => "h"
    case Residue(Some(n)) => "r" + n
    case Anchor(n) => "a" + n
  }

  lemma Untagged(t: char, a: string, b: string)
    requires [t] + a == [t] + b
    ensures a == b
  {
    assert ([t] + a)[1..] == a && ([t] + b)[1..] == b;
  }

  lemma SymNamesApart(a: Sym, b: Sym)
    requires SymName(a) == SymName(b)
    ensures a == b
  {
    assert SymName(a)[0] == SymName(b)[0];
    match a
    case Entity(n) => Untagged('e', n, b.name);
    case Nested(n) => Untagged('n', n, b.name);
    case Anchor(n) => Untagged('a', n, b.name);
    case Residue(Some(n)) => Untagged('r', n, b.after.value);
    case _ =>
  }

  function Text(b: Bytes): string {
    seq(|b|, i requires 0 <= i < |b| => (b[i] as int) as char)
  }

  lemma TextReads(a: Bytes, b: Bytes)
    requires Text(a) == Text(b)
    ensures a == b
  {
    assert |a| == |Text(a)| == |Text(b)| == |b|;
    forall i | 0 <= i < |a| ensures a[i] == b[i] {
      assert Text(a)[i] == Text(b)[i];
    }
  }

  function VersionText(v: Version): string {
    match v
    case Blob(d) => "b" + Text(d)
    case Positional(n, d) => "p" + (Quoted(n) + Text(d))
    case Content(d) => "c" + Text(d)
    case Marker(None) => "m"
    case Marker(Some(n)) => "s" + n
    case Bottom(k) => "x" + Tally(k)
  }

  function VersionName(v: Version): OpVersion {
    if v.Bottom? then RemovedAt(Tally(v.commit)) else Hash(VersionText(v))
  }

  lemma VersionTextReads(a: Version, b: Version)
    requires VersionText(a) == VersionText(b)
    ensures a == b
  {
    hide Text, Quoted, Tally;
    assert VersionText(a)[0] == VersionText(b)[0];
    match a
    case Blob(d) =>
      Untagged('b', Text(d), Text(b.data));
      TextReads(d, b.data);
    case Positional(n, d) =>
      Untagged('p', Quoted(n) + Text(d), Quoted(b.name) + Text(b.data));
      QuotedReads(n, b.name, Text(d), Text(b.data));
      TextReads(d, b.data);
    case Content(d) =>
      Untagged('c', Text(d), Text(b.data));
      TextReads(d, b.data);
    case Marker(None) =>
    case Marker(Some(n)) => Untagged('s', n, b.pred.value);
    case Bottom(k) =>
      Untagged('x', Tally(k), Tally(b.commit));
      TallyIs(k);
      TallyIs(b.commit);
  }

  lemma VersionNamesApart(a: Version, b: Version)
    requires VersionName(a) == VersionName(b)
    ensures a == b
  {
    hide VersionText, Tally;
    if a.Bottom? {
      TallyIs(a.commit);
      TallyIs(b.commit);
    } else {
      VersionTextReads(a, b);
    }
  }

  // ---------------------------------------------------------------------------------------
  // Ops.

  function OpVersionText(v: OpVersion): string {
    match v
    case Hash(d) => "h" + d
    case Removed => "r"
    case RemovedAt(c) => "x" + c
  }

  lemma OpVersionTextReads(a: OpVersion, b: OpVersion)
    requires OpVersionText(a) == OpVersionText(b)
    ensures a == b
  {
    assert OpVersionText(a)[0] == OpVersionText(b)[0];
    match a
    case Hash(d) => Untagged('h', d, b.digest);
    case Removed =>
    case RemovedAt(c) => Untagged('x', c, b.commit);
  }

  function BeforeText(v: Option<OpVersion>): string {
    if v.None? then "n" else "y" + OpVersionText(v.value)
  }

  function ChangeText(c: Change): string {
    Listed([BeforeText(c.before), OpVersionText(c.after)])
  }

  lemma ChangeTextReads(a: Change, b: Change)
    requires ChangeText(a) == ChangeText(b)
    ensures a == b
  {
    hide Listed, OpVersionText;
    var x, y := [BeforeText(a.before), OpVersionText(a.after)], [BeforeText(b.before), OpVersionText(b.after)];
    ListedReads(x, y);
    assert x[0] == y[0] && x[1] == y[1];
    OpVersionTextReads(a.after, b.after);
    assert BeforeText(a.before)[0] == BeforeText(b.before)[0];
    if a.before.Some? {
      Untagged('y', OpVersionText(a.before.value), OpVersionText(b.before.value));
      OpVersionTextReads(a.before.value, b.before.value);
    }
  }

  function PinText(p: Pin): string {
    Listed([p.sym, OpVersionText(p.version)])
  }

  lemma PinTextReads(a: Pin, b: Pin)
    requires PinText(a) == PinText(b)
    ensures a == b
  {
    hide Listed, OpVersionText;
    var x, y := [a.sym, OpVersionText(a.version)], [b.sym, OpVersionText(b.version)];
    ListedReads(x, y);
    assert x[0] == y[0] && x[1] == y[1];
    OpVersionTextReads(a.version, b.version);
  }

  function ChangeTexts(footprint: map<Name, Change>, keys: seq<Name>): (r: seq<string>)
    requires forall k :: k in keys ==> k in footprint
    ensures |r| == |keys| && forall i :: 0 <= i < |r| ==> keys[i] in keys && r[i] == ChangeText(footprint[keys[i]])
  {
    seq(|keys|, i requires 0 <= i < |keys| => assert keys[i] in keys; ChangeText(footprint[keys[i]]))
  }

  function PinTexts(needs: set<Pin>): set<string> {
    set p | p in needs :: PinText(p)
  }

  /** `compute_id`, up to the hash.  The kind follows from the footprint where nothing was moved, and the
      images from the versions. */
  function OpId(op: OrderedOp): Name {
    var keys := Sorted(op.footprint.Keys);
    Listed([Listed(keys), Listed(ChangeTexts(op.footprint, keys)), Listed(Sorted(PinTexts(op.needs)))])
  }

  lemma FootprintReads(a: map<Name, Change>, b: map<Name, Change>, keys: seq<Name>)
    requires (forall k :: k in keys <==> k in a) && (forall k :: k in keys <==> k in b)
    requires ChangeTexts(a, keys) == ChangeTexts(b, keys)
    ensures a == b
  {
    assert a.Keys == b.Keys;
    forall k | k in a ensures a[k] == b[k] {
      var i :| 0 <= i < |keys| && keys[i] == k;
      assert ChangeTexts(a, keys)[i] == ChangeTexts(b, keys)[i];
      ChangeTextReads(a[k], b[k]);
    }
  }

  lemma NeedsRead(a: set<Pin>, b: set<Pin>)
    requires PinTexts(a) == PinTexts(b)
    ensures a <= b
  {
    forall p | p in a ensures p in b {
      assert PinText(p) in PinTexts(b);
      var q :| q in b && PinText(q) == PinText(p);
      PinTextReads(p, q);
    }
  }

  lemma SortedReads(a: set<string>, b: set<string>)
    requires Sorted(a) == Sorted(b)
    ensures a == b
  {
    forall x ensures x in a <==> x in b {
      assert x in Sorted(a) <==> x in a;
      assert x in Sorted(b) <==> x in b;
    }
  }

  /** The three parts of an op's text. */
  lemma OpIdReads(a: OrderedOp, b: OrderedOp)
    requires OpId(a) == OpId(b)
    ensures Sorted(a.footprint.Keys) == Sorted(b.footprint.Keys)
    ensures ChangeTexts(a.footprint, Sorted(a.footprint.Keys)) == ChangeTexts(b.footprint, Sorted(b.footprint.Keys))
    ensures Sorted(PinTexts(a.needs)) == Sorted(PinTexts(b.needs))
  {
    var ka, kb := Sorted(a.footprint.Keys), Sorted(b.footprint.Keys);
    var x := [Listed(ka), Listed(ChangeTexts(a.footprint, ka)), Listed(Sorted(PinTexts(a.needs)))];
    var y := [Listed(kb), Listed(ChangeTexts(b.footprint, kb)), Listed(Sorted(PinTexts(b.needs)))];
    hide Listed, ChangeText, PinTexts, Sorted;
    ListedReads(x, y);
    assert x[0] == y[0] && x[1] == y[1] && x[2] == y[2];
    ListedReads(ka, kb);
    ListedReads(ChangeTexts(a.footprint, ka), ChangeTexts(b.footprint, kb));
    ListedReads(Sorted(PinTexts(a.needs)), Sorted(PinTexts(b.needs)));
  }

  lemma OpIdsApart(a: OrderedOp, b: OrderedOp)
    requires OpId(a) == OpId(b)
    ensures a == b
  {
    hide *;
    OpIdReads(a, b);
    SortedReads(PinTexts(a.needs), PinTexts(b.needs));
    NeedsRead(a.needs, b.needs);
    NeedsRead(b.needs, a.needs);
    SortedHas(a.footprint.Keys);
    SortedHas(b.footprint.Keys);
    FootprintReads(a.footprint, b.footprint, Sorted(a.footprint.Keys));
  }

  lemma SortedHas(s: set<string>)
    ensures forall k :: k in Sorted(s) <==> k in s
  {
  }

  /** Everything written out plainly. */
  const PLAIN := Codec(SymName, VersionName, OpId)

  /** Content addressing, for a codec one can point at. */
  lemma PlainIsCodec()
    ensures IsCodec(PLAIN)
  {
    forall a, b | PLAIN.name(a) == PLAIN.name(b) ensures a == b { SymNamesApart(a, b); }
    forall a, b | PLAIN.version(a) == PLAIN.version(b) ensures a == b { VersionNamesApart(a, b); }
    forall a, b | PLAIN.id(a) == PLAIN.id(b) ensures a == b { OpIdsApart(a, b); }
  }
}
