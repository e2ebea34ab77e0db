/** The vocabulary mining and folding share (`sgt/core/op.py`): symbols, versions, images.

    A symbol id in the source is a string that encodes its kind; here the kind is the
    constructor.  A version is a hash in the source; hashes are taken to be injective, so a
    version is modelled by what is hashed. */
module Symbols {
  import opened Names

  newtype Byte = b: int | 0 <= b < 256
  type Bytes = seq<Byte>

  /** One file's symbols.  `Residue(None)` is the gap before the first top-level entity. */
  datatype Sym =
    | Whole                          // the path itself: an opaque or unparseable file
    | Entity(name: Name)             // a top-level entity or import
    | Nested(name: Name)             // an entity inside a container
    | Residue(after: Option<Name>)   // the gap following a top-level entity
    | Anchor(name: Name)             // the fact "this entity is preceded by ..."

  datatype Version =
    | Blob(data: Bytes)                     // git blob id
    | Positional(name: Name, data: Bytes)   // surface id and content
    | Content(data: Bytes)                  // content alone
    | Marker(pred: Option<Name>)            // content of an anchor fact
    | Bottom(commit: nat)                   // removed by that commit

  datatype Image = Data(bytes: Bytes) | Fact(pred: Option<Name>) | Gone

  /** What a symbol's newest touch left behind. */
  datatype Entry = Entry(version: Version, image: Image)

  datatype Touch = Touch(sym: Sym, before: Option<Version>, after: Version, image: Image)

  const IMPORT_PREFIX := "__import__::"

  /** Whether a surface name is that of an import statement. */
  predicate IsImport(n: Name) {
    IMPORT_PREFIX <= n
  }

  /** An entity inside a container: the name is dotted, and it is not an import's (whose module
      specifier may hold dots). */
  predicate IsNested(n: Name) {
    !IsImport(n) && '.' in n
  }

  /** The symbol of an entity, by its name alone. */
  function NameSym(n: Name): Sym {
    if IsNested(n) then Nested(n) else Entity(n)
  }

  /** `image or b""`. */
  function BytesOf(i: Image): Bytes {
    match i
    case Data(b) => b
    case _ => []
  }

  /** Whether a live symbol keeps its path alive in the fold. */
  predicate ContentBearing(s: Sym) {
    !s.Anchor? && !s.Nested?
  }
}
