/** The filesystem as the scanner sees it. A path is the list of its segments.
    `readdir` and `stat` are total functions of the path, so a filesystem whose
    symbolic links form a cycle (`statSync` follows links) is a legal value: the
    chain of paths below such a link never ends. */
module Files {

  type Name = string
  type Path = seq<Name>

  /** The outcome of `fs.readdirSync`: the entry names in listing order, or a throw. */
  datatype Listing = Entries(names: seq<Name>) | ListError

  /** The outcome of `fs.statSync` on an entry. Size and modification time are
      opaque values carried through to the result. */
  datatype Stat =
    | Directory
    | RegularFile(size: nat, mtime: int)
    | OtherKind   // neither a directory nor a regular file
    | StatError   // statSync threw

  datatype FileSystem = FileSystem(readdir: Path -> Listing, stat: Path -> Stat)

  /** `path.join(dir, name)` for a name taken from a directory listing. */
  function Child(dir: Path, name: Name): Path {
    dir + [name]
  }

  /** `path.relative(from, to)` on segment lists: one `..` for every segment of
      `from` below the common prefix, then the rest of `to`. */
  function Relative(from: Path, to: Path): (r: Path)
    decreases |from|
  {
    if from != [] && to != [] && from[0] == to[0] then Relative(from[1..], to[1..])
    else seq(|from|, _ => "..") + to
  }

  /** A path below `base` is expressed relative to it by the segments below it. */
  lemma {:induction false} RelativeBelow(base: Path, rel: Path)
    ensures Relative(base, base + rel) == rel
    decreases |base|
  {
    if base != [] {
      assert (base + rel)[1..] == base[1..] + rel;
      RelativeBelow(base[1..], rel);
    } else {
      assert base + rel == rel;
    }
  }

}
