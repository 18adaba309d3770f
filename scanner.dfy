/** The recursive media scan (`scanDirectory`). `ScanAt` specifies the result of
    scanning one directory declaratively: the entries of its listing up to the first
    one whose `stat` fails, filtered into media files and subfolders in listing order.
    The method `ScanDirectory` is the imperative loop with its push calls and the
    swallowed exception, proved to compute exactly `ScanAt`. */
module Scanner {

  import opened Files
  import opened Media

  /** The `maxDepth` default of `scanDirectory`. */
  const DefaultMaxDepth: nat := 3

  datatype MediaFile = MediaFile(
    name: Name,
    path: Path,       // relative to the scan root
    fullPath: Path,
    kind: MediaType,
    size: nat,
    modified: int)

  datatype FolderEntry = FolderEntry(name: Name, path: Path, items: ScanResult)

  /** A scan beyond the depth limit returns `[]` (`Cutoff`); one within it returns
      the `{files, folders}` object. */
  datatype ScanResult =
    | Cutoff
    | Listed(files: seq<MediaFile>, folders: seq<FolderEntry>)

  /** Hidden names and `node_modules` are passed over before anything is looked up. */
  predicate Skipped(item: Name) {
    (|item| > 0 && item[0] == '.') || item == "node_modules"
  }

  /** Looking at `item` throws: it is not skipped and `statSync` fails on it. */
  predicate Fails(fs: FileSystem, dirPath: Path, item: Name) {
    !Skipped(item) && fs.stat(Child(dirPath, item)).StatError?
  }

  /** Where the `forEach` over a listing is cut short by a throw: the index of the
      first entry that fails, or the length of the listing. */
  function FirstFailure(fs: FileSystem, dirPath: Path, items: seq<Name>): (k: nat)
    ensures k <= |items|
    ensures forall j :: 0 <= j < k ==> !Fails(fs, dirPath, items[j])
    ensures k < |items| ==> Fails(fs, dirPath, items[k])
    decreases |items|
  {
    if items == [] then 0
    else if Fails(fs, dirPath, items[0]) then 0
    else 1 + FirstFailure(fs, dirPath, items[1..])
  }

  /** The entry is a regular file with a media extension. */
  predicate IsMediaFile(fs: FileSystem, dirPath: Path, item: Name) {
    !Skipped(item) && fs.stat(Child(dirPath, item)).RegularFile? && Classify(item) != Other
  }

  /** The entry is a directory (after following links). */
  predicate IsSubdirectory(fs: FileSystem, dirPath: Path, item: Name) {
    !Skipped(item) && fs.stat(Child(dirPath, item)).Directory?
  }

  /** The record pushed onto `files` for a media entry. */
  function MediaEntry(fs: FileSystem, dirPath: Path, baseDir: Path, item: Name): MediaFile
    requires IsMediaFile(fs, dirPath, item)
  {
    var fullPath := Child(dirPath, item);
    var stat := fs.stat(fullPath);
    MediaFile(item, Relative(baseDir, fullPath), fullPath, Classify(item), stat.size, stat.mtime)
  }

  /** The `files` pushed while walking `items`. */
  function FilesOf(fs: FileSystem, dirPath: Path, baseDir: Path, items: seq<Name>): seq<MediaFile>
    decreases |items|
  {
    if items == [] then []
    else
      var item := items[|items| - 1];
      FilesOf(fs, dirPath, baseDir, items[..|items| - 1])
      + (if IsMediaFile(fs, dirPath, item) then [MediaEntry(fs, dirPath, baseDir, item)] else [])
  }

  /** The `folders` pushed while walking `items`, each with the scan of the subfolder
      one level deeper. */
  function FoldersOf(fs: FileSystem, dirPath: Path, baseDir: Path, depth: nat, maxDepth: nat,
                     items: seq<Name>): seq<FolderEntry>
    requires depth <= maxDepth
    decreases maxDepth - depth, 0, |items|
  {
    if items == [] then []
    else
      var item := items[|items| - 1];
      var fullPath := Child(dirPath, item);
      FoldersOf(fs, dirPath, baseDir, depth, maxDepth, items[..|items| - 1])
      + (if IsSubdirectory(fs, dirPath, item)
         then [FolderEntry(item, Relative(baseDir, fullPath), ScanAt(fs, fullPath, baseDir, depth + 1, maxDepth))]
         else [])
  }

  /** The result of `scanDirectory(dirPath, baseDir, depth, maxDepth)`. A listing that
      throws leaves both lists empty; a `stat` that throws keeps what the entries
      before it contributed. Termination comes from the depth alone. */
  function ScanAt(fs: FileSystem, dirPath: Path, baseDir: Path, depth: nat, maxDepth: nat): ScanResult
    decreases maxDepth - depth, 1, 0
  {
    if depth > maxDepth then Cutoff
    else
      match fs.readdir(dirPath)
      case ListError => Listed([], [])
      case Entries(items) =>
        var k := FirstFailure(fs, dirPath, items);
        Listed(FilesOf(fs, dirPath, baseDir, items[..k]),
               FoldersOf(fs, dirPath, baseDir, depth, maxDepth, items[..k]))
  }

  /** `scanDirectory(root)`: the scan root is its own base, at depth 0, with the
      default depth limit. */
  function Scan(fs: FileSystem, root: Path): ScanResult {
    ScanAt(fs, root, root, 0, DefaultMaxDepth)
  }

  lemma FilesStep(fs: FileSystem, dirPath: Path, baseDir: Path, items: seq<Name>, i: nat)
    requires i < |items|
    ensures FilesOf(fs, dirPath, baseDir, items[..i + 1]) ==
            FilesOf(fs, dirPath, baseDir, items[..i])
            + (if IsMediaFile(fs, dirPath, items[i]) then [MediaEntry(fs, dirPath, baseDir, items[i])] else [])
  {
    assert items[..i + 1][..i] == items[..i];
  }

  lemma FoldersStep(fs: FileSystem, dirPath: Path, baseDir: Path, depth: nat, maxDepth: nat,
                    items: seq<Name>, i: nat)
    requires depth <= maxDepth && i < |items|
    ensures FoldersOf(fs, dirPath, baseDir, depth, maxDepth, items[..i + 1]) ==
            FoldersOf(fs, dirPath, baseDir, depth, maxDepth, items[..i])
            + (if IsSubdirectory(fs, dirPath, items[i])
               then [FolderEntry(items[i], Relative(baseDir, Child(dirPath, items[i])),
                                 ScanAt(fs, Child(dirPath, items[i]), baseDir, depth + 1, maxDepth))]
               else [])
  {
    assert items[..i + 1][..i] == items[..i];
  }

  /** `scanDirectory` as the server runs it: a `forEach` over the listing that pushes
      onto `files` and `folders`, inside a `try` whose `catch` returns what has been
      pushed so far. */
  method ScanDirectory(fs: FileSystem, dirPath: Path, baseDir: Path, depth: nat, maxDepth: nat)
    returns (result: ScanResult)
    ensures result == ScanAt(fs, dirPath, baseDir, depth, maxDepth)
    decreases maxDepth - depth
  {
    if depth > maxDepth {
      return Cutoff;
    }
    var files: seq<MediaFile> := [];
    var folders: seq<FolderEntry> := [];
    var listing := fs.readdir(dirPath);
    if listing.ListError? {
      return Listed(files, folders);
    }
    var items := listing.names;
    ghost var k := FirstFailure(fs, dirPath, items);
    var i := 0;
    while i < |items|
      invariant i <= k
      invariant files == FilesOf(fs, dirPath, baseDir, items[..i])
      invariant folders == FoldersOf(fs, dirPath, baseDir, depth, maxDepth, items[..i])
    {
      var item := items[i];
      FilesStep(fs, dirPath, baseDir, items, i);
      FoldersStep(fs, dirPath, baseDir, depth, maxDepth, items, i);
      if !Skipped(item) {
        var fullPath := Child(dirPath, item);
        var relativePath := Relative(baseDir, fullPath);
        var stat := fs.stat(fullPath);
        if stat.StatError? {
          break;
        }
        if stat.Directory? {
          var subItems := ScanDirectory(fs, fullPath, baseDir, depth + 1, maxDepth);
          folders := folders + [FolderEntry(item, relativePath, subItems)];
        } else if stat.RegularFile? {
          var kind := Classify(item);
          if kind != Other {
            files := files + [MediaFile(item, relativePath, fullPath, kind, stat.size, stat.mtime)];
          }
        }
      }
      i := i + 1;
    }
    assert i == k;
    return Listed(files, folders);
  }

}
