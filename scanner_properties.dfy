/** What a scan promises: the shape of every path in the tree, the depth cut-off,
    which listing entries become files and folders and in what order, and how
    failures are contained. */
module ScannerProperties {

  import opened Files
  import opened Media
  import opened Sequences
  import opened Scanner

  /** No segment of the path is hidden or `node_modules`. */
  predicate CleanPath(p: Path) {
    forall i :: 0 <= i < |p| ==> !Skipped(p[i])
  }

  /** So in particular a clean path never steps up or stays put. */
  lemma CleanPathHasNoParentStep(p: Path)
    requires CleanPath(p)
    ensures ".." !in p && "." !in p && "node_modules" !in p
  {
  }

  ghost predicate FileShaped(f: MediaFile, root: Path, rel: Path, maxDepth: nat) {
    && f.path == rel + [f.name]
    && f.fullPath == root + f.path
    && CleanPath(f.path)
    && |f.path| <= maxDepth + 1
    && f.kind != Other
  }

  ghost predicate FolderShaped(d: FolderEntry, rel: Path, maxDepth: nat) {
    && d.path == rel + [d.name]
    && CleanPath(d.path)
    && |d.path| <= maxDepth + 1
    && (d.items.Cutoff? <==> |d.path| == maxDepth + 1)
  }

  /** The scan result of the folder at `rel` below `root`, at every level: each
      entry's path is its parent's path plus its own name, free of hidden and
      `node_modules` segments, at most `maxDepth + 1` segments long; its full path
      is the root joined with that path; files carry a media kind; and exactly the
      folders `maxDepth + 1` segments deep hold the cut-off value. */
  ghost predicate Shaped(r: ScanResult, root: Path, rel: Path, maxDepth: nat)
    decreases r
  {
    match r
    case Cutoff => true
    case Listed(files, folders) =>
      && |rel| <= maxDepth
      && (forall f :: f in files ==> FileShaped(f, root, rel, maxDepth))
      && (forall d :: d in folders ==> FolderShaped(d, rel, maxDepth) && Shaped(d.items, root, d.path, maxDepth))
  }

  lemma {:induction false} ScanShaped(fs: FileSystem, root: Path, rel: Path, maxDepth: nat)
    requires |rel| <= maxDepth + 1 && CleanPath(rel)
    ensures Shaped(ScanAt(fs, root + rel, root, |rel|, maxDepth), root, rel, maxDepth)
    decreases maxDepth + 1 - |rel|, 1, 0
  {
    if |rel| <= maxDepth {
      match fs.readdir(root + rel)
      case ListError =>
      case Entries(items) =>
        var k := FirstFailure(fs, root + rel, items);
        FilesShaped(fs, root, rel, maxDepth, items[..k]);
        FoldersShaped(fs, root, rel, maxDepth, items[..k]);
    }
  }

  /** One step down from `rel`: the joined path and its relative form agree. */
  lemma StepBelow(root: Path, rel: Path, item: Name)
    requires CleanPath(rel) && !Skipped(item)
    ensures Child(root + rel, item) == root + (rel + [item])
    ensures Relative(root, Child(root + rel, item)) == rel + [item]
    ensures CleanPath(rel + [item])
  {
    RelativeBelow(root, rel + [item]);
    assert Child(root + rel, item) == root + (rel + [item]);
  }

  /** What the last entry of a listing contributes to `files` is shaped. */
  lemma MediaEntryShaped(fs: FileSystem, root: Path, rel: Path, maxDepth: nat, item: Name)
    requires |rel| <= maxDepth && CleanPath(rel)
    ensures forall f :: f in (if IsMediaFile(fs, root + rel, item) then [MediaEntry(fs, root + rel, root, item)] else [])
              ==> FileShaped(f, root, rel, maxDepth)
  {
    if IsMediaFile(fs, root + rel, item) {
      StepBelow(root, rel, item);
    }
  }

  lemma AllFilesShaped(a: seq<MediaFile>, b: seq<MediaFile>, root: Path, rel: Path, maxDepth: nat)
    requires forall f :: f in a ==> FileShaped(f, root, rel, maxDepth)
    requires forall f :: f in b ==> FileShaped(f, root, rel, maxDepth)
    ensures forall f :: f in a + b ==> FileShaped(f, root, rel, maxDepth)
  {
  }

  lemma {:induction false} FilesShaped(fs: FileSystem, root: Path, rel: Path, maxDepth: nat, items: seq<Name>)
    requires |rel| <= maxDepth && CleanPath(rel)
    ensures forall f :: f in FilesOf(fs, root + rel, root, items) ==> FileShaped(f, root, rel, maxDepth)
    decreases |items|
  {
    if items != [] {
      var init := items[..|items| - 1];
      var item := items[|items| - 1];
      FilesShaped(fs, root, rel, maxDepth, init);
      MediaEntryShaped(fs, root, rel, maxDepth, item);
      AllFilesShaped(FilesOf(fs, root + rel, root, init),
                     if IsMediaFile(fs, root + rel, item) then [MediaEntry(fs, root + rel, root, item)] else [],
                     root, rel, maxDepth);
    }
  }

  lemma {:induction false} FoldersShaped(fs: FileSystem, root: Path, rel: Path, maxDepth: nat, items: seq<Name>)
    requires |rel| <= maxDepth && CleanPath(rel)
    ensures forall d :: d in FoldersOf(fs, root + rel, root, |rel|, maxDepth, items) ==>
              FolderShaped(d, rel, maxDepth) && Shaped(d.items, root, d.path, maxDepth)
    decreases maxDepth + 1 - |rel|, 0, |items|
  {
    if items != [] {
      FoldersShaped(fs, root, rel, maxDepth, items[..|items| - 1]);
      var item := items[|items| - 1];
      if IsSubdirectory(fs, root + rel, item) {
        StepBelow(root, rel, item);
        ScanShaped(fs, root, rel + [item], maxDepth);
      }
    }
  }

  /** The tree that `/api/scan` reports is shaped at every level. */
  lemma ScanTreeShaped(fs: FileSystem, root: Path)
    ensures Scan(fs, root).Listed?
    ensures Shaped(Scan(fs, root), root, [], DefaultMaxDepth)
  {
    assert root + [] == root;
    ScanShaped(fs, root, [], DefaultMaxDepth);
  }

  /** With `maxDepth = 0` only the root is listed: its entries sit directly below the
      root and every subfolder holds the cut-off value. */
  lemma DepthZeroScan(fs: FileSystem, root: Path)
    ensures var r := ScanAt(fs, root, root, 0, 0);
      && r.Listed?
      && (forall f :: f in r.files ==> f.path == [f.name])
      && (forall d :: d in r.folders ==> d.path == [d.name] && d.items == Cutoff)
  {
    assert root + [] == root;
    ScanShaped(fs, root, [], 0);
  }

  /** Beyond the depth limit nothing is listed. */
  lemma BeyondLimitIsCutoff(fs: FileSystem, dirPath: Path, baseDir: Path, depth: nat, maxDepth: nat)
    ensures ScanAt(fs, dirPath, baseDir, depth, maxDepth).Cutoff? <==> depth > maxDepth
  {
  }

  /* Which entries are kept, and in what order. */

  function MediaTest(fs: FileSystem, dirPath: Path): Name -> bool {
    n => IsMediaFile(fs, dirPath, n)
  }

  function DirectoryTest(fs: FileSystem, dirPath: Path): Name -> bool {
    n => IsSubdirectory(fs, dirPath, n)
  }

  function FileNames(files: seq<MediaFile>): (names: seq<Name>)
    ensures |names| == |files| && forall i :: 0 <= i < |files| ==> names[i] == files[i].name
  {
    seq(|files|, i requires 0 <= i < |files| => files[i].name)
  }

  function FolderNames(folders: seq<FolderEntry>): (names: seq<Name>)
    ensures |names| == |folders| && forall i :: 0 <= i < |folders| ==> names[i] == folders[i].name
  {
    seq(|folders|, i requires 0 <= i < |folders| => folders[i].name)
  }

  lemma FileNamesAppend(a: seq<MediaFile>, b: seq<MediaFile>)
    ensures FileNames(a + b) == FileNames(a) + FileNames(b)
  {
    var l, r := FileNames(a + b), FileNames(a) + FileNames(b);
    assert |l| == |r|;
    forall i | 0 <= i < |l| ensures l[i] == r[i] {
      if i < |a| {
        assert (a + b)[i] == a[i];
      } else {
        assert (a + b)[i] == b[i - |a|];
      }
    }
  }

  /** What one entry contributes to `files` carries the entry's own name. */
  lemma PushedFileName(fs: FileSystem, dirPath: Path, baseDir: Path, item: Name)
    ensures FileNames(if IsMediaFile(fs, dirPath, item) then [MediaEntry(fs, dirPath, baseDir, item)] else [])
         == if IsMediaFile(fs, dirPath, item) then [item] else []
  {
    if IsMediaFile(fs, dirPath, item) {
      var e := MediaEntry(fs, dirPath, baseDir, item);
      assert e.name == item;
      SingleFileName(e);
    }
  }

  lemma SingleFileName(e: MediaFile)
    ensures FileNames([e]) == [e.name]
  {
  }

  /** One more entry adds its name to the pushed files exactly when it is media. */
  lemma FileNamesStep(fs: FileSystem, dirPath: Path, baseDir: Path, items: seq<Name>)
    requires items != []
    ensures FileNames(FilesOf(fs, dirPath, baseDir, items))
         == FileNames(FilesOf(fs, dirPath, baseDir, items[..|items| - 1]))
            + (if MediaTest(fs, dirPath)(items[|items| - 1]) then [items[|items| - 1]] else [])
  {
    var item := items[|items| - 1];
    var pushed := FilesOf(fs, dirPath, baseDir, items[..|items| - 1]);
    var tail := if IsMediaFile(fs, dirPath, item) then [MediaEntry(fs, dirPath, baseDir, item)] else [];
    assert FilesOf(fs, dirPath, baseDir, items) == pushed + tail;
    FileNamesAppend(pushed, tail);
    PushedFileName(fs, dirPath, baseDir, item);
  }

  /** The files pushed are the media entries of the walked listing, in listing order. */
  lemma {:induction false} FilesInListingOrder(fs: FileSystem, dirPath: Path, baseDir: Path, items: seq<Name>)
    ensures FileNames(FilesOf(fs, dirPath, baseDir, items)) == Filter(items, MediaTest(fs, dirPath))
    decreases |items|
  {
    if items != [] {
      FilesInListingOrder(fs, dirPath, baseDir, items[..|items| - 1]);
      FileNamesStep(fs, dirPath, baseDir, items);
    }
  }

  /** The folders pushed are the subdirectories of the walked listing, in listing order,
      whatever their own scans turn out to be. */
  lemma {:induction false} FoldersInListingOrder(fs: FileSystem, dirPath: Path, baseDir: Path,
                                                 depth: nat, maxDepth: nat, items: seq<Name>)
    requires depth <= maxDepth
    ensures FolderNames(FoldersOf(fs, dirPath, baseDir, depth, maxDepth, items))
            == Filter(items, DirectoryTest(fs, dirPath))
    decreases |items|
  {
    if items != [] {
      var init := items[..|items| - 1];
      var item := items[|items| - 1];
      FoldersInListingOrder(fs, dirPath, baseDir, depth, maxDepth, init);
      var tail := if IsSubdirectory(fs, dirPath, item)
                  then [FolderEntry(item, Relative(baseDir, Child(dirPath, item)),
                                    ScanAt(fs, Child(dirPath, item), baseDir, depth + 1, maxDepth))]
                  else [];
      assert FolderNames(FoldersOf(fs, dirPath, baseDir, depth, maxDepth, init) + tail)
          == FolderNames(FoldersOf(fs, dirPath, baseDir, depth, maxDepth, init)) + FolderNames(tail);
    }
  }

  /** Every pushed file record describes its listing entry as `stat` reported it. */
  lemma {:induction false} FilesMatchDisk(fs: FileSystem, dirPath: Path, baseDir: Path, items: seq<Name>)
    ensures forall f :: f in FilesOf(fs, dirPath, baseDir, items) ==>
      && f.name in items
      && IsMediaFile(fs, dirPath, f.name)
      && f.fullPath == Child(dirPath, f.name)
      && f.path == Relative(baseDir, f.fullPath)
      && fs.stat(f.fullPath) == RegularFile(f.size, f.modified)
      && f.kind == Classify(f.name)
    decreases |items|
  {
    if items != [] {
      FilesMatchDisk(fs, dirPath, baseDir, items[..|items| - 1]);
    }
  }

  /** Every pushed folder record holds the scan of that subfolder one level deeper. */
  lemma {:induction false} FoldersMatchDisk(fs: FileSystem, dirPath: Path, baseDir: Path,
                                            depth: nat, maxDepth: nat, items: seq<Name>)
    requires depth <= maxDepth
    ensures forall d :: d in FoldersOf(fs, dirPath, baseDir, depth, maxDepth, items) ==>
      && d.name in items
      && IsSubdirectory(fs, dirPath, d.name)
      && d.path == Relative(baseDir, Child(dirPath, d.name))
      && d.items == ScanAt(fs, Child(dirPath, d.name), baseDir, depth + 1, maxDepth)
    decreases |items|
  {
    if items != [] {
      FoldersMatchDisk(fs, dirPath, baseDir, depth, maxDepth, items[..|items| - 1]);
    }
  }

  /** One directory's scan: a listing that throws gives two empty lists; otherwise the
      files and folders are the media entries and the subdirectories among the entries
      before the first failing `stat`, in listing order. */
  lemma ScanKeepsReadablePrefix(fs: FileSystem, dirPath: Path, baseDir: Path, depth: nat, maxDepth: nat)
    requires depth <= maxDepth
    ensures var r := ScanAt(fs, dirPath, baseDir, depth, maxDepth);
      && r.Listed?
      && (fs.readdir(dirPath).ListError? ==> r.files == [] && r.folders == [])
      && (fs.readdir(dirPath).Entries? ==>
            var items := fs.readdir(dirPath).names;
            var readable := items[..FirstFailure(fs, dirPath, items)];
            && FileNames(r.files) == Filter(readable, MediaTest(fs, dirPath))
            && FolderNames(r.folders) == Filter(readable, DirectoryTest(fs, dirPath)))
  {
    if fs.readdir(dirPath).Entries? {
      var items := fs.readdir(dirPath).names;
      var readable := items[..FirstFailure(fs, dirPath, items)];
      FilesInListingOrder(fs, dirPath, baseDir, readable);
      FoldersInListingOrder(fs, dirPath, baseDir, depth, maxDepth, readable);
    }
  }

  /** An entry met before any failure is among the files exactly when it is a regular
      file with a media extension, and among the folders exactly when it is a
      directory. */
  lemma ScanFindsEveryEntry(fs: FileSystem, dirPath: Path, baseDir: Path, depth: nat, maxDepth: nat, j: nat)
    requires depth <= maxDepth
    requires fs.readdir(dirPath).Entries?
    requires j < FirstFailure(fs, dirPath, fs.readdir(dirPath).names)
    ensures var r := ScanAt(fs, dirPath, baseDir, depth, maxDepth);
      var item := fs.readdir(dirPath).names[j];
      && (item in FileNames(r.files) <==> IsMediaFile(fs, dirPath, item))
      && (item in FolderNames(r.folders) <==> IsSubdirectory(fs, dirPath, item))
  {
    var items := fs.readdir(dirPath).names;
    var readable := items[..FirstFailure(fs, dirPath, items)];
    var item := items[j];
    assert item in readable;
    ScanKeepsReadablePrefix(fs, dirPath, baseDir, depth, maxDepth);
    if IsMediaFile(fs, dirPath, item) {
      FilterKeeps(readable, MediaTest(fs, dirPath), item);
    }
    if IsSubdirectory(fs, dirPath, item) {
      FilterKeeps(readable, DirectoryTest(fs, dirPath), item);
    }
  }

  /** The records of one directory's scan agree with the filesystem: files with their
      `stat`, folders with the scan of the subfolder one level deeper. */
  lemma ScanMatchesDisk(fs: FileSystem, dirPath: Path, baseDir: Path, depth: nat, maxDepth: nat)
    requires depth <= maxDepth
    ensures var r := ScanAt(fs, dirPath, baseDir, depth, maxDepth);
      && (forall f :: f in r.files ==>
            && IsMediaFile(fs, dirPath, f.name)
            && f.fullPath == Child(dirPath, f.name)
            && fs.stat(f.fullPath) == RegularFile(f.size, f.modified))
      && (forall d :: d in r.folders ==>
            && IsSubdirectory(fs, dirPath, d.name)
            && d.items == ScanAt(fs, Child(dirPath, d.name), baseDir, depth + 1, maxDepth))
  {
    if fs.readdir(dirPath).Entries? {
      var items := fs.readdir(dirPath).names;
      var readable := items[..FirstFailure(fs, dirPath, items)];
      FilesMatchDisk(fs, dirPath, baseDir, readable);
      FoldersMatchDisk(fs, dirPath, baseDir, depth, maxDepth, readable);
    }
  }

  /** A subdirectory met before any failure that cannot itself be listed still
      appears among the folders, holding empty `files` and `folders`. */
  lemma UnreadableFolderIsEmpty(fs: FileSystem, dirPath: Path, baseDir: Path, depth: nat, maxDepth: nat, j: nat)
    requires depth < maxDepth
    requires fs.readdir(dirPath).Entries?
    requires j < FirstFailure(fs, dirPath, fs.readdir(dirPath).names)
    requires IsSubdirectory(fs, dirPath, fs.readdir(dirPath).names[j])
    requires fs.readdir(Child(dirPath, fs.readdir(dirPath).names[j])).ListError?
    ensures var item := fs.readdir(dirPath).names[j];
      exists d :: d in ScanAt(fs, dirPath, baseDir, depth, maxDepth).folders
                  && d.name == item && d.items == Listed([], [])
  {
    var item := fs.readdir(dirPath).names[j];
    var r := ScanAt(fs, dirPath, baseDir, depth, maxDepth);
    ScanFindsEveryEntry(fs, dirPath, baseDir, depth, maxDepth, j);
    var i :| 0 <= i < |r.folders| && FolderNames(r.folders)[i] == item;
    var d := r.folders[i];
    ScanMatchesDisk(fs, dirPath, baseDir, depth, maxDepth);
    assert d in r.folders;
    assert d.items == ScanAt(fs, Child(dirPath, item), baseDir, depth + 1, maxDepth);
  }

  /** An entry after the first failing `stat` contributes nothing, whatever it is. */
  lemma NothingAfterFailure(fs: FileSystem, dirPath: Path, baseDir: Path, depth: nat, maxDepth: nat, j: nat)
    requires depth <= maxDepth
    requires fs.readdir(dirPath).Entries?
    requires j < |fs.readdir(dirPath).names|
    requires Fails(fs, dirPath, fs.readdir(dirPath).names[j])
    ensures var r := ScanAt(fs, dirPath, baseDir, depth, maxDepth);
      forall n :: n in FileNames(r.files) + FolderNames(r.folders) ==>
        n in fs.readdir(dirPath).names[..j]
  {
    var items := fs.readdir(dirPath).names;
    var k := FirstFailure(fs, dirPath, items);
    assert k <= j;
    ScanKeepsReadablePrefix(fs, dirPath, baseDir, depth, maxDepth);
    assert items[..k] <= items[..j];
  }

}
