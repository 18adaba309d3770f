# Media gallery server — a Dafny model

This project models the logic inside the single-file Node.js server of a local
media gallery (`server.js`). The server scans a root folder for images, videos and
audio, serves the resulting file/folder tree as JSON, streams media files, and asks
the operating system to open a file or folder. Four pieces of logic are modelled:

- **The directory scan** (`scanDirectory`). `Scanner.ScanAt` specifies one
  directory's result declaratively. It takes the listing up to the first entry whose
  `stat` throws, and filters it into media files and subfolders in listing order.
  Each subfolder holds the scan one level deeper. Past the depth limit the result is
  the cut-off value that the code writes as `[]`. `Scanner.ScanDirectory` is the same
  routine written imperatively: a loop that appends to `files` and `folders`, with
  the `try`/`catch` that keeps the partial result. It is proved to compute `ScanAt`.
  The filesystem (`Files.FileSystem`) is a pair of total functions, `readdir` and
  `stat`, over segment-list paths. `stat` follows links, so a filesystem whose links
  form a cycle is a legal value, and the scan terminates on the depth alone.
- **The classifier and the MIME table** (`Media`). These are the three extension
  lists, `Extname`, the image/video/audio lookup chain, and the content-type table
  with its `application/octet-stream` fallback. The proofs show the table and the
  lists agree.
- **The request dispatch** (`Router.Dispatch`). Each request is one pure decision
  over the method, the url, the environment and the parsed body. The result is an
  `Outcome` with its status code. Everything outside (the filesystem, Node's
  `path.join` and `decodeURIComponent`, whether `index.html` is readable, whether a
  file's read stream opens, how the open command ends) is a `Host` parameter. A
  request whose exception escapes the callback is the outcome `Crash`: no
  response, and the process exits.
- **The `.env` reader** (`loadEnv`). `DotEnv.Environment` is a class whose `vars`
  map is updated in place by `LoadEnv`. That method is a loop over the
  newline-split file text, proved equal to the specification `DotEnv.ApplyLines`,
  which applies `DotEnv.ParseLine` line by line.

Where the design description of the system and the code differ, the model follows
the code:

- The design says symbolic links are not followed. The code uses `statSync`, which
  follows them, so the model allows cycles.
- The design says folders at the cut-off depth get an empty `{files, folders}`. The
  code gives them `[]`, modelled as `Cutoff`.
- The design routes only GET to `/api/config`. The code answers `/api/config` for
  every method except OPTIONS.
- The design says an open request without a usable `path` is a 400. In the code, a
  body that parses as JSON is first checked against `SCAN_PATH`: a missing scan root
  gives 500 before the `path` is looked at. Only a `path` that is not a string gives
  400, because `path.join` throws. A body that fails to parse, or is `null`, gives
  400 before anything else.
- The design requires user paths to stay within the scan root. The code has no such
  check, and the model states no containment property.

## Model

| member | source | states |
|---|---|---|
| Scanner.ScanDirectory | server.js:30-83 | the imperative scan (loop, pushes, swallowed exceptions) returns exactly the declarative result `ScanAt` for every filesystem, cyclic ones included, terminating by depth |
| Scanner.FirstFailure | server.js:43-49 | the loop over a listing is cut at the first non-skipped entry whose `stat` throws (or runs to the end): no entry before the cut fails, and the entry at the cut does |
| ScannerProperties.BeyondLimitIsCutoff | server.js:31 | a scan is the cut-off value exactly when its depth exceeds `maxDepth` |
| ScannerProperties.ScanShaped | server.js:30-57 | at every level of the tree: each path is its parent's path plus the entry's own name, has no hidden or `node_modules` segment, and has at most `maxDepth + 1` segments; a file's full path is the root joined with its path; files carry a kind that is never `other`; a folder holds the cut-off value exactly when its path has `maxDepth + 1` segments |
| ScannerProperties.FilesShaped | server.js:58-75 | every pushed file record has the path shape above, a kind that is not `other`, and a full path equal to the root joined with its relative path |
| ScannerProperties.FoldersShaped | server.js:51-57 | every pushed folder record has the path shape above and a subtree that is shaped too, with the cut-off exactly at depth `maxDepth + 1` |
| ScannerProperties.ScanTreeShaped | server.js:201 | the tree reported for the scan root (depth 0, default limit 3) is never the cut-off value and is shaped at every level |
| ScannerProperties.DepthZeroScan | server.js:52-57 | with `maxDepth = 0`, every file and folder sits directly below the root and every folder holds the cut-off value |
| ScannerProperties.CleanPathHasNoParentStep | server.js:45 | a path with no skipped segment contains no `..`, no `.` and no `node_modules` |
| ScannerProperties.FilesInListingOrder | server.js:58-75 | the names of the pushed files are exactly the listing entries that are regular files with a media extension, in listing order |
| ScannerProperties.FoldersInListingOrder | server.js:51-57 | the names of the pushed folders are exactly the listing entries that are directories, in listing order, whatever their own scans hold |
| ScannerProperties.FilesMatchDisk | server.js:67-74 | each file record names a listed media entry and carries its full path, its path relative to the root, the size and mtime `stat` reported, and its kind |
| ScannerProperties.FoldersMatchDisk | server.js:51-57 | each folder record names a listed directory and holds that directory's scan one level deeper |
| ScannerProperties.ScanKeepsReadablePrefix | server.js:40-82 | a listing that throws gives empty `files` and `folders`; otherwise both lists are the filtered entries before the first failing `stat`, in listing order |
| ScannerProperties.ScanFindsEveryEntry | server.js:43-76 | an entry met before any failure is in `files` if and only if it is a media file, and in `folders` if and only if it is a directory |
| ScannerProperties.ScanMatchesDisk | server.js:47-75 | every record of one directory's scan agrees with the filesystem: files with their `stat`, folders with their own scan |
| ScannerProperties.UnreadableFolderIsEmpty | server.js:51-57 | a subdirectory met before any failure whose own listing throws still appears among the folders, holding empty `files` and `folders` (from the `catch` at server.js:78-82) |
| ScannerProperties.NothingAfterFailure | server.js:49 | once an entry's `stat` throws, no later entry of that directory appears in its result |
| Files.RelativeBelow | server.js:48 | the relative path of an entry below the root is the chain of names from the root down to it |
| Media.LastIndexOf | server.js:59 | the result is -1 or an index of the character |
| Media.LastIndexOfIsLast | server.js:59 | no occurrence of the character follows the index found, so -1 means there is none |
| Media.BaseNameShape | server.js:155 | the base name is the slash-free end of the path, reaching back to the last slash or to the start |
| Media.Extname | server.js:155 | an extension is empty or starts with a dot |
| Media.ExtnameOfName | server.js:59 | the last-dot rule: a slash-free name `stem.x` with a non-empty stem and a dot-free `x`, other than `..`, has extension `.x` |
| Media.ExtnameEmpty | server.js:59 | the extension is empty if and only if the base name has no dot after its first character or is `..` |
| Media.ClassifyName | server.js:59-64 | such a name `stem.x` is classified by the lower-cased `x` through the image, video, audio lookup chain |
| Media.ClassifyUpperCaseJpg | server.js:59-62 | `photo.JPG` is an image: the extension is lower-cased before the lookup |
| Media.ExtnameShape | server.js:59 | an extension is a slash-free end of the path with no dot after its leading one |
| Media.ExtensionListsDisjoint | server.js:25-27 | no extension is in two lists, so the order of the lookups does not matter |
| Media.ClassifyByList | server.js:59-64 | a name is media if and only if its lower-cased extension is in one of the three lists, and its kind is the list it is in |
| Media.MimeCoversLists | server.js:156-172 | every listed extension, with a leading dot, has a MIME entry whose top-level type is its kind's |
| Media.MimeCoversImages | server.js:157-162 | the image extensions all map to `image/…` types |
| Media.MimeCoversVideos | server.js:163-167 | the video extensions all map to `video/…` types |
| Media.MimeCoversAudio | server.js:168-172 | the audio extensions all map to `audio/…` types |
| Media.MimeKeysAreListed | server.js:156-173 | every MIME table key is a dot followed by a listed extension whose kind matches the MIME top-level type |
| Media.ContentTypeMatchesClassify | server.js:155-175 | a file that the scan classifies as image, video or audio is served under that top-level type; any other file is served as `application/octet-stream` |
| Text.Split | server.js:12 | splitting yields at least one piece and no piece contains the separator |
| Text.JoinSplit | server.js:10 | joining the pieces of a split gives back the text |
| Text.SplitJoin | server.js:12 | splitting the join of separator-free pieces gives back the pieces |
| Text.Trim | server.js:14 | the trimmed text is no longer than the input and has no white space at either end |
| Text.TrimRemovesPadding | server.js:14 | the input is white space, then the trimmed text, then white space |
| Text.TrimIdempotent | server.js:14 | trimming twice is trimming once |
| DotEnv.ParseAssignment | server.js:11-15 | a `key=value[=…]` line assigns the trimmed key and value when both are non-empty before trimming and the key does not start with `#`; text after a second `=` is dropped |
| DotEnv.NoSeparatorNoAssignment | server.js:12-13 | a line without `=` assigns nothing |
| DotEnv.CommentsAssignNothing | server.js:11 | empty lines and lines starting with `#` assign nothing |
| DotEnv.LastDefinitionWins | server.js:10-17 | a key takes the value of the last line that defines it |
| DotEnv.UndefinedKeysUntouched | server.js:10-17 | a key that no line defines keeps its earlier presence and value |
| DotEnv.Environment.LoadEnv | server.js:7-21 | an unreadable file leaves the environment as it was; otherwise the environment becomes the old one with the file's newline-split lines applied in order |
| Router.StatusCodes | server.js:86-335 | every response written has status 200, 400, 404 or 500 |
| Router.CrashOnlyFromMedia | server.js:137-148 | a request ends the process if and only if it reaches the media branch and its url does not decode or names a path holding a NUL byte |
| Router.ServeMediaOutcomes | server.js:147-186 | once the url decodes to a NUL-free path: 404 exactly when it is not a regular file, 500 exactly when its read stream does not open, and otherwise the stream with the table's content type |
| Router.PreflightFirst | server.js:93-97 | OPTIONS gives 200 with no body, for every url |
| Router.ConfigForAnyMethod | server.js:100-116 | `/api/config` with any other method gives 200 with both settings if and only if PORT and SCAN_PATH are both set, and 500 otherwise |
| Router.ConfigOnceStarted | server.js:338-342 | in a server that started (PORT set), `/api/config` fails if and only if SCAN_PATH is missing |
| Router.StaticBranch | server.js:119-141 | a GET outside `/api/` serves the landing page for `/` and `/index.html` (404 if it is unreadable); otherwise it gives 500 without SCAN_PATH, else the media branch for the url |
| Router.MediaTypeMatchesScan | server.js:147-181 | a streamed media file exists as a regular file whose stream opens, and gets the content type of its kind, or `application/octet-stream` |
| Router.ScanRoute | server.js:192-207 | GET `/api/scan` reports the root and the scan of the configured root, or gives 500 without SCAN_PATH |
| Router.OpenRequestOrder | server.js:214-268 | an open request that fails to parse or is `null` gives 400 first; a parsed body gives 500 without SCAN_PATH, then 400 for a non-string `path`, then 200 or 500 by the command's callback, or 400 when launching it throws |
| Router.BadRequestOnlyFromOpen | server.js:214-268 | a 400 occurs if and only if it is a POST to an open route with a body it cannot use, or whose open command throws on launch |
| Router.NotFoundOtherwise | server.js:332-335 | every request that none of the earlier checks claims gives 404 |
| Router.PostScanIsNotFound | server.js:192 | POST `/api/scan` gives 404 |
| Router.MalformedEscapeCrashes | server.js:143 | with SCAN_PATH set, GET `/%` ends the process: the decode throws outside any `try` |
| Router.NulByteCrashes | server.js:143-147 | with SCAN_PATH set, GET `/%00` ends the process: the path keeps the NUL byte and `fs.stat` throws outside any `try` |
| Router.SafeDispatchNeverCrashes | server.js:137-148 | the handler with a guarded media branch answers every request |
| Router.SafeDispatchAgrees | server.js:86-335 | the guarded handler equals the handler as written on every request that does not crash, and answers 400 on those that do |

## Left out

- HTTP plumbing is not modelled: the listener, CORS and Cache-Control header writes, JSON serialization of responses, and console logging. The headers are constant writes with no logic.
- Reading `.env` and `index.html` from disk becomes a parameter. The `.env` text is an `Option` that is `None` when the file cannot be read. Readability of `index.html` is a boolean.
- Streaming a media file is not modelled. The outcome records the path and content type, and a stream that fails to open is a 500. An error after bytes have been sent is not modelled: there `writeHead` itself would throw.
- The platform-specific shell commands run by the open routes are one abstract success or failure per target. The model does not capture that the quoted path is interpolated into a shell command line.
- Node's `path.join` for user-supplied paths and `decodeURIComponent` are foreign library behaviour, so they are `Host` parameters. A throwing decode is `None`.
- Router.ServeMedia: the NUL-byte crash follows Node releases whose `fs.stat` rejects such a path synchronously; releases that report it through the callback give 404 instead.
- Router.OpenPath: whether `exec` throws synchronously (such as on a NUL byte) is a `Host` parameter, `Threw`; the Node releases that do so are not modelled.
- Media.Extname: Node's handling of trailing slashes in the base name is not modelled. Only the last-dot rule is, with the leading-dot and `..` cases.
- Text.Lower: lower-cases ASCII letters only. JavaScript lower-cases all of Unicode, and that can change a string's length.
- Size and modification time are opaque: a `nat` and an `int` copied through from `stat`.
- Listing names are treated as single path segments, so joining a directory with a name appends it. Real `path.join` normalization does not arise for names that `readdir` returns.
- The `baseDir` default, which is falsy for the empty string in JavaScript, is modelled by `Scanner.Scan` (the root is its own base) and by the explicit `baseDir` of recursive calls.
- Concurrency between requests is not modelled, because every request is an independent decision.

## Findings

| source | as written | input that shows it | evidently intended | confidence | as-written member | corrected member |
|---|---|---|---|---|---|---|
| server.js:143-147 | `decodeURIComponent` and `fs.stat` run in the request callback outside any `try`, so their synchronous exceptions end the process | GET `/%` (a malformed escape), or GET `/%00` (a NUL byte), with SCAN_PATH set | no request crashes the server once it has started; malformed client input is answered 400 | not executed; high for `/%`, medium for `/%00` (depends on the Node release) | Router.MalformedEscapeCrashes, Router.NulByteCrashes | Router.SafeDispatch, with Router.SafeDispatchNeverCrashes and Router.SafeDispatchAgrees |

The other Router lemmas describe `Dispatch` as written. By `SafeDispatchAgrees` they hold of `SafeDispatch` too, on every request that does not crash.
