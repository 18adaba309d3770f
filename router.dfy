/** The request handler of the HTTP server, as one decision per request. Everything
    the handler learns from the outside world — the parsed body, the filesystem,
    Node's `path.join` and `decodeURIComponent`, whether `index.html` can be read,
    whether a file's read stream opens, how the shell command that opens a path
    ends — is a parameter. */
module Router {

  import opened Wrappers
  import opened Text
  import opened Files
  import opened Media
  import opened Scanner
  import opened DotEnv

  /** What parsing the request body as JSON and reading its `path` property yields. */
  datatype Body =
    | Unparsable                  // JSON.parse throws
    | NullJson                    // the body is `null`: destructuring throws
    | Parsed(path: Option<string>) // any other JSON value; `path` when it is a string

  datatype Request = Request(verb: string, url: string, body: Body)

  datatype OpenTarget = OpenFile | OpenFolder

  /** How `exec` of the open command ends: its callback without or with an error, or
      a synchronous throw (for instance on a command line holding a NUL byte). */
  datatype OpenResult = Succeeded | Failed | Threw

  datatype Host = Host(
    fs: FileSystem,
    locate: string -> Path,            // the location a path string names
    join: (string, string) -> string,  // path.join
    decodeUri: string -> Option<string>, // decodeURIComponent; None when it throws
    indexReadable: bool,               // whether index.html can be read
    streamOpens: string -> bool,       // whether createReadStream opens the file
    open: (OpenTarget, string) -> OpenResult) // how the open command ends

  datatype Outcome =
    | Preflight
    | ConfigMissing
    | Config(port: string, scanPath: string)
    | IndexPage
    | IndexMissing
    | MediaRootMissing
    | MediaNotFound
    | MediaStream(fullPath: string, contentType: string)
    | StreamFailed
    | ScanRootMissing
    | Scanned(baseDir: string, data: ScanResult)
    | OpenRootMissing
    | InvalidRequest
    | Opened
    | OpenFailed
    | NotFound
    | Crash        // an exception escapes the request callback: the process exits
  {
    /** Whether a response is written at all. */
    predicate Responds() {
      !Crash?
    }

    /** The status code written for the outcome. */
    function Status(): int
      requires Responds()
    {
      match this
      case Preflight => 200
      case ConfigMissing => 500
      case Config(_, _) => 200
      case IndexPage => 200
      case IndexMissing => 404
      case MediaRootMissing => 500
      case MediaNotFound => 404
      case MediaStream(_, _) => 200
      case StreamFailed => 500
      case ScanRootMissing => 500
      case Scanned(_, _) => 200
      case OpenRootMissing => 500
      case InvalidRequest => 400
      case Opened => 200
      case OpenFailed => 500
      case NotFound => 404
    }
  }

  const PortKey: string := "PORT"
  const ScanPathKey: string := "SCAN_PATH"

  /** The server only listens when `PORT` is set; otherwise the process exits. */
  predicate ServerStarts(env: map<string, string>) {
    IsSet(env, PortKey)
  }

  /** The url without its first character. */
  function DropLeadingChar(url: string): string {
    if |url| >= 1 then url[1..] else ""
  }

  const Nul: char := '\0'

  /** A GET outside `/api/` other than the landing page: the file under the scan root.
      `decodeURIComponent` and `fs.stat` run outside any `try`, so a malformed escape
      and a path holding a NUL byte (which `fs.stat` rejects synchronously) end the
      process. A read stream that fails to open answers 500. */
  function ServeMedia(url: string, scanPath: string, host: Host): Outcome {
    match host.decodeUri(DropLeadingChar(url))
    case None => Crash
    case Some(filePath) =>
      var fullPath := host.join(scanPath, filePath);
      if Nul in fullPath then Crash
      else
        match host.fs.stat(host.locate(fullPath))
        case RegularFile(_, _) =>
          if host.streamOpens(fullPath) then MediaStream(fullPath, ContentType(fullPath)) else StreamFailed
        case _ => MediaNotFound
  }

  /** The body handler of `/api/open-file` and `/api/open-folder`: the parse, then the
      scan-root check, then `path.join` (which throws on a non-string path), then the
      open command. */
  function OpenPath(target: OpenTarget, body: Body, env: map<string, string>, host: Host): Outcome {
    match body
    case Unparsable => InvalidRequest
    case NullJson => InvalidRequest
    case Parsed(path) =>
      if !IsSet(env, ScanPathKey) then OpenRootMissing
      else
        match path
        case None => InvalidRequest
        case Some(p) =>
          match host.open(target, host.join(env[ScanPathKey], p))
          case Succeeded => Opened
          case Failed => OpenFailed
          case Threw => InvalidRequest
  }

  predicate IsStaticRequest(req: Request) {
    req.verb == "GET" && !StartsWith(req.url, "/api/")
  }

  /** The chain of checks in the request callback, in the order they are made. */
  function Dispatch(req: Request, env: map<string, string>, host: Host): Outcome {
    if req.verb == "OPTIONS" then Preflight
    else if req.url == "/api/config" then
      if !IsSet(env, PortKey) || !IsSet(env, ScanPathKey) then ConfigMissing
      else Config(env[PortKey], env[ScanPathKey])
    else if IsStaticRequest(req) then
      if req.url == "/" || req.url == "/index.html" then
        if host.indexReadable then IndexPage else IndexMissing
      else if !IsSet(env, ScanPathKey) then MediaRootMissing
      else ServeMedia(req.url, env[ScanPathKey], host)
    else if req.url == "/api/scan" && req.verb == "GET" then
      if !IsSet(env, ScanPathKey) then ScanRootMissing
      else Scanned(env[ScanPathKey], Scan(host.fs, host.locate(env[ScanPathKey])))
    else if req.url == "/api/open-file" && req.verb == "POST" then
      OpenPath(OpenFile, req.body, env, host)
    else if req.url == "/api/open-folder" && req.verb == "POST" then
      OpenPath(OpenFolder, req.body, env, host)
    else NotFound
  }

  /** The media branch as evidently intended: a url that does not decode, or that
      names a path holding a NUL byte, is malformed client input and answers 400. */
  function SafeServeMedia(url: string, scanPath: string, host: Host): Outcome {
    match host.decodeUri(DropLeadingChar(url))
    case None => InvalidRequest
    case Some(filePath) =>
      if Nul in host.join(scanPath, filePath) then InvalidRequest else ServeMedia(url, scanPath, host)
  }

  /** The handler with the media branch guarded. */
  function SafeDispatch(req: Request, env: map<string, string>, host: Host): Outcome {
    if IsMediaRequest(req, env) then SafeServeMedia(req.url, env[ScanPathKey], host)
    else Dispatch(req, env, host)
  }

  /** Every status the handler writes is one of 200, 400, 404 and 500. */
  lemma StatusCodes(req: Request, env: map<string, string>, host: Host)
    ensures Dispatch(req, env, host).Responds() ==> Dispatch(req, env, host).Status() in {200, 400, 404, 500}
  {
  }

  /** The GETs that reach the media branch: static, not the landing page, with a scan
      root. */
  predicate IsMediaRequest(req: Request, env: map<string, string>) {
    && req.verb != "OPTIONS" && IsStaticRequest(req)
    && req.url != "/" && req.url != "/index.html"
    && IsSet(env, ScanPathKey)
  }

  /** Only the media branch ends the process, and only for a url that does not decode
      or that names a path holding a NUL byte. */
  lemma CrashOnlyFromMedia(req: Request, env: map<string, string>, host: Host)
    ensures Dispatch(req, env, host).Crash? <==>
      && IsMediaRequest(req, env)
      && var decoded := host.decodeUri(DropLeadingChar(req.url));
         decoded.None? || Nul in host.join(env[ScanPathKey], decoded.value)
  {
    assert StartsWith("/api/config", "/api/");
  }

  /** The media branch, cause by cause: 404 for anything but a regular file, 500 when
      its read stream does not open, otherwise the stream with its content type. */
  lemma ServeMediaOutcomes(url: string, scanPath: string, host: Host, filePath: string)
    requires host.decodeUri(DropLeadingChar(url)) == Some(filePath)
    requires Nul !in host.join(scanPath, filePath)
    ensures var full := host.join(scanPath, filePath);
      var out := ServeMedia(url, scanPath, host);
      && (out == MediaNotFound <==> !host.fs.stat(host.locate(full)).RegularFile?)
      && (out == StreamFailed <==> host.fs.stat(host.locate(full)).RegularFile? && !host.streamOpens(full))
      && (out.MediaStream? <==> host.fs.stat(host.locate(full)).RegularFile? && host.streamOpens(full))
      && (out.MediaStream? ==> out == MediaStream(full, ContentType(full)))
  {
  }

  /** A preflight is answered 200 with an empty body, whatever the url. */
  lemma PreflightFirst(req: Request, env: map<string, string>, host: Host)
    requires req.verb == "OPTIONS"
    ensures Dispatch(req, env, host) == Preflight && Preflight.Status() == 200
  {
  }

  /** `/api/config` is answered for every method but OPTIONS: 500 unless both
      settings are present. */
  lemma ConfigForAnyMethod(req: Request, env: map<string, string>, host: Host)
    requires req.verb != "OPTIONS" && req.url == "/api/config"
    ensures Dispatch(req, env, host).Status() == 200 <==> IsSet(env, PortKey) && IsSet(env, ScanPathKey)
    ensures Dispatch(req, env, host).Status() == 200 ==>
              Dispatch(req, env, host) == Config(env[PortKey], env[ScanPathKey])
    ensures Dispatch(req, env, host).Status() != 200 ==> Dispatch(req, env, host) == ConfigMissing
  {
  }

  /** Once the server listens, `/api/config` fails only for a missing scan root. */
  lemma ConfigOnceStarted(req: Request, env: map<string, string>, host: Host)
    requires ServerStarts(env)
    requires req.verb != "OPTIONS" && req.url == "/api/config"
    ensures Dispatch(req, env, host) == ConfigMissing <==> !IsSet(env, ScanPathKey)
  {
  }

  /** Every GET outside `/api/` is a static request: the landing page for `/` and
      `/index.html`, else (given a scan root) the file under the root, or 404. */
  lemma StaticBranch(req: Request, env: map<string, string>, host: Host)
    requires IsStaticRequest(req) && req.url != "/api/config"
    ensures var out := Dispatch(req, env, host);
      if req.url == "/" || req.url == "/index.html" then
        out == (if host.indexReadable then IndexPage else IndexMissing)
      else if !IsSet(env, ScanPathKey) then out == MediaRootMissing
      else out == ServeMedia(req.url, env[ScanPathKey], host)
  {
  }

  /** A media file that exists is streamed with the type its extension calls for:
      one of the scan's media kinds is served under that kind's top-level type. */
  lemma MediaTypeMatchesScan(req: Request, env: map<string, string>, host: Host)
    requires IsStaticRequest(req) && req.url != "/" && req.url != "/index.html"
    requires Dispatch(req, env, host).MediaStream?
    ensures var out := Dispatch(req, env, host);
      && host.fs.stat(host.locate(out.fullPath)).RegularFile?
      && host.streamOpens(out.fullPath)
      && (Classify(out.fullPath) != Other ==> TopLevelType(Classify(out.fullPath)) <= out.contentType)
      && (Classify(out.fullPath) == Other ==> out.contentType == OctetStream)
  {
    assert req.url != "/api/config" by {
      assert StartsWith("/api/config", "/api/");
    }
    assert IsSet(env, ScanPathKey);
    var out := ServeMedia(req.url, env[ScanPathKey], host);
    assert Dispatch(req, env, host) == out;
    ContentTypeMatchesClassify(out.fullPath);
  }

  /** GET `/api/scan` reports the scan of the configured root, or 500 without one. */
  lemma ScanRoute(req: Request, env: map<string, string>, host: Host)
    requires req.verb == "GET" && req.url == "/api/scan"
    ensures IsSet(env, ScanPathKey) ==>
      Dispatch(req, env, host) == Scanned(env[ScanPathKey], Scan(host.fs, host.locate(env[ScanPathKey])))
    ensures !IsSet(env, ScanPathKey) ==> Dispatch(req, env, host) == ScanRootMissing
  {
  }

  /** An open request whose body does not parse, or parses to `null`, is a 400 whether
      or not a scan root is set; one whose body parses is a 500 without a scan root,
      then a 400 when `path` is not a string. */
  lemma OpenRequestOrder(req: Request, env: map<string, string>, host: Host)
    requires req.verb == "POST" && (req.url == "/api/open-file" || req.url == "/api/open-folder")
    ensures (req.body.Unparsable? || req.body.NullJson?) ==> Dispatch(req, env, host) == InvalidRequest
    ensures req.body.Parsed? && !IsSet(env, ScanPathKey) ==> Dispatch(req, env, host) == OpenRootMissing
    ensures req.body.Parsed? && IsSet(env, ScanPathKey) && req.body.path.None? ==>
              Dispatch(req, env, host) == InvalidRequest
    ensures req.body.Parsed? && IsSet(env, ScanPathKey) && req.body.path.Some? ==>
              var target := if req.url == "/api/open-file" then OpenFile else OpenFolder;
              var full := host.join(env[ScanPathKey], req.body.path.value);
              Dispatch(req, env, host) == match host.open(target, full)
                case Succeeded => Opened
                case Failed => OpenFailed
                case Threw => InvalidRequest
  {
  }

  /** Only the two open routes ever answer 400: for a body they cannot use, or when
      launching the open command throws inside their `try`. */
  lemma BadRequestOnlyFromOpen(req: Request, env: map<string, string>, host: Host)
    ensures var out := Dispatch(req, env, host);
      (out.Responds() && out.Status() == 400) <==>
      && req.verb == "POST"
      && (req.url == "/api/open-file" || req.url == "/api/open-folder")
      && (|| req.body.Unparsable? || req.body.NullJson?
          || (IsSet(env, ScanPathKey) && req.body.path.None?)
          || (IsSet(env, ScanPathKey) && req.body.path.Some?
              && var target := if req.url == "/api/open-file" then OpenFile else OpenFolder;
                 host.open(target, host.join(env[ScanPathKey], req.body.path.value)) == Threw))
  {
  }

  /** Whatever falls through every check is a 404 — among them POST `/api/scan` and
      every non-GET request to a non-API url. */
  lemma NotFoundOtherwise(req: Request, env: map<string, string>, host: Host)
    requires req.verb != "OPTIONS" && req.url != "/api/config"
    requires !IsStaticRequest(req)
    requires !(req.verb == "GET" && req.url == "/api/scan")
    requires !(req.verb == "POST" && (req.url == "/api/open-file" || req.url == "/api/open-folder"))
    ensures Dispatch(req, env, host) == NotFound
  {
  }

  lemma PostScanIsNotFound(env: map<string, string>, host: Host, body: Body)
    ensures Dispatch(Request("POST", "/api/scan", body), env, host) == NotFound
  {
    assert StartsWith("/api/scan", "/api/");
  }

  /** As written, a url with a malformed percent escape ends the process once a scan
      root is set. */
  lemma MalformedEscapeCrashes(env: map<string, string>, host: Host, body: Body)
    requires IsSet(env, ScanPathKey)
    requires host.decodeUri("%") == None
    ensures Dispatch(Request("GET", "/%", body), env, host) == Crash
  {
    assert !StartsWith("/%", "/api/");
  }

  /** As written, a url that decodes to a NUL byte ends the process once a scan root
      is set, since joining keeps the byte and `fs.stat` rejects it. */
  lemma NulByteCrashes(env: map<string, string>, host: Host, body: Body)
    requires IsSet(env, ScanPathKey)
    requires host.decodeUri("%00") == Some([Nul])
    requires Nul in host.join(env[ScanPathKey], [Nul])
    ensures Dispatch(Request("GET", "/%00", body), env, host) == Crash
  {
    assert !StartsWith("/%00", "/api/");
  }

  /** The guarded handler answers every request. */
  lemma SafeDispatchNeverCrashes(req: Request, env: map<string, string>, host: Host)
    ensures SafeDispatch(req, env, host).Responds()
  {
    CrashOnlyFromMedia(req, env, host);
  }

  /** The guarded handler differs from the handler as written only on the requests that
      end the process, and answers those 400. */
  lemma SafeDispatchAgrees(req: Request, env: map<string, string>, host: Host)
    ensures !Dispatch(req, env, host).Crash? ==> SafeDispatch(req, env, host) == Dispatch(req, env, host)
    ensures Dispatch(req, env, host).Crash? ==> SafeDispatch(req, env, host) == InvalidRequest
  {
    if IsMediaRequest(req, env) {
      assert StartsWith("/api/config", "/api/");
      assert Dispatch(req, env, host) == ServeMedia(req.url, env[ScanPathKey], host);
    } else {
      CrashOnlyFromMedia(req, env, host);
    }
  }

}
