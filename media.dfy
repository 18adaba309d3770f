/** Media classification by extension and the MIME table used when a file is served. */
module Media {

  import opened Text

  datatype MediaType = Image | Video | Audio | Other

  const ImageExtensions: seq<string> := ["jpg", "jpeg", "png", "gif", "svg", "webp"]
  const VideoExtensions: seq<string> := ["mp4", "mov", "avi", "mkv", "webm"]
  const AudioExtensions: seq<string> := ["mp3", "wav", "ogg", "flac", "m4a"]

  const OctetStream: string := "application/octet-stream"

  /** The `Content-Type` served for each lower-cased extension (with its dot). */
  const MimeTypes: map<string, string> := map[
    ".jpg" := "image/jpeg",
    ".jpeg" := "image/jpeg",
    ".png" := "image/png",
    ".gif" := "image/gif",
    ".svg" := "image/svg+xml",
    ".webp" := "image/webp",
    ".mp4" := "video/mp4",
    ".mov" := "video/quicktime",
    ".avi" := "video/x-msvideo",
    ".mkv" := "video/x-matroska",
    ".webm" := "video/webm",
    ".mp3" := "audio/mpeg",
    ".wav" := "audio/wav",
    ".ogg" := "audio/ogg",
    ".flac" := "audio/flac",
    ".m4a" := "audio/mp4"
  ]

  /** Index of the last occurrence of `c` in `s`, or -1. */
  function LastIndexOf(s: string, c: char): (i: int)
    ensures -1 <= i < |s|
    ensures i >= 0 ==> s[i] == c
    decreases |s|
  {
    if s == [] then -1
    else if s[|s| - 1] == c then |s| - 1
    else LastIndexOf(s[..|s| - 1], c)
  }

  /** No occurrence of `c` follows the one `LastIndexOf` finds. */
  lemma {:induction false} LastIndexOfIsLast(s: string, c: char)
    ensures forall j :: LastIndexOf(s, c) < j < |s| ==> s[j] != c
    decreases |s|
  {
    if s != [] && s[|s| - 1] != c {
      LastIndexOfIsLast(s[..|s| - 1], c);
    }
  }

  /** The last segment of a slash-separated path. */
  function BaseName(p: string): string {
    p[LastIndexOf(p, '/') + 1..]
  }

  /** Node's `path.extname`: from the last dot of the base name to its end; empty when
      the base name has no dot, when its only dot leads it, or when it is `..`. */
  function Extname(p: string): (e: string)
    ensures e == [] || e[0] == '.'
  {
    var b := BaseName(p);
    var d := LastIndexOf(b, '.');
    if d <= 0 || b == ".." then "" else b[d..]
  }

  /** The base name is the part of the path after its last slash: a slash-free end of
      the path that reaches back to a slash or to the start. */
  lemma BaseNameShape(p: string)
    ensures var b := BaseName(p);
      && '/' !in b && |b| <= |p| && b == p[|p| - |b|..]
      && (|b| == |p| || p[|p| - |b| - 1] == '/')
  {
    BaseNameSlashFree(p);
  }

  lemma BaseNameSlashFree(p: string)
    ensures '/' !in BaseName(p)
  {
    var i := LastIndexOf(p, '/');
    LastIndexOfIsLast(p, '/');
    var b := p[i + 1..];
    forall j | 0 <= j < |b|
      ensures b[j] != '/'
    {
      assert b[j] == p[i + 1 + j];
    }
  }

  /** An extension is a dot followed by text with no further dot, taken from the
      end of the last path segment. */
  lemma ExtnameShape(p: string)
    ensures var e := Extname(p);
      && '/' !in e
      && (e != [] ==> '.' !in e[1..])
      && |e| <= |p| && e == p[|p| - |e|..]
  {
    var b := BaseName(p);
    BaseNameSlashFree(p);
    var d := LastIndexOf(b, '.');
    if !(d <= 0 || b == "..") {
      LastIndexOfIsLast(b, '.');
      var e := b[d..];
      assert forall j :: 0 <= j < |e| ==> e[j] == b[d + j];
      assert e == p[|p| - |e|..];
    }
  }

  /** Text without the character has no last occurrence of it. */
  lemma {:induction false} LastIndexOfAbsent(s: string, c: char)
    requires c !in s
    ensures LastIndexOf(s, c) == -1
    decreases |s|
  {
    if s != [] {
      assert s[..|s| - 1] + [s[|s| - 1]] == s;
      LastIndexOfAbsent(s[..|s| - 1], c);
    }
  }

  /** The last occurrence is the one followed by text without the character. */
  lemma {:induction false} LastIndexOfBefore(a: string, c: char, x: string)
    requires c !in x
    ensures LastIndexOf(a + [c] + x, c) == |a|
    decreases |x|
  {
    var s := a + [c] + x;
    if x != [] {
      var x' := x[..|x| - 1];
      assert s[..|s| - 1] == a + [c] + x';
      assert s[|s| - 1] == x[|x| - 1];
      LastIndexOfBefore(a, c, x');
    }
  }

  /** A slash-free name is its own base name. */
  lemma BaseNameOfName(p: string)
    requires '/' !in p
    ensures BaseName(p) == p
  {
    LastIndexOfAbsent(p, '/');
  }

  /** The last-dot rule on a name: the extension of `stem.x` is `.x`, provided the
      stem is not empty, neither part has a slash, `x` has no dot, and the name is
      not `..`. */
  lemma ExtnameOfName(stem: string, x: string)
    requires stem != [] && '/' !in stem && '/' !in x && '.' !in x && !(stem == "." && x == "")
    ensures Extname(stem + "." + x) == "." + x
  {
    var p := stem + "." + x;
    assert p == stem + ['.'] + x;
    assert '/' !in p;
    BaseNameOfName(p);
    LastIndexOfBefore(stem, '.', x);
    assert LastIndexOf(BaseName(p), '.') == |stem| > 0;
    assert p[..|stem|] == stem;
    assert p[|stem|..] == "." + x;
  }

  /** The extension is empty exactly when the base name has no dot after its first
      character, or is `..`. */
  lemma ExtnameEmpty(p: string)
    ensures var b := BaseName(p);
      Extname(p) == "" <==> (forall j :: 0 < j < |b| ==> b[j] != '.') || b == ".."
  {
    var b := BaseName(p);
    var d := LastIndexOf(b, '.');
    LastIndexOfIsLast(b, '.');
    if d > 0 && b != ".." {
      assert b[d] == '.';
      assert b[d..][0] == '.';
    }
  }

  /** The extension the scan classifies by: the lower-cased `Extname` without its dot. */
  function ExtensionOf(name: string): string {
    var e := Lower(Extname(name));
    if |e| >= 1 then e[1..] else ""
  }

  /** The chain of list lookups: image first, then video, then audio. */
  function KindOfExtension(ext: string): MediaType {
    if ext in ImageExtensions then Image
    else if ext in VideoExtensions then Video
    else if ext in AudioExtensions then Audio
    else Other
  }

  function Classify(name: string): MediaType {
    KindOfExtension(ExtensionOf(name))
  }

  /** The MIME type of the lower-cased extension (dot included), falling back to
      `application/octet-stream` when the table has no entry. */
  function ContentType(fullPath: string): string {
    var ext := Lower(Extname(fullPath));
    if ext in MimeTypes then MimeTypes[ext] else OctetStream
  }

  /** The top-level MIME type that belongs to a media kind. */
  function TopLevelType(kind: MediaType): string {
    match kind
    case Image => "image/"
    case Video => "video/"
    case Audio => "audio/"
    case Other => "application/"
  }

  /** No extension is in two lists, so the order of the lookups decides nothing. */
  lemma ExtensionListsDisjoint()
    ensures forall x :: x in ImageExtensions ==> x !in VideoExtensions && x !in AudioExtensions
    ensures forall x :: x in VideoExtensions ==> x !in AudioExtensions
  {
  }

  /** A name is media exactly when its lower-cased extension is in one of the lists,
      and its kind is the list it is in. */
  lemma ClassifyByList(name: string)
    ensures Classify(name) != Other <==>
      ExtensionOf(name) in ImageExtensions + VideoExtensions + AudioExtensions
    ensures Classify(name) == Image <==> ExtensionOf(name) in ImageExtensions
    ensures Classify(name) == Video <==> ExtensionOf(name) in VideoExtensions
    ensures Classify(name) == Audio <==> ExtensionOf(name) in AudioExtensions
  {
    ExtensionListsDisjoint();
  }

  /** A name `stem.x` (under the conditions of `ExtnameOfName`) is classified by the
      lower-cased `x` alone. */
  lemma ClassifyName(stem: string, x: string)
    requires stem != [] && '/' !in stem && '/' !in x && '.' !in x && !(stem == "." && x == "")
    ensures Classify(stem + "." + x) == KindOfExtension(Lower(x))
  {
    ExtnameOfName(stem, x);
    var e := Lower("." + x);
    assert e == "." + Lower(x);
    assert e[1..] == Lower(x);
  }

  /** For instance, an upper-case extension is lower-cased before the lookup. */
  lemma ClassifyUpperCaseJpg()
    ensures Classify("photo.JPG") == Image
  {
    assert "photo" + "." + "JPG" == "photo.JPG";
    ClassifyName("photo", "JPG");
    LowerJpg();
    assert "jpg" == ImageExtensions[0];
  }

  lemma LowerJpg()
    ensures Lower("JPG") == "jpg"
  {
    var l := Lower("JPG");
    assert l[0] == LowerChar('J') == 'j';
    assert l[1] == LowerChar('P') == 'p';
    assert l[2] == LowerChar('G') == 'g';
  }

  /** Every listed extension has a MIME entry, under its kind's top-level type. */
  lemma MimeCoversLists(x: string)
    requires x in ImageExtensions + VideoExtensions + AudioExtensions
    ensures "." + x in MimeTypes
    ensures TopLevelType(KindOfExtension(x)) <= MimeTypes["." + x]
  {
    if x in ImageExtensions {
      MimeCoversImages(x);
    } else if x in VideoExtensions {
      MimeCoversVideos(x);
    } else {
      MimeCoversAudio(x);
    }
  }

  lemma MimeCoversImages(x: string)
    requires x in ImageExtensions
    ensures "." + x in MimeTypes && "image/" <= MimeTypes["." + x]
  {
    var k := "." + x;
    if x == "jpg" { assert k == ".jpg"; }
    else if x == "jpeg" { assert k == ".jpeg"; }
    else if x == "png" { assert k == ".png"; }
    else if x == "gif" { assert k == ".gif"; }
    else if x == "svg" { assert k == ".svg"; }
    else { assert k == ".webp"; }
  }

  lemma MimeCoversVideos(x: string)
    requires x in VideoExtensions
    ensures "." + x in MimeTypes && "video/" <= MimeTypes["." + x]
  {
    var k := "." + x;
    if x == "mp4" { assert k == ".mp4"; }
    else if x == "mov" { assert k == ".mov"; }
    else if x == "avi" { assert k == ".avi"; }
    else if x == "mkv" { assert k == ".mkv"; }
    else { assert k == ".webm"; }
  }

  lemma MimeCoversAudio(x: string)
    requires x in AudioExtensions
    ensures "." + x in MimeTypes && "audio/" <= MimeTypes["." + x]
  {
    var k := "." + x;
    if x == "mp3" { assert k == ".mp3"; }
    else if x == "wav" { assert k == ".wav"; }
    else if x == "ogg" { assert k == ".ogg"; }
    else if x == "flac" { assert k == ".flac"; }
    else { assert k == ".m4a"; }
  }

  /** Every MIME entry is a dot followed by a listed extension of the same kind. */
  lemma MimeKeysAreListed(k: string)
    requires k in MimeTypes
    ensures |k| >= 1 && k == "." + k[1..]
    ensures k[1..] in ImageExtensions + VideoExtensions + AudioExtensions
    ensures TopLevelType(KindOfExtension(k[1..])) <= MimeTypes[k]
  {
    if k in [".jpg", ".jpeg", ".png", ".gif", ".svg", ".webp"] {
      ImageKeyListed(k);
    } else if k in [".mp4", ".mov", ".avi", ".mkv", ".webm"] {
      VideoKeyListed(k);
    } else {
      AudioKeyListed(k);
    }
  }

  lemma ImageKeyListed(k: string)
    requires k in [".jpg", ".jpeg", ".png", ".gif", ".svg", ".webp"]
    ensures k in MimeTypes && |k| >= 1 && k == "." + k[1..]
    ensures k[1..] in ImageExtensions && "image/" <= MimeTypes[k]
  {
    var x := k[1..];
    if k == ".jpg" { assert x == "jpg"; }
    else if k == ".jpeg" { assert x == "jpeg"; }
    else if k == ".png" { assert x == "png"; }
    else if k == ".gif" { assert x == "gif"; }
    else if k == ".svg" { assert x == "svg"; }
    else { assert x == "webp"; }
  }

  lemma VideoKeyListed(k: string)
    requires k in [".mp4", ".mov", ".avi", ".mkv", ".webm"]
    ensures k in MimeTypes && |k| >= 1 && k == "." + k[1..]
    ensures k[1..] in VideoExtensions && "video/" <= MimeTypes[k]
  {
    var x := k[1..];
    if k == ".mp4" { assert x == "mp4"; }
    else if k == ".mov" { assert x == "mov"; }
    else if k == ".avi" { assert x == "avi"; }
    else if k == ".mkv" { assert x == "mkv"; }
    else { assert x == "webm"; }
  }

  lemma AudioKeyListed(k: string)
    requires k in [".mp3", ".wav", ".ogg", ".flac", ".m4a"]
    ensures k in MimeTypes && |k| >= 1 && k == "." + k[1..]
    ensures k[1..] in AudioExtensions && "audio/" <= MimeTypes[k]
  {
    var x := k[1..];
    if k == ".mp3" { assert x == "mp3"; }
    else if k == ".wav" { assert x == "wav"; }
    else if k == ".ogg" { assert x == "ogg"; }
    else if k == ".flac" { assert x == "flac"; }
    else { assert x == "m4a"; }
  }

  /** The served content type agrees with the scan's classification: media of a kind
      is served under that kind's top-level type, anything else as
      `application/octet-stream`. */
  lemma {:induction false} ContentTypeMatchesClassify(p: string)
    ensures Classify(p) != Other ==> TopLevelType(Classify(p)) <= ContentType(p)
    ensures Classify(p) == Other ==> ContentType(p) == OctetStream
  {
    var e := Lower(Extname(p));
    if |e| >= 1 {
      assert e == "." + e[1..];
      if e in MimeTypes {
        MimeKeysAreListed(e);
      } else if e[1..] in ImageExtensions + VideoExtensions + AudioExtensions {
        MimeCoversLists(e[1..]);
      }
    } else {
      assert e !in MimeTypes;
    }
  }

}
