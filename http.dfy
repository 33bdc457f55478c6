/**
 * The recorder's embedded HTTP server that serves the editor
 * (ScreenRecorder/Sources/main.swift, `LocalHTTPServer`): the request-line
 * check, the normalisation of the request target, routing between the
 * video folder and the editor's resources, the MIME table and the layout
 * of a response. Sockets are left out; a request arrives as a string and
 * a response leaves as bytes.
 */
module Http {
  import opened Wrappers
  import opened Text

  newtype byte = x: int | 0 <= x < 256

  // ---------------------------------------------------------------------------
  // UTF-8, for `Data(string.utf8)`.

  function Utf8Char(c: char): (b: seq<byte>)
    ensures 1 <= |b| <= 4
    ensures |b| == 1 <==> c < '\U{80}'
    ensures c < '\U{80}' ==> b[0] as int == c as int
  {
    var n := c as int;
    if n < 0x80 then [n as byte]
    else if n < 0x800 then [(0xC0 + n / 64) as byte, (0x80 + n % 64) as byte]
    else if n < 0x10000 then
      [(0xE0 + n / 4096) as byte, (0x80 + (n / 64) % 64) as byte, (0x80 + n % 64) as byte]
    else
      [(0xF0 + n / 262144) as byte, (0x80 + (n / 4096) % 64) as byte,
       (0x80 + (n / 64) % 64) as byte, (0x80 + n % 64) as byte]
  }

  /** The UTF-8 bytes of `s`; an ASCII string gives one byte per character, its code. */
  function Utf8(s: string): (b: seq<byte>)
    ensures |b| >= |s|
    ensures (forall i :: 0 <= i < |s| ==> s[i] < '\U{80}') ==>
      |b| == |s| && forall i :: 0 <= i < |s| ==> b[i] as int == s[i] as int
  {
    if s == [] then [] else Utf8Char(s[0]) + Utf8(s[1..])
  }

  // ---------------------------------------------------------------------------
  // The request line.

  /** The first line of the request: what comes before the first CRLF. */
  function FirstLine(request: string): string
  {
    Split(request, "\r\n")[0]
  }

  /** The longest prefix of `s` without a space. */
  function Token(s: string): (w: string)
    ensures w <= s && ' ' !in w
    ensures |w| == |s| || s[|w|] == ' '
  {
    if s == [] || s[0] == ' ' then [] else [s[0]] + Token(s[1..])
  }

  /** `line.split(separator: " ")`: the space-separated words, empty ones omitted. */
  function Words(s: string): (ws: seq<string>)
    ensures forall i :: 0 <= i < |ws| ==> ws[i] != [] && ' ' !in ws[i]
    decreases |s|
  {
    if s == [] then []
    else if s[0] == ' ' then Words(s[1..])
    else
      var w := Token(s);
      assert w[0] == s[0];
      [w] + Words(s[|w|..])
  }

  /** A word is a non-empty string with neither a space nor a line break in it. */
  predicate IsWord(w: string)
  {
    w != [] && ' ' !in w && '\r' !in w
  }

  /** The target of a `GET` request line with at least two words; `None` for any other request. */
  function RequestTarget(request: string): Option<string>
  {
    var parts := Words(FirstLine(request));
    if |parts| >= 2 && parts[0] == "GET" then Some(parts[1]) else None
  }

  lemma {:induction false} TokenOf(w: string, rest: string)
    requires ' ' !in w && (rest == [] || rest[0] == ' ')
    ensures Token(w + rest) == w
  {
    if w != [] {
      assert (w + rest)[1..] == w[1..] + rest;
      TokenOf(w[1..], rest);
    }
  }

  /** Joining words with single spaces and splitting at spaces gives the words back. */
  lemma {:induction false} WordsJoin(ws: seq<string>)
    requires |ws| >= 1 && forall i :: 0 <= i < |ws| ==> ws[i] != [] && ' ' !in ws[i]
    ensures Words(Join(ws, " ")) == ws
    decreases |ws|
  {
    var w := ws[0];
    if |ws| == 1 {
      TokenOf(w, []);
      assert w + [] == w;
      assert w[|w|..] == [];
    } else {
      var rest := Join(ws[1..], " ");
      var s := w + " " + rest;
      assert s == w + (" " + rest);
      TokenOf(w, " " + rest);
      assert s[|w|..] == " " + rest;
      assert (" " + rest)[1..] == rest;
      WordsJoin(ws[1..]);
      assert ws == [w] + ws[1..];
    }
  }

  lemma {:induction false} JoinHasNoBreak(ws: seq<string>)
    requires forall i :: 0 <= i < |ws| ==> '\r' !in ws[i]
    ensures '\r' !in Join(ws, " ")
    decreases |ws|
  {
    if |ws| > 1 {
      JoinHasNoBreak(ws[1..]);
    }
  }

  lemma CrLfOnlyAtEnd(p: string, j: nat)
    requires '\r' !in p
    ensures !OccursAt(p + "\r\n", "\r\n", j) || j == |p|
  {
    if j < |p| {
      assert (p + "\r\n")[j..j + 2][0] == p[j];
    }
  }

  /** A line without a carriage return, followed by CRLF, is the request's first line. */
  lemma FirstLineOf(line: string, rest: string)
    requires '\r' !in line
    ensures FirstLine(line + "\r\n" + rest) == line
  {
    forall j: nat
      ensures !OccursAt(line + "\r\n", "\r\n", j) || j == |line|
    {
      CrLfOnlyAtEnd(line, j);
    }
    FirstSeparatorAt(line, "\r\n", rest);
  }

  /**
   * A request whose first line is words separated by single spaces is
   * answered by its second word exactly when it has two or more words
   * and the first is `GET`; otherwise it is a bad request.
   */
  lemma RequestLine(ws: seq<string>, rest: string)
    requires |ws| >= 1 && forall i :: 0 <= i < |ws| ==> IsWord(ws[i])
    ensures RequestTarget(Join(ws, " ") + "\r\n" + rest) ==
      if |ws| >= 2 && ws[0] == "GET" then Some(ws[1]) else None
  {
    JoinHasNoBreak(ws);
    FirstLineOf(Join(ws, " "), rest);
    WordsJoin(ws);
  }

  /** Runs of spaces between the words of the request line count as one. */
  lemma ExtraSpacesIgnored(a: string, b: string)
    requires a != [] && ' ' !in a
    ensures Words(a + " " + b) == Words(a + "  " + b)
  {
    TokenOf(a, " " + b);
    TokenOf(a, "  " + b);
    assert a + " " + b == a + (" " + b);
    assert a + "  " + b == a + ("  " + b);
    assert (a + " " + b)[|a|..] == " " + b;
    assert (a + "  " + b)[|a|..] == "  " + b;
    assert (" " + b)[1..] == b;
    assert ("  " + b)[1..] == " " + b;
  }

  // ---------------------------------------------------------------------------
  // Normalising the target.

  /** A target in absolute form, `http://…` or `https://…`. */
  predicate IsAbsoluteForm(t: string)
  {
    "http://" <= t || "https://" <= t
  }

  /**
   * An absolute-form target is replaced by its URL path, `/` when that is
   * empty; `urlPath` is the URL parser, `None` when the target is not a URL.
   */
  function AbsolutePath(t: string, urlPath: string -> Option<string>): (p: string)
    ensures !IsAbsoluteForm(t) || urlPath(t).None? ==> p == t
    ensures IsAbsoluteForm(t) && urlPath(t).Some? ==> p != [] && (urlPath(t).value != [] ==> p == urlPath(t).value)
  {
    if IsAbsoluteForm(t) then
      match urlPath(t)
      case Some(path) => if path == [] then "/" else path
      case None => t
    else t
  }

  /** The target with its query string, from the first `?` on, removed. */
  function StripQuery(p: string): (r: string)
    ensures r <= p && '?' !in r
    ensures |r| < |p| ==> p[|r|] == '?'
  {
    if p == [] || p[0] == '?' then [] else [p[0]] + StripQuery(p[1..])
  }

  lemma {:induction false} StripQueryAt(p: string, query: string)
    requires '?' !in p
    ensures StripQuery(p + "?" + query) == p
  {
    if p != [] {
      assert (p + "?" + query)[1..] == p[1..] + "?" + query;
      StripQueryAt(p[1..], query);
    }
  }

  /**
   * The path the server routes on: the absolute form reduced to its path,
   * the query removed, then percent-decoded by `decode` when that succeeds.
   */
  function NormalisePath(target: string, urlPath: string -> Option<string>, decode: string -> Option<string>): string
  {
    var p := StripQuery(AbsolutePath(target, urlPath));
    match decode(p)
    case Some(d) => d
    case None => p
  }

  /** A query string does not change which path an origin-form target is routed on. */
  lemma QueryIgnored(path: string, query: string, urlPath: string -> Option<string>, decode: string -> Option<string>)
    requires path != [] && path[0] == '/' && '?' !in path
    ensures NormalisePath(path + "?" + query, urlPath, decode) == NormalisePath(path, urlPath, decode)
  {
    StripQueryAt(path, query);
    StripQueryAt(path, "");
    assert (path + "?" + query)[0] == '/';
    assert StripQuery(path) == path;
  }

  /** An absolute-form target is routed exactly like the origin-form target its URL path names. */
  lemma AbsoluteLikeOrigin(target: string, path: string, urlPath: string -> Option<string>, decode: string -> Option<string>)
    requires IsAbsoluteForm(target) && urlPath(target) == Some(path)
    requires path == [] || path[0] == '/'
    ensures NormalisePath(target, urlPath, decode) == NormalisePath(if path == [] then "/" else path, urlPath, decode)
  {
    var origin := if path == [] then "/" else path;
    assert origin[0] == '/';
    assert !IsAbsoluteForm(origin);
  }

  // ---------------------------------------------------------------------------
  // Routing.

  /** What the server does with a request: refuse it, report the missing video folder, or serve a file. */
  datatype Route = BadRequest | NoVideoFolder | File(path: string)

  const VideoPrefix: string := "/video/"

  /**
   * `/video/<name>` names `<name>` in the video folder; any other path `p`
   * names `Editor<p>` among the resources, `/` standing for `/index.html`.
   * `join` is `NSString.appendingPathComponent`.
   */
  function RouteOf(path: string, resourcesPath: string, videoFolder: Option<string>, join: (string, string) -> string): Route
  {
    if VideoPrefix <= path then
      if videoFolder.Some? then File(join(videoFolder.value, path[|VideoPrefix|..])) else NoVideoFolder
    else File(join(resourcesPath, "Editor" + (if path == "/" then "/index.html" else path)))
  }

  /** The whole routing decision for a request. */
  function RouteRequest(request: string, resourcesPath: string, videoFolder: Option<string>,
                        urlPath: string -> Option<string>, decode: string -> Option<string>,
                        join: (string, string) -> string): Route
  {
    match RequestTarget(request)
    case None => BadRequest
    case Some(target) => RouteOf(NormalisePath(target, urlPath, decode), resourcesPath, videoFolder, join)
  }

  /** `/video/<name>` is `<name>` inside the video folder, or the missing-folder answer. */
  lemma VideoRoute(name: string, resourcesPath: string, videoFolder: Option<string>, join: (string, string) -> string)
    ensures RouteOf(VideoPrefix + name, resourcesPath, videoFolder, join) ==
      match videoFolder
      case Some(folder) => File(join(folder, name))
      case None => NoVideoFolder
  {
    assert (VideoPrefix + name)[|VideoPrefix|..] == name;
  }

  /** Every other path is served from the editor's resources, never from the video folder. */
  lemma EditorRoute(path: string, resourcesPath: string, videoFolder: Option<string>, join: (string, string) -> string)
    requires !(VideoPrefix <= path) && path != "/"
    ensures RouteOf(path, resourcesPath, videoFolder, join) == File(join(resourcesPath, "Editor" + path))
  {
  }

  /** The root is the editor's `index.html`. */
  lemma IndexRoute(resourcesPath: string, videoFolder: Option<string>, join: (string, string) -> string)
    ensures RouteOf("/", resourcesPath, videoFolder, join) == File(join(resourcesPath, "Editor/index.html"))
  {
    assert "Editor" + "/index.html" == "Editor/index.html";
  }

  /** Only a request the line check refuses is a bad request. */
  lemma BadRequestIff(request: string, resourcesPath: string, videoFolder: Option<string>,
                      urlPath: string -> Option<string>, decode: string -> Option<string>,
                      join: (string, string) -> string)
    ensures RouteRequest(request, resourcesPath, videoFolder, urlPath, decode, join) == BadRequest <==>
      RequestTarget(request).None?
  {
  }

  // ---------------------------------------------------------------------------
  // MIME types.

  /** The last path component: what follows the last `/`. */
  function AfterLast(s: string, c: char): (r: string)
    ensures c !in r && |r| <= |s| && r == s[|s| - |r|..]
    ensures |r| < |s| ==> s[|s| - |r| - 1] == c
  {
    if s == [] || s[|s| - 1] == c then [] else AfterLast(s[..|s| - 1], c) + [s[|s| - 1]]
  }

  /** `pathExtension`: what follows the last `.` of the last path component, or nothing. */
  function Extension(path: string): string
  {
    var name := AfterLast(path, '/');
    if '.' in name then AfterLast(name, '.') else ""
  }

  /** `lowercased()` on one character: the letters A to Z become a to z. */
  function LowerChar(c: char): (l: char)
    ensures 'A' <= c <= 'Z' ==> 'a' <= l <= 'z' && l as int - 'a' as int == c as int - 'A' as int
    ensures !('A' <= c <= 'Z') ==> l == c
  {
    if 'A' <= c <= 'Z' then (c as int - 'A' as int + 'a' as int) as char else c
  }

  /** `lowercased()` on the letters A to Z. */
  function Lower(s: string): (r: string)
  {
    seq(|s|, i requires 0 <= i < |s| => LowerChar(s[i]))
  }

  const DefaultMimeType: string := "application/octet-stream"

  /** The extensions the server knows, with their content types. */
  const MimeTypes: map<string, string> := map[
    "html" := "text/html; charset=utf-8",
    "css" := "text/css",
    "js" := "application/javascript",
    "json" := "application/json",
    "mp4" := "video/mp4",
    "webm" := "video/webm",
    "png" := "image/png",
    "jpg" := "image/jpeg",
    "jpeg" := "image/jpeg",
    "svg" := "image/svg+xml"]

  /** The `switch` of `mimeType(for:)` over a lower-cased extension. */
  function MimeOfExtension(ext: string): string
  {
    if ext == "html" then "text/html; charset=utf-8"
    else if ext == "css" then "text/css"
    else if ext == "js" then "application/javascript"
    else if ext == "json" then "application/json"
    else if ext == "mp4" then "video/mp4"
    else if ext == "webm" then "video/webm"
    else if ext == "png" then "image/png"
    else if ext == "jpg" || ext == "jpeg" then "image/jpeg"
    else if ext == "svg" then "image/svg+xml"
    else DefaultMimeType
  }

  /** The `switch` agrees with the table: each listed extension gets its type, every other one the default. */
  lemma MimeOfExtensionTable(ext: string)
    ensures ext in MimeTypes ==> MimeOfExtension(ext) == MimeTypes[ext]
    ensures ext !in MimeTypes ==> MimeOfExtension(ext) == DefaultMimeType
    ensures MimeOfExtension(ext) == DefaultMimeType <==> ext !in MimeTypes
  {
  }

  /** `mimeType(for:)`: the content type of the path's lower-cased extension. */
  function MimeType(path: string): string
  {
    MimeOfExtension(Lower(Extension(path)))
  }

  lemma {:induction false} AfterLastAppend(s: string, t: string, c: char)
    requires c !in t
    ensures AfterLast(s + t, c) == AfterLast(s, c) + t
    decreases |t|
  {
    if t != [] {
      var u := s + t;
      assert u[|u| - 1] == t[|t| - 1];
      assert u[..|u| - 1] == s + t[..|t| - 1];
      AfterLastAppend(s, t[..|t| - 1], c);
      assert t == t[..|t| - 1] + [t[|t| - 1]];
    } else {
      assert s + t == s;
    }
  }

  lemma AfterLastAtEnd(s: string, c: char)
    ensures AfterLast(s + [c], c) == []
  {
    assert (s + [c])[|s + [c]| - 1] == c;
  }

  lemma LastComponentOf(path: string, ext: string)
    requires '/' !in ext
    ensures AfterLast(path + "." + ext, '/') == AfterLast(path, '/') + "." + ext
  {
    assert '/' !in "." + ext;
    assert path + "." + ext == path + ("." + ext);
    AfterLastAppend(path, "." + ext, '/');
  }

  lemma AfterLastDot(stem: string, ext: string)
    requires '.' !in ext
    ensures AfterLast(stem + "." + ext, '.') == ext
  {
    AfterLastAppend(stem + ".", ext, '.');
    AfterLastAtEnd(stem, '.');
  }

  /** The extension of `path.ext`, for an `ext` without a dot or slash, is `ext`. */
  lemma ExtensionOf(path: string, ext: string)
    requires '.' !in ext && '/' !in ext
    ensures Extension(path + "." + ext) == ext
  {
    var stem := AfterLast(path, '/');
    LastComponentOf(path, ext);
    AfterLastDot(stem, ext);
    assert (stem + "." + ext)[|stem|] == '.';
  }

  /** The content type of `path.ext` depends only on `ext`, ignoring the case of its letters. */
  lemma MimeTypeOf(path: string, ext: string)
    requires '.' !in ext && '/' !in ext
    ensures MimeType(path + "." + ext) == if Lower(ext) in MimeTypes then MimeTypes[Lower(ext)] else DefaultMimeType
  {
    ExtensionOf(path, ext);
    MimeOfExtensionTable(Lower(ext));
  }

  /** A `.jpg` file is a JPEG image. */
  lemma JpgIsJpeg(path: string)
    ensures MimeType(path + ".jpg") == "image/jpeg"
  {
    assert path + ".jpg" == path + "." + "jpg";
    ExtensionOf(path, "jpg");
    LowerJpeg();
    JpegType();
  }

  /** So is a `.JPEG` file: the extension's case does not matter and both spellings are JPEG. */
  lemma UpperJpegIsJpeg(path: string)
    ensures MimeType(path + ".JPEG") == "image/jpeg"
  {
    assert path + ".JPEG" == path + "." + "JPEG";
    ExtensionOf(path, "JPEG");
    LowerJpeg();
    JpegType();
  }

  lemma JpegType()
    ensures MimeOfExtension("jpg") == "image/jpeg" && MimeOfExtension("jpeg") == "image/jpeg"
  {
  }

  lemma LowerJpeg()
    ensures Lower("jpg") == "jpg" && Lower("JPEG") == "jpeg"
  {
    assert LowerChar('J') == 'j' && LowerChar('P') == 'p' && LowerChar('E') == 'e' && LowerChar('G') == 'g';
    assert Lower("JPEG") == ['j', 'p', 'e', 'g'];
    assert Lower("jpg") == ['j', 'p', 'g'];
  }

  /** A file name without a dot has no extension and gets the default type. */
  lemma NoExtensionDefault(path: string)
    requires '.' !in AfterLast(path, '/')
    ensures MimeType(path) == DefaultMimeType
  {
    var e := Extension(path);
    assert e == "";
    assert Lower(e) == "";
    EmptyExtensionDefault();
  }

  lemma EmptyExtensionDefault()
    ensures MimeOfExtension("") == DefaultMimeType
  {
  }

  // ---------------------------------------------------------------------------
  // Responses.

  /** A response before framing: status line text, content type and body. */
  datatype Reply = Reply(status: string, contentType: string, body: seq<byte>)

  /** The header's lines; the last two, both empty, make the blank line that ends it. */
  function HeaderLines(status: string, contentType: string, length: nat): seq<string>
  {
    ["HTTP/1.1 " + status, "Content-Type: " + contentType, "Content-Length: " + NatToString(length),
     "Access-Control-Allow-Origin: *", "Connection: close", "", ""]
  }

  /** The header block `sendResponse` writes ahead of a body of `length` bytes: its lines joined by CRLF. */
  function Header(status: string, contentType: string, length: nat): string
  {
    Join(HeaderLines(status, contentType, length), "\r\n")
  }

  /** The bytes on the wire: the header's UTF-8 followed by the body. */
  function Wire(reply: Reply): seq<byte>
  {
    Utf8(Header(reply.status, reply.contentType, |reply.body|)) + reply.body
  }

  /**
   * When the status and content type hold no carriage return, the header
   * splits at CRLF into exactly its lines, its `Content-Length` line names
   * the number of bytes after the header, and those bytes are the body.
   */
  lemma ResponseFraming(reply: Reply)
    requires '\r' !in reply.status && '\r' !in reply.contentType
    ensures var h := Utf8(Header(reply.status, reply.contentType, |reply.body|));
      var wire := Wire(reply);
      && wire[..|h|] == h && wire[|h|..] == reply.body
      && Split(Header(reply.status, reply.contentType, |reply.body|), "\r\n") ==
         HeaderLines(reply.status, reply.contentType, |wire| - |h|)
      && DigitsValue(NatToString(|wire| - |h|)) == |reply.body|
  {
    var h := Utf8(Header(reply.status, reply.contentType, |reply.body|));
    var wire := Wire(reply);
    assert |wire| - |h| == |reply.body|;
    HeaderSplits(reply.status, reply.contentType, |reply.body|);
    NatToStringRoundTrip(|reply.body|);
  }

  /** The header splits at CRLF into exactly its lines. */
  lemma HeaderSplits(status: string, contentType: string, length: nat)
    requires '\r' !in status && '\r' !in contentType
    ensures Split(Header(status, contentType, length), "\r\n") == HeaderLines(status, contentType, length)
  {
    var ls := HeaderLines(status, contentType, length);
    HeaderLinesNoReturn(status, contentType, length);
    forall k, j | 0 <= k < |ls| && 0 <= j
      ensures !OccursAt(ls[k] + "\r\n", "\r\n", j) || j == |ls[k]|
    {
      CrLfOnlyAtEnd(ls[k], j);
    }
    SplitJoin(ls, "\r\n");
  }

  lemma HeaderLinesNoReturn(status: string, contentType: string, length: nat)
    requires '\r' !in status && '\r' !in contentType
    ensures var ls := HeaderLines(status, contentType, length);
      |ls| == 7 && forall k :: 0 <= k < |ls| ==> '\r' !in ls[k]
  {
    var n := NatToString(length);
    assert forall i :: 0 <= i < |n| ==> n[i] != '\r';
    NoReturnAppend("HTTP/1.1 ", status);
    NoReturnAppend("Content-Type: ", contentType);
    NoReturnAppend("Content-Length: ", n);
    assert '\r' !in "Access-Control-Allow-Origin: *" && '\r' !in "Connection: close";
  }

  lemma NoReturnAppend(a: string, b: string)
    requires forall i :: 0 <= i < |a| ==> a[i] != '\r'
    requires '\r' !in b
    ensures '\r' !in a + b
  {
    assert forall i :: 0 <= i < |a + b| ==> (a + b)[i] == if i < |a| then a[i] else b[i - |a|];
  }

  /** `serveFile`'s answer: the file's bytes and content type, or 404 naming the path when it is missing. */
  function FileReply(files: map<string, seq<byte>>, path: string): (r: Reply)
    ensures r.status == "200 OK" <==> path in files
    ensures path in files ==> r.body == files[path] && r.contentType == MimeType(path)
    ensures path !in files ==> r == Reply("404 Not Found", "text/plain", Utf8("Not Found: " + path))
  {
    if path in files then Reply("200 OK", MimeType(path), files[path])
    else Reply("404 Not Found", "text/plain", Utf8("Not Found: " + path))
  }

  /** The answer to a route. */
  function Answer(route: Route, files: map<string, seq<byte>>): Reply
  {
    match route
    case BadRequest => Reply("400 Bad Request", "text/plain", Utf8("Bad Request"))
    case NoVideoFolder => Reply("404 Not Found", "text/plain", Utf8("Video folder not set"))
    case File(path) => FileReply(files, path)
  }

  lemma NoVideoFolderAnswer(files: map<string, seq<byte>>)
    ensures Answer(NoVideoFolder, files) == Reply("404 Not Found", "text/plain", Utf8("Video folder not set"))
  {
  }

  /** `sendResponse`: the header's bytes, then the body appended to them. */
  method SendResponse(status: string, contentType: string, body: seq<byte>) returns (response: seq<byte>)
    ensures response == Wire(Reply(status, contentType, body))
    ensures response[|response| - |body|..] == body
  {
    var headers := Header(status, contentType, |body|);
    response := Utf8(headers);
    response := response + body;
  }

  /** `serveFile`: answers with the file when `files` holds it, and with 404 otherwise. */
  method ServeFile(files: map<string, seq<byte>>, path: string) returns (response: seq<byte>)
    ensures response == Wire(FileReply(files, path))
  {
    if path !in files {
      response := SendResponse("404 Not Found", "text/plain", Utf8("Not Found: " + path));
      return;
    }
    var contentType := MimeType(path);
    response := SendResponse("200 OK", contentType, files[path]);
  }

  /** The editor's HTTP server: where the editor's resources live, and the folder videos are served from once set. */
  class LocalHttpServer {
    const resourcesPath: string
    var videoFolder: Option<string>

    constructor(resourcesPath: string)
      ensures this.resourcesPath == resourcesPath && videoFolder == None
    {
      this.resourcesPath := resourcesPath;
      videoFolder := None;
    }

    method SetVideoFolder(path: string)
      modifies this
      ensures videoFolder == Some(path)
    {
      videoFolder := Some(path);
    }

    /**
     * The request handler: checks the request line, normalises the
     * target step by step, routes it and writes the response. `files` is
     * the file system, `urlPath` the URL parser, `decode` the
     * percent-decoder and `join` path joining.
     */
    method HandleRequest(request: string, files: map<string, seq<byte>>,
                         urlPath: string -> Option<string>, decode: string -> Option<string>,
                         join: (string, string) -> string) returns (response: seq<byte>)
      ensures response == Wire(Answer(RouteRequest(request, resourcesPath, videoFolder, urlPath, decode, join), files))
    {
      var parts := Words(FirstLine(request));
      if !(|parts| >= 2 && parts[0] == "GET") {
        response := SendResponse("400 Bad Request", "text/plain", Utf8("Bad Request"));
        return;
      }
      var requestPath := NormaliseTarget(parts[1], urlPath, decode);
      response := Dispatch(requestPath, files, join);
    }

    /** Routes a normalised path: the video folder for `/video/…`, the editor's resources otherwise. */
    method Dispatch(requestPath: string, files: map<string, seq<byte>>, join: (string, string) -> string)
      returns (response: seq<byte>)
      ensures response == Wire(Answer(RouteOf(requestPath, resourcesPath, videoFolder, join), files))
    {
      ghost var route := RouteOf(requestPath, resourcesPath, videoFolder, join);
      if VideoPrefix <= requestPath {
        var fileName := requestPath[|VideoPrefix|..];
        if videoFolder.Some? {
          var path := join(videoFolder.value, fileName);
          assert route == File(path);
          response := ServeFile(files, path);
          assert Answer(route, files) == FileReply(files, path);
        } else {
          assert route == NoVideoFolder;
          response := SendResponse("404 Not Found", "text/plain", Utf8("Video folder not set"));
          NoVideoFolderAnswer(files);
        }
      } else {
        var filePath := requestPath;
        if filePath == "/" {
          filePath := "/index.html";
        }
        var path := join(resourcesPath, "Editor" + filePath);
        assert route == File(path);
        response := ServeFile(files, path);
        assert Answer(route, files) == FileReply(files, path);
      }
    }
  }

  /** The target normalisation of the request handler, one reassignment of the path at a time. */
  method NormaliseTarget(target: string, urlPath: string -> Option<string>, decode: string -> Option<string>)
    returns (requestPath: string)
    ensures requestPath == NormalisePath(target, urlPath, decode)
  {
    requestPath := target;
    if IsAbsoluteForm(requestPath) {
      var url := urlPath(requestPath);
      if url.Some? {
        requestPath := if url.value == [] then "/" else url.value;
      }
    }
    requestPath := StripQuery(requestPath);
    var decoded := decode(requestPath);
    if decoded.Some? {
      requestPath := decoded.value;
    }
  }
}
