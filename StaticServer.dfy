/** The request handler of the static file server: it rewrites the URL path
    to a file path, picks the media type from a fixed extension table, serves
    non-HTML files from an in-memory cache that only grows, falls back to the
    index page for missing HTML documents, and chooses the Cache-Control
    header. The file system is a parameter: `fs(path)` is what reading `path`
    yields. */
module StaticServer {
  import opened Wrappers
  import opened JsText

  newtype byte = x: int | 0 <= x < 256

  /** What `fs.readFile` hands to its callback: the content, or an error
      carrying its code (`ENOENT` for a missing file). */
  datatype ReadResult = Read(content: seq<byte>) | ReadError(code: string)

  datatype Body = Bytes(bytes: seq<byte>) | Text(text: string)

  /** Status, the two headers the handler may set, and the body. */
  datatype Response = Response(status: int, contentType: Option<string>, cacheControl: Option<string>, body: Body)

  /** One handled request: the response, the paths read in order, and the
      cache afterwards. */
  datatype Served = Served(response: Response, readPaths: seq<string>, cache: map<string, seq<byte>>)

  const IndexPath: string := "./src/index.html"
  const NotFoundCode: string := "ENOENT"
  const CacheMaxAgeMs: int := 86400000
  const DefaultType: string := "application/octet-stream"

  const MimeTypes: map<string, string> := map[
    ".html" := "text/html",
    ".js" := "text/javascript",
    ".css" := "text/css",
    ".json" := "application/json",
    ".png" := "image/png",
    ".jpg" := "image/jpg",
    ".jpeg" := "image/jpeg",
    ".gif" := "image/gif",
    ".svg" := "image/svg+xml",
    ".ico" := "image/x-icon",
    ".wav" := "audio/wav",
    ".mp4" := "video/mp4",
    ".woff" := "font/woff",
    ".woff2" := "font/woff2",
    ".ttf" := "font/ttf",
    ".eot" := "application/vnd.ms-fontobject",
    ".otf" := "font/otf",
    ".wasm" := "application/wasm"
  ]

  // ---------------------------------------------------------------------
  // path.extname

  /** p without its trailing '/' characters. */
  function StripTrailingSlashes(p: string): (q: string)
    ensures |q| <= |p| && q == p[..|q|]
    ensures q == [] || q[|q| - 1] != '/'
    ensures forall i :: |q| <= i < |p| ==> p[i] == '/'
  {
    if p != [] && p[|p| - 1] == '/' then StripTrailingSlashes(p[..|p| - 1]) else p
  }

  /** The last path segment of a path without trailing slashes: the text
      after its last '/'. */
  function Basename(q: string): string {
    q[LastIndexOf(q, '/') + 1..]
  }

  lemma BasenameHasNoSlash(q: string)
    ensures forall i :: 0 <= i < |Basename(q)| ==> Basename(q)[i] != '/'
  {
    var k := LastIndexOf(q, '/');
    var base := q[k + 1..];
    forall i | 0 <= i < |base| ensures base[i] != '/' {
      assert base[i] == q[k + 1 + i];
    }
  }

  /** The extension of one path segment: from its last '.' to its end, or
      empty when the segment has no '.', its last '.' is its first
      character, or it is "..". */
  function SegmentExt(base: string): string {
    var dot := LastIndexOf(base, '.');
    if dot <= 0 || base == ".." then "" else base[dot..]
  }

  /** `path.extname(p)` of Node's POSIX path module: the extension of the
      last segment, trailing slashes ignored. */
  function Extname(p: string): string {
    SegmentExt(Basename(StripTrailingSlashes(p)))
  }

  /** A non-empty extension of a segment starts with its only '.' and is
      the end of the segment. */
  lemma SegmentExtShape(base: string)
    ensures var e := SegmentExt(base);
      e == [] ||
      (e[0] == '.' && |e| <= |base| && e == base[|base| - |e|..] &&
       forall i :: 1 <= i < |e| ==> e[i] != '.')
  {
    var dot := LastIndexOf(base, '.');
    if dot > 0 && base != ".." {
      var e := base[dot..];
      forall i | 1 <= i < |e| ensures e[i] != '.' {
        assert e[i] == base[dot + i];
      }
    }
  }

  /** A non-empty extension starts with its only '.' and contains no '/'. */
  lemma ExtnameShape(p: string)
    ensures var e := Extname(p);
      e == [] ||
      (e[0] == '.' &&
       (forall i :: 1 <= i < |e| ==> e[i] != '.') &&
       (forall i :: 0 <= i < |e| ==> e[i] != '/'))
  {
    var base := Basename(StripTrailingSlashes(p));
    BasenameHasNoSlash(StripTrailingSlashes(p));
    SegmentExtShape(base);
    var e := SegmentExt(base);
    if e != [] {
      forall i | 0 <= i < |e| ensures e[i] != '/' {
        assert e[i] == base[|base| - |e| + i];
      }
    }
  }

  /** The index page's extension is ".html". */
  lemma IndexExtname()
    ensures Extname(IndexPath) == ".html"
  {
    IndexBasename();
    IndexSegmentExt();
  }

  /** The last segment of the index path is "index.html". */
  lemma IndexBasename()
    ensures Basename(StripTrailingSlashes(IndexPath)) == "index.html"
  {
    var p := IndexPath;
    assert p[15] == 'l' && p[5] == '/';
    assert StripTrailingSlashes(p) == p;
    assert forall i :: 5 < i < 16 ==> "./src/index.html"[i] != '/';
    LastIndexOfUnique(p, '/', 5);
    assert p[6..] == "index.html";
  }

  /** The extension of "index.html" is ".html". */
  lemma IndexSegmentExt()
    ensures SegmentExt("index.html") == ".html"
  {
    var base := "index.html";
    assert base[5] == '.';
    assert forall i :: 5 < i < 10 ==> "index.html"[i] != '.';
    LastIndexOfUnique(base, '.', 5);
    assert base[5..] == ".html";
  }

  // ---------------------------------------------------------------------
  // request resolution

  /** The file path for a URL path: "." prefixed, and the index page for
      the root and for every path without an extension. */
  function Resolve(urlPath: string): string {
    var p := "." + urlPath;
    if p == "./" || Extname(p) == "" then IndexPath else p
  }

  /** The resolved path is the request's own path or the index page, and it
      always has an extension, so the handler's test for an empty extension
      never succeeds. */
  lemma ResolvedPathHasExtension(urlPath: string)
    ensures Resolve(urlPath) == "." + urlPath || Resolve(urlPath) == IndexPath
    ensures Resolve(urlPath) == IndexPath <==> "." + urlPath == "./" || Extname("." + urlPath) == "" || "." + urlPath == IndexPath
    ensures Extname(Resolve(urlPath)) != ""
  {
    IndexExtname();
  }

  /** The lower-cased extension the handler branches on. */
  function RequestExt(urlPath: string): string {
    AsciiLower(Extname(Resolve(urlPath)))
  }

  /** `mimeTypes[extname] || 'application/octet-stream'`. */
  function ContentType(ext: string): string {
    if ext in MimeTypes then MimeTypes[ext] else DefaultType
  }

  /** The table maps only ".html" to "text/html", and nothing outside the
      table gets a type other than the default. */
  lemma ContentTypeTable(ext: string)
    ensures ContentType(ext) == "text/html" <==> ext == ".html"
    ensures ext !in MimeTypes <==> ContentType(ext) == DefaultType
  {
  }

  /** The long-lived policy: the max-age is the cache age in seconds. */
  function LongCacheControl(): string {
    "public, max-age=" + NumberString(CacheMaxAgeMs / 1000)
  }

  lemma LongCacheControlText()
    ensures LongCacheControl() == "public, max-age=86400"
  {
    assert CacheMaxAgeMs / 1000 == 86400;
    MaxAgeDigits();
  }

  lemma MaxAgeDigits()
    ensures DecimalString(86400) == "86400"
  {
    assert DecimalString(8) == "8";
    assert DecimalString(86) == DecimalString(8) + "6" == "86";
    assert DecimalString(864) == DecimalString(86) + "4" == "864";
    assert DecimalString(8640) == DecimalString(864) + "0" == "8640";
    assert DecimalString(86400) == DecimalString(8640) + "0" == "86400";
  }

  /** `no-cache` for HTML, the long-lived policy for everything else. */
  function CacheControlFor(ext: string): string {
    if ext == ".html" then "no-cache" else LongCacheControl()
  }

  function NotFoundPage(path: string): string {
    "<h1>404 Not Found</h1><p>The requested URL " + path + " was not found on this server.</p>"
  }

  function ServerErrorText(code: string): string {
    "Server Error: " + code
  }

  /** The handler once the file path and its lower-cased extension are
      known, as a function of the cache before the request and the file
      system. */
  function Respond(cache: map<string, seq<byte>>, path: string, ext: string, fs: string -> ReadResult): Served {
    if path in cache && ext != ".html" then
      Served(Response(200, Some(ContentType(ext)), Some(LongCacheControl()), Bytes(cache[path])), [], cache)
    else
      match fs(path)
      case Read(content) =>
        var cache' := if ext != ".html" then cache[path := content] else cache;
        Served(Response(200, Some(ContentType(ext)), Some(CacheControlFor(ext)), Bytes(content)), [path], cache')
      case ReadError(code) =>
        if code == NotFoundCode then
          if ext == ".html" || ext == "" then
            match fs(IndexPath)
            case Read(index) =>
              Served(Response(200, Some("text/html"), None, Bytes(index)), [path, IndexPath], cache)
            case ReadError(indexCode) =>
              Served(Response(500, None, None, Text(ServerErrorText(indexCode))), [path, IndexPath], cache)
          else
            Served(Response(404, Some("text/html"), None, Text(NotFoundPage(path))), [path], cache)
        else
          Served(Response(500, None, None, Text(ServerErrorText(code))), [path], cache)
  }

  /** The handler as a function of the cache before the request, the URL
      path and the file system. */
  function Serve(cache: map<string, seq<byte>>, urlPath: string, fs: string -> ReadResult): Served {
    Respond(cache, Resolve(urlPath), RequestExt(urlPath), fs)
  }

  /** No key of the cache names an HTML file. */
  ghost predicate NoHtmlCached(cache: map<string, seq<byte>>) {
    forall k :: k in cache ==> AsciiLower(Extname(k)) != ".html"
  }

  // ---------------------------------------------------------------------
  // the server object

  /** The server process: its only state is `staticCache`, which every
      request may extend. */
  class Server {
    var staticCache: map<string, seq<byte>>

    ghost predicate Valid()
      reads this
    {
      NoHtmlCached(staticCache)
    }

    constructor ()
      ensures Valid() && staticCache == map[]
    {
      staticCache := map[];
    }

    /** One request. `fs` stands for `fs.readFile`; `readPaths` lists the paths
        passed to it, in order. */
    method Handle(urlPath: string, fs: string -> ReadResult) returns (response: Response, readPaths: seq<string>)
      requires Valid()
      modifies this
      ensures Valid()
      ensures Served(response, readPaths, staticCache) == Serve(old(staticCache), urlPath, fs)
      ensures forall k :: k in old(staticCache) ==> k in staticCache && staticCache[k] == old(staticCache)[k]
    {
      var pathname := "." + urlPath;
      if pathname == "./" || Extname(pathname) == "" {
        pathname := IndexPath;
      }
      var extname := AsciiLower(Extname(pathname));
      ghost var before := staticCache;
      response, readPaths := Answer(pathname, extname, fs);
      HtmlNeverCached(before, pathname, fs);
      CacheOnlyGrows(before, pathname, extname, fs);
    }

    /** The rest of the request once `pathname` and `extname` are known. */
    method Answer(pathname: string, extname: string, fs: string -> ReadResult) returns (response: Response, readPaths: seq<string>)
      modifies this
      ensures Served(response, readPaths, staticCache) == Respond(old(staticCache), pathname, extname, fs)
    {
      var contentType := ContentType(extname);
      if pathname in staticCache && extname != ".html" {
        response := Response(200, Some(contentType), Some(LongCacheControl()), Bytes(staticCache[pathname]));
        readPaths := [];
        return;
      }

      readPaths := [pathname];
      var result := fs(pathname);
      match result
      case ReadError(code) =>
        if code == NotFoundCode {
          if extname == ".html" || extname == "" {
            readPaths := readPaths + [IndexPath];
            var index := fs(IndexPath);
            match index
            case ReadError(indexCode) =>
              response := Response(500, None, None, Text(ServerErrorText(indexCode)));
            case Read(content) =>
              response := Response(200, Some("text/html"), None, Bytes(content));
          } else {
            response := Response(404, Some("text/html"), None, Text(NotFoundPage(pathname)));
          }
        } else {
          response := Response(500, None, None, Text(ServerErrorText(code)));
        }
      case Read(content) =>
        if extname != ".html" {
          staticCache := staticCache[pathname := content];
        }
        response := Response(200, Some(contentType), Some(CacheControlFor(extname)), Bytes(content));
    }
  }

  // ---------------------------------------------------------------------
  // properties of one request
  //
  // Stated for `Respond`, which `Serve` applies to the resolved path and its
  // lower-cased extension; `ext` is that extension wherever it matters.

  /** The media type of a served file is the table entry for its lower-cased
      extension, or the default. */
  lemma ServedContentType(cache: map<string, seq<byte>>, path: string, ext: string, fs: string -> ReadResult)
    requires (path in cache && ext != ".html") || fs(path).Read?
    ensures Respond(cache, path, ext, fs).response.status == 200
    ensures Respond(cache, path, ext, fs).response.contentType == Some(ContentType(ext))
  {
  }

  /** A cache hit answers 200 with the cached bytes and the long-lived
      policy, reads no file and leaves the cache as it was. */
  lemma CacheHit(cache: map<string, seq<byte>>, path: string, ext: string, fs: string -> ReadResult)
    requires path in cache && ext != ".html"
    ensures var s := Respond(cache, path, ext, fs);
      s.response == Response(200, Some(ContentType(ext)), Some(LongCacheControl()), Bytes(cache[path])) &&
      s.readPaths == [] && s.cache == cache
  {
  }

  /** Entries are never removed or replaced; the only entry ever added is
      the path of a successfully read non-HTML file, with the bytes read. */
  lemma CacheOnlyGrows(cache: map<string, seq<byte>>, path: string, ext: string, fs: string -> ReadResult)
    ensures var c := Respond(cache, path, ext, fs).cache;
      forall k :: k in cache ==> k in c && c[k] == cache[k]
    ensures var c := Respond(cache, path, ext, fs).cache;
      c == cache || (path !in cache && ext != ".html" && fs(path).Read? && c == cache[path := fs(path).content])
  {
    var c := Respond(cache, path, ext, fs).cache;
    if path in cache && ext != ".html" {
      assert c == cache;
    } else if ext != ".html" && fs(path).Read? {
      assert c == cache[path := fs(path).content];
    } else {
      assert c == cache;
    }
  }

  /** HTML is never stored: a cache free of HTML stays free of HTML. */
  lemma HtmlNeverCached(cache: map<string, seq<byte>>, path: string, fs: string -> ReadResult)
    requires NoHtmlCached(cache)
    ensures NoHtmlCached(Respond(cache, path, AsciiLower(Extname(path)), fs).cache)
  {
    var ext := AsciiLower(Extname(path));
    CacheOnlyGrows(cache, path, ext, fs);
    var c := Respond(cache, path, ext, fs).cache;
    forall k | k in c ensures AsciiLower(Extname(k)) != ".html" {
      if k !in cache {
        assert k == path;
      }
    }
  }

  /** The extension test ignores case: a path ending in ".HTML" or ".Html"
      is never cached and, when read, is served with `no-cache`. */
  lemma UpperCaseHtmlIsHtml(cache: map<string, seq<byte>>, path: string, fs: string -> ReadResult)
    requires Extname(path) == ".HTML" || Extname(path) == ".Html"
    ensures var s := Respond(cache, path, AsciiLower(Extname(path)), fs);
      s.cache == cache &&
      (fs(path).Read? ==> s.response.cacheControl == Some("no-cache") && s.response.contentType == Some("text/html"))
  {
    HtmlExtensionLowerCase(Extname(path));
  }

  lemma HtmlExtensionLowerCase(e: string)
    requires e == ".HTML" || e == ".Html"
    ensures AsciiLower(e) == ".html"
  {
    assert |AsciiLower(e)| == 5;
    assert AsciiLower(e)[1] == 'h' && AsciiLower(e)[2] == 't' && AsciiLower(e)[3] == 'm' && AsciiLower(e)[4] == 'l';
  }

  /** Cache-Control is set exactly on the answers with the requested file's
      bytes, where it is `no-cache` for HTML and the long-lived policy
      otherwise; on the index fallback and on errors it is absent. */
  lemma CacheControlRule(cache: map<string, seq<byte>>, path: string, ext: string, fs: string -> ReadResult)
    ensures var r := Respond(cache, path, ext, fs).response;
      r.cacheControl.Some? <==> ((path in cache && ext != ".html") || fs(path).Read?)
    ensures var r := Respond(cache, path, ext, fs).response;
      r.cacheControl.Some? ==> r.status == 200 && r.cacheControl.value == CacheControlFor(ext)
  {
  }

  /** A missing HTML file is answered with the index page as text/html. */
  lemma MissingHtmlFallsBack(cache: map<string, seq<byte>>, path: string, fs: string -> ReadResult)
    requires fs(path) == ReadError(NotFoundCode)
    requires fs(IndexPath).Read?
    ensures Respond(cache, path, ".html", fs).response == Response(200, Some("text/html"), None, Bytes(fs(IndexPath).content))
    ensures Respond(cache, path, ".html", fs).readPaths == [path, IndexPath]
  {
  }

  /** A missing file of any other type is a 404 page naming the path. */
  lemma MissingAssetNotFound(cache: map<string, seq<byte>>, urlPath: string, fs: string -> ReadResult)
    requires RequestExt(urlPath) != ".html"
    requires Resolve(urlPath) !in cache
    requires fs(Resolve(urlPath)) == ReadError(NotFoundCode)
    ensures Serve(cache, urlPath, fs).response == Response(404, Some("text/html"), None, Text(NotFoundPage(Resolve(urlPath))))
  {
    RequestExtNonEmpty(urlPath);
    MissingFileNotFound(cache, Resolve(urlPath), RequestExt(urlPath), fs);
  }

  /** The lower-cased extension of a request is never empty. */
  lemma RequestExtNonEmpty(urlPath: string)
    ensures RequestExt(urlPath) != ""
  {
    ResolvedPathHasExtension(urlPath);
    assert |RequestExt(urlPath)| == |Extname(Resolve(urlPath))|;
  }

  /** A missing non-HTML file with an extension is a 404 page naming it. */
  lemma MissingFileNotFound(cache: map<string, seq<byte>>, path: string, ext: string, fs: string -> ReadResult)
    requires ext != ".html" && ext != ""
    requires path !in cache
    requires fs(path) == ReadError(NotFoundCode)
    ensures Respond(cache, path, ext, fs).response == Response(404, Some("text/html"), None, Text(NotFoundPage(path)))
  {
  }

  /** Every other read error, and a failure to read the index during the
      fallback, is a 500 naming the error code. */
  lemma ReadErrorsAreServerErrors(cache: map<string, seq<byte>>, path: string, ext: string, fs: string -> ReadResult)
    requires path !in cache || ext == ".html"
    ensures var r := Respond(cache, path, ext, fs).response;
      fs(path).ReadError? && fs(path).code != NotFoundCode ==>
        r == Response(500, None, None, Text(ServerErrorText(fs(path).code)))
    ensures var r := Respond(cache, path, ext, fs).response;
      fs(path) == ReadError(NotFoundCode) && ext == ".html" && fs(IndexPath).ReadError? ==>
        r == Response(500, None, None, Text(ServerErrorText(fs(IndexPath).code)))
  {
  }

  /** A request that is not answered 200 leaves the cache unchanged, and
      every answer is 200, 404 or 500. */
  lemma FailureKeepsCache(cache: map<string, seq<byte>>, path: string, ext: string, fs: string -> ReadResult)
    ensures Respond(cache, path, ext, fs).response.status != 200 ==> Respond(cache, path, ext, fs).cache == cache
    ensures Respond(cache, path, ext, fs).response.status in {200, 404, 500}
  {
  }
}
