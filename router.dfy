/**
  The HTTP side of the proxy: Router.ServeHTTP splits `/api/<W>x<H>/<url>`
  and Handle validates the forwarded URL (parse, host allow-list, extension
  allow-list) before asking getImage for the file. The allow-list is the
  comma-separated text of the APP_ALLOWED_HOSTS setting, passed in; whether
  url.Parse accepts a string is the parameter `parses`.
*/
module Router {
  import opened GoStd
  import opened Dimensions
  import opened CacheKey
  import opened Images
  import opened Pipeline

  /** http.StatusBadRequest */
  const StatusBadRequest: int := 400

  /** http.StatusNotFound */
  const StatusNotFound: int := 404

  /** What the client gets: an http.Error answer, status 200 with the bytes of
      a file, or a connection closed without an answer because the handler
      panicked. */
  datatype Response = HttpError(status: int, message: string) | Body(file: string) | ConnectionClosed

  /** What ServeHTTP makes of the request path before Handle runs. */
  datatype RouteResult = NotFound | InvalidDimensions | Forward(width: int, height: int, path: string)

  // ---------------------------------------------------------------------
  // Routing: /api/{WIDTH}x{HEIGHT}/{URL}
  // ---------------------------------------------------------------------

  function Route(requestPath: string): (r: RouteResult)
    ensures Count(requestPath, '/') < 3 ==> r == NotFound
    ensures |Split(requestPath, '/')| >= 4 && Split(requestPath, '/')[1] != "api" ==> r == NotFound
    ensures r.Forward? ==> 0 <= r.width <= MaxInt && 0 <= r.height <= MaxInt
  {
    var fragments := Split(requestPath, '/');
    if |fragments| < 4 then NotFound
    else if fragments[1] != "api" then NotFound
    else
      match GetDimensions(fragments[2])
      case Err(_) => InvalidDimensions
      case Ok(dims) =>
        GetDimensionsSound(fragments[2]);
        Forward(dims.width, dims.height, Join(fragments[3..], '/'))
  }

  /** Text accepted by getDimensions holds only digits and one 'x'. */
  lemma DimensionsHaveNoSlash(d: string)
    requires GetDimensions(d).Ok?
    ensures '/' !in d
  {
    GetDimensionsSound(d);
    var (w, h) := MatchDimensions(d).value;
    assert forall i :: 0 <= i < |d| ==> IsDigit(d[i]) || d[i] == 'x' by {
      assert forall i :: 0 <= i < |w| ==> d[i] == w[i];
      assert forall i :: |w| < i < |d| ==> d[i] == h[i - |w| - 1];
    }
  }

  /** How "/api/<d>/<rest>" splits when <d> has no '/'. */
  lemma SplitApiPath(d: string, rest: string)
    requires '/' !in d
    ensures Split("/api/" + d + "/" + rest, '/') == ["", "api", d] + Split(rest, '/')
  {
    var tail := d + ['/'] + rest;
    var mid := "api" + ['/'] + tail;
    var s := "" + ['/'] + mid;
    assert "/api/" + d + "/" + rest == s;
    SplitFirstPiece(d, rest, '/');
    SplitFirstPiece("api", tail, '/');
    SplitFirstPiece("", mid, '/');
    assert [""] + (["api"] + ([d] + Split(rest, '/'))) == ["", "api", d] + Split(rest, '/');
  }

  /** A request for "/api/<W>x<H>/<rest>" with valid dimensions hands exactly
      <rest> and the two numbers to Handle. */
  lemma RouteForwardsRest(d: string, rest: string)
    requires GetDimensions(d).Ok?
    ensures Route("/api/" + d + "/" + rest)
      == Forward(GetDimensions(d).dims.width, GetDimensions(d).dims.height, rest)
  {
    DimensionsHaveNoSlash(d);
    SplitApiPath(d, rest);
    JoinSplit(rest, '/');
    var fragments := Split("/api/" + d + "/" + rest, '/');
    assert fragments[3..] == Split(rest, '/');
  }

  /** With invalid dimensions text (and no '/' in it) the answer is "Invalid
      dimensions", whatever follows. */
  lemma RouteRejectsBadDimensions(d: string, rest: string)
    requires '/' !in d && GetDimensions(d).Err?
    ensures Route("/api/" + d + "/" + rest) == InvalidDimensions
  {
    SplitApiPath(d, rest);
  }

  /** Everything Route forwards came from a path of the shape
      "<first>/api/<W>x<H>/<forwarded path>" with no '/' in <first>. */
  lemma RouteForwardShape(requestPath: string)
    requires Route(requestPath).Forward?
    ensures var fragments := Split(requestPath, '/');
      var r := Route(requestPath);
      && '/' !in fragments[0]
      && requestPath == fragments[0] + "/api/" + fragments[2] + "/" + r.path
      && GetDimensions(fragments[2]) == Ok(Dims(r.width, r.height))
  {
    var fragments := Split(requestPath, '/');
    var path := Join(fragments[3..], '/');
    assert requestPath == fragments[0] + ['/'] + fragments[1] + ['/'] + fragments[2] + ['/'] + path by {
      JoinSplit(requestPath, '/');
      JoinFront(fragments, '/');
    }
    ApiPathLayout(fragments[0], fragments[1], fragments[2], path);
  }

  /** The request path rebuilt from its segments, with "api" second. */
  lemma ApiPathLayout(first: string, api: string, dims: string, path: string)
    requires api == "api"
    ensures first + ['/'] + api + ['/'] + dims + ['/'] + path == first + "/api/" + dims + "/" + path
  {
    assert ['/'] + api + ['/'] == "/api/";
    assert first + ['/'] + api + ['/'] + dims == first + (['/'] + api + ['/']) + dims;
  }

  // ---------------------------------------------------------------------
  // The extension allow-list
  // ---------------------------------------------------------------------

  function AllowedExtensions(): (r: seq<string>)
    ensures |r| == 3
    ensures forall i :: 0 <= i < |r| ==> |r[i]| > 0 && forall c :: c in r[i] ==> 'a' <= c <= 'z'
  {
    ["jpg", "jpeg", "png"]
  }

  /** The language the extension check accepts: the URL ends in ".jpg",
      ".jpeg" or ".png", in lower case exactly. */
  predicate HasAllowedSuffix(path: string)
    ensures HasAllowedSuffix(path)
      <==> exists i :: 0 <= i < |AllowedExtensions()| && EndsWith(path, "." + AllowedExtensions()[i])
  {
    assert AllowedExtensions()[0] == "jpg" && "." + "jpg" == ".jpg";
    assert AllowedExtensions()[1] == "jpeg" && "." + "jpeg" == ".jpeg";
    assert AllowedExtensions()[2] == "png" && "." + "png" == ".png";
    EndsWith(path, ".jpg") || EndsWith(path, ".jpeg") || EndsWith(path, ".png")
  }

  /** The loop of Handle over allowedExtensions, stopping at the first match. */
  method HasAllowedExtension(path: string) returns (ok: bool)
    ensures ok <==> HasAllowedSuffix(path)
  {
    var extensions := AllowedExtensions();
    assert "." + extensions[0] == ".jpg" && "." + extensions[1] == ".jpeg" && "." + extensions[2] == ".png";
    ok := false;
    for i := 0 to |extensions|
      invariant !ok
      invariant forall j :: 0 <= j < i ==> !EndsWith(path, "." + extensions[j])
    {
      if EndsWith(path, "." + extensions[i]) {
        ok := true;
        break;
      }
    }
  }

  /** A URL ending in "." followed by a word of letters has that word as its
      extension. */
  lemma DotSuffix(path: string, word: string, suffix: string)
    requires suffix == "." + word && forall c :: c in word ==> 'a' <= c <= 'z'
    requires EndsWith(path, suffix)
    ensures Extension(path) == word && EndsWith(path, "." + Extension(path))
    ensures '%' !in Extension(path) && '/' !in Extension(path)
  {
    ExtensionOfSuffix(path, word);
  }

  /** A URL that passes the extension check has one of the three extensions
      as its last '.'-segment, and ends in it. */
  lemma ValidatedExtension(path: string)
    requires HasAllowedSuffix(path)
    ensures Extension(path) in AllowedExtensions()
    ensures EndsWith(path, "." + Extension(path))
    ensures '%' !in Extension(path) && '/' !in Extension(path)
  {
    var extensions := AllowedExtensions();
    var i :| 0 <= i < |extensions| && EndsWith(path, "." + extensions[i]);
    DotSuffix(path, extensions[i], "." + extensions[i]);
  }

  /** The cache key of a URL that passes the extension check ends in that same
      extension, one of the three, and can serve as a file name: it has no '/'
      and no '%'. */
  lemma ValidatedKey(md5: string -> Digest, path: string)
    requires HasAllowedSuffix(path)
    ensures var key := PathFriendlyHash(md5, path);
      && EndsWith(key, "." + Extension(path))
      && '/' !in key && '%' !in key
  {
    ValidatedExtension(path);
    var e := Extension(path);
    KeyKeepsExtension(md5, path, e);
    assert '/' !in PathFriendlyHash(md5, path) by {
      KeyCharacters(md5, path, '/');
    }
    assert '%' !in PathFriendlyHash(md5, path) by {
      KeyCharacters(md5, path, '%');
    }
  }

  // ---------------------------------------------------------------------
  // The host allow-list
  // ---------------------------------------------------------------------

  /** The host isAllowedHost compares: the URL's text before its first '/'.
      It is a '/'-free prefix of the URL, followed by a '/' unless it is the
      whole URL. */
  function UrlHost(url: string): (host: string)
    ensures '/' !in host
    ensures url == host || (|host| < |url| && url[..|host| + 1] == host + "/")
  {
    FirstPiece(url, '/');
    Split(url, '/')[0]
  }

  /** The loop of isAllowedHost, returning as soon as an entry matches. */
  method IsAllowedHost(allowedHosts: string, url: string) returns (ok: bool)
    ensures ok <==> UrlHost(url) in Split(allowedHosts, ',')
  {
    var hosts := Split(allowedHosts, ',');
    var urlHost := Split(url, '/')[0];
    for i := 0 to |hosts|
      invariant forall j :: 0 <= j < i ==> hosts[j] != urlHost
    {
      if hosts[i] == urlHost {
        return true;
      }
    }
    return false;
  }

  /** The host of "<host>/<rest>" is <host>. */
  lemma UrlHostOf(host: string, rest: string)
    requires '/' !in host
    ensures UrlHost(host + "/" + rest) == host
  {
    SplitFirstPiece(host, rest, '/');
  }

  /** An empty allow-list is the one entry "", which admits the empty URL and
      every URL that starts with '/'. */
  lemma EmptyAllowList(url: string)
    ensures UrlHost(url) in Split("", ',') <==> url == "" || url[0] == '/'
  {
    FirstPiece(url, '/');
  }

  /** An allow-list written as entries joined with ',' admits exactly the URLs
      whose host is one of the entries. */
  lemma AllowListEntries(entries: seq<string>, url: string)
    requires |entries| >= 1
    requires forall i :: 0 <= i < |entries| ==> ',' !in entries[i]
    ensures UrlHost(url) in Split(Join(entries, ','), ',') <==> UrlHost(url) in entries
  {
    SplitJoin(entries, ',');
  }

  // ---------------------------------------------------------------------
  // Handle and ServeHTTP
  // ---------------------------------------------------------------------

  /** Handle: checks in a fixed order (the URL parses, its host is allowed,
      its extension is allowed), then getImage, then Image.Get on the file the
      image names. A panic inside getImage (the nil image upscaleImage
      dereferences) ends the request with the connection closed. */
  function HandleEffect(paths: set<string>, allowedHosts: string, parses: string -> bool, md5: string -> Digest,
                        width: int, height: int, path: string, world: World): (r: (Response, set<string>))
    ensures r.0 == HttpError(StatusBadRequest, "Host is not allowed")
      <==> parses(path) && UrlHost(path) !in Split(allowedHosts, ',')
    ensures r.0 == HttpError(StatusNotFound, "Not allowed file extension")
      <==> parses(path) && UrlHost(path) in Split(allowedHosts, ',') && !HasAllowedSuffix(path)
    ensures !(parses(path) && UrlHost(path) in Split(allowedHosts, ',') && HasAllowedSuffix(path)) ==> r.1 == paths
    ensures r.0.Body? ==> r.0.file == CachePath(width, height, PathFriendlyHash(md5, path)) && r.0.file in r.1
    ensures paths <= r.1
    ensures !parses(path) ==> r == (HttpError(StatusNotFound, "URL is not valid"), paths)
    ensures parses(path) && UrlHost(path) in Split(allowedHosts, ',') && HasAllowedSuffix(path) ==> (
      ValidatedExtension(path);
      var (outcome, after) := GetImageEffect(paths, md5, path, width, height, world);
      && r.1 == after
      && (outcome == Failed ==> r.0 == HttpError(StatusNotFound, "Error getting image"))
      && (outcome == Panicked ==> r.0 == ConnectionClosed)
      && (outcome.Found? ==>
            && (r.0 == Body(outcome.image.filename) <==> outcome.image.filename in after && world.readOk)
            && (r.0 != Body(outcome.image.filename) ==> r.0 == HttpError(StatusNotFound, "Error reading image"))))
  {
    if !parses(path) then (HttpError(StatusNotFound, "URL is not valid"), paths)
    else if UrlHost(path) !in Split(allowedHosts, ',') then (HttpError(StatusBadRequest, "Host is not allowed"), paths)
    else if !HasAllowedSuffix(path) then (HttpError(StatusNotFound, "Not allowed file extension"), paths)
    else
      ValidatedExtension(path);
      var (outcome, after) := GetImageEffect(paths, md5, path, width, height, world);
      match outcome
      case Found(img) =>
        if img.filename in after && world.readOk then (Body(img.filename), after)
        else (HttpError(StatusNotFound, "Error reading image"), after)
      case Failed => (HttpError(StatusNotFound, "Error getting image"), after)
      case _ => (ConnectionClosed, after)
  }

  method Handle(fs: FileSystem, allowedHosts: string, parses: string -> bool, md5: string -> Digest,
                width: int, height: int, path: string, world: World) returns (resp: Response)
    modifies fs
    ensures (resp, fs.paths) == HandleEffect(old(fs.paths), allowedHosts, parses, md5, width, height, path, world)
  {
    if !parses(path) {
      return HttpError(StatusNotFound, "URL is not valid");
    }
    var allowed := IsAllowedHost(allowedHosts, path);
    if !allowed {
      return HttpError(StatusBadRequest, "Host is not allowed");
    }
    var hasAllowedExtension := HasAllowedExtension(path);
    if !hasAllowedExtension {
      return HttpError(StatusNotFound, "Not allowed file extension");
    }
    ValidatedExtension(path);
    var image := GetImage(fs, md5, path, width, height, world);
    if image == Failed {
      return HttpError(StatusNotFound, "Error getting image");
    }
    if !image.Found? {
      // getImage panicked inside upscaleImage
      return ConnectionClosed;
    }
    if !(image.image.filename in fs.paths && world.readOk) {
      return HttpError(StatusNotFound, "Error reading image");
    }
    resp := Body(image.image.filename);
  }

  /** Router.ServeHTTP: route the request path, then Handle. */
  function ServeEffect(paths: set<string>, allowedHosts: string, parses: string -> bool, md5: string -> Digest,
                       requestPath: string, world: World): (r: (Response, set<string>))
    ensures !Route(requestPath).Forward? ==> r.1 == paths && r.0.HttpError? && r.0.status == StatusNotFound
    ensures Route(requestPath) == NotFound ==> r == (HttpError(StatusNotFound, "Not found"), paths)
    ensures Route(requestPath) == InvalidDimensions ==> r == (HttpError(StatusNotFound, "Invalid dimensions"), paths)
    ensures Route(requestPath).Forward? ==>
      r == HandleEffect(paths, allowedHosts, parses, md5, Route(requestPath).width, Route(requestPath).height,
                        Route(requestPath).path, world)
    ensures r.0.Body? ==>
      && Route(requestPath).Forward?
      && r.0.file in r.1
      && r.0.file == CachePath(Route(requestPath).width, Route(requestPath).height, PathFriendlyHash(md5, Route(requestPath).path))
    ensures paths <= r.1
  {
    match Route(requestPath)
    case NotFound => (HttpError(StatusNotFound, "Not found"), paths)
    case InvalidDimensions => (HttpError(StatusNotFound, "Invalid dimensions"), paths)
    case Forward(width, height, path) => HandleEffect(paths, allowedHosts, parses, md5, width, height, path, world)
  }

  method ServeHTTP(fs: FileSystem, allowedHosts: string, parses: string -> bool, md5: string -> Digest,
                   requestPath: string, world: World) returns (resp: Response)
    modifies fs
    ensures (resp, fs.paths) == ServeEffect(old(fs.paths), allowedHosts, parses, md5, requestPath, world)
  {
    var fragments := Split(requestPath, '/');
    if |fragments| < 4 {
      return HttpError(StatusNotFound, "Not found");
    }
    if fragments[1] != "api" {
      return HttpError(StatusNotFound, "Not found");
    }
    var dimensions := GetDimensions(fragments[2]);
    if dimensions.Err? {
      return HttpError(StatusNotFound, "Invalid dimensions");
    }
    var path := Join(fragments[3..], '/');
    resp := Handle(fs, allowedHosts, parses, md5, dimensions.dims.width, dimensions.dims.height, path, world);
  }

  // ---------------------------------------------------------------------
  // End to end
  // ---------------------------------------------------------------------

  /** A valid request whose resolved file is cached gets that file's bytes,
      and no file changes. */
  lemma ServeCachedFile(paths: set<string>, allowedHosts: string, parses: string -> bool, md5: string -> Digest,
                        d: string, url: string, world: World)
    requires GetDimensions(d).Ok?
    requires parses(url) && UrlHost(url) in Split(allowedHosts, ',') && HasAllowedSuffix(url)
    requires CachePath(GetDimensions(d).dims.width, GetDimensions(d).dims.height, PathFriendlyHash(md5, url)) in paths
    requires world.readOk
    ensures ServeEffect(paths, allowedHosts, parses, md5, "/api/" + d + "/" + url, world)
      == (Body(CachePath(GetDimensions(d).dims.width, GetDimensions(d).dims.height, PathFriendlyHash(md5, url))), paths)
  {
    RouteForwardsRest(d, url);
    ValidatedExtension(url);
  }

  /** A valid request on a cold cache whose source answers with a status other
      than 200 ends with the connection closed and nothing written. */
  lemma ColdMissNonOkClosesConnection(paths: set<string>, allowedHosts: string, parses: string -> bool,
                                      md5: string -> Digest, d: string, url: string, world: World)
    requires GetDimensions(d).Ok?
    requires parses(url) && UrlHost(url) in Split(allowedHosts, ',') && HasAllowedSuffix(url)
    requires CachePath(GetDimensions(d).dims.width, GetDimensions(d).dims.height, PathFriendlyHash(md5, url)) !in paths
    requires !world.statFails && world.fetch.Status? && world.fetch.code != StatusOK
    ensures ServeEffect(paths, allowedHosts, parses, md5, "/api/" + d + "/" + url, world) == (ConnectionClosed, paths)
  {
    RouteForwardsRest(d, url);
    ValidatedExtension(url);
  }

  /** The host is checked before the extension: a URL from a host that is not
      allowed gets 400, whatever its extension, and nothing is fetched. */
  lemma HostCheckedFirst(paths: set<string>, allowedHosts: string, parses: string -> bool, md5: string -> Digest,
                         d: string, url: string, world: World)
    requires GetDimensions(d).Ok?
    requires parses(url) && UrlHost(url) !in Split(allowedHosts, ',')
    ensures ServeEffect(paths, allowedHosts, parses, md5, "/api/" + d + "/" + url, world)
      == (HttpError(StatusBadRequest, "Host is not allowed"), paths)
  {
    RouteForwardsRest(d, url);
  }
}
