/**
  getImage and the chain behind it: downloadImage, upscaleImage and
  resizeImage. The file system is the set of paths that exist; the network,
  file creation, copying and the two external programs are read from a World
  value, which says how each of them turns out on this request.
*/
module Pipeline {
  import opened GoStd
  import opened CacheKey
  import opened Images

  /** http.StatusOK */
  const StatusOK: int := 200

  /** How http.Get turns out: an error, or a response with a status code. */
  datatype Fetch = TransportError | Status(code: int)

  /** How an external program run through /bin/sh turns out: whether its
      output file is there afterwards, and whether it exited with status 0. */
  datatype Tool = Tool(writesOutput: bool, exitsZero: bool)

  /** The outcome of every step the proxy does not control. `statFails` is an
      os.Stat error other than "does not exist"; `upscaler` is RealESRGAN,
      `resizeOk` is ImageMagick's convert, and `readOk` is whether os.Open and
      io.ReadAll in Image.Get succeed on a file that exists. */
  datatype World = World(
    statFails: bool,
    fetch: Fetch,
    createOk: bool,
    copyOk: bool,
    upscaler: Tool,
    resizeOk: bool,
    readOk: bool)

  /** What a step hands back: an image, an error, the `(nil, nil)` pair of a
      download that got a non-200 answer, or a panic. */
  datatype Outcome = Found(image: Image) | Failed | NoImageNoError | Panicked

  /** The files under ./var. */
  class FileSystem {
    var paths: set<string>

    constructor (paths: set<string>)
      ensures this.paths == paths
    {
      this.paths := paths;
    }
  }

  /** The raw download of a key, the file os.Create makes: the key directly
      inside ./var. */
  function RawPath(key: string): (p: string)
    ensures '/' !in key ==> Split(p, '/') == [".", "var", key]
  {
    Path(Image(0, 0, key))
  }

  /** The raw download of a key is never its resolved file, whatever the size. */
  lemma RawPathIsNotCachePath(key: string, width: int, height: int)
    ensures RawPath(key) != CachePath(width, height, key)
  {
    assert |CachePath(width, height, key)| > |RawPath(key)|;
  }

  /** downloadImage: fetch the URL and copy the body into ./var/<key>. A
      non-200 answer returns no image and no error; a failed copy keeps the
      file it created. */
  function DownloadEffect(paths: set<string>, md5: string -> Digest, url: string, width: int, height: int, world: World)
    : (r: (Outcome, set<string>))
    ensures r.0 != Panicked
    ensures r.0 == NoImageNoError <==> world.fetch.Status? && world.fetch.code != StatusOK
    ensures r.0.Found? <==> world.fetch == Status(StatusOK) && world.createOk && world.copyOk
    ensures r.0.Found? ==> r.0.image == Image(width, height, PathFriendlyHash(md5, url)) && Path(r.0.image) in r.1
    ensures r.1 == paths || r.1 == paths + {RawPath(PathFriendlyHash(md5, url))}
  {
    match world.fetch
    case TransportError => (Failed, paths)
    case Status(code) =>
      var key := PathFriendlyHash(md5, url);
      if code != StatusOK then (NoImageNoError, paths)
      else if !world.createOk then (Failed, paths)
      else if !world.copyOk then (Failed, paths + {"./var/" + key})
      else (Found(Image(width, height, key)), paths + {"./var/" + key})
  }

  method DownloadImage(fs: FileSystem, md5: string -> Digest, url: string, width: int, height: int, world: World)
    returns (r: Outcome)
    modifies fs
    ensures (r, fs.paths) == DownloadEffect(old(fs.paths), md5, url, width, height, world)
  {
    if world.fetch.TransportError? {
      return Failed;
    }
    if world.fetch.code != StatusOK {
      return NoImageNoError;
    }
    var filename := PathFriendlyHash(md5, url);
    if !world.createOk {
      return Failed;
    }
    fs.paths := fs.paths + {"./var/" + filename};
    if !world.copyOk {
      return Failed;
    }
    r := Found(Image(width, height, filename));
  }

  /** resizeImage: convert resizes the file in place, so on success the image
      comes back unchanged, and the set of files never changes. */
  function ResizeImage(img: Image, world: World): (r: Outcome)
    ensures r.Found? <==> world.resizeOk
    ensures r.Found? ==> r.image == img
    ensures !r.Found? ==> r == Failed
  {
    if world.resizeOk then Found(Image(img.width, img.height, img.filename)) else Failed
  }

  /** upscaleImage: RealESRGAN reads the raw file and writes the resolved file
      itself, then the resolved file is resized. Whatever the upscaler leaves
      behind stays, even when it or the resize fails. */
  function UpscaleEffect(paths: set<string>, img: Image, world: World): (r: (Outcome, set<string>))
    requires '%' !in img.filename
    ensures r.0 == Failed || r.0 == Found(Image(img.width, img.height, FinalPath(img)))
    ensures r.0.Found? <==> world.upscaler.exitsZero && world.resizeOk
    ensures FinalPath(img) in r.1 <==> FinalPath(img) in paths || world.upscaler.writesOutput
    ensures r.1 == paths || r.1 == paths + {FinalPath(img)}
  {
    var output := FinalPath(img);
    var written := if world.upscaler.writesOutput then paths + {output} else paths;
    if !world.upscaler.exitsZero then (Failed, written)
    else (ResizeImage(Image(img.width, img.height, output), world), written)
  }

  method UpscaleImage(fs: FileSystem, img: Image, world: World) returns (r: Outcome)
    requires '%' !in img.filename
    modifies fs
    ensures (r, fs.paths) == UpscaleEffect(old(fs.paths), img, world)
  {
    var output := FinalPath(img);
    if world.upscaler.writesOutput {
      fs.paths := fs.paths + {output};
    }
    if !world.upscaler.exitsZero {
      return Failed;
    }
    var upscaled := Image(img.width, img.height, output);
    r := ResizeImage(upscaled, world);
  }

  /** downloadAndUpscaleImage, as written: it only checks the error of
      downloadImage, so after a non-200 answer it hands a nil image to
      upscaleImage, whose first use of it panics. */
  function DownloadAndUpscaleEffect(paths: set<string>, md5: string -> Digest, url: string, width: int, height: int, world: World)
    : (r: (Outcome, set<string>))
    requires '%' !in Extension(url)
    ensures r.0 == Panicked <==> world.fetch.Status? && world.fetch.code != StatusOK
    ensures r.0 != NoImageNoError
    ensures r.0.Found? <==> world.fetch == Status(StatusOK) && world.createOk && world.copyOk
                            && world.upscaler.exitsZero && world.resizeOk
    ensures r.0.Found? ==> r.0.image == Image(width, height, CachePath(width, height, PathFriendlyHash(md5, url)))
    ensures paths <= r.1 <= paths + {RawPath(PathFriendlyHash(md5, url)), CachePath(width, height, PathFriendlyHash(md5, url))}
  {
    var (downloaded, p) := DownloadEffect(paths, md5, url, width, height, world);
    if downloaded.Found? then
      KeyCharacters(md5, url, '%');
      UpscaleEffect(p, downloaded.image, world)
    else if downloaded == NoImageNoError then (Panicked, p)
    else (Failed, p)
  }

  /** downloadAndUpscaleImage as evidently intended: a download that brings
      back no image is an error, so nothing panics. */
  function DownloadAndUpscaleCheckedEffect(paths: set<string>, md5: string -> Digest, url: string, width: int, height: int, world: World)
    : (r: (Outcome, set<string>))
    requires '%' !in Extension(url)
    ensures r.0.Found? || r.0 == Failed
    ensures r.0.Found? <==> world.fetch == Status(StatusOK) && world.createOk && world.copyOk
                            && world.upscaler.exitsZero && world.resizeOk
    ensures r.0.Found? ==> r.0.image == Image(width, height, CachePath(width, height, PathFriendlyHash(md5, url)))
    ensures paths <= r.1 <= paths + {RawPath(PathFriendlyHash(md5, url)), CachePath(width, height, PathFriendlyHash(md5, url))}
  {
    var (downloaded, p) := DownloadEffect(paths, md5, url, width, height, world);
    if downloaded.Found? then
      KeyCharacters(md5, url, '%');
      UpscaleEffect(p, downloaded.image, world)
    else (Failed, p)
  }

  method DownloadAndUpscaleImage(fs: FileSystem, md5: string -> Digest, url: string, width: int, height: int, world: World)
    returns (r: Outcome)
    requires '%' !in Extension(url)
    modifies fs
    ensures (r, fs.paths) == DownloadAndUpscaleEffect(old(fs.paths), md5, url, width, height, world)
  {
    var downloaded := DownloadImage(fs, md5, url, width, height, world);
    if downloaded == Failed {
      return Failed;
    }
    if downloaded == NoImageNoError {
      // the error is nil, so the nil image goes on to upscaleImage
      return Panicked;
    }
    KeyCharacters(md5, url, '%');
    r := UpscaleImage(fs, downloaded.image, world);
  }

  /** getImage: serve the resolved file when os.Stat does not say it is
      missing, otherwise download and upscale. Hit and miss hand back the
      same image: the resolved path of the key at the requested size. */
  function GetImageEffect(paths: set<string>, md5: string -> Digest, url: string, width: int, height: int, world: World)
    : (r: (Outcome, set<string>))
    requires '%' !in Extension(url)
    ensures r.0 != NoImageNoError
    ensures r.0.Found? ==> r.0.image == Image(width, height, CachePath(width, height, PathFriendlyHash(md5, url)))
    ensures paths <= r.1 <= paths + {RawPath(PathFriendlyHash(md5, url)), CachePath(width, height, PathFriendlyHash(md5, url))}
  {
    var path := CachePath(width, height, PathFriendlyHash(md5, url));
    if path !in paths && !world.statFails then DownloadAndUpscaleEffect(paths, md5, url, width, height, world)
    else (Found(Image(width, height, path)), paths)
  }

  method GetImage(fs: FileSystem, md5: string -> Digest, url: string, width: int, height: int, world: World)
    returns (r: Outcome)
    requires '%' !in Extension(url)
    modifies fs
    ensures (r, fs.paths) == GetImageEffect(old(fs.paths), md5, url, width, height, world)
  {
    var hash := PathFriendlyHash(md5, url);
    var path := CachePath(width, height, hash);
    if path !in fs.paths && !world.statFails {
      r := DownloadAndUpscaleImage(fs, md5, url, width, height, world);
      return;
    }
    r := Found(Image(width, height, path));
  }

  // ---------------------------------------------------------------------
  // Properties of the cache
  // ---------------------------------------------------------------------

  /** A resolved file that exists is served as it is: nothing is fetched and
      no file changes, whatever the network would have done. */
  lemma HitServesWithoutDownload(paths: set<string>, md5: string -> Digest, url: string, width: int, height: int, world: World)
    requires '%' !in Extension(url)
    requires CachePath(width, height, PathFriendlyHash(md5, url)) in paths
    ensures GetImageEffect(paths, md5, url, width, height, world)
      == (Found(Image(width, height, CachePath(width, height, PathFriendlyHash(md5, url)))), paths)
  {
  }

  /** An os.Stat error other than "does not exist" counts as a hit, even when
      the resolved file is not there. */
  lemma StatErrorCountsAsHit(paths: set<string>, md5: string -> Digest, url: string, width: int, height: int, world: World)
    requires '%' !in Extension(url)
    requires world.statFails
    ensures GetImageEffect(paths, md5, url, width, height, world)
      == (Found(Image(width, height, CachePath(width, height, PathFriendlyHash(md5, url)))), paths)
  {
  }

  /** Once the resolved file exists, every later request for the same URL and
      size is a hit that changes nothing, whatever the world does then. */
  lemma RepeatRequestIsHit(paths: set<string>, md5: string -> Digest, url: string, width: int, height: int, first: World, second: World)
    requires '%' !in Extension(url)
    requires CachePath(width, height, PathFriendlyHash(md5, url)) in GetImageEffect(paths, md5, url, width, height, first).1
    ensures var after := GetImageEffect(paths, md5, url, width, height, first).1;
      GetImageEffect(after, md5, url, width, height, second)
        == (Found(Image(width, height, CachePath(width, height, PathFriendlyHash(md5, url)))), after)
  {
  }

  /** A successful miss leaves the resolved file in place exactly when the
      upscaler wrote it, so it is cached for the next request. */
  lemma SuccessfulMissCaches(paths: set<string>, md5: string -> Digest, url: string, width: int, height: int, world: World)
    requires '%' !in Extension(url)
    requires CachePath(width, height, PathFriendlyHash(md5, url)) !in paths && !world.statFails
    requires GetImageEffect(paths, md5, url, width, height, world).0.Found?
    ensures CachePath(width, height, PathFriendlyHash(md5, url)) in GetImageEffect(paths, md5, url, width, height, world).1
      <==> world.upscaler.writesOutput
  {
    MissRunsChain(paths, md5, url, width, height, world);
  }

  /** On a miss, whether the raw download of the key is already on disk
      makes no difference to the outcome: it is never reused, so the request
      goes to the network every time, and fails with it. */
  lemma NoRawTierReuse(paths: set<string>, md5: string -> Digest, url: string, width: int, height: int, world: World)
    requires '%' !in Extension(url)
    requires CachePath(width, height, PathFriendlyHash(md5, url)) !in paths && !world.statFails
    ensures var raw := RawPath(PathFriendlyHash(md5, url));
      && GetImageEffect(paths + {raw}, md5, url, width, height, world).0
         == GetImageEffect(paths - {raw}, md5, url, width, height, world).0
      && (world.fetch == TransportError ==>
            GetImageEffect(paths + {raw}, md5, url, width, height, world) == (Failed, paths + {raw}))
  {
    var key := PathFriendlyHash(md5, url);
    var raw := RawPath(key);
    RawPathIsNotCachePath(key, width, height);
    ChainOutcomeIgnoresFiles(paths + {raw}, paths - {raw}, md5, url, width, height, world);
  }

  /** What the chain returns depends only on the network and the tools, not
      on which files are already there. */
  lemma ChainOutcomeIgnoresFiles(paths: set<string>, others: set<string>, md5: string -> Digest, url: string,
                                 width: int, height: int, world: World)
    requires '%' !in Extension(url)
    ensures DownloadAndUpscaleEffect(paths, md5, url, width, height, world).0
         == DownloadAndUpscaleEffect(others, md5, url, width, height, world).0
  {
  }

  /** A miss runs the whole chain: it returns the image exactly when the
      download, the copy, the upscaler and the resize all succeed, panics
      exactly on a status other than 200, leaves the resolved file exactly
      when the download got that far and the upscaler wrote it, and leaves
      the raw file exactly when it was there or os.Create made it. */
  lemma MissRunsChain(paths: set<string>, md5: string -> Digest, url: string, width: int, height: int, world: World)
    requires '%' !in Extension(url)
    requires CachePath(width, height, PathFriendlyHash(md5, url)) !in paths && !world.statFails
    ensures var (outcome, after) := GetImageEffect(paths, md5, url, width, height, world);
      var key := PathFriendlyHash(md5, url);
      var downloaded := world.fetch == Status(StatusOK) && world.createOk && world.copyOk;
      && (outcome.Found? <==> downloaded && world.upscaler.exitsZero && world.resizeOk)
      && (outcome == Panicked <==> world.fetch.Status? && world.fetch.code != StatusOK)
      && (CachePath(width, height, key) in after <==> downloaded && world.upscaler.writesOutput)
      && (RawPath(key) in after <==> RawPath(key) in paths || (world.fetch == Status(StatusOK) && world.createOk))
  {
    ChainResolvedFile(paths, md5, url, width, height, world);
    ChainRawFile(paths, md5, url, width, height, world);
  }

  /** The chain leaves the resolved file when it was there, or when the
      download got through and the upscaler wrote it. */
  lemma ChainResolvedFile(paths: set<string>, md5: string -> Digest, url: string, width: int, height: int, world: World)
    requires '%' !in Extension(url)
    ensures var cache := CachePath(width, height, PathFriendlyHash(md5, url));
      var downloaded := world.fetch == Status(StatusOK) && world.createOk && world.copyOk;
      (cache in DownloadAndUpscaleEffect(paths, md5, url, width, height, world).1)
        <==> cache in paths || (downloaded && world.upscaler.writesOutput)
  {
    var key := PathFriendlyHash(md5, url);
    var cache := CachePath(width, height, key);
    var (downloaded, p) := DownloadEffect(paths, md5, url, width, height, world);
    assert cache in p <==> cache in paths by {
      RawPathIsNotCachePath(key, width, height);
    }
    if downloaded.Found? {
      assert FinalPath(downloaded.image) == cache by {
        KeyCharacters(md5, url, '%');
        FinalPathMatchesCachePath(width, height, key);
      }
      assert DownloadAndUpscaleEffect(paths, md5, url, width, height, world).1
          == UpscaleEffect(p, downloaded.image, world).1;
    } else {
      assert DownloadAndUpscaleEffect(paths, md5, url, width, height, world).1 == p;
    }
  }

  /** The chain leaves the raw file when it was there, or once os.Create
      made it. */
  lemma ChainRawFile(paths: set<string>, md5: string -> Digest, url: string, width: int, height: int, world: World)
    requires '%' !in Extension(url)
    ensures var raw := RawPath(PathFriendlyHash(md5, url));
      (raw in DownloadAndUpscaleEffect(paths, md5, url, width, height, world).1)
        <==> raw in paths || (world.fetch == Status(StatusOK) && world.createOk)
  {
    var key := PathFriendlyHash(md5, url);
    var raw := RawPath(key);
    var (downloaded, p) := DownloadEffect(paths, md5, url, width, height, world);
    assert raw in p <==> raw in paths || (world.fetch == Status(StatusOK) && world.createOk);
    if downloaded.Found? {
      KeyCharacters(md5, url, '%');
      RawPathIsNotFinalPath(downloaded.image);
      UpscaleTouchesOnlyOutput(p, downloaded.image, world, raw);
      assert DownloadAndUpscaleEffect(paths, md5, url, width, height, world).1
          == UpscaleEffect(p, downloaded.image, world).1;
    } else {
      assert DownloadAndUpscaleEffect(paths, md5, url, width, height, world).1 == p;
    }
  }

  /** The upscaler writes no file but its output. */
  lemma UpscaleTouchesOnlyOutput(paths: set<string>, img: Image, world: World, other: string)
    requires '%' !in img.filename
    requires other != FinalPath(img)
    ensures other in UpscaleEffect(paths, img, world).1 <==> other in paths
  {
  }

  /** A copy that fails leaves the file it was writing behind. */
  lemma PartialDownloadKept(paths: set<string>, md5: string -> Digest, url: string, width: int, height: int, world: World)
    requires '%' !in Extension(url)
    requires CachePath(width, height, PathFriendlyHash(md5, url)) !in paths && !world.statFails
    requires world.fetch == Status(StatusOK) && world.createOk && !world.copyOk
    ensures GetImageEffect(paths, md5, url, width, height, world)
      == (Failed, paths + {RawPath(PathFriendlyHash(md5, url))})
  {
  }

  /** The upscaler writes straight to the resolved path, so when it or the
      resize then fails, the request fails but the resolved file stays, and
      the next request serves it as a hit. */
  lemma FailedPipelineLeavesResolvedFile(paths: set<string>, md5: string -> Digest, url: string, width: int, height: int,
                                         world: World, next: World)
    requires '%' !in Extension(url)
    requires CachePath(width, height, PathFriendlyHash(md5, url)) !in paths && !world.statFails
    requires world.fetch == Status(StatusOK) && world.createOk && world.copyOk
    requires world.upscaler.writesOutput && !(world.upscaler.exitsZero && world.resizeOk)
    ensures var (outcome, after) := GetImageEffect(paths, md5, url, width, height, world);
      && outcome == Failed
      && CachePath(width, height, PathFriendlyHash(md5, url)) in after
      && GetImageEffect(after, md5, url, width, height, next).0
        == Found(Image(width, height, CachePath(width, height, PathFriendlyHash(md5, url))))
  {
    var key := PathFriendlyHash(md5, url);
    KeyCharacters(md5, url, '%');
    FinalPathMatchesCachePath(width, height, key);
  }

  /** A non-200 answer on a miss crashes the request: downloadImage returns
      neither an image nor an error, and upscaleImage dereferences the nil
      image. No file is written. */
  lemma NonOkStatusPanics(paths: set<string>, md5: string -> Digest, url: string, width: int, height: int, world: World)
    requires '%' !in Extension(url)
    requires CachePath(width, height, PathFriendlyHash(md5, url)) !in paths && !world.statFails
    requires world.fetch.Status? && world.fetch.code != StatusOK
    ensures GetImageEffect(paths, md5, url, width, height, world) == (Panicked, paths)
  {
  }

  /** The intended chain never panics, reports the non-200 answer as an
      error, and agrees with the code on every other world. */
  lemma CheckedChainNeverPanics(paths: set<string>, md5: string -> Digest, url: string, width: int, height: int, world: World)
    requires '%' !in Extension(url)
    ensures var checked := DownloadAndUpscaleCheckedEffect(paths, md5, url, width, height, world);
      && checked.0 != Panicked
      && (world.fetch.Status? && world.fetch.code != StatusOK ==> checked == (Failed, paths))
      && (world.fetch.TransportError? || world.fetch.code == StatusOK ==>
            checked == DownloadAndUpscaleEffect(paths, md5, url, width, height, world))
  {
  }
}
