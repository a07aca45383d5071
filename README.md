# Image proxy: request validation, cache key and fetch/upscale pipeline

This project models the request path of a small image proxy written in Go
(`src/main.go`). A request `/api/<W>x<H>/<url>` asks for the image at
`https://<url>`, upscaled and resized to `W`×`H`. The proxy works in three
steps:

- **Router.ServeHTTP** splits the request path on `/` and reads the size
  with **getDimensions**. It then forwards the rest of the path.
- **Handle** validates the forwarded URL, in order:
  - the URL parses;
  - its host (the text before the first `/`) is on the comma-separated
    allow-list;
  - it ends in `.jpg`, `.jpeg` or `.png`.

  It then asks **getImage** for the file and answers with its bytes.
- **getImage** derives a cache key with **pathFriendlyHash**: an MD5 digest
  in unpadded URL-safe base64, then `.`, then the last `.`-segment of the URL.
  It serves `./var/<W>x<H>/<key>` when that file exists. Otherwise it runs
  **downloadImage** (into `./var/<key>`), **upscaleImage** (RealESRGAN, which
  writes `./var/<W>x<H>/<key>`) and **resizeImage** (ImageMagick, in place).

The model is in eight modules:

- `GoStd` holds the Go library behaviour the code relies on:
  - `strings.Split`, `Join`, `HasSuffix` and `TrimRight`;
  - `strconv.Itoa` and the digit parsing behind `strconv.Atoi`;
  - the `%s`/`%d` subset of `fmt.Sprintf`.
- `Base64Url` is the encoding of section 5 of RFC 4648, with the `=` padding
  of section 4, together with a decoder that inverts it.
- `Dimensions` models getDimensions.
- `CacheKey` models pathFriendlyHash.
- `Images` models the Image record, `Path`, `FinalPath` and the cache path
  that getImage builds.
- `Pipeline` models getImage and the download/upscale/resize chain.
  - The `./var` tree is a `FileSystem` object whose field `paths` is the set
    of paths that exist.
  - The methods change that set, and each is proved equal to a function of
    the old set (`…Effect`).
  - The network, file creation and copying, the two external programs and
    the file read of `Image.Get` are a `World` value. It says how each of
    them turns out on this request.
- `Router` models ServeHTTP, Handle and isAllowedHost. Their loops are
  methods with invariants.
- `Wrappers` defines `Option`.

Some facts about the code:

- The extension is not lower-cased.
- A raw download is never reused.
- A failed copy keeps its partial file.
- The upscaler writes straight to the resolved path, so a failed pipeline
  can leave a resolved file that later requests serve.
- No file is renamed into place atomically, and two requests for the same
  image are not merged.
- A width or height of `0` is accepted.
- A non-200 answer crashes the request (see Findings).

## Model

| member | source | states |
|---|---|---|
| GoStd.Split | src/main.go:49 | strings.Split gives one more piece than there are separators, and no piece contains the separator |
| GoStd.Join | src/main.go:68 | strings.Join puts one separator between consecutive pieces, so a join of pieces is as long as the pieces together plus one less than their number; its other properties are the lemmas JoinEnds, JoinFront, JoinSplit and SplitJoin below |
| GoStd.JoinSplit | src/main.go:49-68 | joining the pieces of a split with the same separator gives back the original string |
| GoStd.JoinEnds | src/main.go:68 | strings.Join of no pieces is empty; otherwise the result starts with the first piece and ends with the last |
| GoStd.JoinFront | src/main.go:68 | a join of four or more pieces is the first three pieces, each followed by the separator, then the join of the rest |
| GoStd.SplitJoin | src/main.go:151 | splitting a join of separator-free pieces gives back exactly those pieces |
| GoStd.SplitConcat | src/main.go:49 | the split of `a + sep + b` is the split of `a` followed by the split of `b` |
| GoStd.SplitFirstPiece | src/main.go:153 | a separator-free prefix followed by the separator is the first piece, and the rest splits on its own |
| GoStd.SplitWithoutSeparator | src/main.go:299 | a string without the separator splits into itself alone |
| GoStd.FirstPiece | src/main.go:153 | piece 0 is the longest prefix without the separator; it is followed by the separator or ends the string |
| GoStd.LastPiece | src/main.go:299 | the last piece is the longest suffix without the separator; it is preceded by the separator or is the whole string |
| GoStd.EndsWith | src/main.go:117 | strings.HasSuffix: every string ends with the empty suffix, a suffix is never longer than the string, and a suffix as long as the string is the string itself; EndsWithSplitsOff and EndsWithAppended below make it exactly "the string is something followed by the suffix" |
| GoStd.EndsWithSplitsOff | src/main.go:117 | a string for which strings.HasSuffix holds is its own front part followed by the suffix |
| GoStd.EndsWithAppended | src/main.go:117 | conversely, any string followed by a suffix ends in that suffix |
| GoStd.TrimRight | src/main.go:298 | TrimRight with a one-character cutset returns a prefix that does not end in that character; every removed character is that character |
| GoStd.TrimRightPadding | src/main.go:298 | trimming a run of the character from a string that does not end in it gives back exactly the string |
| GoStd.Decimal | src/main.go:180 | the decimal text of a natural number is a non-empty run of ASCII digits that reads back as that number and has no leading zero ("0" is the only text that starts with '0') |
| GoStd.DecimalOfParse | src/main.go:180 | conversely, a non-empty digit run without a leading zero is the decimal text of the number it reads as, so Decimal is the only such printing of a number |
| GoStd.Itoa | src/main.go:180 | strconv.Itoa of a non-negative `int` is a run of ASCII digits that reads back as the number; of a negative one, a `-` followed by the digits of its magnitude; in both the digits have no leading zero except for "0" itself |
| GoStd.Sprintf | src/main.go:211 | a format with no `%` prints as itself |
| GoStd.LiteralFormat | src/main.go:180 | a format with no directive is well formed with no operands exactly when it has no `%`, and then it prints itself |
| GoStd.SprintfLiteralSuffix | src/main.go:180 | appending text to a well-formed format keeps it well formed exactly when the text has no `%`; the text is then printed after the rest |
| GoStd.SprintfLiteralPrefix | src/main.go:211 | text without `%` in front of a format is printed as it is, in front of the rest |
| GoStd.SprintfDirective | src/main.go:211 | a `%s` or `%d` at the front of a format prints the first operand, then formats the rest with the remaining operands |
| Base64Url.Char | src/main.go:297 | every 6-bit value is encoded by a character of the URL-safe alphabet `A-Z a-z 0-9 - _` |
| Base64Url.Value | src/main.go:297 | each character of the alphabet stands for exactly one 6-bit value, the one Char maps to it |
| Base64Url.EncodeUnpadded | src/main.go:297 | the unpadded encoding of `n` bytes has `(4n+2)/3` characters, all from the URL-safe alphabet |
| Base64Url.Encode | src/main.go:297 | `URLEncoding.EncodeToString` gives `4⌈n/3⌉` characters: whole 4-character quanta |
| Base64Url.GroupRoundTrip | src/main.go:297 | splitting three bytes into four 6-bit groups and putting them back together gives the three bytes |
| Base64Url.DecodeQuad | src/main.go:297 | the four characters of a complete group decode to its three bytes, in front of whatever follows |
| Base64Url.DecodeFinalGroup | src/main.go:297 | a final group of one or two bytes decodes back to those bytes |
| Base64Url.DecodeEncode | src/main.go:297 | decoding the unpadded encoding gives back the bytes, so the encoding is injective |
| Base64Url.TrimmedEncoding | src/main.go:297-298 | right-trimming `=` from the padded encoding leaves exactly the unpadded encoding |
| Dimensions.MatchAccepts | src/main.go:75-80 | `^(\d+)x(\d+)$` matches every `<digits>x<digits>`, with those two digit runs as submatches |
| Dimensions.MatchDimensions | src/main.go:75-80 | every match of `^(\d+)x(\d+)$` is `<digits>x<digits>`: non-empty ASCII digit runs around one `x`, which are the two submatches |
| Dimensions.Atoi | src/main.go:82-92 | strconv.Atoi of a digit run succeeds exactly when its decimal value is at most `2^63-1`, and then returns that value |
| Dimensions.GetDimensions | src/main.go:74-95 | "dimensions not found" exactly when the text does not match; both sizes returned lie in `0 .. 2^63-1` |
| Dimensions.GetDimensionsAccepts | src/main.go:74-95 | on `<digits>x<digits>` getDimensions returns the decimal values, leading zeros and 0 included, or "width"/"height is not a number" for the first one above the largest 64-bit `int` |
| Dimensions.GetDimensionsSound | src/main.go:74-95 | every success comes from `<digits>x<digits>` and returns the decimal values of the two runs, each in `0 .. 2^63-1` |
| Dimensions.GetDimensionsRejectsForeignChar | src/main.go:75-80 | any character other than an ASCII digit or `x` (a sign, a space, a letter) gives "dimensions not found" |
| Dimensions.GetDimensionsOfItoa | src/main.go:82-94 | two `int` values in range, printed in decimal around an `x`, read back as themselves |
| CacheKey.Extension | src/main.go:299 | the extension is the longest suffix without `.`: the string ends in it, and it is the whole string or follows a `.` |
| CacheKey.ExtensionOfSuffix | src/main.go:299 | a string ending in `.` followed by a `.`-free word has that word, unchanged in case, as its extension |
| CacheKey.HashPart | src/main.go:293-298 | the hash part is the unpadded base64url encoding of the 16-byte digest: 22 characters of `A-Z a-z 0-9 - _`, so no `/`, `+`, `=` or `.` |
| CacheKey.HashPartInjective | src/main.go:297-298 | different digests give different hash parts |
| CacheKey.PathFriendlyHash | src/main.go:293-302 | the key is 23 characters longer than the URL's extension and ends in `.` followed by that extension |
| CacheKey.KeyLayout | src/main.go:293-302 | the key is the 22-character hash part of the URL's digest, a `.`, then the URL's extension |
| CacheKey.KeyInjective | src/main.go:293-302 | two URLs share a key only when their digests and their extensions are equal |
| CacheKey.KeyKeepsExtension | src/main.go:299-300 | a URL ending in `.<word>` gets the key `<hash>.<word>`, which ends in `.<word>` |
| CacheKey.KeyCharacters | src/main.go:297-300 | a character outside the alphabet, other than `.`, occurs in the key exactly when it occurs in the extension |
| Images.Path | src/main.go:175-177 | the raw path of a `/`-free file name splits into `.`, `var` and the file name |
| Images.FinalPathFormatWellFormed | src/main.go:180 | the format of FinalPath, with the file name spliced in, has just the two `%s` directives exactly when the file name has no `%` |
| Images.FinalPath | src/main.go:179-181 | FinalPath is `./var/<W>x<H>/<Filename>`, with the sizes in decimal |
| Images.CachePath | src/main.go:211 | the path getImage checks is `./var/<W>x<H>/<key>` |
| Images.FinalPathMatchesCachePath | src/main.go:179-181 | for a key without `%`, FinalPath of `Image{W, H, key}` is the path getImage checks |
| Images.CachePathSegments | src/main.go:211 | the resolved path of a `/`-free key splits into `.`, `var`, `<W>x<H>` and the key |
| Images.CachePathInjective | src/main.go:211 | two sizes within `int` range never share a resolved file for the same key |
| Images.RawPathIsNotFinalPath | src/main.go:175-181 | the raw download and the resolved file of an image are different paths |
| Pipeline.DownloadEffect | src/main.go:249-290 | downloadImage never panics; it returns an image exactly when the status is 200 and both the create and the copy succeed; it returns no image and no error exactly on a non-200 status; an image it returns is `Image{key, W, H}`, whose raw file exists; at most the raw file is added |
| Pipeline.DownloadImage | src/main.go:249-290 | the method returns the outcome, and leaves the file set, that DownloadEffect gives |
| Pipeline.ResizeImage | src/main.go:338-358 | resizeImage succeeds exactly when convert does, and then returns the same image |
| Pipeline.UpscaleEffect | src/main.go:306-335 | upscaleImage fails, or returns the image at its FinalPath with the same size; it succeeds exactly when both tools do; the resolved file exists afterwards exactly when it existed before or the upscaler wrote it |
| Pipeline.UpscaleImage | src/main.go:306-335 | the method returns the outcome, and leaves the file set, that UpscaleEffect gives |
| Pipeline.DownloadAndUpscaleEffect | src/main.go:232-246 | as written, the chain returns an image exactly when the status is 200, the create, the copy, the upscaler and the resize all succeed; it panics exactly when the status is not 200; an image it returns is the resolved path of the key at the requested size; at most the raw and resolved files are added |
| Pipeline.DownloadAndUpscaleCheckedEffect | src/main.go:232-246 | the corrected chain only ever returns an image or an error; it returns an image exactly when all five steps succeed, and makes the same image and the same files as the code |
| Pipeline.DownloadAndUpscaleImage | src/main.go:232-246 | the method returns the outcome, and leaves the file set, that DownloadAndUpscaleEffect gives |
| Pipeline.GetImageEffect | src/main.go:209-229 | getImage never returns "no image, no error"; hit and miss both return `Image{./var/<W>x<H>/<key>, W, H}`; files are only added, and only the raw and resolved files of the key |
| Pipeline.RawPath | src/main.go:266-267 | the raw download of a `/`-free key is `./var/<key>`, which splits into `.`, `var` and the key |
| Pipeline.RawPathIsNotCachePath | src/main.go:267 | the raw download of a key is never its resolved path at any size |
| Pipeline.MissRunsChain | src/main.go:213-246 | on a miss, getImage returns an image exactly when all five steps succeed, panics exactly on a non-200 status, leaves the resolved file exactly when the download succeeded and the upscaler wrote it, and leaves the raw file exactly when it was there or the status was 200 and the create succeeded |
| Pipeline.ChainOutcomeIgnoresFiles | src/main.go:232-246 | what downloadAndUpscaleImage returns does not depend on which files already exist |
| Pipeline.UpscaleTouchesOnlyOutput | src/main.go:306-335 | upscaleImage adds or removes no file other than its output |
| Pipeline.ChainResolvedFile | src/main.go:232-246 | after the chain the resolved file exists exactly when it existed before, or the download succeeded and the upscaler wrote it |
| Pipeline.ChainRawFile | src/main.go:232-290 | after the chain the raw file exists exactly when it existed before, or the status was 200 and os.Create succeeded |
| Pipeline.GetImage | src/main.go:209-229 | the method returns the outcome, and leaves the file set, that GetImageEffect gives |
| Pipeline.HitServesWithoutDownload | src/main.go:213-228 | when the resolved file exists, getImage returns it and changes nothing, whatever the network would do |
| Pipeline.StatErrorCountsAsHit | src/main.go:213 | an os.Stat error other than "does not exist" is served as a hit even when the file is missing |
| Pipeline.RepeatRequestIsHit | src/main.go:209-229 | once a request has left the resolved file behind, every later request for the same URL and size is a hit that changes nothing |
| Pipeline.SuccessfulMissCaches | src/main.go:306-325 | after a successful miss the resolved file is there exactly when the upscaler wrote it |
| Pipeline.NoRawTierReuse | src/main.go:213-215 | a raw file on disk is not reused: for every outcome of the network and the tools, a miss returns the same outcome whether or not the raw file exists, and a transport error fails it with nothing changed |
| Pipeline.PartialDownloadKept | src/main.go:267-281 | a failed copy fails the request and leaves the raw file it created |
| Pipeline.FailedPipelineLeavesResolvedFile | src/main.go:307-332 | when the upscaler writes its output but it or the resize then fails, the request fails, the resolved file stays, and the next request is a hit |
| Pipeline.NonOkStatusPanics | src/main.go:261-264 | on a miss, a non-200 status makes getImage panic, and no file is written |
| Pipeline.CheckedChainNeverPanics | src/main.go:232-246 | the corrected chain never panics: it turns a non-200 status into an error with no file written, and agrees with the code on every other outcome |
| Router.Route | src/main.go:47-71 | a path with fewer than 4 `/`-fragments, or whose second fragment is not `api`, is "Not found", and forwarded sizes lie in `0 .. 2^63-1` |
| Router.SplitApiPath | src/main.go:49 | `/api/<d>/<rest>` with a `/`-free `<d>` splits into `""`, `api`, `<d>`, then the pieces of `<rest>` |
| Router.RouteForwardsRest | src/main.go:49-70 | for `/api/<d>/<rest>` with valid dimensions, Handle gets exactly `<rest>` and the two numbers |
| Router.RouteRejectsBadDimensions | src/main.go:61-66 | invalid dimension text gives "Invalid dimensions", whatever follows |
| Router.RouteForwardShape | src/main.go:49-68 | whatever is forwarded came from `<first>/api/<W>x<H>/<path>`, with no `/` in `<first>` and the sizes read from `<W>x<H>` |
| Router.AllowedExtensions | src/main.go:165-167 | the allow-list has three entries, each a non-empty lower-case word |
| Router.HasAllowedSuffix | src/main.go:114-121 | the extension check accepts a URL exactly when it ends in `.` followed by one of the allow-list entries |
| Router.HasAllowedExtension | src/main.go:114-121 | the loop with `break` sets the flag exactly when the URL ends in `.jpg`, `.jpeg` or `.png`, in lower case |
| Router.ValidatedExtension | src/main.go:114-125 | a URL that passes the extension check has one of the three allowed extensions as its extension, ends in `.` plus it, and that extension has no `%` or `/` |
| Router.ValidatedKey | src/main.go:293-302 | the key of a URL that passes the extension check ends in `.` plus its extension, and has no `/` or `%` |
| Router.IsAllowedHost | src/main.go:149-163 | the loop with early return answers true exactly when the text before the URL's first `/` is an entry of the comma-split list |
| Router.UrlHost | src/main.go:153 | the compared host is a `/`-free prefix of the URL, followed by `/` unless it is the whole URL |
| Router.UrlHostOf | src/main.go:153 | the host of `<host>/<rest>` is `<host>` |
| Router.EmptyAllowList | src/main.go:150-153 | an empty allow-list is the single entry `""`, which admits the empty URL and every URL starting with `/` |
| Router.AllowListEntries | src/main.go:150-160 | a list written as comma-free entries joined by `,` admits exactly the URLs whose host is one of the entries |
| Router.HandleEffect | src/main.go:98-147 | 400 "Host is not allowed" exactly when the URL parses and its host is not listed; "Not allowed file extension" exactly when the host is listed and the suffix is not allowed; "URL is not valid" with nothing changed when the URL does not parse; no file changes unless all checks pass; once they pass, the files are those getImage leaves, an error from getImage gives "Error getting image", a panic closes the connection, and an image is served exactly when its file exists and reads, else "Error reading image"; the bytes served are those of the resolved file, which exists |
| Router.Handle | src/main.go:98-147 | the method answers, and leaves the file set, as HandleEffect gives |
| Router.ServeEffect | src/main.go:47-71 | a path with fewer than 4 fragments or without `api` gets 404 "Not found", and one with bad dimensions 404 "Invalid dimensions", both changing nothing; a routed request gets exactly the answer and file set of Handle on the forwarded URL and sizes; a served file is the resolved file of the forwarded URL at the routed size; files are only added |
| Router.ServeHTTP | src/main.go:47-71 | the method answers, and leaves the file set, as ServeEffect gives |
| Router.ServeCachedFile | src/main.go:47-147 | a valid request whose resolved file is cached gets that file, and nothing changes |
| Router.ColdMissNonOkClosesConnection | src/main.go:128-139 | a valid request on a cold cache whose source answers with a status other than 200 ends with the connection closed and nothing written |
| Router.HostCheckedFirst | src/main.go:108-125 | a URL from a host that is not allowed gets 400 whatever its extension, and nothing is fetched |

## Left out

- `main`, `initLogger`, godotenv and the environment reads (src/main.go:20-40, 150) are process set-up. The allow-list text `APP_ALLOWED_HOSTS` is a parameter of Handle.
- slog logging is left out. This includes the `FinalPath` call made only for a debug message on a cache hit (src/main.go:226).
- `http.ListenAndServe` and the writes to the `http.ResponseWriter` are left out. An answer is a `Response` value. The "Error writing image" branch (src/main.go:143-146) is not modelled, because a failed write to the client changes nothing the model observes.
- Network and file I/O are reduced to their success or failure in `World`: `http.Get`, `os.Stat`, `os.Create`, `io.Copy`, and `os.Open`/`io.ReadAll` in `Image.Get`. File contents are not modelled: a served answer is the path whose bytes are sent.
- The MD5 digest of RFC 1321 is a parameter `md5`, any function from a string to 16 bytes.
- `url.Parse` is reduced to whether it accepts the string (the parameter `parses`). `url.String()` and `url.Path` are both taken to be the forwarded path itself.
- The `https://` prefix added before fetching is left out, since the fetch outcome is given by `World`.
- The command lines handed to `/bin/sh` (src/main.go:307, 339) are not built. The external programs are represented only by whether they write their output and whether they exit with status 0.
- `Image.Extension` (src/main.go:183-185) always returns `"png"` and has no caller, so it is not modelled.
- Concurrent requests and races on one cache path are not modelled. Each request is one sequential step on the file set.
- The outcomes of the external steps are independent fields of `World`. The model does not restrict which combinations can happen together.
- Images.FinalPath: requires that the file name has no `%`. Go would print `%!s(MISSING)`-style text for such a name, and that is not modelled. Every key that reaches it passes the extension check, which rules out `%`.
- Pipeline.UpscaleEffect: requires no `%` in the file name, for the reason given under Images.FinalPath.
- Pipeline.UpscaleImage: requires no `%` in the file name, for the reason given under Images.FinalPath.
- Pipeline.DownloadAndUpscaleEffect: requires no `%` in the URL's extension, which keeps `%` out of the key that reaches FinalPath. Handle guarantees this before it calls getImage.
- Pipeline.DownloadAndUpscaleCheckedEffect: requires no `%` in the URL's extension, as DownloadAndUpscaleEffect does.
- Pipeline.DownloadAndUpscaleImage: requires no `%` in the URL's extension, as DownloadAndUpscaleEffect does.
- Pipeline.GetImageEffect: requires no `%` in the URL's extension, as DownloadAndUpscaleEffect does.
- Pipeline.GetImage: requires no `%` in the URL's extension, as DownloadAndUpscaleEffect does.

## Findings

| source | as written | input that shows it | evidently intended | confidence | as-written member | corrected member |
|---|---|---|---|---|---|---|
| src/main.go:261-264 | on a status other than 200, downloadImage returns `nil, err`, where `err` is the nil error of the successful `http.Get`; downloadAndUpscaleImage sees no error and passes the nil image to upscaleImage, which dereferences it at src/main.go:307, so the handler panics and net/http closes the connection without an answer | a valid request on a cold cache for a URL whose server answers 404 | return an error, so that Handle answers 404 "Error getting image" | not executed | Pipeline.NonOkStatusPanics | Pipeline.CheckedChainNeverPanics |

`Pipeline.DownloadAndUpscaleEffect` keeps the behaviour of the code, and
`Pipeline.GetImage` and `Router.Handle` use it, so the rest of the model
describes the program as it runs. `Pipeline.DownloadAndUpscaleCheckedEffect`
is the corrected chain. `Pipeline.CheckedChainNeverPanics` proves that it
reports the non-200 status as an error and otherwise agrees with the code.
