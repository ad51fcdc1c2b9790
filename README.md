# mojo-ghost-s3-adapter, modelled in Dafny

`MojoGhostS3Adapter` (`index.js`) is a Ghost storage adapter that keeps
uploaded images in an S3 bucket. Almost everything it does is a call into
the AWS SDK, `https`, streams or promises. This project models the part it
decides for itself:

- **Construction.** The adapter checks the config in a fixed order: first
  the config and its bucket, then the region, then both credentials. The
  first check that fails decides the error. On success the adapter stores
  the config and derives two values. The asset host is
  `config.assetHost` when the misspelt `config.asssetHost` is truthy (see
  below), and the bucket's default S3 URL otherwise. The image
  cache max-age is `1000 * 365 * 24 * 60 * 60`.
- **Save.** The object key is the folder, if one is configured, then the
  year, the 0-based month (`getMonth()`), the day and the base name of the
  original file name. The `putObject` parameters are the ACL
  `public-read`, the bucket, the key, the content type and the
  `Cache-Control` value. The settled result is `assetHost + "/" + key`
  when the put succeeds, and the put's own error when it fails. The
  `targetDir` argument is ignored.
- **Serve.** The middleware computes the object key from the request path
  by removing at most one leading and at most one trailing `/`.
- **`exists`, `delete`, `read`.** `exists` is true exactly when the status
  code is 200. `delete` and `read` always reject with `not implemented`.

Modules:

- `Wrappers`: `Option` (a property that may be undefined) and `Result`
  (a settled promise).
- `Decimal`: how JavaScript writes an integer as text, with its inverse.
- `NodePath`: the parts of Node's POSIX `path` the adapter uses. That is
  `path.join` of two arguments, the base name, and `path.parse`'s
  `name + ext`.
- `ObjectKey`: the date-partitioned key and `ParseKey`, its inverse.
  `ParseKey` exists only to state round trips; the adapter has no such
  function.
- `MojoGhostS3Adapter`: the config, its checks, the asset host, the serve
  key and `S3Adapter`. `S3Adapter` is a class whose constant fields are the
  ones the constructor assigns (`config`, `assetHost`,
  `imageCacheMaxAge`). `S3Adapter.Create` is the JavaScript constructor,
  including its early exits. Its other members are functions, because the
  corresponding JavaScript methods read the fields and never change them.

The outcome of `putObject` and the status code of the `exists` probe are
inputs. So is the save date: year, 0-based month and day, as `Date`
reports them.

## Where the code does not do what it evidently intends (the model follows the code)

- **A failed check does not reject with its message.** Each failed check
  calls `reject(...)` (index.js:19, 23, 27), but no `reject` is in scope
  there. Construction therefore throws a ReferenceError, not the intended
  message. The model reports the intended message as the failure payload.
- **Setting `assetHost` alone does not override the host.** The override
  test reads `config.asssetHost`, with three s's, and then uses
  `config.assetHost` (index.js:31). The misspelt property is read nowhere
  else, so the test was evidently meant to read `assetHost`. In the code,
  setting `assetHost` alone is ignored: `OverrideNeedsMisspeltProperty`. If
  only `asssetHost` is set, every URL starts with `undefined/`:
  `MisspeltPropertyAlone`. `CdnExample` shows an override that works, which
  needs both spellings to be set. `IntendedAssetHost` is the corrected test.
- **The cache lifetime is 1000 times the stated one.** The comment
  `// 365 days` (index.js:32) sits next to `1000 * 365 * 24 * 60 * 60`,
  which is 365 days in milliseconds. HTTP's `max-age` counts seconds, so
  365 days would be 31536000. The code sends `max-age=31536000000`
  (index.js:32, 71), about 1000 years: `CacheControlText`. `IntendedMaxAge`
  is the lifetime in seconds: `IntendedCacheControlText`.

## Findings

Both rows follow from the source text alone; the adapter model itself keeps the code as written.

| source | as written | input that shows it | evidently intended | confidence | as-written member | corrected member |
|---|---|---|---|---|---|---|
| index.js:31 | The override test reads `config.asssetHost` (three s's), so `assetHost` alone is ignored | `assetHost: "https://cdn.example.com"` with no `asssetHost` gives the default S3 URL | test `config.assetHost`, so that setting it overrides the default | not executed | `MojoGhostS3Adapter.OverrideNeedsMisspeltProperty`, `MojoGhostS3Adapter.AssetHostAloneExample` | `MojoGhostS3Adapter.IntendedAssetHost`, `MojoGhostS3Adapter.IntendedOverrideAlone` |
| index.js:32, 71 | `1000 * 365 * 24 * 60 * 60` is 365 days in milliseconds, but `max-age` counts seconds | every save sends `max-age=31536000000`, about 1000 years | 365 days in seconds, `max-age=31536000` | not executed | `MojoGhostS3Adapter.CacheControlText` | `MojoGhostS3Adapter.IntendedCacheControlText` |

## Model

| member | source | states |
|---|---|---|
| `MojoGhostS3Adapter.ConfigError` | index.js:18-28 | The bucket error is reported exactly when the config is absent or its bucket is empty, whatever else is missing. The region error is reported exactly when the bucket is set and the region is empty. The credentials error is reported exactly when bucket and region are set and either credential is empty. Otherwise the config is accepted. |
| `MojoGhostS3Adapter.OnlyRequiredFieldsChecked` | index.js:18-28 | Two configs that agree on bucket, region and both credentials get the same verdict: no other property is validated. |
| `MojoGhostS3Adapter.S3Adapter.Create` | index.js:15-39 | Construction fails exactly when a check fails, and with that check's message. On success it yields a new adapter that holds the given config and the derived asset host and max-age. |
| `MojoGhostS3Adapter.S3Adapter.constructor` | index.js:30-32 | The field assignments after the checks: the config, the asset host chosen as in AssetHost, and the max-age constant. |
| `MojoGhostS3Adapter.AssetHost` | index.js:31 | If `asssetHost` (sic) is truthy, the host is `config.assetHost`, possibly undefined. Otherwise it is `https://s3.<region>.amazonaws.com/<bucket>`. |
| `MojoGhostS3Adapter.OverrideNeedsMisspeltProperty` | index.js:31 | For an accepted config without a truthy `asssetHost`, the host is the default S3 URL whatever `assetHost` holds. |
| `MojoGhostS3Adapter.MisspeltPropertyAlone` | index.js:31 | If `asssetHost` is set and `assetHost` is undefined, every saved URL starts with `undefined/`. |
| `MojoGhostS3Adapter.IntendedAssetHost` | index.js:31 | The override test as evidently intended: a truthy `assetHost` is the host, otherwise the default S3 URL. |
| `MojoGhostS3Adapter.IntendedOverrideAlone` | index.js:31 | For an accepted config that sets only `assetHost`, the intended test uses it. The code as written agrees only when it equals the default URL. |
| `MojoGhostS3Adapter.BothSpellingsAgree` | index.js:31 | When both spellings hold the same value, the code and the intended test choose the same host. |
| `MojoGhostS3Adapter.AssetHostAloneExample` | index.js:31 | A config with only `assetHost` = `https://cdn.example.com` gets the default S3 URL from the code, and the CDN host from the intended test. |
| `MojoGhostS3Adapter.CacheControlText` | index.js:32 | The max-age is 31536000000, and the Cache-Control value is exactly `max-age=31536000000`. |
| `MojoGhostS3Adapter.IntendedCacheControlText` | index.js:32 | The stored max-age is 1000 times 365 days in seconds (31536000). With that lifetime the header would be `max-age=31536000`. |
| `MojoGhostS3Adapter.CacheControl` | index.js:71 | `'max-age=' + cacheMaxAge`: the value is `max-age=` followed by text that reads back as the max-age. |
| `Decimal.IntToStringInverse` | index.js:58 | The text `util.format` writes for an integer reads back as that integer, so the date pieces of a key identify the date. |
| `NodePath.Join` | index.js:61 | `path.join` of two arguments: an empty argument is skipped, and two empty ones give `.`. Otherwise the result's pieces are the first argument's followed by the second's, and the result is again in normal form. |
| `NodePath.BaseName` | index.js:59 | The base name has no `/`. It is the end of the path with trailing `/`s removed, and it is preceded by a `/` unless it is all of that path. |
| `NodePath.ParseBase` | index.js:59-60 | `path.parse`'s `name` and `ext` put back together give the base name. The extension is empty or starts at the last `.`, and has no extension when the dot is the first character or the base name is `..`. |
| `NodePath.NameWithExt` | index.js:59-60 | `name + ext` is the base name of the original file name. |
| `MojoGhostS3Adapter.S3Adapter.Folder` | index.js:58 | `config.folder || ''`: a truthy folder is used as it is. The folder is empty exactly when the config's folder is undefined or empty, and then it contributes no piece to the key. |
| `ObjectKey.DatePath` | index.js:58 | The date folder's pieces are the year, the 0-based month and the day, written as numbers. It is a relative normal path. |
| `ObjectKey.TargetKey` | index.js:58-61 | The key's pieces are the folder's pieces (none for an empty folder), then year, month and day, then the base name (none if it is empty). The key is in normal form. |
| `ObjectKey.ParseTargetKey` | index.js:58-61 | For a non-empty base name, reading a key back gives exactly the folder, the date and the base name it was made from. |
| `ObjectKey.KeyDeterminesUpload` | index.js:58-61 | Two uploads into one folder get the same key if and only if they have the same date and the same base name. |
| `ObjectKey.KeyMonthZeroBased` | index.js:58 | For a real calendar date, the piece after the year in every key reads as the 0-based month, a number from 0 to 11. With a non-empty base name, `ParseKey` reports that month. |
| `ObjectKey.KeyHasNoOuterSeps` | index.js:58-61 | With a relative or empty folder, the key is non-empty and neither starts nor ends with `/`. |
| `ObjectKey.MarchSeventhKey` | index.js:58-61 | `photo.png` saved on 7 March 2024 without a folder gets the key `2024/2/7/photo.png`. |
| `MojoGhostS3Adapter.S3Adapter.PutParams` | index.js:65-72 | `putObject` receives the ACL `public-read`, the configured bucket, the upload's key (pieces as in TargetKey), the image's content type and `max-age=31536000000`. |
| `MojoGhostS3Adapter.S3Adapter.Save` | index.js:49-81 | A put error rejects `save` with that same error, unmodified. A successful put resolves `save` with the asset host, a `/`, and then text whose pieces are folder, year, month, day and base name. |
| `MojoGhostS3Adapter.SavedUrlRoundTrip` | index.js:79 | For a non-empty base name, after the asset host and `/`, a saved URL reads back as the folder, the date and the base name of the upload. |
| `MojoGhostS3Adapter.DefaultHostUrl` | index.js:79 | Without a truthy `asssetHost`, whatever `assetHost` holds, the URL is `https://s3.<region>.amazonaws.com/<bucket>/<key>`. |
| `MojoGhostS3Adapter.SaveIgnoresTargetDir` | index.js:49-61 | The outcome of `save` is the same for every `targetDir`. |
| `MojoGhostS3Adapter.SameKeyIffSameDayAndName` | index.js:54-61 | Keys are not content-addressed. Two uploads share a key, and so overwrite each other, exactly when they have the same day and the same base name. |
| `MojoGhostS3Adapter.CdnExample` | index.js:79 | With the override `https://cdn.example.com` under both spellings and no folder, `photo.png` saved on 7 March 2024 resolves to `https://cdn.example.com/2024/2/7/photo.png`. |
| `MojoGhostS3Adapter.ServeKey` | index.js:94 | The key is the request path without at most one leading `/` and at most one trailing `/`. A leading `/` is removed exactly when present. A trailing `/` is removed exactly when one follows that point. Everything between is kept as it is. |
| `MojoGhostS3Adapter.ServeKeyOfRoot` | index.js:94 | The path `/` is served from the empty key. |
| `MojoGhostS3Adapter.ServeKeyStripsBothEnds` | index.js:94 | `"/" + k + "/"` is served from `k`, for every `k`. |
| `MojoGhostS3Adapter.ServeKeyOfBareKey` | index.js:94 | A path with no `/` at either end is its own key. |
| `MojoGhostS3Adapter.S3Adapter.ServeParams` | index.js:92-95 | `getObject` receives the configured bucket and the serve key of the request path. |
| `MojoGhostS3Adapter.ServeFindsSavedUpload` | index.js:94 | For every folder, relative or absolute, requesting `/` followed by an upload's key fetches exactly the bucket and key that `save` put. |
| `MojoGhostS3Adapter.S3Adapter.Exists` | index.js:44 | `exists` resolves true if and only if the status code is exactly 200. |
| `MojoGhostS3Adapter.S3Adapter.Delete` | index.js:111-113 | `delete` always rejects with `not implemented`. |
| `MojoGhostS3Adapter.S3Adapter.Read` | index.js:115-117 | `read` always rejects with `not implemented`. |

## Left out

- The S3 client (index.js:33-38) is not modelled: neither its construction nor the injected `s3Client`. These are SDK objects.
- The calls `putObject` and `getObject` and the file stream from `fs.createReadStream` (index.js:57, 73, 97, 101) are left out. They are foreign I/O. Only the parameters they receive are modelled, and the put's outcome is an input.
- The serve middleware's event handling is left out: forwarding the `httpHeaders`, answering 404 and calling `next()` on a stream error, and `pipe(res)` (index.js:98-107). This is host-framework plumbing driven by callbacks.
- `https.get` in `exists` (index.js:43) is a network call, so the status code is an input. The missing error handler on that call is not modelled.
- `console.log`, the bluebird promise machinery and the `BaseAdapter` base class are left out. They are logging and host plumbing.
- The wall clock `new Date()` (index.js:54) is replaced by the date as input: year, 0-based month and day in the process's local time zone.
- A failed check throws a ReferenceError for the undefined `reject` at run time. The model reports the intended message instead.
- Config properties are modelled as strings or undefined. lodash `isEmpty` and truthiness on other JavaScript values (numbers, objects) are not modelled.
- `Decimal.IntToString`: covers integers only. JavaScript's exponent notation for numbers of 1e21 or more is not modelled. Years and the max-age are far below that.
- `NodePath.Join`: covers only arguments whose concatenation is already normal. The rest of `path.normalize` is left out: collapsing `//` and resolving `.` and `..`. The precondition also excludes a first argument ending in `/`. Node keeps a trailing `/` when normalizing, but in `join(folder + "/", datePath)` the doubled `/` collapses. A folder such as `images/` therefore gives the same key as `images`. Windows path semantics are left out too.
- `ObjectKey.TargetKey`: requires a folder that is empty or in normal form, and a base name other than `.` and `..`. For other inputs Node would rewrite the key, and that rewriting is not modelled.
- `MojoGhostS3Adapter.S3Adapter.Save`: requires `CanSave`, which is the same restriction on the configured folder and the original file name.
