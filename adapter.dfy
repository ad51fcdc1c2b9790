/**
 * MojoGhostS3Adapter: a storage adapter that keeps uploaded images in an S3
 * bucket. The model keeps what the adapter decides by itself: which
 * configurations it accepts, the asset host and cache lifetime it derives,
 * the key and URL of an upload, the key a proxied request is served from,
 * and the outcomes of `exists`, `delete` and `read`. The SDK calls
 * themselves are represented by the parameters they receive and by their
 * outcomes, which are inputs here.
 */
module MojoGhostS3Adapter {
  import opened Wrappers
  import opened Decimal
  import opened NodePath
  import opened ObjectKey

  /**
   * The `config` object the host passes to the constructor. Every property
   * may be undefined (None). `asssetHost`, with three s's, is the property
   * the constructor tests before it uses `assetHost` as an override.
   */
  datatype Config = Config(
    bucket: Option<string>,
    region: Option<string>,
    accessKeyId: Option<string>,
    secretAccessKey: Option<string>,
    assetHost: Option<string>,
    asssetHost: Option<string>,
    folder: Option<string>)

  /** The image descriptor the host passes to `save`: temporary path, original file name, MIME type. */
  datatype Image = Image(path: string, originalname: string, contentType: string)

  /** The parameters of `putObject`, without the body stream. */
  datatype PutObjectParams = PutObjectParams(
    acl: string, bucket: string, key: string, contentType: string, cacheControl: string)

  /** The parameters of `getObject`. */
  datatype GetObjectParams = GetObjectParams(bucket: string, key: string)

  const BucketRequired: string := "invalid mojo-ghost-s3-adapter config - bucket is required"
  const RegionRequired: string := "invalid mojo-ghost-s3-adapter config - region is required"
  const CredentialsRequired: string :=
    "invalid mojo-ghost-s3-adapter config - accessKeyId and secretAccessKey are required"
  const NotImplemented: string := "not implemented"
  const PublicRead: string := "public-read"

  /** `1000 * 365 * 24 * 60 * 60`, the value the constructor stores as the image cache max-age. */
  const ImageCacheMaxAge: int := 1000 * 365 * 24 * 60 * 60

  /** 365 days in seconds, the unit of HTTP's `max-age`: the lifetime the `// 365 days` comment names. */
  const IntendedMaxAge: int := 365 * 24 * 60 * 60

  /** lodash `isEmpty` applied to a string property: true for undefined and for "". */
  predicate IsEmpty(v: Option<string>) {
    v.None? || v.value == []
  }

  /** JavaScript truthiness of a string property. */
  predicate Truthy(v: Option<string>) {
    !IsEmpty(v)
  }

  /** `util.format('%s', v)` for a string property: undefined is written as "undefined". */
  function FormatValue(v: Option<string>): (text: string) {
    if v.None? then "undefined" else v.value
  }

  /**
   * The constructor's checks, in order: the config and its bucket, then the
   * region, then both credentials. The first check that fails decides the
   * message; None means every check passed.
   */
  function ConfigError(config: Option<Config>): (e: Option<string>)
    ensures e == Some(BucketRequired) <==> config.None? || IsEmpty(config.value.bucket)
    ensures e == Some(RegionRequired) <==>
      config.Some? && !IsEmpty(config.value.bucket) && IsEmpty(config.value.region)
    ensures e == Some(CredentialsRequired) <==>
      config.Some? && !IsEmpty(config.value.bucket) && !IsEmpty(config.value.region)
      && (IsEmpty(config.value.accessKeyId) || IsEmpty(config.value.secretAccessKey))
    ensures e.None? || e == Some(BucketRequired) || e == Some(RegionRequired) || e == Some(CredentialsRequired)
  {
    if config.None? || IsEmpty(config.value.bucket) then Some(BucketRequired)
    else if IsEmpty(config.value.region) then Some(RegionRequired)
    else if IsEmpty(config.value.accessKeyId) || IsEmpty(config.value.secretAccessKey) then Some(CredentialsRequired)
    else None
  }

  /** `util.format('https://s3.%s.amazonaws.com/%s', region, bucket)`. */
  function DefaultAssetHost(region: string, bucket: string): (host: string) {
    "https://s3." + region + ".amazonaws.com/" + bucket
  }

  /**
   * The asset host the constructor derives: `config.assetHost` when the
   * misspelt `config.asssetHost` is truthy (even if `assetHost` itself is
   * undefined), the bucket's default S3 URL otherwise.
   */
  function AssetHost(config: Config): (host: Option<string>)
    ensures Truthy(config.asssetHost) ==> host == config.assetHost
    ensures !Truthy(config.asssetHost) ==>
      host == Some(DefaultAssetHost(FormatValue(config.region), FormatValue(config.bucket)))
  {
    if Truthy(config.asssetHost) then config.assetHost
    else Some(DefaultAssetHost(FormatValue(config.region), FormatValue(config.bucket)))
  }

  /**
   * The asset host the override test evidently means: `config.assetHost`
   * when `config.assetHost` itself is truthy, the default S3 URL otherwise.
   */
  function IntendedAssetHost(config: Config): (host: Option<string>)
    ensures Truthy(config.assetHost) ==> host == config.assetHost
    ensures !Truthy(config.assetHost) ==>
      host == Some(DefaultAssetHost(FormatValue(config.region), FormatValue(config.bucket)))
  {
    if Truthy(config.assetHost) then config.assetHost
    else Some(DefaultAssetHost(FormatValue(config.region), FormatValue(config.bucket)))
  }

  /**
   * The `Cache-Control` value `'max-age=' + cacheMaxAge`: the prefix
   * "max-age=" followed by text that reads back as the number.
   */
  function CacheControl(maxAge: int): (value: string)
    ensures |value| > 8 && value[..8] == "max-age=" && ParseInt(value[8..]) == Some(maxAge)
  {
    IntToStringInverse(maxAge);
    var value := "max-age=" + IntToString(maxAge);
    assert value[8..] == IntToString(maxAge);
    value
  }

  /**
   * The object key a proxied request is served from:
   * `path.replace(/(^\/)|(\/$)/g, '')`. The first alternative can match only
   * at the start and the second only at the end, and two matches never
   * overlap, so at most one '/' goes from each end ("/" becomes "").
   */
  function ServeKey(reqPath: string): (key: string)
    ensures var lead := if reqPath != [] && reqPath[0] == Sep then 1 else 0;
      var trail := |reqPath| - lead - |key|;
      0 <= trail <= 1
      && key == reqPath[lead..lead + |key|]
      && (trail == 1 <==> |reqPath| > lead && reqPath[|reqPath| - 1] == Sep)
  {
    var rest := if reqPath != [] && reqPath[0] == Sep then reqPath[1..] else reqPath;
    if rest != [] && rest[|rest| - 1] == Sep then rest[..|rest| - 1] else rest
  }

  class S3Adapter {
    const config: Config
    const assetHost: Option<string>
    const imageCacheMaxAge: int

    /** What a constructed adapter holds: a config that passed the checks and the values derived from it. */
    ghost predicate Valid() {
      ConfigError(Some(config)) == None
      && assetHost == AssetHost(config)
      && imageCacheMaxAge == ImageCacheMaxAge
    }

    /** The field assignments that follow the checks of Create. */
    constructor (config: Config)
      requires ConfigError(Some(config)) == None
      ensures this.config == config && Valid()
    {
      this.config := config;
      this.assetHost := if Truthy(config.asssetHost) then config.assetHost
        else Some(DefaultAssetHost(config.region.value, config.bucket.value));
      this.imageCacheMaxAge := 1000 * 365 * 24 * 60 * 60;
    }

    /**
     * `new MojoGhostS3Adapter(config)`: each failed check ends construction
     * with its message; otherwise the fields are set from the config.
     */
    static method Create(config: Option<Config>) returns (r: Result<S3Adapter, string>)
      ensures r.Failure? <==> ConfigError(config).Some?
      ensures r.Failure? ==> ConfigError(config) == Some(r.error)
      ensures r.Success? ==> fresh(r.value) && r.value.Valid() && config == Some(r.value.config)
    {
      if config.None? || IsEmpty(config.value.bucket) {
        return Failure(BucketRequired);
      }
      if IsEmpty(config.value.region) {
        return Failure(RegionRequired);
      }
      if IsEmpty(config.value.accessKeyId) || IsEmpty(config.value.secretAccessKey) {
        return Failure(CredentialsRequired);
      }
      var adapter := new S3Adapter(config.value);
      return Success(adapter);
    }

    /** `config.folder || ''`: an undefined or empty folder gives "", which adds no piece to a key. */
    function Folder(): (folder: string)
      ensures Truthy(config.folder) ==> folder == config.folder.value
      ensures folder == [] <==> IsEmpty(config.folder)
      ensures IsEmpty(config.folder) ==> FolderPieces(folder) == []
    {
      if Truthy(config.folder) then config.folder.value else ""
    }

    /** The uploads whose key `path.join` builds without normalising anything. */
    predicate CanSave(image: Image) {
      FolderOk(Folder()) && NameOk(image.originalname)
    }

    /** The parameters `save` passes to `putObject` for an upload on the given date. */
    function PutParams(image: Image, date: CalendarDate): (p: PutObjectParams)
      requires Valid() && CanSave(image)
      ensures p.acl == PublicRead && Some(p.bucket) == config.bucket && p.contentType == image.contentType
      ensures Split(p.key) == FolderPieces(Folder()) + DatePieces(date) + NamePieces(BaseName(image.originalname))
      ensures p.cacheControl == "max-age=31536000000"
    {
      CacheControlText();
      PutObjectParams(PublicRead, config.bucket.value, TargetKey(Folder(), date, image.originalname),
        image.contentType, CacheControl(imageCacheMaxAge))
    }

    /**
     * The settled `save` promise, given the error `putObject` reported (None
     * on success). `targetDir` is accepted and ignored. On success the URL
     * is the asset host, a '/', and the upload's key.
     */
    function Save<E>(image: Image, targetDir: string, date: CalendarDate, putError: Option<E>): (r: Result<string, E>)
      requires Valid() && CanSave(image)
      ensures putError.Some? ==> r == Failure(putError.value)
      ensures putError.None? ==> (
        r.Success? &&
        var host := FormatValue(assetHost) + [Sep];
        |host| <= |r.value| && r.value[..|host|] == host
        && Split(r.value[|host|..])
           == FolderPieces(Folder()) + DatePieces(date) + NamePieces(BaseName(image.originalname)))
    {
      if putError.Some? then Failure(putError.value)
      else Success(FormatValue(assetHost) + [Sep] + PutParams(image, date).key)
    }

    /** The parameters the serve middleware passes to `getObject` for a request path. */
    function ServeParams(reqPath: string): (p: GetObjectParams)
      requires Valid()
      ensures Some(p.bucket) == config.bucket && p.key == ServeKey(reqPath)
    {
      GetObjectParams(config.bucket.value, ServeKey(reqPath))
    }

    /** `exists` resolves with whether the probe's status code is exactly 200. */
    function Exists(statusCode: int): (found: bool)
      ensures found <==> statusCode == 200
    {
      200 == statusCode
    }

    /** `delete` is not implemented: it always rejects. */
    function Delete(): (r: Result<(), string>)
      ensures r == Failure(NotImplemented)
    {
      Failure(NotImplemented)
    }

    /** `read` is not implemented: it always rejects. */
    function Read(): (r: Result<(), string>)
      ensures r == Failure(NotImplemented)
    {
      Failure(NotImplemented)
    }
  }

  /** The cache lifetime is 31536000000 and its header value is "max-age=31536000000". */
  lemma CacheControlText()
    ensures ImageCacheMaxAge == 31536000000
    ensures CacheControl(ImageCacheMaxAge) == "max-age=31536000000"
  {
    MaxAgeDigits();
  }

  /** With the lifetime in seconds the header would read `max-age=31536000`, 1000 times less. */
  lemma IntendedCacheControlText()
    ensures ImageCacheMaxAge == 1000 * IntendedMaxAge
    ensures IntendedMaxAge == 31536000
    ensures CacheControl(IntendedMaxAge) == "max-age=31536000"
  {
    SecondsDigits();
  }

  lemma SecondsDigits()
    ensures NatToString(31536000) == "31536000"
  {
    assert NatToString(3) == "3";
    assert NatToString(31) == "31";
    assert NatToString(315) == "315";
    assert NatToString(3153) == "3153";
    assert NatToString(31536) == "31536";
    assert NatToString(315360) == "315360";
    assert NatToString(3153600) == "3153600";
  }

  lemma MaxAgeDigits()
    ensures NatToString(31536000000) == "31536000000"
  {
    SecondsDigits();
    assert NatToString(315360000) == "315360000";
    assert NatToString(3153600000) == "3153600000";
  }

  /** The checks read only bucket, region and the two credentials. */
  lemma OnlyRequiredFieldsChecked(c1: Config, c2: Config)
    requires c1.bucket == c2.bucket && c1.region == c2.region
    requires c1.accessKeyId == c2.accessKeyId && c1.secretAccessKey == c2.secretAccessKey
    ensures ConfigError(Some(c1)) == ConfigError(Some(c2))
  {
  }

  /**
   * Without the misspelt `asssetHost`, a configured `assetHost` has no
   * effect: the asset host is the bucket's default S3 URL.
   */
  lemma OverrideNeedsMisspeltProperty(config: Config)
    requires ConfigError(Some(config)) == None && !Truthy(config.asssetHost)
    ensures AssetHost(config) == Some(DefaultAssetHost(config.region.value, config.bucket.value))
  {
  }

  /**
   * With the intended test, setting `assetHost` alone overrides the default
   * host; the code as written agrees with it only when that override
   * happens to equal the default URL.
   */
  lemma IntendedOverrideAlone(config: Config)
    requires ConfigError(Some(config)) == None
    requires Truthy(config.assetHost) && config.asssetHost.None?
    ensures IntendedAssetHost(config) == config.assetHost
    ensures AssetHost(config) == IntendedAssetHost(config)
        <==> config.assetHost.value == DefaultAssetHost(config.region.value, config.bucket.value)
  {
  }

  /** When both spellings hold the same value, the code and the intended test choose the same host. */
  lemma BothSpellingsAgree(config: Config)
    requires config.asssetHost == config.assetHost
    ensures AssetHost(config) == IntendedAssetHost(config)
  {
  }

  /** Example: a config that spells only `assetHost`, resolved by both tests. */
  lemma AssetHostAloneExample()
    ensures var config := Config(Some("media"), Some("eu-west-1"), Some("AKID"), Some("SECRET"),
                                 Some("https://cdn.example.com"), None, None);
      ConfigError(Some(config)) == None
      && AssetHost(config) == Some("https://s3.eu-west-1.amazonaws.com/media")
      && IntendedAssetHost(config) == Some("https://cdn.example.com")
  {
    assert DefaultAssetHost("eu-west-1", "media") == "https://s3.eu-west-1.amazonaws.com/media";
  }

  /** The URL of an upload gives back its folder, date and base name after the asset host. */
  lemma SavedUrlRoundTrip(a: S3Adapter, image: Image, targetDir: string, date: CalendarDate)
    requires a.Valid() && a.CanSave(image) && BaseName(image.originalname) != []
    ensures var host := FormatValue(a.assetHost) + [Sep];
      var url := a.Save<string>(image, targetDir, date, None).value;
      |host| <= |url| && url[..|host|] == host
      && ParseKey(url[|host|..]) == Some(KeyParts(a.Folder(), date, BaseName(image.originalname)))
  {
    var host := FormatValue(a.assetHost) + [Sep];
    var key := a.PutParams(image, date).key;
    assert a.Save<string>(image, targetDir, date, None).value[|host|..] == key;
    ParseTargetKey(a.Folder(), date, image.originalname);
  }

  /** With the default asset host the URL is `https://s3.<region>.amazonaws.com/<bucket>/<key>`. */
  lemma DefaultHostUrl(a: S3Adapter, image: Image, targetDir: string, date: CalendarDate)
    requires a.Valid() && a.CanSave(image) && !Truthy(a.config.asssetHost)
    ensures a.Save<string>(image, targetDir, date, None)
         == Success("https://s3." + a.config.region.value + ".amazonaws.com/"
                    + a.config.bucket.value + "/" + a.PutParams(image, date).key)
  {
  }

  /**
   * When only the misspelt property is set, the asset host is undefined and
   * every URL starts with "undefined/".
   */
  lemma MisspeltPropertyAlone(a: S3Adapter, image: Image, targetDir: string, date: CalendarDate)
    requires a.Valid() && a.CanSave(image)
    requires Truthy(a.config.asssetHost) && a.config.assetHost.None?
    ensures var url := a.Save<string>(image, targetDir, date, None).value;
      |url| >= 10 && url[..10] == "undefined/"
  {
    assert FormatValue(a.assetHost) + [Sep] == "undefined/";
  }

  /** The URL does not depend on the target directory the host asks for. */
  lemma SaveIgnoresTargetDir<E>(a: S3Adapter, image: Image, dir1: string, dir2: string,
                                date: CalendarDate, putError: Option<E>)
    requires a.Valid() && a.CanSave(image)
    ensures a.Save(image, dir1, date, putError) == a.Save(image, dir2, date, putError)
  {
  }

  /**
   * Uploads with the same base name on the same day get the same key, so the
   * later one overwrites the earlier; different days or names never collide.
   */
  lemma SameKeyIffSameDayAndName(a: S3Adapter, i1: Image, d1: CalendarDate, i2: Image, d2: CalendarDate)
    requires a.Valid() && a.CanSave(i1) && a.CanSave(i2)
    ensures a.PutParams(i1, d1).key == a.PutParams(i2, d2).key
        <==> d1 == d2 && BaseName(i1.originalname) == BaseName(i2.originalname)
  {
    KeyDeterminesUpload(a.Folder(), d1, i1.originalname, d2, i2.originalname);
  }

  /**
   * Example: with the override "https://cdn.example.com" (set under both
   * spellings), no folder, and "photo.png" saved on 7 March 2024,
   * the URL is "https://cdn.example.com/2024/2/7/photo.png".
   */
  lemma CdnExample(a: S3Adapter, path: string, contentType: string, targetDir: string)
    requires a.Valid()
    requires a.config.assetHost == Some("https://cdn.example.com")
    requires a.config.asssetHost == Some("https://cdn.example.com")
    requires a.config.folder.None?
    ensures a.Save<string>(Image(path, "photo.png", contentType), targetDir, CalendarDate(2024, 2, 7), None)
         == Success("https://cdn.example.com/2024/2/7/photo.png")
  {
    var image := Image(path, "photo.png", contentType);
    var date := CalendarDate(2024, 2, 7);
    assert a.Folder() == "";
    MarchSeventhKey();
    assert a.PutParams(image, date).key == "2024/2/7/photo.png";
    assert FormatValue(a.assetHost) == "https://cdn.example.com";
    CdnUrlText();
  }

  lemma CdnUrlText()
    ensures "https://cdn.example.com" + [Sep] + "2024/2/7/photo.png" == "https://cdn.example.com/2024/2/7/photo.png"
  {
  }

  /** A request path with a '/' at both ends is served from the key between them. */
  lemma ServeKeyStripsBothEnds(key: string)
    ensures ServeKey([Sep] + key + [Sep]) == key
  {
    assert ([Sep] + key + [Sep])[1..] == key + [Sep];
  }

  /** The root path "/" is served from the empty key. */
  lemma ServeKeyOfRoot()
    ensures ServeKey("/") == ""
  {
  }

  /** A path with no '/' at either end is used as the key unchanged. */
  lemma ServeKeyOfBareKey(key: string)
    requires key == [] || (key[0] != Sep && key[|key| - 1] != Sep)
    ensures ServeKey(key) == key
  {
  }

  /** Requesting "/" + the key of an upload fetches exactly the object that `save` put. */
  lemma ServeFindsSavedUpload(a: S3Adapter, image: Image, date: CalendarDate)
    requires a.Valid() && a.CanSave(image)
    ensures var put := a.PutParams(image, date);
      a.ServeParams([Sep] + put.key) == GetObjectParams(put.bucket, put.key)
  {
    var key := a.PutParams(image, date).key;
    NormalNotEmpty(key);
    ServeKeyOfRootedKey(key);
  }

  /** "/" followed by a non-empty key with no '/' at its end is served from that key. */
  lemma ServeKeyOfRootedKey(key: string)
    requires key != [] && key[|key| - 1] != Sep
    ensures ServeKey([Sep] + key) == key
  {
    assert ([Sep] + key)[1..] == key;
  }
}
