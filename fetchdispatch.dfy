// NewConfigFetcher of the remote fetcher (pkg/remotefetcher/configfetcher.go):
// prefix dispatch, fetch-error mapping and cache consultation.
module FetchDispatch {
  import opened Wrappers
  import opened Strs
  import opened Platform
  import opened FetchCache
  import opened FetchOptions
  import opened FetchS3
  import ConfigFetcher

  /** What NewConfigFetcher hands back: a local fetcher, or the fetched bytes and their cache entry. */
  datatype Fetcher = Local | Cached(data: string, path: string, dataType: string)

  /** The outcomes of the calls NewConfigFetcher makes outside the cache's store. */
  datatype World = World(
    httpGet: string -> Result<string>,         // HTTPFetcher.Fetch
    s3Default: Option<string>,                 // error of config.LoadDefaultConfig, if any
    getObject: (string, string) -> GetObject,  // S3Client.GetObject
    contentHash: string -> string,             // hex sha256 of the fetched data
    hashURL: string -> string,                 // HashURL
    paths: PathOps,
    readFile: string -> Option<string>,        // os.ReadFile of a cached file
    writeDataOk: bool,                         // os.WriteFile of the data file succeeds
    writeCacheOk: bool)                        // os.WriteFile of the cache file succeeds

  /** isFileNotFoundError */
  predicate IsFileNotFoundError(msg: string)
  {
    Contains(msg, "file not found")
  }

  /** The error NewConfigFetcher returns for a failed fetch. */
  function FetchFailure(msg: string, ignore: bool): (r: string)
    ensures ignore && IsFileNotFoundError(msg) ==> r == ErrFileNotFound
    ensures !(ignore && IsFileNotFoundError(msg)) ==> r == msg
  {
    if ignore && IsFileNotFoundError(msg) then ErrFileNotFound else msg
  }

  /** ErrFileNotFound passes through the mapping unchanged, whatever the option. */
  lemma NotFoundStable(ignore: bool)
    ensures IsFileNotFoundError(ErrFileNotFound)
    ensures FetchFailure(ErrFileNotFound, ignore) == ErrFileNotFound
  {
    assert ErrFileNotFound == "remotefetcher: " + "file not found" + "";
    ContainsPrefix("file not found", "remotefetcher: ", "");
  }

  /** With the ignore option, a missing S3 key surfaces as ErrFileNotFound. */
  lemma S3MissingKeyIgnored(source: string, getObject: (string, string) -> GetObject)
    requires '/' in source
    requires getObject(ParseS3Source(source).value.0, ParseS3Source(source).value.1).NoSuchKey?
    ensures Fetch(source, true, getObject) == Err(ErrFileNotFound)
    ensures FetchFailure(Fetch(source, true, getObject).msg, true) == ErrFileNotFound
  {
    NotFoundStable(true);
  }

  /** The data the selected fetcher returns. */
  function Fetched(kind: ConfigFetcher.Kind, source: string, cfg: Config, w: World): Result<string>
  {
    if kind == ConfigFetcher.S3Fetcher then Fetch(source, cfg.ignoreFileNotFound, w.getObject)
    else w.httpGet(source)
  }

  /**
   * NewConfigFetcher: local sources are returned at once; remote data is
   * fetched, looked up by its content hash, and stored with Set on a miss.
   */
  method NewConfigFetcher(source: string, cache: Cache, options: seq<FetcherOption>, w: World)
    returns (r: Result<Fetcher>)
    modifies cache
    ensures var kind := ConfigFetcher.NewConfigFetcher(source);
      var cfg := Configure(Empty, options);
      var untouched := cache.store == old(cache.store) && cache.saved == old(cache.saved);
      var data := Fetched(kind, source, cfg, w);
      (kind == ConfigFetcher.LocalFetcher ==> r == Ok(Local) && untouched)
      && (kind == ConfigFetcher.S3Fetcher && cfg.s3Client.None? && w.s3Default.Some? ==>
            r == Err(w.s3Default.value) && untouched)
      && (kind != ConfigFetcher.LocalFetcher && !(kind == ConfigFetcher.S3Fetcher && cfg.s3Client.None? && w.s3Default.Some?) ==>
            (data.Err? ==> r == Err(FetchFailure(data.msg, cfg.ignoreFileNotFound)) && untouched)
            && (data.Ok? ==>
                  var hit := old(cache.Get(w.contentHash(data.value), w.readFile));
                  (hit.Hit? ==> r == Ok(Cached(hit.data, hit.meta.path, hit.meta.dataType)) && untouched)
                  && (hit.Miss? && w.writeDataOk ==>
                        cache.store == old(cache.store)[w.hashURL(source) :=
                          old(cache.NewEntry(source, w.contentHash(data.value), "yaml", w.hashURL, w.paths))])
                  && (hit.Miss? && !w.writeDataOk ==> r.Err? && untouched)
                  && (hit.Miss? ==> (r.Ok? <==> w.writeDataOk && w.writeCacheOk))
                  && (hit.Miss? && r.Ok? ==>
                        r.value == Cached(data.value, old(cache.NewEntry(source, w.contentHash(data.value), "yaml", w.hashURL, w.paths)).path, "yaml"))))
  {
    var config := new FetcherConfig();
    config.ApplyAll(options);
    var kind := ConfigFetcher.NewConfigFetcher(source);
    if kind == ConfigFetcher.LocalFetcher {
      return Ok(Local);
    }
    if kind == ConfigFetcher.S3Fetcher && config.s3Client.None? && w.s3Default.Some? {
      return Err(w.s3Default.value);
    }
    var data := Fetched(kind, source, config.Snapshot(), w);
    if data.Err? {
      return Err(FetchFailure(data.msg, config.ignoreFileNotFound));
    }
    var hash := w.contentHash(data.value);
    var hit := cache.Get(hash, w.readFile);
    if hit.Hit? {
      return Ok(Cached(hit.data, hit.meta.path, hit.meta.dataType));
    }
    var stored := cache.Set(source, hash, "yaml", w.hashURL, w.paths, w.writeDataOk, w.writeCacheOk);
    if stored.Err? {
      return Err(stored.msg);
    }
    return Ok(Cached(data.value, stored.value.path, stored.value.dataType));
  }
}
