/**
 * The URL cache: for each downloaded URL, the local file it was saved to,
 * the file's SHA-256 and the application version that stored it. A file
 * path belongs to at most one URL.
 */
module UrlCache {

  /** A cache entry, the JSON array [path, sha256, version]; entries written before versioning have no version. */
  datatype Entry = Entry(path: string, sha256: string, version: VersionField)

  datatype VersionField = NoVersion | Version(name: string)

  /** No two URLs share a file path. */
  predicate PathsUnique(cache: map<string, Entry>)
  {
    forall u, v :: u in cache && v in cache && u != v ==> cache[u].path != cache[v].path
  }

  /** The cache without the entries saved to `path`. */
  function WithoutPath(cache: map<string, Entry>, path: string): (r: map<string, Entry>)
    ensures forall u :: u in r <==> u in cache && cache[u].path != path
    ensures forall u :: u in r ==> r[u] == cache[u]
  {
    map u | u in cache && cache[u].path != path :: cache[u]
  }

  /**
   * `AddUrlToCache` as a specification: every entry for the path goes, and
   * the new entry is added when the file could be hashed.
   */
  function AddedEntry(cache: map<string, Entry>, url: string, path: string, sha256: string,
                      withVersion: bool, appVersion: string): map<string, Entry>
  {
    var cleaned := WithoutPath(cache, path);
    if sha256 == "" then cleaned
    else cleaned[url := Entry(path, sha256, Version(if withVersion then appVersion else ""))]
  }

  /**
   * Adding keeps file paths unique: afterwards the path belongs to the new
   * URL alone, or to no URL when the file could not be hashed.
   */
  lemma AddKeepsPathsUnique(cache: map<string, Entry>, url: string, path: string, sha256: string,
                            withVersion: bool, appVersion: string)
    requires PathsUnique(cache)
    ensures var r := AddedEntry(cache, url, path, sha256, withVersion, appVersion);
      PathsUnique(r) &&
      (forall u :: u in r && r[u].path == path ==> u == url && sha256 != "") &&
      (sha256 != "" ==> url in r && r[url] == Entry(path, sha256, Version(if withVersion then appVersion else "")))
  {
  }

  /** Other URLs keep their entries unless they were saved to the same path. */
  lemma AddKeepsOtherPaths(cache: map<string, Entry>, url: string, path: string, sha256: string,
                           withVersion: bool, appVersion: string, other: string)
    requires other != url && other in cache && cache[other].path != path
    ensures var r := AddedEntry(cache, url, path, sha256, withVersion, appVersion);
      other in r && r[other] == cache[other]
  {
  }

  /**
   * Which URLs are cached after an add: the added URL exactly when its file
   * could be hashed or it was already cached under another path, and no
   * other URL that was saved to the same path.
   */
  lemma AddedUrlInCache(cache: map<string, Entry>, url: string, path: string, sha256: string,
                        withVersion: bool, appVersion: string, other: string)
    ensures var r := AddedEntry(cache, url, path, sha256, withVersion, appVersion);
      url in r <==> sha256 != "" || (url in cache && cache[url].path != path)
    ensures other != url && other in cache && cache[other].path == path ==>
      other !in AddedEntry(cache, url, path, sha256, withVersion, appVersion)
  {
  }

  /**
   * `ValidateFile` as a specification: the URL is cached, the file's hash
   * (empty when it could not be computed) matches the stored one, and,
   * when asked, the stored version is this application's.
   */
  function IsValid(cache: map<string, Entry>, url: string, fileSha256: string, checkVersion: bool, appVersion: string): bool
  {
    url in cache && fileSha256 != "" && cache[url].sha256 == fileSha256 &&
    (checkVersion ==> cache[url].version == Version(appVersion))
  }

  /** A file just added with a version validates against the same hash, with or without the version check. */
  lemma AddedFileValidates(cache: map<string, Entry>, url: string, path: string, sha256: string,
                           appVersion: string, checkVersion: bool)
    requires sha256 != ""
    ensures IsValid(AddedEntry(cache, url, path, sha256, true, appVersion), url, sha256, checkVersion, appVersion)
  {
  }

  /** An entry added without a version fails the version check unless the application version is empty. */
  lemma UnversionedFailsVersionCheck(cache: map<string, Entry>, url: string, path: string, sha256: string,
                                     appVersion: string, fileSha256: string)
    requires sha256 != "" && appVersion != ""
    ensures !IsValid(AddedEntry(cache, url, path, sha256, false, appVersion), url, fileSha256, true, appVersion)
  {
  }

  class UrlCacheManager {
    var cache: map<string, Entry>
    /** The application version, fixed at build time. */
    const appVersion: string

    constructor(loaded: map<string, Entry>, appVersion: string)
      ensures cache == loaded && this.appVersion == appVersion
    {
      cache := loaded;
      this.appVersion := appVersion;
    }

    /**
     * `IsUrlInCache`: whether the URL has an entry. Only a cached URL can
     * validate, and a cached URL with a stored hash validates against that
     * hash when the version is not checked.
     */
    predicate IsUrlInCache(url: string): (ok: bool)
      reads this
      ensures !ok ==> forall h, check :: !IsValid(cache, url, h, check, appVersion)
      ensures ok ==> url in cache && (cache[url].sha256 != "" ==> IsValid(cache, url, cache[url].sha256, false, appVersion))
    {
      url in cache
    }

    /** `GetFilePathFromCache`: the stored path, or "" for a URL not in the cache. */
    function GetFilePathFromCache(url: string): (r: string)
      reads this
      ensures url !in cache ==> r == ""
      ensures url in cache ==> r == cache[url].path
    {
      if IsUrlInCache(url) then cache[url].path else ""
    }

    /** `ValidateFile`; `fileSha256` stands for the hash computed from the file, "" when that fails. */
    method ValidateFile(url: string, fileSha256: string, checkVersion: bool) returns (isValid: bool)
      ensures isValid == IsValid(cache, url, fileSha256, checkVersion, appVersion)
    {
      isValid := false;
      if IsUrlInCache(url) {
        if fileSha256 != "" {
          isValid := cache[url].sha256 == fileSha256;
        }
        if isValid && checkVersion {
          match cache[url].version
          case NoVersion =>
            isValid := false;
          case Version(v) =>
            isValid := v == appVersion;
        }
      }
    }

    /**
     * `AddUrlToCache`: the erase-while-iterating loop over the entries,
     * then the insertion when the file's hash (`sha256`) is not empty.
     */
    method AddUrlToCache(url: string, filePath: string, withVersion: bool, sha256: string)
      modifies this`cache
      ensures cache == AddedEntry(old(cache), url, filePath, sha256, withVersion, appVersion)
      ensures PathsUnique(old(cache)) ==> PathsUnique(cache)
      ensures IsUrlInCache(url) <==> sha256 != "" || (url in old(cache) && old(cache)[url].path != filePath)
    {
      ghost var original := cache;
      var pending := cache.Keys;
      while pending != {}
        invariant pending <= original.Keys
        invariant forall u :: u in cache <==> u in original && (u in pending || original[u].path != filePath)
        invariant forall u :: u in cache ==> cache[u] == original[u]
        decreases pending
      {
        var u :| u in pending;
        if cache[u].path == filePath {
          cache := cache - {u};
        }
        pending := pending - {u};
      }
      assert cache == WithoutPath(original, filePath);
      if sha256 != "" {
        cache := cache[url := Entry(filePath, sha256, Version(if withVersion then appVersion else ""))];
      }
      if PathsUnique(original) {
        AddKeepsPathsUnique(original, url, filePath, sha256, withVersion, appVersion);
      }
    }

    /** `ClearCache`: empties the cache and gives the file paths whose files it deletes. */
    method ClearCache() returns (removed: set<string>)
      modifies this`cache
      ensures removed == set u | u in old(cache) :: old(cache)[u].path
      ensures cache == map[]
    {
      removed := set u | u in cache :: cache[u].path;
      cache := map[];
    }
  }
}
