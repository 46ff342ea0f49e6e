/** `CacheContextValue` (`src/CacheContext.js`): the manager the image components
    share and a `#loaded` map from url to cached path that nothing ever writes. */
module CacheContext {
  import opened Common
  import PathUtils
  import opened CacheOptions
  import CacheEngine
  import FsUtils
  import MemoryCacheIndex

  /** `getCached(url)` against the map `loaded`. */
  function GetCachedOn(loaded: map<string, string>, url: JsValue): (r: Result<Option<string>>)
    ensures url.NonString? <==> r == Err(Thrown("url argument must be string"))
    ensures url.Str? ==> (r == Ok(None) <==> url.s !in loaded)
    ensures url.Str? && url.s in loaded ==> r == Ok(Some(loaded[url.s]))
  {
    if url.NonString? then Err(Thrown("url argument must be string"))
    else if url.s in loaded then Ok(Some(loaded[url.s]))
    else Ok(None)
  }

  /** `setCached(url, cachedPath)`: the url is checked first, then the path; a valid call
      reads the map and returns what is there. */
  function SetCachedOn(loaded: map<string, string>, url: JsValue, cachedPath: JsValue): (r: Result<Option<string>>)
    ensures url.NonString? ==> r == Err(Thrown("url argument must be string"))
    ensures url.Str? && cachedPath.NonString? ==> r == Err(Thrown("cachedPath argument must be string"))
  {
    if url.NonString? then Err(Thrown("url argument must be string"))
    else if cachedPath.NonString? then Err(Thrown("cachedPath argument must be string"))
    else GetCachedOn(loaded, url)
  }

  /** `setCached` records nothing: with valid arguments it answers exactly what
      `getCached` answers, so the path it was given is returned only when it was
      already there. */
  lemma SetCachedRecordsNothing(loaded: map<string, string>, url: string, cachedPath: string)
    ensures SetCachedOn(loaded, Str(url), Str(cachedPath)) == GetCachedOn(loaded, Str(url))
    ensures SetCachedOn(loaded, Str(url), Str(cachedPath)) == Ok(Some(cachedPath)) <==> url in loaded && loaded[url] == cachedPath
  {
  }

  class CacheContextValue {
    const manager: CacheEngine.CacheManager
    var loaded: map<string, string>

    /** `manager ?? new CacheManager()`; the new manager works on the shared file system
        and index with no options of its own. */
    constructor (given: Option<CacheEngine.CacheManager>, fs: FsUtils.WrapperFS, cache: MemoryCacheIndex.MemoryCache,
                 foreign: PathUtils.Foreign, cachesDirectoryPath: string)
      ensures given.Some? ==> manager == given.value
      ensures given.None? ==>
        && fresh(manager) && manager.fs == fs && manager.cache == cache
        && manager.options == Over(DefaultOptions(cachesDirectoryPath, false), NoOptions)
      ensures loaded == map[]
    {
      if given.Some? {
        manager := given.value;
      } else {
        manager := new CacheEngine.CacheManager(fs, cache, foreign, cachesDirectoryPath, NoOptions);
      }
      loaded := map[];
    }

    method GetCached(url: JsValue) returns (r: Result<Option<string>>)
      ensures r == GetCachedOn(loaded, url)
      ensures url.Str? && loaded == map[] ==> r == Ok(None)
    {
      if url.NonString? {
        return Err(Thrown("url argument must be string"));
      }
      if url.s in loaded {
        r := Ok(Some(loaded[url.s]));
      } else {
        r := Ok(None);
      }
    }

    method SetCached(url: JsValue, cachedPath: JsValue) returns (r: Result<Option<string>>)
      ensures r == SetCachedOn(loaded, url, cachedPath)
    {
      if url.Str? {
        if cachedPath.Str? {
          r := GetCached(url);
          return;
        }
        return Err(Thrown("cachedPath argument must be string"));
      }
      r := Err(Thrown("url argument must be string"));
    }
  }
}
