/** The older cache manager (`CacheManager.js`). Unlike the newer one, it fills the
    caller's options object in place with `_.defaults`, treats every failure of the
    lookup as a reason to repopulate, deletes the target before populating, and
    records the index entry without waiting for the populate callback. */
module LegacyCacheEngine {
  import opened Common
  import opened Text
  import PathUtils
  import opened FsUtils
  import opened MemoryCacheIndex
  import opened CacheOptions
  import CacheEngine

  type World = CacheEngine.World

  /** The callback `downloadAndCacheUrl` or `seedAndCacheUrl` passes. */
  datatype Callback = DownloadCallback | SeedCallback(seedPath: string)

  /** `isCacheable`. */
  predicate IsCacheable(url: JsValue) {
    url.Str? && (StartsWith(Lower(url.s), "http://") || StartsWith(Lower(url.s), "https://"))
  }

  /** The older test is the newer one. */
  lemma SameCacheableTest(url: JsValue)
    ensures IsCacheable(url) <==> CacheEngine.IsCacheable(url)
  {
  }

  function Defaults(cachesDirectoryPath: string): Options {
    DefaultOptions(cachesDirectoryPath, true)
  }

  /** What the callback does: the download reads `options.headers` after the defaults
      were filled in, so it always has headers. */
  function PopulatorOf(cb: Callback, o: Options): CacheEngine.Populator {
    match cb
    case DownloadCallback => CacheEngine.Download(Some(o.headers))
    case SeedCallback(s) => CacheEngine.Seed(s)
  }

  /** The `catch` block: delete the target, start populate without awaiting it (its
      effects happen, its outcome is dropped), record the entry, return the path. */
  function RepopulateOn(f: PathUtils.Foreign, w: World, url: string, c: string, o: Options, cb: Callback, mkdir: MkdirOutcome): (Result<string>, World) {
    var rel := PathUtils.GetImageRelativeFilePath(f, c);
    var target := o.cacheLocation + "/" + rel;
    var (d, disk') := DeleteFileOn(w.disk, target);
    if d.Err? then (Err(d.error), w.(disk := disk'))
    else
      var w2 := CacheEngine.PopulateOn(w.(disk := disk'), url, target, PopulatorOf(cb, o), mkdir).1;
      (Ok(target), w2.(index := w2.index[c := Entry(rel, o.ttl)]))
  }

  /** `cacheUrl(url, options, populate)`: the result, the new state and the caller's
      options object as `_.defaults` left it. */
  function CacheUrlOn(f: PathUtils.Foreign, w: World, url: JsValue, given: Partial, cachesDirectoryPath: string,
                      cb: Callback, lookup: Lookup, mkdir: MkdirOutcome): (Result<string>, World, Partial) {
    if !IsCacheable(url) then (Err(Thrown("Url is not cacheable")), w, given)
    else
      var filled := FillDefaults(given, Defaults(cachesDirectoryPath));
      var o := AsOptions(filled);
      var c := CacheEngine.CanonicalOf(f, url.s, o);
      var (g, idx) := GetOn(w.index, c, lookup);
      var w1 := w.(index := idx);
      if g.Ok? && g.value.Some? && g.value.value != "" && o.cacheLocation + "/" + g.value.value in w1.disk then
        (Ok(o.cacheLocation + "/" + g.value.value), w1, filled)
      else
        var (r, w2) := RepopulateOn(f, w1, url.s, c, o, cb, mkdir);
        (r, w2, filled)
  }

  /** An uncacheable url is rejected before the options object is filled. */
  lemma LegacyUncacheableRejects(f: PathUtils.Foreign, w: World, url: JsValue, given: Partial, cachesDirectoryPath: string,
                                 cb: Callback, lookup: Lookup, mkdir: MkdirOutcome)
    requires !IsCacheable(url)
    ensures CacheUrlOn(f, w, url, given, cachesDirectoryPath, cb, lookup, mkdir) == (Err(Thrown("Url is not cacheable")), w, given)
  {
  }

  /** A cacheable call fills the caller's options object; a live entry whose file exists
      is returned with nothing populated. */
  lemma LegacyHit(f: PathUtils.Foreign, w: World, url: string, given: Partial, cachesDirectoryPath: string, cb: Callback, mkdir: MkdirOutcome)
    requires IsCacheable(Str(url))
    requires var o := Over(Defaults(cachesDirectoryPath), given);
      var c := CacheEngine.CanonicalOf(f, url, o);
      c in w.index && w.index[c].value != "" && o.cacheLocation + "/" + w.index[c].value in w.disk
    ensures var o := Over(Defaults(cachesDirectoryPath), given);
      var c := CacheEngine.CanonicalOf(f, url, o);
      CacheUrlOn(f, w, Str(url), given, cachesDirectoryPath, cb, Live, mkdir)
        == (Ok(o.cacheLocation + "/" + w.index[c].value), w, FillDefaults(given, Defaults(cachesDirectoryPath)))
  {
    FillDefaultsSpec(given, Defaults(cachesDirectoryPath), Defaults(cachesDirectoryPath));
  }

  /** Whether the lookup of `c` yields a usable entry whose file exists. */
  predicate Hits(w: World, c: string, o: Options, lookup: Lookup) {
    var g := GetOn(w.index, c, lookup).0;
    g.Ok? && g.value.Some? && g.value.value != "" && o.cacheLocation + "/" + g.value.value in w.disk
  }

  /** Without a hit and without a leftover file at the target, the unconditional
      `deleteFile` rejects: nothing is populated and no entry is recorded. A first
      request for a url therefore always fails. */
  lemma LegacyMissWithoutFileFails(f: PathUtils.Foreign, w: World, url: string, given: Partial, cachesDirectoryPath: string,
                                   cb: Callback, lookup: Lookup, mkdir: MkdirOutcome)
    requires IsCacheable(Str(url))
    requires var o := Over(Defaults(cachesDirectoryPath), given);
      var c := CacheEngine.CanonicalOf(f, url, o);
      !Hits(w, c, o, lookup) && o.cacheLocation + "/" + PathUtils.GetImageRelativeFilePath(f, c) !in w.disk
    ensures var o := Over(Defaults(cachesDirectoryPath), given);
      var c := CacheEngine.CanonicalOf(f, url, o);
      var target := o.cacheLocation + "/" + PathUtils.GetImageRelativeFilePath(f, c);
      var (r, w', _) := CacheUrlOn(f, w, Str(url), given, cachesDirectoryPath, cb, lookup, mkdir);
      && r == Err(NoSuchPath(target))
      && w'.disk == w.disk && w'.downloads == w.downloads
      && w'.index == GetOn(w.index, c, lookup).1
  {
    FillDefaultsSpec(given, Defaults(cachesDirectoryPath), Defaults(cachesDirectoryPath));
  }

  /** With a leftover file at the target, the entry is recorded and the path returned even
      when the seed file is missing: the index then names a path with no file. */
  lemma LegacyIndexSetWhenSeedFails(f: PathUtils.Foreign, w: World, url: string, given: Partial, cachesDirectoryPath: string,
                                    seed: string, lookup: Lookup, mkdir: MkdirOutcome)
    requires IsCacheable(Str(url))
    requires var o := Over(Defaults(cachesDirectoryPath), given);
      var c := CacheEngine.CanonicalOf(f, url, o);
      var target := o.cacheLocation + "/" + PathUtils.GetImageRelativeFilePath(f, c);
      !Hits(w, c, o, lookup) && target in w.disk && w.disk[target].File? && seed !in w.disk
    ensures var o := Over(Defaults(cachesDirectoryPath), given);
      var c := CacheEngine.CanonicalOf(f, url, o);
      var rel := PathUtils.GetImageRelativeFilePath(f, c);
      var target := o.cacheLocation + "/" + rel;
      var (r, w', _) := CacheUrlOn(f, w, Str(url), given, cachesDirectoryPath, SeedCallback(seed), lookup, mkdir);
      && r == Ok(target)
      && c in w'.index && w'.index[c] == Entry(rel, o.ttl)
      && !(target in w'.disk && w'.disk[target].File?)
  {
    var d := Defaults(cachesDirectoryPath);
    FillDefaultsSpec(given, d, d);
    var o := Over(d, given);
    var c := CacheEngine.CanonicalOf(f, url, o);
    var target := o.cacheLocation + "/" + PathUtils.GetImageRelativeFilePath(f, c);
    var d1 := w.disk - {target};
    var d2 := EnsurePathOn(d1, Some(target), mkdir).1;
    EnsurePathSpec(d1, Some(target), mkdir);
    assert seed !in d2 || d2[seed] == Dir;
  }

  /** The older `CacheManager`. Its options object is the caller's own (or the defaults
      object), filled in place; only `clearCache` and `getCacheInfo` read it. */
  class CacheManager {
    const fs: WrapperFS
    const cache: MemoryCache
    const foreign: PathUtils.Foreign
    const cachesDirectoryPath: string
    const options: OptionsObject

    constructor (fs: WrapperFS, cache: MemoryCache, foreign: PathUtils.Foreign, cachesDirectoryPath: string, options: OptionsObject)
      modifies options
      ensures this.fs == fs && this.cache == cache && this.foreign == foreign
      ensures this.cachesDirectoryPath == cachesDirectoryPath && this.options == options
      ensures options.fields == FillDefaults(old(options.fields), Defaults(cachesDirectoryPath))
    {
      options.AssignDefaults(Defaults(cachesDirectoryPath));
      this.fs := fs;
      this.cache := cache;
      this.foreign := foreign;
      this.cachesDirectoryPath := cachesDirectoryPath;
      this.options := options;
    }

    ghost function State(): World
      reads this, fs, cache
    {
      CacheEngine.World(fs.disk, fs.activeDownloads, cache.entries)
    }

    method Populate(url: string, target: string, p: CacheEngine.Populator, mkdir: MkdirOutcome)
      modifies fs
      ensures State() == CacheEngine.PopulateOn(old(State()), url, target, p, mkdir).1
    {
      match p
      case Download(h) =>
        var op := fs.DownloadFile(url, target, h);
      case Seed(s) =>
        var copied := fs.CopyFile(s, target, mkdir);
    }

    method Repopulate(url: string, c: string, o: Options, cb: Callback, mkdir: MkdirOutcome) returns (r: Result<string>)
      modifies fs, cache
      ensures (r, State()) == RepopulateOn(foreign, old(State()), url, c, o, cb, mkdir)
    {
      var rel := PathUtils.GetImageRelativeFilePath(foreign, c);
      var filePath := o.cacheLocation + "/" + rel;
      var deleted := fs.DeleteFile(filePath);
      if deleted.Err? {
        return Err(deleted.error);
      }
      Populate(url, filePath, PopulatorOf(cb, o), mkdir);
      cache.Set(c, rel, o.ttl);
      r := Ok(filePath);
    }

    /** `cacheUrl(url, opts, populate)`; `opts` is filled in place. */
    method CacheUrl(url: JsValue, opts: OptionsObject, cb: Callback, lookup: Lookup, mkdir: MkdirOutcome) returns (r: Result<string>)
      modifies fs, cache, opts
      ensures (r, State(), opts.fields) == CacheUrlOn(foreign, old(State()), url, old(opts.fields), cachesDirectoryPath, cb, lookup, mkdir)
      ensures old(IsComplete(options.fields)) ==> IsComplete(options.fields)
    {
      if !IsCacheable(url) {
        return Err(Thrown("Url is not cacheable"));
      }
      opts.AssignDefaults(Defaults(cachesDirectoryPath));
      var o := AsOptions(opts.fields);
      var canonical := PathUtils.GetCacheableUrl(foreign, url.s, o.policy);
      var found := cache.Get(canonical, lookup);
      if found.Ok? && found.value.Some? && found.value.value != "" {
        var cachedFilePath := o.cacheLocation + "/" + found.value.value;
        var present := fs.Exists(cachedFilePath);
        if present {
          return Ok(cachedFilePath);
        }
      }
      r := Repopulate(url.s, canonical, o, cb, mkdir);
    }

    /** Uses only the call's options object, never the instance's. */
    method DownloadAndCacheUrl(url: JsValue, opts: OptionsObject, lookup: Lookup, mkdir: MkdirOutcome) returns (r: Result<string>)
      modifies fs, cache, opts
      ensures (r, State(), opts.fields) == CacheUrlOn(foreign, old(State()), url, old(opts.fields), cachesDirectoryPath, DownloadCallback, lookup, mkdir)
      ensures old(IsComplete(options.fields)) ==> IsComplete(options.fields)
    {
      r := CacheUrl(url, opts, DownloadCallback, lookup, mkdir);
    }

    method SeedAndCacheUrl(url: JsValue, seedPath: string, opts: OptionsObject, lookup: Lookup, mkdir: MkdirOutcome) returns (r: Result<string>)
      modifies fs, cache, opts
      ensures (r, State(), opts.fields) == CacheUrlOn(foreign, old(State()), url, old(opts.fields), cachesDirectoryPath, SeedCallback(seedPath), lookup, mkdir)
      ensures old(IsComplete(options.fields)) ==> IsComplete(options.fields)
    {
      r := CacheUrl(url, opts, SeedCallback(seedPath), lookup, mkdir);
    }

    /** `deleteUrl`: the check comes before `_.defaults` fills the call's options. */
    method DeleteUrl(url: JsValue, opts: OptionsObject) returns (r: Result<()>)
      modifies fs, cache, opts
      ensures !IsCacheable(url) ==> r == Err(Thrown("Url is not cacheable")) && opts.fields == old(opts.fields) && State() == old(State())
      ensures IsCacheable(url) ==> opts.fields == FillDefaults(old(opts.fields), Defaults(cachesDirectoryPath))
      ensures IsCacheable(url) ==> (r, State()) == CacheEngine.DeleteUrlOn(foreign, old(State()), url, AsOptions(opts.fields))
      ensures old(IsComplete(options.fields)) ==> IsComplete(options.fields)
    {
      if !IsCacheable(url) {
        return Err(Thrown("Url is not cacheable"));
      }
      opts.AssignDefaults(Defaults(cachesDirectoryPath));
      var o := AsOptions(opts.fields);
      var canonical := PathUtils.GetCacheableUrl(foreign, url.s, o.policy);
      var filePath := PathUtils.GetImageFilePath(foreign, canonical, o.cacheLocation);
      cache.Remove(canonical);
      r := fs.DeleteFile(filePath);
    }

    method ClearCache(mkdir: MkdirOutcome) returns (r: Result<()>)
      requires IsComplete(options.fields)
      modifies fs, cache
      ensures (r, State()) == CacheEngine.ClearCacheOn(old(State()), options.fields.cacheLocation.value, mkdir)
    {
      cache.Flush();
      r := fs.CleanDir(options.fields.cacheLocation.value, mkdir);
    }

    method GetCacheInfo() returns (r: Result<DirInfo>)
      requires IsComplete(options.fields)
      ensures var loc := options.fields.cacheLocation.value;
        && (loc !in fs.disk ==> r == Err(NoSuchPath(loc)))
        && (loc in fs.disk && fs.disk[loc].File? ==> r == Err(Thrown("Dir does not exists in 'getDirInfo'")))
        && (loc in fs.disk && fs.disk[loc].Dir? ==>
              r.Ok? && Describes(fs.disk, Listing(loc, r.value.files)) && r.value.size == SumBy(r.value.files))
    {
      r := fs.GetDirInfo(options.fields.cacheLocation.value);
    }
  }
}
