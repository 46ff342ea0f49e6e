/** The newer cache manager (`src/CacheManager.js`): `cacheUrl` with `NewCache`,
    and the `CacheManager` class over the shared file system and index. The state
    both touch is a `World`; each operation is a function on it, and the class
    methods perform the same steps against `WrapperFS` and `MemoryCache`. */
module CacheEngine {
  import opened Common
  import opened Text
  import PathUtils
  import opened FsUtils
  import opened MemoryCacheIndex
  import opened CacheOptions

  /** The process-wide state: the file system, the download registry and the index. */
  datatype World = World(disk: Disk, downloads: Registry, index: Index)

  /** The populate callback: a download of the original url with the call's
      headers, or a copy of a local seed file. */
  datatype Populator = Download(headers: Option<Headers>) | Seed(seedPath: string)

  /** `IsCacheable`. */
  predicate IsCacheable(url: JsValue) {
    url.Str? && (StartsWith(Lower(url.s), "http://") || StartsWith(Lower(url.s), "https://"))
  }

  lemma LowerPrefix(s: string, n: nat)
    requires n <= |s|
    ensures Lower(s)[..n] == Lower(s[..n])
  {
  }

  /** A url is cacheable exactly when it is a string whose first seven characters,
      lower-cased, are `http://` or whose first eight are `https://`. */
  lemma IsCacheableSpec(url: JsValue)
    ensures IsCacheable(url) <==>
      url.Str? && ((|url.s| >= 7 && Lower(url.s[..7]) == "http://") || (|url.s| >= 8 && Lower(url.s[..8]) == "https://"))
  {
    if url.Str? && |url.s| >= 7 {
      LowerPrefix(url.s, 7);
      if |url.s| >= 8 {
        LowerPrefix(url.s, 8);
      }
    }
  }

  /** `exists`-then-`deleteFile` before populating. */
  function ClearTarget(disk: Disk, target: string): Disk {
    if target in disk then DeleteFileOn(disk, target).1 else disk
  }

  /** Awaiting the populate callback for `target`. A download only registers the
      stored operation: the callback resolves to it without running it. */
  function PopulateOn(w: World, url: string, target: string, p: Populator, mkdir: MkdirOutcome): (out: (Result<()>, World))
    ensures out.1.index == w.index
    ensures p.Download? ==> out.0.Ok? && out.1.disk == w.disk && target in out.1.downloads
  {
    match p
    case Download(h) =>
      var reg := if target in w.downloads then w.downloads else w.downloads[target := DownloadOp(url, target, target + ".tmp", h)];
      (Ok(()), w.(downloads := reg))
    case Seed(s) =>
      var (r, d) := CopyFileOn(w.disk, s, target, mkdir);
      (r, w.(disk := d))
  }

  /** `NewCache`: clear the target, await populate, then record the relative path. */
  function NewCacheOn(f: PathUtils.Foreign, w: World, url: string, canonical: string, o: Options, p: Populator, mkdir: MkdirOutcome): (Result<string>, World) {
    var rel := PathUtils.GetImageRelativeFilePath(f, canonical);
    var target := o.cacheLocation + "/" + rel;
    var (r, w2) := PopulateOn(w.(disk := ClearTarget(w.disk, target)), url, target, p, mkdir);
    if r.Err? then (Err(r.error), w2)
    else (Ok(target), w2.(index := w2.index[canonical := Entry(rel, o.ttl)]))
  }

  /** `NewCache` records the relative path of the canonical url exactly when populate
      succeeds, and returns the file under the cache location. A file already at the
      target is deleted first: afterwards the target is gone, or it holds a copy of
      the seed file. */
  lemma NewCacheSpec(f: PathUtils.Foreign, w: World, url: string, c: string, o: Options, p: Populator, mkdir: MkdirOutcome)
    ensures var (r, w') := NewCacheOn(f, w, url, c, o, p, mkdir);
      var rel := PathUtils.GetImageRelativeFilePath(f, c);
      && (r.Err? ==> w'.index == w.index)
      && (r.Ok? ==> w'.index == w.index[c := Entry(rel, o.ttl)] && r.value == o.cacheLocation + "/" + rel)
    ensures var (r, w') := NewCacheOn(f, w, url, c, o, p, mkdir);
      var target := o.cacheLocation + "/" + PathUtils.GetImageRelativeFilePath(f, c);
      target in w.disk && w.disk[target].File? ==>
        target !in w'.disk
        || (r.Ok? && p.Seed? && p.seedPath in w.disk && target in w'.disk && w'.disk[target] == w.disk[p.seedPath])
  {
    var rel := PathUtils.GetImageRelativeFilePath(f, c);
    var target := o.cacheLocation + "/" + rel;
    CacheFileLooksLikeFile(f, o.cacheLocation, c);
    ClearThenPopulate(w, url, target, p, mkdir);
    var (r, w2) := PopulateOn(w.(disk := ClearTarget(w.disk, target)), url, target, p, mkdir);
    assert NewCacheOn(f, w, url, c, o, p, mkdir)
        == if r.Err? then (Err(r.error), w2) else (Ok(target), w2.(index := w2.index[c := Entry(rel, o.ttl)]));
  }

  /** Populating a cleared target that looks like a file: an old file there is gone
      afterwards, unless the populate copied the seed file over it. */
  lemma ClearThenPopulate(w: World, url: string, target: string, p: Populator, mkdir: MkdirOutcome)
    requires LooksLikeFile(target)
    ensures var (r, w2) := PopulateOn(w.(disk := ClearTarget(w.disk, target)), url, target, p, mkdir);
      target in w.disk && w.disk[target].File? ==>
        target !in w2.disk
        || (r.Ok? && p.Seed? && p.seedPath in w.disk && target in w2.disk && w2.disk[target] == w.disk[p.seedPath])
  {
    if target in w.disk && w.disk[target].File? {
      var d0 := ClearTarget(w.disk, target);
      assert d0 == w.disk - {target};
      if p.Seed? {
        FileLikePathIsNotItsDir(target);
        EnsurePathSpec(d0, Some(target), mkdir);
        CopySourceWasFile(d0, p.seedPath, target, mkdir);
      }
    }
  }

  /** The canonical url `cacheUrl` files a url under. */
  function CanonicalOf(f: PathUtils.Foreign, url: string, o: Options): string {
    PathUtils.GetCacheableUrl(f, url, o.policy)
  }

  /** `cacheUrl(url, options, populate)`. */
  function CacheUrlOn(f: PathUtils.Foreign, w: World, url: JsValue, o: Options, p: Populator, lookup: Lookup, mkdir: MkdirOutcome): (Result<string>, World) {
    if !IsCacheable(url) then (Err(Thrown("Url is not cacheable")), w)
    else
      var canonical := CanonicalOf(f, url.s, o);
      var (g, idx) := GetOn(w.index, canonical, lookup);
      var w1 := w.(index := idx);
      if g.Err? then (Err(g.error), w1)
      else if g.value.None? || g.value.value == "" then NewCacheOn(f, w1, url.s, canonical, o, p, mkdir)
      else
        var cached := o.cacheLocation + "/" + g.value.value;
        if cached in w1.disk then (Ok(cached), w1)
        else NewCacheOn(f, w1, url.s, canonical, o, p, mkdir)
  }

  /** An uncacheable url is rejected before the index or the file system is touched. */
  lemma UncacheableRejects(f: PathUtils.Foreign, w: World, url: JsValue, o: Options, p: Populator, lookup: Lookup, mkdir: MkdirOutcome)
    requires !IsCacheable(url)
    ensures CacheUrlOn(f, w, url, o, p, lookup, mkdir) == (Err(Thrown("Url is not cacheable")), w)
  {
  }

  /** A live index entry whose file exists is returned as is: nothing is populated,
      nothing changes. */
  lemma HitReturnsCachedFile(f: PathUtils.Foreign, w: World, url: string, o: Options, p: Populator, mkdir: MkdirOutcome)
    requires IsCacheable(Str(url))
    requires var c := CanonicalOf(f, url, o);
      c in w.index && w.index[c].value != "" && o.cacheLocation + "/" + w.index[c].value in w.disk
    ensures CacheUrlOn(f, w, Str(url), o, p, Live, mkdir)
         == (Ok(o.cacheLocation + "/" + w.index[CanonicalOf(f, url, o)].value), w)
  {
  }

  /** Index entries name the file of their key: what `cacheUrl` writes. */
  ghost predicate IndexConsistent(f: PathUtils.Foreign, index: Index) {
    forall k :: k in index ==> index[k].value == PathUtils.GetImageRelativeFilePath(f, k)
  }

  /** A failed `cacheUrl` records nothing: the index is as before, except that a lookup
      may have dropped the expired entry. A successful one returns the file the index
      now records for the canonical url: the entry it found, or a fresh entry with the
      options' ttl. */
  lemma CacheUrlSpec(f: PathUtils.Foreign, w: World, url: JsValue, o: Options, p: Populator, lookup: Lookup, mkdir: MkdirOutcome)
    requires IsCacheable(url)
    ensures var (r, w') := CacheUrlOn(f, w, url, o, p, lookup, mkdir);
      var c := CanonicalOf(f, url.s, o);
      && (r.Err? ==> w'.index == w.index || w'.index == w.index - {c})
      && (r.Ok? ==> c in w'.index && w'.index[c].value != "" && r.value == o.cacheLocation + "/" + w'.index[c].value)
      && (r.Ok? ==> (w'.index == w.index && w'.disk == w.disk && w'.downloads == w.downloads)
                    || w'.index == w.index[c := Entry(PathUtils.GetImageRelativeFilePath(f, c), o.ttl)])
  {
    var c := CanonicalOf(f, url.s, o);
    var (g, idx) := GetOn(w.index, c, lookup);
    var w1 := w.(index := idx);
    if g.Err? {
      assert CacheUrlOn(f, w, url, o, p, lookup, mkdir) == (Err(g.error), w1);
    } else if !(g.value.None? || g.value.value == "") && o.cacheLocation + "/" + g.value.value in w1.disk {
      assert idx == w.index;
      assert CacheUrlOn(f, w, url, o, p, lookup, mkdir) == (Ok(o.cacheLocation + "/" + g.value.value), w1);
    } else {
      assert CacheUrlOn(f, w, url, o, p, lookup, mkdir) == NewCacheOn(f, w1, url.s, c, o, p, mkdir);
      MissRecordsFreshEntry(f, w.index, w1, url.s, c, o, p, mkdir);
    }
  }

  /** The miss case of `CacheUrlSpec`: starting from an index the lookup may have
      shrunk by the canonical url, `NewCache` either keeps that index or records a
      fresh, non-empty entry for the canonical url and returns its file. */
  lemma MissRecordsFreshEntry(f: PathUtils.Foreign, index: Index, w1: World, url: string, c: string, o: Options, p: Populator, mkdir: MkdirOutcome)
    requires w1.index == index || w1.index == index - {c}
    ensures var (r, w') := NewCacheOn(f, w1, url, c, o, p, mkdir);
      var e := Entry(PathUtils.GetImageRelativeFilePath(f, c), o.ttl);
      && (r.Err? ==> w'.index == index || w'.index == index - {c})
      && (r.Ok? ==> w'.index == index[c := e] && e.value != "" && r.value == o.cacheLocation + "/" + e.value)
  {
    NewCacheSpec(f, w1, url, c, o, p, mkdir);
    var e := Entry(PathUtils.GetImageRelativeFilePath(f, c), o.ttl);
    assert w1.index[c := e] == index[c := e];
  }

  /** Every index entry `cacheUrl` leaves names the file of its key. */
  lemma CacheUrlKeepsIndexConsistent(f: PathUtils.Foreign, w: World, url: JsValue, o: Options, p: Populator, lookup: Lookup, mkdir: MkdirOutcome)
    requires IndexConsistent(f, w.index)
    ensures IndexConsistent(f, CacheUrlOn(f, w, url, o, p, lookup, mkdir).1.index)
  {
    if IsCacheable(url) {
      CacheUrlSpec(f, w, url, o, p, lookup, mkdir);
    }
  }

  /** When the canonical url has no usable entry, `cacheUrl` is `NewCache`. */
  lemma MissRepopulates(f: PathUtils.Foreign, w: World, url: string, o: Options, p: Populator, lookup: Lookup, mkdir: MkdirOutcome)
    requires IsCacheable(Str(url)) && !lookup.LookupFails?
    requires var c := CanonicalOf(f, url, o);
      c !in w.index || w.index[c].value == "" || lookup == Expired
    ensures var c := CanonicalOf(f, url, o);
      CacheUrlOn(f, w, Str(url), o, p, lookup, mkdir) == NewCacheOn(f, w.(index := GetOn(w.index, c, lookup).1), url, c, o, p, mkdir)
  {
  }

  /** Once `cacheUrl` has returned a file that exists, asking again with a live entry
      returns that file and changes nothing, whatever the populate callback. */
  lemma MaterialisedThenHit(f: PathUtils.Foreign, w: World, url: string, o: Options, p: Populator, lookup: Lookup,
                            mkdir: MkdirOutcome, p2: Populator, mkdir2: MkdirOutcome)
    requires IsCacheable(Str(url))
    requires var (r, w') := CacheUrlOn(f, w, Str(url), o, p, lookup, mkdir); r.Ok? && r.value in w'.disk
    ensures var (r, w') := CacheUrlOn(f, w, Str(url), o, p, lookup, mkdir);
      CacheUrlOn(f, w', Str(url), o, p2, Live, mkdir2) == (r, w')
  {
    var (r, w') := CacheUrlOn(f, w, Str(url), o, p, lookup, mkdir);
    CacheUrlSpec(f, w, Str(url), o, p, lookup, mkdir);
    HitReturnsCachedFile(f, w', url, o, p2, mkdir2);
  }

  /** A successful seed returns either the file it found, with the disk as it was, or a
      copy of the seed file, which is a different file; either way the file is in
      place and the url is then a hit whatever the next populate callback. */
  lemma SeedMaterialises(f: PathUtils.Foreign, w: World, url: string, o: Options, seed: string, lookup: Lookup,
                         mkdir: MkdirOutcome, p2: Populator, mkdir2: MkdirOutcome)
    requires IsCacheable(Str(url))
    ensures var (r, w') := CacheUrlOn(f, w, Str(url), o, Seed(seed), lookup, mkdir);
      && (r.Ok? ==> r.value in w'.disk)
      && (r.Ok? ==> (r.value in w.disk && w'.disk == w.disk)
                    || (seed != r.value && seed in w.disk && w.disk[seed].File? && w'.disk[r.value] == w.disk[seed]))
      && (r.Ok? ==> CacheUrlOn(f, w', Str(url), o, p2, Live, mkdir2) == (r, w'))
  {
    var c := CanonicalOf(f, url, o);
    var (g, idx) := GetOn(w.index, c, lookup);
    var w1 := w.(index := idx);
    if g.Err? {
      assert CacheUrlOn(f, w, Str(url), o, Seed(seed), lookup, mkdir) == (Err(g.error), w1);
    } else if !(g.value.None? || g.value.value == "") && o.cacheLocation + "/" + g.value.value in w1.disk {
      assert CacheUrlOn(f, w, Str(url), o, Seed(seed), lookup, mkdir) == (Ok(o.cacheLocation + "/" + g.value.value), w1);
    } else {
      assert CacheUrlOn(f, w, Str(url), o, Seed(seed), lookup, mkdir) == NewCacheOn(f, w1, url, c, o, Seed(seed), mkdir);
      SeedCopies(f, w1, url, c, o, seed, mkdir);
    }
    var (r, w') := CacheUrlOn(f, w, Str(url), o, Seed(seed), lookup, mkdir);
    if r.Ok? {
      MaterialisedThenHit(f, w, url, o, Seed(seed), lookup, mkdir, p2, mkdir2);
    }
  }

  /** `NewCache` with a seed populate: on success the target holds a copy of the seed
      file, which was a file other than the target before the call. */
  lemma SeedCopies(f: PathUtils.Foreign, w: World, url: string, c: string, o: Options, seed: string, mkdir: MkdirOutcome)
    ensures var (r, w') := NewCacheOn(f, w, url, c, o, Seed(seed), mkdir);
      r.Ok? ==> r.value in w'.disk && seed != r.value && seed in w.disk && w.disk[seed].File? && w'.disk[r.value] == w.disk[seed]
  {
    var rel := PathUtils.GetImageRelativeFilePath(f, c);
    var target := o.cacheLocation + "/" + rel;
    var d0 := ClearTarget(w.disk, target);
    DeleteFileSpec(w.disk, target);
    assert d0 == w.disk || d0 == w.disk - {target};
    assert target in d0 ==> !d0[target].File?;
    CopySourceWasFile(d0, seed, target, mkdir);
  }

  /** A download never puts the file in place: `cacheUrl` only registers the stored
      operation for the target. A returned file that exists was there before and the
      disk is unchanged; otherwise the registry holds an operation for it. */
  lemma DownloadNeverMaterialises(f: PathUtils.Foreign, w: World, url: string, o: Options, h: Option<Headers>, lookup: Lookup, mkdir: MkdirOutcome)
    requires IsCacheable(Str(url)) && RegistryKeyed(w.downloads)
    ensures var (r, w') := CacheUrlOn(f, w, Str(url), o, Download(h), lookup, mkdir);
      && r.Ok? == !GetOn(w.index, CanonicalOf(f, url, o), lookup).0.Err?
      && (r.Ok? && r.value in w'.disk ==> r.value in w.disk && w'.disk == w.disk)
      && (r.Ok? && r.value !in w'.disk ==> r.value in w'.downloads && WellFormedOp(w'.downloads[r.value]) && w'.downloads[r.value].toFile == r.value)
  {
    var c := CanonicalOf(f, url, o);
    var (g, idx) := GetOn(w.index, c, lookup);
    var w1 := w.(index := idx);
    if g.Err? {
      assert CacheUrlOn(f, w, Str(url), o, Download(h), lookup, mkdir) == (Err(g.error), w1);
    } else if !(g.value.None? || g.value.value == "") && o.cacheLocation + "/" + g.value.value in w1.disk {
      assert CacheUrlOn(f, w, Str(url), o, Download(h), lookup, mkdir) == (Ok(o.cacheLocation + "/" + g.value.value), w1);
    } else {
      assert CacheUrlOn(f, w, Str(url), o, Download(h), lookup, mkdir) == NewCacheOn(f, w1, url, c, o, Download(h), mkdir);
      DownloadOnlyRegisters(f, w1, url, c, o, h, mkdir);
    }
  }

  /** `NewCache` with a download populate succeeds, leaves the file system as it was
      or with the old target deleted, and registers a well-formed operation for the target. */
  lemma DownloadOnlyRegisters(f: PathUtils.Foreign, w: World, url: string, c: string, o: Options, h: Option<Headers>, mkdir: MkdirOutcome)
    requires RegistryKeyed(w.downloads)
    ensures var (r, w') := NewCacheOn(f, w, url, c, o, Download(h), mkdir);
      var target := o.cacheLocation + "/" + PathUtils.GetImageRelativeFilePath(f, c);
      && r == Ok(target)
      && (target in w'.disk ==> target in w.disk && w'.disk == w.disk)
      && target in w'.downloads && WellFormedOp(w'.downloads[target]) && w'.downloads[target].toFile == target
  {
    var target := o.cacheLocation + "/" + PathUtils.GetImageRelativeFilePath(f, c);
    DeleteFileSpec(w.disk, target);
  }

  /** The download populate as evidently intended: the registered operation is run (with
      both corrections to it) and awaited. */
  function PopulateByRunningOn(w: World, url: string, target: string, h: Option<Headers>, mkdir: MkdirOutcome, t: Transfer): (Result<()>, World) {
    var reg := if target in w.downloads then w.downloads else w.downloads[target := DownloadOp(url, target, target + ".tmp", h)];
    var (r, d, reg') := RunCorrectedOn(w.disk, reg, reg[target], mkdir, t);
    (if r.Err? then Err(r.error) else Ok(()), World(d, reg', w.index))
  }

  /** `NewCache` with a download populate that runs the operation it registers. */
  function NewCacheByRunningOn(f: PathUtils.Foreign, w: World, url: string, c: string, o: Options, h: Option<Headers>,
                               mkdir: MkdirOutcome, t: Transfer): (Result<string>, World) {
    var rel := PathUtils.GetImageRelativeFilePath(f, c);
    var target := o.cacheLocation + "/" + rel;
    var (r, w2) := PopulateByRunningOn(w.(disk := ClearTarget(w.disk, target)), url, target, h, mkdir, t);
    if r.Err? then (Err(r.error), w2)
    else (Ok(target), w2.(index := w2.index[c := Entry(rel, o.ttl)]))
  }

  /** Running the operation leaves the index alone; when it succeeds on a transfer other
      than 304, the file of the announced size is at the target; and when the directory
      can be made, an accepted transfer does succeed. */
  lemma PopulateByRunningSpec(w: World, url: string, target: string, h: Option<Headers>, mkdir: MkdirOutcome, t: Transfer)
    requires RegistryKeyed(w.downloads)
    ensures var (r, w') := PopulateByRunningOn(w, url, target, h, mkdir, t);
      && w'.index == w.index
      && (r.Ok? && t.Completed? && t.statusCode != 304 ==> target in w'.disk && w'.disk[target] == File(t.bytesWritten))
      && (mkdir == Creates && Accepted(t) ==> r.Ok?)
  {
    var reg := if target in w.downloads then w.downloads else w.downloads[target := DownloadOp(url, target, target + ".tmp", h)];
    var op := reg[target];
    assert WellFormedOp(op) && op.toFile == target;
    CorrectedRunSpec(w.disk, reg, op, mkdir, t);
    var (r0, d, reg') := RunCorrectedOn(w.disk, reg, op, mkdir, t);
    assert PopulateByRunningOn(w, url, target, h, mkdir, t) == (if r0.Err? then Err(r0.error) else Ok(()), World(d, reg', w.index));
  }

  /** With the operation run, a download that completes (other than 304) leaves the
      file in place and the url is a hit afterwards; a failed one records no entry; and
      when the directory can be made, an accepted transfer does complete. */
  lemma DownloadByRunningMaterialises(f: PathUtils.Foreign, w: World, url: string, o: Options, h: Option<Headers>,
                                      mkdir: MkdirOutcome, t: Transfer, p2: Populator, mkdir2: MkdirOutcome)
    requires IsCacheable(Str(url)) && RegistryKeyed(w.downloads)
    ensures var c := CanonicalOf(f, url, o);
      var (r, w') := NewCacheByRunningOn(f, w, url, c, o, h, mkdir, t);
      && (r.Err? ==> w'.index == w.index)
      && (r.Ok? && t.Completed? && t.statusCode != 304 ==>
            r.value in w'.disk && w'.disk[r.value] == File(t.bytesWritten)
            && CacheUrlOn(f, w', Str(url), o, p2, Live, mkdir2) == (r, w'))
      && (mkdir == Creates && Accepted(t) ==> r.Ok?)
  {
    var c := CanonicalOf(f, url, o);
    var rel := PathUtils.GetImageRelativeFilePath(f, c);
    var target := o.cacheLocation + "/" + rel;
    var w0 := w.(disk := ClearTarget(w.disk, target));
    PopulateByRunningSpec(w0, url, target, h, mkdir, t);
    var (r, w') := NewCacheByRunningOn(f, w, url, c, o, h, mkdir, t);
    if r.Ok? && t.Completed? && t.statusCode != 304 {
      assert w'.index[c] == Entry(rel, o.ttl);
      assert |rel| >= 1;
      HitReturnsCachedFile(f, w', url, o, p2, mkdir2);
    }
  }

  /** `deleteUrl`: reject an uncacheable url; otherwise drop the index entry of the
      canonical url, then delete its file. */
  function DeleteUrlOn(f: PathUtils.Foreign, w: World, url: JsValue, o: Options): (Result<()>, World) {
    if !IsCacheable(url) then (Err(Thrown("Url is not cacheable")), w)
    else
      var c := CanonicalOf(f, url.s, o);
      var filePath := PathUtils.GetImageFilePath(f, c, o.cacheLocation);
      var (r, d) := DeleteFileOn(w.disk, filePath);
      (r, World(d, w.downloads, w.index - {c}))
  }

  /** `deleteUrl` after a successful `cacheUrl` with the same options removes the index
      entry and the file that was returned, while the index stays consistent. */
  lemma CacheThenDeleteUrl(f: PathUtils.Foreign, w: World, url: string, o: Options, p: Populator, lookup: Lookup, mkdir: MkdirOutcome)
    requires IsCacheable(Str(url)) && IndexConsistent(f, w.index)
    requires CacheUrlOn(f, w, Str(url), o, p, lookup, mkdir).0.Ok?
    ensures var (r, w') := CacheUrlOn(f, w, Str(url), o, p, lookup, mkdir);
      var (r2, w2) := DeleteUrlOn(f, w', Str(url), o);
      && CanonicalOf(f, url, o) !in w2.index
      && (r.value in w'.disk && w'.disk[r.value].File? ==> r2.Ok? && r.value !in w2.disk)
      && (r.value !in w'.disk ==> r2 == Err(NoSuchPath(r.value)))
      && IndexConsistent(f, w2.index)
  {
    var (r, w') := CacheUrlOn(f, w, Str(url), o, p, lookup, mkdir);
    CacheUrlSpec(f, w, Str(url), o, p, lookup, mkdir);
    CacheUrlKeepsIndexConsistent(f, w, Str(url), o, p, lookup, mkdir);
    var c := CanonicalOf(f, url, o);
    assert r.value == PathUtils.GetImageFilePath(f, c, o.cacheLocation);
    DeleteFileSpec(w'.disk, r.value);
  }

  /** `clearCache`: flush the index, then `cleanDir` the cache location. */
  function ClearCacheOn(w: World, cacheLocation: string, mkdir: MkdirOutcome): (Result<()>, World) {
    var (r, d) := CleanDirOn(w.disk, cacheLocation, mkdir);
    (r, World(d, w.downloads, map[]))
  }

  /** The default location is a directory path: `ensurePath` keeps it as is. */
  lemma DefaultLocationIsDirectoryPath(cachesDirectoryPath: string)
    ensures GetDirPath(GetCacheDir(cachesDirectoryPath)) == GetCacheDir(cachesDirectoryPath)
  {
    var p := GetCacheDir(cachesDirectoryPath);
    assert p[|p| - 4] == 'e' && p[|p| - 5] == 'h';
  }

  /** After `clearCache` the index is empty, nothing is left below the location, and
      every url whose lookup does not reject is a miss that repopulates. */
  lemma ClearCacheSpec(f: PathUtils.Foreign, w: World, o: Options, mkdir: MkdirOutcome,
                       url: string, p: Populator, lookup: Lookup, mkdir2: MkdirOutcome)
    requires o.cacheLocation in w.disk && w.disk[o.cacheLocation] == Dir && GetDirPath(o.cacheLocation) == o.cacheLocation
    requires IsCacheable(Str(url))
    ensures var (r, w') := ClearCacheOn(w, o.cacheLocation, mkdir);
      && w'.index == map[]
      && (forall k :: k in w'.disk && k != o.cacheLocation ==> !StartsWith(k, o.cacheLocation + "/"))
      && (mkdir == Creates ==> r == Ok(()))
      && (!lookup.LookupFails? ==>
            CacheUrlOn(f, w', Str(url), o, p, lookup, mkdir2) == NewCacheOn(f, w', url, CanonicalOf(f, url, o), o, p, mkdir2))
      && (lookup.LookupFails? ==> CacheUrlOn(f, w', Str(url), o, p, lookup, mkdir2) == (Err(Rejected(lookup.message)), w'))
  {
    CleanDirEmpties(w.disk, o.cacheLocation, mkdir);
  }

  /** The newer `CacheManager`. `WrapperFS` and `MemoryCache` are process-wide in the
      library; every manager shares the same two objects. */
  class CacheManager {
    const fs: WrapperFS
    const cache: MemoryCache
    const foreign: PathUtils.Foreign
    var options: Options

    /** `{ ...defaultOptions, ...options }`. */
    constructor (fs: WrapperFS, cache: MemoryCache, foreign: PathUtils.Foreign, cachesDirectoryPath: string, given: Partial)
      ensures this.fs == fs && this.cache == cache && this.foreign == foreign
      ensures options == Over(DefaultOptions(cachesDirectoryPath, false), given)
    {
      this.fs := fs;
      this.cache := cache;
      this.foreign := foreign;
      options := Over(DefaultOptions(cachesDirectoryPath, false), given);
    }

    ghost function State(): World
      reads this, fs, cache
    {
      World(fs.disk, fs.activeDownloads, cache.entries)
    }

    method Populate(url: string, target: string, p: Populator, mkdir: MkdirOutcome) returns (r: Result<()>)
      modifies fs
      ensures (r, State()) == PopulateOn(old(State()), url, target, p, mkdir)
    {
      match p
      case Download(h) =>
        var op := fs.DownloadFile(url, target, h);
        r := Ok(());
      case Seed(s) =>
        r := fs.CopyFile(s, target, mkdir);
    }

    method NewCache(url: string, canonical: string, o: Options, p: Populator, mkdir: MkdirOutcome) returns (r: Result<string>)
      modifies fs, cache
      ensures (r, State()) == NewCacheOn(foreign, old(State()), url, canonical, o, p, mkdir)
    {
      var rel := PathUtils.GetImageRelativeFilePath(foreign, canonical);
      var filePath := o.cacheLocation + "/" + rel;
      var exist := fs.Exists(filePath);
      if exist {
        var deleted := fs.DeleteFile(filePath);
      }
      var populated := Populate(url, filePath, p, mkdir);
      if populated.Err? {
        return Err(populated.error);
      }
      cache.Set(canonical, rel, o.ttl);
      r := Ok(filePath);
    }

    /** `cacheUrl(url, o, populate)`. */
    method CacheUrl(url: JsValue, o: Options, p: Populator, lookup: Lookup, mkdir: MkdirOutcome) returns (r: Result<string>)
      modifies fs, cache
      ensures (r, State()) == CacheUrlOn(foreign, old(State()), url, o, p, lookup, mkdir)
    {
      if !IsCacheable(url) {
        return Err(Thrown("Url is not cacheable"));
      }
      var canonical := PathUtils.GetCacheableUrl(foreign, url.s, o.policy);
      var found := cache.Get(canonical, lookup);
      if found.Err? {
        return Err(found.error);
      }
      if found.value.None? || found.value.value == "" {
        r := NewCache(url.s, canonical, o, p, mkdir);
        return;
      }
      var cachedFilePath := o.cacheLocation + "/" + found.value.value;
      var exist := fs.Exists(cachedFilePath);
      if exist {
        return Ok(cachedFilePath);
      }
      r := NewCache(url.s, canonical, o, p, mkdir);
    }

    /** Downloads with the call's own headers, under the merged options. */
    method DownloadAndCacheUrl(url: JsValue, call: Partial, lookup: Lookup, mkdir: MkdirOutcome) returns (r: Result<string>)
      modifies fs, cache
      ensures (r, State()) == CacheUrlOn(foreign, old(State()), url, Over(old(options), call), Download(call.headers), lookup, mkdir)
    {
      var copy := Over(options, call);
      r := CacheUrl(url, copy, Download(call.headers), lookup, mkdir);
    }

    method SeedAndCacheUrl(url: JsValue, seedPath: string, call: Partial, lookup: Lookup, mkdir: MkdirOutcome) returns (r: Result<string>)
      modifies fs, cache
      ensures (r, State()) == CacheUrlOn(foreign, old(State()), url, Over(old(options), call), Seed(seedPath), lookup, mkdir)
    {
      var copy := Over(options, call);
      r := CacheUrl(url, copy, Seed(seedPath), lookup, mkdir);
    }

    method DeleteUrl(url: JsValue, call: Partial) returns (r: Result<()>)
      modifies fs, cache
      ensures (r, State()) == DeleteUrlOn(foreign, old(State()), url, Over(old(options), call))
    {
      if !IsCacheable(url) {
        return Err(Thrown("Url is not cacheable"));
      }
      var copy := Over(options, call);
      var canonical := PathUtils.GetCacheableUrl(foreign, url.s, copy.policy);
      var filePath := PathUtils.GetImageFilePath(foreign, canonical, copy.cacheLocation);
      cache.Remove(canonical);
      r := fs.DeleteFile(filePath);
    }

    method ClearCache(mkdir: MkdirOutcome) returns (r: Result<()>)
      modifies fs, cache
      ensures (r, State()) == ClearCacheOn(old(State()), options.cacheLocation, mkdir)
    {
      cache.Flush();
      r := fs.CleanDir(options.cacheLocation, mkdir);
    }

    /** `getDirInfo` of the instance's cache location. */
    method GetCacheInfo() returns (r: Result<DirInfo>)
      ensures options.cacheLocation !in fs.disk ==> r == Err(NoSuchPath(options.cacheLocation))
      ensures options.cacheLocation in fs.disk && fs.disk[options.cacheLocation].File? ==>
        r == Err(Thrown("Dir does not exists in 'getDirInfo'"))
      ensures options.cacheLocation in fs.disk && fs.disk[options.cacheLocation].Dir? ==>
        r.Ok? && Describes(fs.disk, Listing(options.cacheLocation, r.value.files)) && r.value.size == SumBy(r.value.files)
    {
      r := fs.GetDirInfo(options.cacheLocation);
    }
  }
}
