# react-native-auto-cacheable-image: the caching engine in Dafny

This project models the engine that caches remote images for the `CacheableImage`
component, and proves properties of it. It has five parts.

- **The path and key codec** (`PathUtils`). It covers the canonical url of a request
  under the `useQueryParamsInCacheKey` policy (`false`, `true` or a list of parameter
  names). It also covers the cache key: the SHA-1 of the path, the file name, the image
  type and the query values, followed by `.` and the type. Then come the host bucket
  directory and the cache file path. SHA-1 and url-parse are foreign. They appear as the
  fields of a `Foreign` record (`sha1`, `parse`, `format`) that every function receives.
- **The file operations and the download registry** (`FsUtils`). The file system is a
  map from absolute path to node (a file with its size, or a directory).
  - The react-native-fs primitives are methods of `WrapperFS` on that map.
  - `ensurePath`, `deleteFile`, `copyFile`, `cleanDir`, `getDirInfo` and `exists` are
    methods too. Each is tied to a function on the map.
  - The process-wide `activeDownloads` dictionary is a field of `WrapperFS`.
  - `downloadFile` stores the download operation in that dictionary and returns the
    stored operation itself, not its run. Running it is a separate method, in the form
    the source has and in two corrected forms.
- **The cache index** (`MemoryCacheIndex`): the `MemoryCache` key/value store with a
  time to live. The clock is not modelled. A `Lookup` parameter says whether a present
  entry is live or has expired (and is dropped), or whether the storage rejects, which it
  may do for any key.
- **The two cache managers.**
  - The newer one (`CacheEngine`, `src/CacheManager.js`) merges options with the object
    spread and awaits the populate callback before it records the index entry.
  - The older one (`LegacyCacheEngine`, `CacheManager.js`) fills options in place with
    `_.defaults`, treats every failure of the lookup as a miss, and always deletes the
    target first. It records the entry without waiting for the populate callback.
  - Each manager operation is a function on a `World` (file system, registry, index),
    and the class methods take the same steps against the shared `WrapperFS` and
    `MemoryCache` objects.
- **The helpers of the component.** `CacheContextValue` (`CacheContext`) is a class
  whose `#loaded` map is only ever read. `getLoaderSize`, `AddPathPrefix`,
  `getCacheManagerOptions` and the choice between loader, fallback and image are in
  `CacheableImage`.

## Where the code and its comments disagree

The model follows the code in each of these cases.

- The comment on `deleteFile` says it removes the file "if it exists"
  (utils/fsUtils.js:153-154). The code stats the path first, and on a missing path the
  stat rejects, so deleting a missing file fails instead of doing nothing
  (utils/fsUtils.js:158-168).
- The comment on `deleteUrl` says it deletes the entry and the file
  (src/CacheManager.js:112-113). For a url whose file is gone, it removes the entry and
  then fails (src/CacheManager.js:130-131).
- The comment in the older `cacheUrl` says the leftover file must be removed by hand
  (CacheManager.js:40). The code deletes the target before populating and does not
  catch that failure. So a url with no leftover file at its target always fails, and is
  never populated (CacheManager.js:61).
- The comments on `getDirInfo` and `getCacheInfo` promise the total size as a number
  (utils/fsUtils.js:194-196, src/CacheManager.js:147-150). The code sums `size` over the
  top-level entries only (utils/fsUtils.js:202). A sub-directory's entry is an array,
  which has no `size`, so an empty directory gives 0 and a directory holding only
  sub-directories gives undefined. The cache location holds only host bucket
  directories, so its reported size is undefined.
- The comment on `downloadFile` says a failed or stopped download deletes the partial
  file (utils/fsUtils.js:86-90). The catch block only logs and rethrows, so the tmp file
  stays (utils/fsUtils.js:145-148).
- The comment on `cleanDir` says it removes the contents of the directory
  (utils/fsUtils.js:179). For a directory whose name looks like a file, such as
  `/data/img.dir`, it unlinks the directory and then ensures its parent, so the
  directory itself is gone and is not created again (utils/fsUtils.js:182-192 with
  20-29).

## Model

| member | source | states |
|---|---|---|
| `PathUtils.SortByKey` | utils/pathUtils.js:10 | the sorted parameters are the same parameters, as many as before |
| `PathUtils.SortByKeyCorrect` | utils/pathUtils.js:7-13 | `sortBy` by name orders the pairs by name and keeps exactly the same pairs; with unique names the order is strict |
| `PathUtils.SerializeObjectKeys` | utils/pathUtils.js:7-13 | the values of the pairs sorted by name; its properties are `SortByKeyCorrect` and `SerializeOrderIndependent` |
| `PathUtils.SerializeOrderIndependent` | utils/pathUtils.js:7-13 | the serialised values do not depend on the order of the parameters in the url |
| `PathUtils.Pick` | utils/pathUtils.js:17 | `_.pick` keeps exactly the listed names that are present, once each, with their values from the query (inherited and deep-path names are under "Left out") |
| `PathUtils.PickOrderIndependent` | utils/pathUtils.js:17 | picking from two orderings of the same parameters gives the same result |
| `PathUtils.PickIgnoresUnlisted` | utils/pathUtils.js:17 | a parameter whose name is not listed does not change what is picked |
| `PathUtils.GetQueryForCacheKey` | utils/pathUtils.js:15-23 | the comma-joined values picked by a list policy, all values under `true`, nothing under `false`; its properties are `QueryForCacheKeyOrderIndependent` and `QueryForCacheKeyIgnoresUnlisted` |
| `PathUtils.QueryForCacheKeyIgnoresUnlisted` | utils/pathUtils.js:15-18 | under an allow-list, an unlisted parameter does not reach the query part of the key |
| `PathUtils.QueryForCacheKeyOrderIndependent` | utils/pathUtils.js:15-23 | the query part of the key depends only on which parameters the url has, for every policy |
| `PathUtils.CanonicalQuery` | utils/pathUtils.js:74-81 | a false policy empties the query, `true` keeps it whole, a list keeps exactly the listed parameters with their values |
| `PathUtils.CanonicalKeepsAllButQuery` | utils/pathUtils.js:74-82 | the canonical url differs from the parsed one only in its query |
| `PathUtils.GetCacheableUrl` | utils/pathUtils.js:74-83 | formats the parsed url with its query replaced by `CanonicalQuery`; its properties are `CanonicalQuery` and `CanonicalKeepsAllButQuery` |
| `PathUtils.ImageType` | utils/pathUtils.js:34-36 | the type is always one of png, jpeg, jpg, gif, bmp, tiff, tif |
| `PathUtils.ImageTypeOfExtension` | utils/pathUtils.js:34-36 | a known last extension, lower-cased, is the type; an unknown one gives `jpg` |
| `PathUtils.ImageTypeWithoutExtension` | utils/pathUtils.js:34-36 | a file name without `.` gives `jpg` |
| `PathUtils.CacheKeyOfPath` | utils/pathUtils.js:25-39 | the key is `sha1(dir + name + type + query) + "." + type` for the path `dir/name` |
| `PathUtils.CacheKeyOrderIndependent` | utils/pathUtils.js:25-39 | urls with the same path and the same parameters in any order get the same key |
| `PathUtils.GenerateCacheKey` | utils/pathUtils.js:25-40 | the hash of directory, name, type and query part, then `.` and the type; its properties are `CacheKeyOfPath` and `CacheKeyOrderIndependent` |
| `PathUtils.ReplaceDotColon` | utils/pathUtils.js:47 | replacing `.:` by `_` never lengthens the host |
| `PathUtils.SanitizeChars` | utils/pathUtils.js:47 | each character outside `[A-Za-z0-9_]` becomes `_`, the others stay |
| `PathUtils.HostBucketNameIsSafe` | utils/pathUtils.js:42-49 | the readable part of the bucket holds only lower-case letters, digits and `_`, and is no longer than the host |
| `PathUtils.HostBucketNamePerChar` | utils/pathUtils.js:47 | without `.:` in the host, each host character gives one bucket character, lower-cased or `_` |
| `PathUtils.ReplaceDotColonIdentity` | utils/pathUtils.js:47 | a host without `.:` is left as it is by the first replacement |
| `PathUtils.GetHostCachePathComponent` | utils/pathUtils.js:42-49 | the sanitised, lower-cased host, `_`, and the hash of the host; its properties are `HostBucketNameIsSafe` and `HostBucketNamePerChar` |
| `PathUtils.GetImageRelativeFilePath` | utils/pathUtils.js:64-69 | the host bucket, `/`, and the key under the policy `true`; `GetDirPathOfCacheFile` shows the file lives in the bucket |
| `PathUtils.GetImageFilePath` | utils/pathUtils.js:55-69 | the file path is the cache location, `/`, and the relative path |
| `PathUtils.CanonicalKeyUsesKeptParams` | utils/pathUtils.js:55-83 | when parsing the formatted canonical url gives back its record, the query part of its key (policy `true`) is the serialisation of exactly the parameters the canonical url kept |
| `FsUtils.GetDirPathSpec` | utils/fsUtils.js:20-29 | for `dir/name`, getDirPath gives `dir` exactly when the 4th- or 5th-from-last character is `.`, and the path unchanged otherwise |
| `FsUtils.GetDirPathOfCacheFile` | utils/fsUtils.js:20-29 | a cache file `parent/hash.type` lives in `parent` |
| `FsUtils.FileLikePathIsNotItsDir` | utils/fsUtils.js:20-29 | for a path that looks like a file, getDirPath gives a different path, so ensurePath of a file never makes a directory at the file's own path |
| `FsUtils.CacheFileLooksLikeFile` | utils/fsUtils.js:20-29 | the file a url is cached in passes getDirPath's file test, being a name ending in `.` and an image type |
| `FsUtils.GetDirPath` | utils/fsUtils.js:20-29 | drops the last segment of a path that looks like a file; its property is `GetDirPathSpec` |
| `FsUtils.Catch` | utils/fsUtils.js:46-57 | an error is swallowed exactly when its lower-cased message has "already exists" and "folder" or "directory"; otherwise it is rethrown as is |
| `FsUtils.InvalidLocationNotIgnored` | utils/fsUtils.js:41-45 | the "Invalid cacheLocation" error is not swallowed |
| `FsUtils.EnsurePathSpec` | utils/fsUtils.js:33-58 | no argument rejects; at most the directory of the path is added; an existing directory is Ok; a directory mkdir creates is added and Ok; one mkdir did not create is "Invalid cacheLocation"; a mkdir error is swallowed iff it is an "already exists" error |
| `FsUtils.EnsurePathOn` | utils/fsUtils.js:33-58 | the result and file system of ensurePath; its property is `EnsurePathSpec` |
| `FsUtils.DeleteFileSpec` | utils/fsUtils.js:158-168 | Ok iff the path exists; only a regular file is removed; a missing path rejects and nothing changes; no other path changes |
| `FsUtils.DeleteFileOn` | utils/fsUtils.js:158-168 | the result and file system of deleteFile; its property is `DeleteFileSpec` |
| `FsUtils.CopyFileSpec` | utils/fsUtils.js:174-177 | Ok iff ensurePath of the destination succeeds and the source is a file; then the destination holds a copy of the source; no path other than the destination and its directory changes |
| `FsUtils.CopyFileOn` | utils/fsUtils.js:174-177 | the result and file system of copyFile; its property is `CopyFileSpec` |
| `FsUtils.CleanDirEmpties` | utils/fsUtils.js:182-192 | a missing path rejects and nothing changes; a file is kept; nothing outside the directory changes; a directory getDirPath keeps loses everything below it and, when mkdir creates it, is there again and empty; a directory whose name looks like a file is removed and not created again |
| `FsUtils.CleanDirOn` | utils/fsUtils.js:182-192 | the result and file system of cleanDir; its property is `CleanDirEmpties` |
| `FsUtils.TransferSpec` | utils/fsUtils.js:108-139 | the destination is replaced iff the transfer is 2xx, not 304, with the announced size; then it holds that file and the tmp file is gone; otherwise the destination is untouched; the result is `false` exactly for a completed 304 |
| `FsUtils.TransferOn` | utils/fsUtils.js:108-139 | the download to the tmp file, the status and size checks and the move; its property is `TransferSpec` |
| `FsUtils.StoredRunAlwaysRejects` | utils/fsUtils.js:103-106 | as written, every run of the stored operation rejects before downloading, with the file system and the registry unchanged |
| `FsUtils.RunStoredOn` | utils/fsUtils.js:103-106 | the stored operation as written, up to the `ensurePath()` that rejects; its property is `StoredRunAlwaysRejects` |
| `FsUtils.EnsuringTargetNeverClearsEntry` | utils/fsUtils.js:139-143 | with `ensurePath(toFile)`, a complete transfer moves the file into place, then rejects on the moved tmp file; the registry is never cleared |
| `FsUtils.RunEnsuringTargetOn` | utils/fsUtils.js:103-149 | the stored operation with `ensurePath(toFile)`, the rest as written; its property is `EnsuringTargetNeverClearsEntry` |
| `FsUtils.CorrectedRunSpec` | utils/fsUtils.js:98-151 | corrected run: the entry is removed exactly when the file was moved in; 304 and failures keep the entry; a failure leaves the destination as ensurePath left it; a success on a completed non-304 transfer leaves the downloaded file and removes the entry; with mkdir able to create, an accepted transfer succeeds |
| `FsUtils.RunCorrectedOn` | utils/fsUtils.js:103-149 | the stored operation with both corrections; its property is `CorrectedRunSpec` |
| `FsUtils.SumBy` | utils/fsUtils.js:202 | lodash `sumBy(files, "size")`: 0 for no entries, undefined iff every entry is a listing |
| `FsUtils.WrapperFS.constructor` | utils/fsUtils.js:15 | the given file system and an empty `activeDownloads` |
| `FsUtils.WrapperFS.StatPath` | utils/fsUtils.js:160 | the node at a present path; a missing path rejects |
| `FsUtils.WrapperFS.Mkdir` | utils/fsUtils.js:40 | creates the directory, resolves without creating it, or rejects with its message, as the outcome says |
| `FsUtils.WrapperFS.Unlink` | utils/fsUtils.js:163 | removes a file, or a directory with everything below it |
| `FsUtils.WrapperFS.MoveFile` | utils/fsUtils.js:139 | moves the node to the new path; a missing source rejects and nothing changes |
| `FsUtils.WrapperFS.Fetch` | utils/fsUtils.js:109-116 | writes the bytes to the tmp file and returns the status, or rejects and changes nothing |
| `FsUtils.WrapperFS.Exists` | utils/fsUtils.js:214-216 | true exactly for a present file or directory |
| `FsUtils.WrapperFS.EnsurePath` | utils/fsUtils.js:33-58 | the result and the new file system are those of `EnsurePathOn` |
| `FsUtils.WrapperFS.DeleteFile` | utils/fsUtils.js:158-168 | the result and the new file system are those of `DeleteFileOn` |
| `FsUtils.WrapperFS.CopyFile` | utils/fsUtils.js:174-177 | the result and the new file system are those of `CopyFileOn` |
| `FsUtils.WrapperFS.CleanDir` | utils/fsUtils.js:182-192 | the result and the new file system are those of `CleanDirOn` |
| `FsUtils.WrapperFS.DownloadFile` | utils/fsUtils.js:95-152 | registers `toFile` with tmp `toFile.tmp` only if absent; repeated calls return the stored operation; the registry stays keyed by destination |
| `FsUtils.WrapperFS.Transfer` | utils/fsUtils.js:108-139 | the transfer steps give the result and file system of `TransferOn` |
| `FsUtils.WrapperFS.RunStoredDownload` | utils/fsUtils.js:103-149 | running the stored operation as written is `RunStoredOn` |
| `FsUtils.WrapperFS.RunDownloadEnsuringTarget` | utils/fsUtils.js:103-149 | the run with `ensurePath(toFile)` is `RunEnsuringTargetOn` |
| `FsUtils.WrapperFS.RunDownloadCorrected` | utils/fsUtils.js:103-149 | the run with both corrections is `RunCorrectedOn` |
| `FsUtils.WrapperFS.CollectFilesInfo` | utils/fsUtils.js:63-77 | a file gives its stat; a directory gives one result per entry, each entry once, recursively |
| `FsUtils.WrapperFS.GetDirInfo` | utils/fsUtils.js:198-210 | a missing path rejects, a file throws "Dir does not exists in 'getDirInfo'", a directory gives its entries and their `sumBy` |
| `MemoryCacheIndex.GetOn` | src/CacheManager.js:57 | a lookup rejects exactly when the storage does, for a present key or not, and then changes nothing; otherwise it returns a present entry's value or undefined, undefined meaning the key is gone; the index is kept or loses only that key |
| `MemoryCacheIndex.MemoryCache.Get` | src/CacheManager.js:57 | the lookup result and the new index are those of `GetOn` |
| `MemoryCacheIndex.MemoryCache.Set` | src/CacheManager.js:50 | records the value with its ttl under the key |
| `MemoryCacheIndex.MemoryCache.Remove` | src/CacheManager.js:130 | drops the key |
| `MemoryCacheIndex.MemoryCache.Flush` | src/CacheManager.js:141 | empties the index |
| `CacheOptions.DefaultOptions` | src/CacheManager.js:17-23 | defaults: no headers, ttl 1209600 s (two weeks), policy false, location `<caches dir>/imagesCacheDir` |
| `CacheOptions.GetCacheDir` | utils/fsUtils.js:83-85 | `<caches dir>/imagesCacheDir`; `DefaultLocationIsDirectoryPath` shows ensurePath keeps it as is |
| `CacheOptions.Over` | src/CacheManager.js:80-89 | the object spread of partial options over complete ones; its property is `OptionPrecedence` |
| `CacheOptions.OptionPrecedence` | src/CacheManager.js:80-89 | each option comes from the call, else the constructor, else the defaults; a call without options sees the instance options |
| `CacheOptions.FillDefaults` | CacheManager.js:37 | `_.defaults` leaves no option missing |
| `CacheOptions.FillDefaultsSpec` | CacheManager.js:37 | `_.defaults` keeps present options, fills missing ones, a second fill changes nothing, and the outcome equals the spread over the defaults |
| `CacheOptions.OptionsObject.AssignDefaults` | CacheManager.js:69 | the options object is filled in place |
| `CacheEngine.IsCacheableSpec` | src/CacheManager.js:28-34 | cacheable iff a string whose first 7 characters, lower-cased, are `http://` or whose first 8 are `https://` |
| `CacheEngine.IsCacheable` | src/CacheManager.js:28-34 | the cacheability test; its property is `IsCacheableSpec` |
| `CacheEngine.PopulateOn` | src/CacheManager.js:93-94 | populate never touches the index; a download populate succeeds without touching the disk and only registers the operation |
| `CacheEngine.UncacheableRejects` | src/CacheManager.js:41-43 | an uncacheable url rejects with "Url is not cacheable" and nothing changes |
| `CacheEngine.HitReturnsCachedFile` | src/CacheManager.js:62-65 | a live, non-empty entry whose file exists is returned with nothing populated and nothing changed |
| `CacheEngine.NewCacheSpec` | src/CacheManager.js:44-52 | a failure leaves the index as it was; a success records `canonical -> rel` with the ttl and returns `location/rel`; a file already at the target is deleted first, so afterwards the target is gone or holds a copy of the seed file |
| `CacheEngine.ClearThenPopulate` | src/CacheManager.js:47-49 | after the exists/deleteFile step and populate, an old file at the target is gone unless the seed file was copied over it |
| `CacheEngine.NewCacheOn` | src/CacheManager.js:44-52 | clear the target, await populate, record the relative path; its property is `NewCacheSpec` |
| `CacheEngine.CacheUrlSpec` | src/CacheManager.js:40-73 | a failure records nothing (an expired entry may be dropped); a success returns the file the index now records, either the entry found or a fresh one with the ttl |
| `CacheEngine.CacheUrlOn` | src/CacheManager.js:40-73 | the result and world of cacheUrl; its properties are `CacheUrlSpec`, `HitReturnsCachedFile`, `MissRepopulates` and `MaterialisedThenHit` |
| `CacheEngine.CacheUrlKeepsIndexConsistent` | src/CacheManager.js:50 | every entry keeps naming the relative file path of its own key |
| `CacheEngine.MissRepopulates` | src/CacheManager.js:58-59 | with no usable entry, cacheUrl is NewCache |
| `CacheEngine.MaterialisedThenHit` | src/CacheManager.js:57-65 | once a returned file exists, asking again returns it and changes nothing |
| `CacheEngine.SeedMaterialises` | src/CacheManager.js:104-111 | a successful seed returns either the file it found, with the disk unchanged, or a copy of the seed file made at a different path; either way the url then hits whatever the next populate |
| `CacheEngine.DownloadNeverMaterialises` | src/CacheManager.js:88-96 | a download succeeds unless the lookup rejects, but never writes the file: an existing returned path was there before and the disk is unchanged; otherwise the registry holds its operation |
| `CacheEngine.PopulateByRunningSpec` | utils/fsUtils.js:103-151 | running the registered operation keeps the index; on a completed non-304 transfer a success leaves the file in place; with mkdir able to create, an accepted transfer succeeds |
| `CacheEngine.DownloadByRunningMaterialises` | src/CacheManager.js:44-52 | with the operation run and awaited, a completed download leaves the file and the url then hits; a failure records no entry; with mkdir able to create, an accepted transfer completes |
| `CacheEngine.CacheThenDeleteUrl` | src/CacheManager.js:118-135 | deleteUrl after cacheUrl removes the entry and the returned file; a file that is gone makes deleteUrl reject |
| `CacheEngine.DeleteUrlOn` | src/CacheManager.js:118-135 | the result and world of deleteUrl; its property is `CacheThenDeleteUrl` |
| `CacheEngine.DefaultLocationIsDirectoryPath` | utils/fsUtils.js:83-85 | ensurePath keeps the default location as it is |
| `CacheEngine.ClearCacheSpec` | src/CacheManager.js:140-143 | the index is emptied, nothing is left below the location, and every url is then a miss, unless the storage rejects the lookup |
| `CacheEngine.ClearCacheOn` | src/CacheManager.js:140-143 | flush the index, then cleanDir of the location; its property is `ClearCacheSpec` |
| `CacheEngine.CacheManager.constructor` | src/CacheManager.js:79-81 | the options are the defaults overridden by the given ones |
| `CacheEngine.CacheManager.Populate` | src/CacheManager.js:93-109 | the populate callback's effect is `PopulateOn` |
| `CacheEngine.CacheManager.NewCache` | src/CacheManager.js:44-52 | the steps give the result and state of `NewCacheOn` |
| `CacheEngine.CacheManager.CacheUrl` | src/CacheManager.js:40-73 | the steps give the result and state of `CacheUrlOn` |
| `CacheEngine.CacheManager.DownloadAndCacheUrl` | src/CacheManager.js:88-96 | cacheUrl under the merged options, downloading with the call's own headers |
| `CacheEngine.CacheManager.SeedAndCacheUrl` | src/CacheManager.js:104-111 | cacheUrl under the merged options, copying the seed file |
| `CacheEngine.CacheManager.DeleteUrl` | src/CacheManager.js:118-135 | the result and state of `DeleteUrlOn` under the merged options |
| `CacheEngine.CacheManager.ClearCache` | src/CacheManager.js:140-143 | the result and state of `ClearCacheOn` for the instance location |
| `CacheEngine.CacheManager.GetCacheInfo` | src/CacheManager.js:151-153 | getDirInfo of the instance location |
| `LegacyCacheEngine.SameCacheableTest` | CacheManager.js:20-26 | the older cacheability test is the newer one |
| `LegacyCacheEngine.IsCacheable` | CacheManager.js:20-26 | the older cacheability test; its property is `SameCacheableTest` |
| `LegacyCacheEngine.RepopulateOn` | CacheManager.js:57-65 | delete the target, then the un-awaited populate, then record the entry; its properties are `LegacyMissWithoutFileFails` and `LegacyIndexSetWhenSeedFails` |
| `LegacyCacheEngine.CacheUrlOn` | CacheManager.js:32-66 | the result, world and filled options object of the older cacheUrl; its properties are `LegacyUncacheableRejects`, `LegacyHit` and the two above |
| `LegacyCacheEngine.LegacyUncacheableRejects` | CacheManager.js:33-35 | an uncacheable url rejects before the options object is filled, and nothing changes |
| `LegacyCacheEngine.LegacyHit` | CacheManager.js:42-51 | a live entry whose file exists is returned; the call's options object comes back filled |
| `LegacyCacheEngine.LegacyMissWithoutFileFails` | CacheManager.js:57-61 | without a hit and without a leftover file the deleteFile rejects: no populate, no entry, disk unchanged |
| `LegacyCacheEngine.LegacyIndexSetWhenSeedFails` | CacheManager.js:59-64 | with a leftover file the entry is recorded and the path returned even when the seed file is missing, leaving no file at that path |
| `LegacyCacheEngine.CacheManager.constructor` | CacheManager.js:68-71 | the instance keeps the given options object, filled in place |
| `LegacyCacheEngine.CacheManager.Populate` | CacheManager.js:62 | the un-awaited callback's effects take place and its outcome is dropped |
| `LegacyCacheEngine.CacheManager.Repopulate` | CacheManager.js:57-65 | the catch block gives the result and state of `RepopulateOn` |
| `LegacyCacheEngine.CacheManager.CacheUrl` | CacheManager.js:32-66 | the steps give the result, the state and the filled options object of `CacheUrlOn` |
| `LegacyCacheEngine.CacheManager.DownloadAndCacheUrl` | CacheManager.js:77-81 | cacheUrl with the call's options object only, downloading |
| `LegacyCacheEngine.CacheManager.SeedAndCacheUrl` | CacheManager.js:88-92 | cacheUrl with the call's options object only, seeding |
| `LegacyCacheEngine.CacheManager.DeleteUrl` | CacheManager.js:98-118 | rejects an uncacheable url untouched; otherwise fills the call's options, drops the entry, deletes the file |
| `LegacyCacheEngine.CacheManager.ClearCache` | CacheManager.js:122-125 | flush, then cleanDir of the instance location |
| `LegacyCacheEngine.CacheManager.GetCacheInfo` | CacheManager.js:129-131 | getDirInfo of the instance location |
| `CacheContext.GetCachedOn` | src/CacheContext.js:13-16 | a non-string url throws "url argument must be string"; a string gives `#loaded[url]` as an own key, undefined iff absent (inherited members are under "Left out") |
| `CacheContext.SetCachedOn` | src/CacheContext.js:17-25 | the url is checked first, then the path, each with its own message |
| `CacheContext.SetCachedRecordsNothing` | src/CacheContext.js:19-21 | a valid setCached answers what getCached answers, so it returns the given path only if it was already there |
| `CacheContext.CacheContextValue.constructor` | src/CacheContext.js:9-12 | the given manager, or a fresh one with the default options; `#loaded` starts empty |
| `CacheContext.CacheContextValue.GetCached` | src/CacheContext.js:13-16 | `GetCachedOn` of the map; on a fresh instance any string url gives undefined (except inherited names, under "Left out") |
| `CacheContext.CacheContextValue.SetCached` | src/CacheContext.js:17-25 | `SetCachedOn` of the map, which it does not change |
| `CacheableImage.GetLoaderSize` | src/CacheableImage.js:64-70 | never above 80; exactly 80 when the smaller side is at least 85, otherwise that side minus 5 |
| `CacheableImage.LoaderSizeProperties` | src/CacheableImage.js:64-66 | a non-number counts as 16, so two give 11; a larger side never gives a smaller loader |
| `CacheableImage.AddPathPrefix` | src/CacheableImage.js:74 | the path behind `file://` |
| `CacheableImage.GetCacheManagerOptions` | src/CacheableImage.js:57-59 | keeps exactly the props named like the default options, with their values |
| `CacheableImage.CacheManagerOptionsPick` | src/CacheableImage.js:37-43 | picking again changes nothing; option-only props pass whole; props with no option give `{}` |
| `CacheableImage.RenderBranchSpec` | src/CacheableImage.js:217-236 | loader iff cacheable, uncached and online; fallback iff given, uncached and no loader; the cached `file://` source iff cacheable with a cached path; the original source otherwise |
| `CacheableImage.RenderBranch` | src/CacheableImage.js:217-236 | the branch render takes; its property is `RenderBranchSpec` |

## Left out

- React rendering, hooks, effects, `InteractionManager`, `useNetInfo`, styles and `React.createContext`: these are UI, not engine state.
- The older `CacheableImage.js` keeps only its loader after line 183; the code after that line is dead. `index.d.ts` and `index.js` only declare and re-export.
- Promise interleaving: operations run one after another. Concurrent callers of `activeDownloads` and the parallel `Promise.all` of `collectFilesInfo` are not modelled.
- The order in which `readdir` lists entries is not fixed: `CollectFilesInfo` may list the entries in any order. Each nested result carries the directory it lists, which the plain JavaScript array does not.
- SHA-1 and url-parse are foreign functions passed in. No property of the hash, such as collision freedom, is assumed.
- The `MemoryCache` clock and its persistent storage: expiry is the `Lookup` parameter.
- Foreign outcomes are parameters. `mkdir` comes as `MkdirOutcome`, the transfer as `Transfer`, and the platform caches directory as a string.
- `mkdir` creating missing parent directories is not modelled; only the directory asked for is added.
- The headers handed to the transfer are stored in the operation but do not influence the `Transfer` outcome.
- The texts of foreign errors (a missing path, the TypeError of `ensurePath()`) are not modelled; they are `NoSuchPath` and `UndefinedPath`.
- An option key that is present but `undefined` is treated as absent. The object spread would copy it, while `_.defaults` would fill it.
- Lower-casing covers ASCII letters only.
- Strings are sequences of Unicode characters, while JavaScript counts UTF-16 code units. A character outside the Basic Multilingual Plane is one `_` in the host bucket where JavaScript writes two; the positions getDirPath checks are counted in characters; and parameter names are ordered by character, not by code unit.
- `PathUtils.Pick`: treats the query as a plain list of pairs. `_.pick` tests each listed name with `hasIn`, so a listed name that every object inherits, such as `toString`, is picked even when the query lacks it, and a dotted name that is not a key is read as a deep path. The model picks only the names the query has.
- `CacheContext.GetCachedOn`: treats `#loaded` as a plain map. In JavaScript, `#loaded[url]` on `{}` also finds the members inherited from `Object.prototype`: `getCached("constructor")` gives `Object` and `getCached("__proto__")` gives `Object.prototype`, where the model gives undefined. The same holds for `setCached`, which reads the same way.
- `CacheContext.CacheContextValue.GetCached`: "any string url gives undefined on a fresh instance" holds only for urls that are not names of `Object.prototype` members, for the reason above.
- `_.pick` builds an object, which lists integer-like names first; `Pick` keeps the order of the list. This changes the order of the query in the canonical url, not the cache key, which sorts by name.
- Numbers are integers: floating-point widths, `NaN` and `Infinity` in `getLoaderSize`, and non-integer status codes are not modelled.
- `allowSelfSignedSSL` is carried in the options but never read by the engine. `console.log` output is not modelled.
- `FsUtils.WrapperFS.CollectFilesInfo`: requires the path to exist, so the `null` that its catch block returns for a failed stat or readdir is not modelled; its only caller, `getDirInfo`, calls it on an existing directory.
- `LegacyCacheEngine.CacheManager.ClearCache` and `LegacyCacheEngine.CacheManager.GetCacheInfo`: require the instance options to be complete. The constructor fills them and every other method keeps them complete.
- `isInternetReachable` is a boolean; `useNetInfo`'s `null` (unknown) is passed as false.

## Findings

| source | as written | input that shows it | evidently intended | confidence | as-written member | corrected member |
|---|---|---|---|---|---|---|
| utils/fsUtils.js:106 | the stored operation calls `ensurePath()` with no argument, so getDirPath reads `charAt` of `undefined` and throws | any call of the function `downloadFile(u, "/c/h/k.png", {})` returns | `ensurePath(toFile)`, so that the transfer runs | not executed | `FsUtils.StoredRunAlwaysRejects` | `FsUtils.CorrectedRunSpec` |
| utils/fsUtils.js:139-143 | after `moveFile(tmpFile, toFile)`, `deleteFile(tmpFile)` stats a path that no longer exists and rejects, so `delete activeDownloads[toFile]` is never reached | with the first fix applied: status 200 and a content length equal to the bytes written | the entry is deleted and `toFile` is resolved after the move | not executed | `FsUtils.EnsuringTargetNeverClearsEntry` | `FsUtils.CorrectedRunSpec` |
| src/CacheManager.js:93-94 | the download callback awaits `downloadFile(...)`, which returns the stored operation without calling it | `downloadAndCacheUrl("https://h/a.png")` on an empty cache resolves to a path, records it, and leaves no file there | the stored operation is called and awaited, so the file is in place before the entry is recorded | not executed | `CacheEngine.DownloadNeverMaterialises` | `CacheEngine.DownloadByRunningMaterialises` |

The managers model the code as written. The corrected definitions (`RunCorrectedOn`,
`NewCacheByRunningOn`) stand beside them, with the intended properties proved.
