/** The file operations of `utils/fsUtils.js` over an abstract file system:
    a map from absolute path to node. The react-native-fs primitives (exists,
    stat, mkdir, unlink, moveFile, copyFile, readdir, downloadFile) are
    methods of `WrapperFS` acting on that map; what a foreign primitive may
    decide on its own (a failed mkdir, the outcome of a transfer) comes in as
    a parameter. */
module FsUtils {
  import opened Common
  import opened Text
  import PathUtils

  datatype Node = File(size: nat) | Dir

  type Disk = map<string, Node>

  /** The stored download operation: what the function registered in
      `activeDownloads` closes over. */
  datatype DownloadOp = DownloadOp(fromUrl: string, toFile: string, tmpFile: string, headers: Option<Headers>)

  type Registry = map<string, DownloadOp>

  /** What `mkdir` does with a missing directory. */
  datatype MkdirOutcome =
    | Creates                 // the directory now exists
    | CreatesNothing          // resolves, yet nothing was created (a bad user-defined location)
    | Throws(message: string) // rejects with this message

  /** What the download primitive reports: the status, the size announced by
      its `begin` callback and the bytes it wrote to the temporary file; or a
      rejection. */
  datatype Transfer =
    | Completed(statusCode: nat, contentLength: int, bytesWritten: nat)
    | TransferFailed(message: string)

  /** What `collectFilesInfo` yields: a file's stat result, or the array of
      results for a directory's entries. The array is labelled with the
      directory it lists. */
  datatype FileInfo = Stat(path: string, size: nat) | Listing(dir: string, items: seq<FileInfo>) {
    function PathOf(): string {
      if Stat? then path else dir
    }
  }

  /** The value `getDirInfo` resolves to; `size` is None when lodash's `sumBy` yields undefined. */
  datatype DirInfo = DirInfo(files: seq<FileInfo>, size: Option<nat>)

  // ---- getDirPath ----

  /** `path.charAt(i) === "."`; `charAt` outside the string gives "". */
  predicate DotAt(path: string, i: int) {
    0 <= i < |path| && path[i] == '.'
  }

  /** A path whose 4th- or 5th-from-last character is `.` names a file. */
  predicate LooksLikeFile(path: string) {
    DotAt(path, |path| - 4) || DotAt(path, |path| - 5)
  }

  /** `getDirPath`. */
  function GetDirPath(path: string): string {
    if LooksLikeFile(path) then
      var parts := Split(path, '/');
      Join(parts[..|parts| - 1], '/')
    else path
  }

  /** For a path that looks like a file, getDirPath drops the last `/`-segment;
      for any other path it gives the path back. */
  lemma GetDirPathSpec(dir: string, name: string)
    requires '/' !in name
    ensures LooksLikeFile(dir + "/" + name) ==> GetDirPath(dir + "/" + name) == dir
    ensures !LooksLikeFile(dir + "/" + name) ==> GetDirPath(dir + "/" + name) == dir + "/" + name
  {
    assert dir + "/" + name == dir + ['/'] + name;
    SplitLast(dir, '/', name);
  }

  /** getDirPath of a path that looks like a file is a different, shorter path, so
      ensurePath of a file never creates a directory at the file's own path. */
  lemma FileLikePathIsNotItsDir(path: string)
    requires LooksLikeFile(path)
    ensures GetDirPath(path) != path
  {
    if '/' in path {
      var i := LastSeparator(path, '/');
      var dir, name := path[..i], path[i + 1..];
      assert path == dir + "/" + name;
      GetDirPathSpec(dir, name);
    } else {
      SplitWithoutSeparator(path, '/');
    }
  }

  /** A path ending in `.` and a default image type looks like a file. */
  lemma TypedPathLooksLikeFile(stem: string, t: string)
    requires t in PathUtils.DefaultImageTypes
    ensures LooksLikeFile(stem + "." + t)
  {
    var path := stem + "." + t;
    assert path[|path| - |t| - 1] == '.';
  }

  /** The file a url is cached in looks like a file: it ends in `.` and an image type. */
  lemma CacheFileLooksLikeFile(f: PathUtils.Foreign, location: string, url: string)
    ensures LooksLikeFile(location + "/" + PathUtils.GetImageRelativeFilePath(f, url))
  {
    var u := f.parse(url);
    var t := PathUtils.ImageType(PathUtils.FileName(u.pathname));
    var stem := location + "/" + PathUtils.GetHostCachePathComponent(f, url) + "/" + f.sha1(PathUtils.HashInput(u, PathUtils.Flag(true)));
    assert location + "/" + PathUtils.GetImageRelativeFilePath(f, url) == stem + "." + t;
    TypedPathLooksLikeFile(stem, t);
  }

  /** A cache file `parent/hash.type` lives in `parent`. */
  lemma GetDirPathOfCacheFile(parent: string, hash: string, t: string)
    requires t in PathUtils.DefaultImageTypes && '/' !in hash
    ensures GetDirPath(parent + "/" + (hash + "." + t)) == parent
  {
    var name := hash + "." + t;
    assert '/' !in name by {
      assert forall i :: 0 <= i < |t| ==> t[i] != '/';
    }
    var path := parent + "/" + name;
    assert path[|path| - |t| - 1] == '.';
    assert LooksLikeFile(path);
    GetDirPathSpec(parent, name);
  }

  // ---- ensurePath ----

  /** The errors `ensurePath` swallows: "already exists" with "folder" or "directory", in any case. */
  predicate IsIgnoredMkdirError(message: string) {
    var m := Lower(message);
    Contains(m, "already exists") && (Contains(m, "folder") || Contains(m, "directory"))
  }

  /** The `catch` block of `ensurePath`. */
  function Catch(e: Error): (r: Result<()>)
    ensures r.Ok? <==> IsIgnoredMkdirError(e.Message())
    ensures r.Err? ==> r.error == e
  {
    if IsIgnoredMkdirError(e.Message()) then Ok(()) else Err(e)
  }

  lemma ContainsChar(s: string, sub: string, j: nat)
    requires Contains(s, sub) && j < |sub|
    ensures sub[j] in s
  {
    var i :| 0 <= i <= |s| - |sub| && OccursAt(s, sub, i);
    assert s[i + j] == s[i..i + |sub|][j];
  }

  /** The error "Invalid cacheLocation" is not swallowed. */
  lemma InvalidLocationNotIgnored()
    ensures !IsIgnoredMkdirError("Invalid cacheLocation")
  {
    var m := Lower("Invalid cacheLocation");
    assert 'y' !in m by {
      assert forall i :: 0 <= i < |m| ==> m[i] == LowerChar("Invalid cacheLocation"[i]);
    }
    if Contains(m, "already exists") {
      ContainsChar(m, "already exists", 6);
    }
  }

  /** `ensurePath(path)` on the file system `disk`: the result and the new file system. */
  function EnsurePathOn(disk: Disk, path: Option<string>, mkdir: MkdirOutcome): (Result<()>, Disk) {
    match path
    case None => (Err(UndefinedPath), disk)
    case Some(p) =>
      var d := GetDirPath(p);
      if d in disk then (Ok(()), disk)
      else
        match mkdir
        case Creates => (Ok(()), disk[d := Dir])
        case CreatesNothing => (Catch(Thrown("Invalid cacheLocation")), disk)
        case Throws(m) => (Catch(Rejected(m)), disk)
  }

  /** ensurePath changes nothing but possibly adds the directory it was asked for;
      without an argument it rejects with a TypeError; a directory that mkdir did not
      create is "Invalid cacheLocation"; a mkdir error is swallowed exactly when it
      says the folder or directory already exists. */
  lemma EnsurePathSpec(disk: Disk, path: Option<string>, mkdir: MkdirOutcome)
    ensures var (r, disk') := EnsurePathOn(disk, path, mkdir);
      && (path.None? ==> r == Err(UndefinedPath) && disk' == disk)
      && (path.Some? ==> disk' == disk || disk' == disk[GetDirPath(path.value) := Dir])
      && (path.Some? && GetDirPath(path.value) in disk ==> r == Ok(()) && disk' == disk)
      && (path.Some? && GetDirPath(path.value) !in disk && mkdir == Creates ==>
            r == Ok(()) && disk' == disk[GetDirPath(path.value) := Dir])
      && (path.Some? && GetDirPath(path.value) !in disk && mkdir == CreatesNothing ==>
            r == Err(Thrown("Invalid cacheLocation")) && disk' == disk)
      && (path.Some? && GetDirPath(path.value) !in disk && mkdir.Throws? ==>
            disk' == disk && (r.Ok? <==> IsIgnoredMkdirError(mkdir.message)))
      && (r.Ok? && !mkdir.Throws? ==> GetDirPath(path.value) in disk')
  {
    InvalidLocationNotIgnored();
  }

  // ---- deleteFile, copyFile, cleanDir ----

  /** Every path at or below `dir`. */
  predicate AtOrBelow(k: string, dir: string) {
    k == dir || StartsWith(k, dir + "/")
  }

  /** The file system after `unlink(dir)` of a directory: the whole subtree is gone. */
  function RemoveTree(disk: Disk, dir: string): (d: Disk)
    ensures forall k :: k in d <==> k in disk && !AtOrBelow(k, dir)
    ensures forall k :: k in d ==> d[k] == disk[k]
  {
    map k | k in disk && !AtOrBelow(k, dir) :: disk[k]
  }

  /** `deleteFile`: stat (which rejects on a missing path), then unlink only a regular file. */
  function DeleteFileOn(disk: Disk, path: string): (Result<()>, Disk) {
    if path !in disk then (Err(NoSuchPath(path)), disk)
    else if disk[path].File? then (Ok(()), disk - {path})
    else (Ok(()), disk)
  }

  /** deleteFile removes exactly a regular file, leaves a directory alone, and
      propagates the rejection of stat on a missing path. */
  lemma DeleteFileSpec(disk: Disk, path: string)
    ensures var (r, disk') := DeleteFileOn(disk, path);
      && (r.Ok? <==> path in disk)
      && (r.Err? ==> r.error == NoSuchPath(path) && disk' == disk)
      && ((path !in disk') <==> (path !in disk || disk[path].File?))
      && forall k :: k != path ==> (k in disk' <==> k in disk) && (k in disk ==> disk'[k] == disk[k])
  {
  }

  /** `copyFile`: ensurePath of the destination, then copy a regular file. */
  function CopyFileOn(disk: Disk, from: string, to: string, mkdir: MkdirOutcome): (Result<()>, Disk) {
    var (r1, d1) := EnsurePathOn(disk, Some(to), mkdir);
    if r1.Err? then (r1, d1)
    else if from in d1 && d1[from].File? then (Ok(()), d1[to := d1[from]])
    else (Err(NoSuchPath(from)), d1)
  }

  /** A successful copy puts a file of the source's size at the destination; apart from
      the destination and the directory ensurePath may add, nothing changes. */
  lemma CopyFileSpec(disk: Disk, from: string, to: string, mkdir: MkdirOutcome)
    ensures var (r, disk') := CopyFileOn(disk, from, to, mkdir);
      r.Ok? <==> (EnsurePathOn(disk, Some(to), mkdir).0.Ok? && from in disk && disk[from].File?)
    ensures var (r, disk') := CopyFileOn(disk, from, to, mkdir);
      r.Ok? ==> to in disk' && disk'[to] == disk[from]
    ensures var (r, disk') := CopyFileOn(disk, from, to, mkdir);
      forall k :: k != to && k != GetDirPath(to) ==> (k in disk' <==> k in disk) && (k in disk ==> disk'[k] == disk[k])
  {
  }

  /** A successful copy read a file that was there before ensurePath ran. */
  lemma CopySourceWasFile(disk: Disk, from: string, to: string, mkdir: MkdirOutcome)
    ensures var (r, disk') := CopyFileOn(disk, from, to, mkdir);
      r.Ok? ==> from in disk && disk[from].File? && to in disk' && disk'[to] == disk[from]
  {
  }

  /** `cleanDir`: stat (rejecting on a missing path), unlink a directory, then ensurePath. */
  function CleanDirOn(disk: Disk, dir: string, mkdir: MkdirOutcome): (Result<()>, Disk) {
    if dir !in disk then (Err(NoSuchPath(dir)), disk)
    else
      var d1 := if disk[dir].Dir? then RemoveTree(disk, dir) else disk;
      EnsurePathOn(d1, Some(dir), mkdir)
  }

  /** cleanDir rejects on a missing path and keeps a file; it never touches a path
      outside the directory. Cleaning a directory whose path getDirPath keeps removes
      everything below it, and when mkdir creates it again the directory is present and
      empty. A directory whose name looks like a file (`/data/img.dir`) is removed and
      not created again, since ensurePath then ensures its parent. */
  lemma CleanDirEmpties(disk: Disk, dir: string, mkdir: MkdirOutcome)
    ensures var (r, disk') := CleanDirOn(disk, dir, mkdir);
      && (dir !in disk ==> r == Err(NoSuchPath(dir)) && disk' == disk)
      && (forall k :: k in disk && !AtOrBelow(k, dir) ==> k in disk' && disk'[k] == disk[k])
      && (dir in disk && disk[dir].File? ==> dir in disk' && disk'[dir] == disk[dir])
      && (dir in disk && disk[dir] == Dir && GetDirPath(dir) == dir ==>
            && (forall k :: k in disk' && k != dir ==> k in disk && !StartsWith(k, dir + "/"))
            && (mkdir == Creates ==> r == Ok(()) && dir in disk' && disk'[dir] == Dir))
      && (dir in disk && disk[dir] == Dir && GetDirPath(dir) != dir ==> dir !in disk')
  {
  }

  // ---- the download operation ----

  /** The transfer of the stored operation (`downloadF` to the temporary file, the status
      check, the size check, `moveFile`): Ok(false) for 304, Ok(true) after the move. */
  function TransferOn(disk: Disk, op: DownloadOp, t: Transfer): (Result<bool>, Disk) {
    match t
    case TransferFailed(m) => (Err(Rejected(m)), disk)
    case Completed(code, announced, written) =>
      var d1 := disk[op.tmpFile := File(written)];
      if code == 304 then (Ok(false), d1)
      else if code / 100 != 2 then (Err(Thrown("Cannot download image, status code: " + NatToString(code))), d1)
      else if announced != written then (Err(Thrown("Download failed, the image could not be fully downloaded")), d1)
      else (Ok(true), (d1 - {op.tmpFile})[op.toFile := File(written)])
  }

  /** A transfer the download accepts: 2xx other than 304, with as many bytes written as
      were announced. */
  predicate Accepted(t: Transfer) {
    t.Completed? && t.statusCode != 304 && 200 <= t.statusCode < 300 && t.contentLength == t.bytesWritten
  }

  /** An operation as `downloadFile` registers it. */
  predicate WellFormedOp(op: DownloadOp) {
    op.tmpFile == op.toFile + ".tmp"
  }

  /** The destination is replaced only by a 2xx, non-304 transfer whose size matches
      the announced length; then it holds a file of that size and the temporary file is
      gone. Otherwise the destination is untouched. The result is `false` exactly for
      a completed 304. */
  lemma TransferSpec(disk: Disk, op: DownloadOp, t: Transfer)
    requires WellFormedOp(op)
    ensures var (r, disk') := TransferOn(disk, op, t);
      && (r == Ok(true) <==> Accepted(t))
      && (r == Ok(true) ==> op.toFile in disk' && disk'[op.toFile] == File(t.bytesWritten) && op.tmpFile !in disk')
      && (r != Ok(true) ==> (op.toFile in disk' <==> op.toFile in disk) && (op.toFile in disk ==> disk'[op.toFile] == disk[op.toFile]))
      && (r == Ok(false) <==> t.Completed? && t.statusCode == 304)
  {
    assert op.toFile != op.tmpFile by {
      assert |op.tmpFile| == |op.toFile| + 4;
    }
  }

  /** Every registered operation is filed under its destination, with the temporary
      file beside it. */
  ghost predicate RegistryKeyed(reg: Registry) {
    forall k :: k in reg ==> reg[k].toFile == k && WellFormedOp(reg[k])
  }

  /** The stored operation as written: `ensurePath()` without an argument rejects first. */
  function RunStoredOn(disk: Disk, reg: Registry, op: DownloadOp): (Result<string>, Disk, Registry) {
    var (r1, d1) := EnsurePathOn(disk, None, Creates);
    (Err(r1.error), d1, reg)
  }

  /** The stored operation with `ensurePath(toFile)`, the rest as written: after the move,
      `deleteFile(tmpFile)` stats the moved-away temporary file. */
  function RunEnsuringTargetOn(disk: Disk, reg: Registry, op: DownloadOp, mkdir: MkdirOutcome, t: Transfer): (Result<string>, Disk, Registry) {
    var (r1, d1) := EnsurePathOn(disk, Some(op.toFile), mkdir);
    if r1.Err? then (Err(r1.error), d1, reg)
    else
      var (r2, d2) := TransferOn(d1, op, t);
      if r2.Err? then (Err(r2.error), d2, reg)
      else if !r2.value then (Ok(op.toFile), d2, reg)
      else
        var (r3, d3) := DeleteFileOn(d2, op.tmpFile);
        if r3.Err? then (Err(r3.error), d3, reg) else (Ok(op.toFile), d3, reg - {op.toFile})
  }

  /** The stored operation with both corrections: the destination's directory is
      ensured, and after the move the entry is removed without statting the temporary file. */
  function RunCorrectedOn(disk: Disk, reg: Registry, op: DownloadOp, mkdir: MkdirOutcome, t: Transfer): (Result<string>, Disk, Registry) {
    var (r1, d1) := EnsurePathOn(disk, Some(op.toFile), mkdir);
    if r1.Err? then (Err(r1.error), d1, reg)
    else
      var (r2, d2) := TransferOn(d1, op, t);
      if r2.Err? then (Err(r2.error), d2, reg)
      else if !r2.value then (Ok(op.toFile), d2, reg)
      else (Ok(op.toFile), d2, reg - {op.toFile})
  }

  /** As written, every run of the stored operation rejects with a TypeError before
      anything is downloaded, and the registry entry stays. */
  lemma StoredRunAlwaysRejects(disk: Disk, reg: Registry, op: DownloadOp)
    ensures RunStoredOn(disk, reg, op) == (Err(UndefinedPath), disk, reg)
  {
  }

  /** With only the ensurePath argument corrected, a complete transfer moves the file
      into place and still rejects, because the temporary file is gone; the registry is
      never cleared. */
  lemma EnsuringTargetNeverClearsEntry(disk: Disk, reg: Registry, op: DownloadOp, mkdir: MkdirOutcome, t: Transfer)
    requires WellFormedOp(op)
    ensures var (r, disk', reg') := RunEnsuringTargetOn(disk, reg, op, mkdir, t);
      && reg' == reg
      && (EnsurePathOn(disk, Some(op.toFile), mkdir).0.Ok? && TransferOn(EnsurePathOn(disk, Some(op.toFile), mkdir).1, op, t).0 == Ok(true) ==>
            r == Err(NoSuchPath(op.tmpFile)) && op.toFile in disk')
  {
    var (r1, d1) := EnsurePathOn(disk, Some(op.toFile), mkdir);
    if r1.Err? {
      assert RunEnsuringTargetOn(disk, reg, op, mkdir, t) == (Err(r1.error), d1, reg);
    } else {
      TransferSpec(d1, op, t);
      var (r2, d2) := TransferOn(d1, op, t);
      if r2.Err? {
        assert RunEnsuringTargetOn(disk, reg, op, mkdir, t) == (Err(r2.error), d2, reg);
      } else if !r2.value {
        assert RunEnsuringTargetOn(disk, reg, op, mkdir, t) == (Ok(op.toFile), d2, reg);
      } else {
        assert op.tmpFile !in d2;
        assert RunEnsuringTargetOn(disk, reg, op, mkdir, t) == (Err(NoSuchPath(op.tmpFile)), d2, reg);
      }
    }
  }

  /** The corrected operation: the entry is removed exactly when the file was moved into
      place; rejections and 304 leave the entry; every failure leaves the destination
      as it was after ensurePath. When the directory can be created, an accepted
      transfer resolves to the destination. */
  lemma CorrectedRunSpec(disk: Disk, reg: Registry, op: DownloadOp, mkdir: MkdirOutcome, t: Transfer)
    requires WellFormedOp(op)
    ensures var (r, disk', reg') := RunCorrectedOn(disk, reg, op, mkdir, t);
      var d1 := EnsurePathOn(disk, Some(op.toFile), mkdir).1;
      && (reg' == reg - {op.toFile} || reg' == reg)
      && (reg' != reg ==> r == Ok(op.toFile) && op.toFile in disk' && disk'[op.toFile] == File(t.bytesWritten) && op.tmpFile !in disk')
      && (r.Err? ==> reg' == reg && (op.toFile in disk' <==> op.toFile in d1))
      && (t.Completed? && t.statusCode == 304 && EnsurePathOn(disk, Some(op.toFile), mkdir).0.Ok? ==> r == Ok(op.toFile) && reg' == reg)
      && (EnsurePathOn(disk, Some(op.toFile), mkdir).0.Ok? && TransferOn(d1, op, t).0 == Ok(true) ==>
            r == Ok(op.toFile) && reg' == reg - {op.toFile} && op.toFile in disk' && disk'[op.toFile] == File(t.bytesWritten))
      && (r.Ok? && t.Completed? && t.statusCode != 304 ==>
            reg' == reg - {op.toFile} && op.toFile in disk' && disk'[op.toFile] == File(t.bytesWritten))
      && (mkdir == Creates && Accepted(t) ==> r == Ok(op.toFile))
  {
    var (r1, d1) := EnsurePathOn(disk, Some(op.toFile), mkdir);
    if r1.Err? {
      assert RunCorrectedOn(disk, reg, op, mkdir, t) == (Err(r1.error), d1, reg);
    } else {
      TransferSpec(d1, op, t);
      var (r2, d2) := TransferOn(d1, op, t);
      if r2.Err? {
        assert RunCorrectedOn(disk, reg, op, mkdir, t) == (Err(r2.error), d2, reg);
      } else if !r2.value {
        assert RunCorrectedOn(disk, reg, op, mkdir, t) == (Ok(op.toFile), d2, reg);
      } else {
        assert RunCorrectedOn(disk, reg, op, mkdir, t) == (Ok(op.toFile), d2, reg - {op.toFile});
      }
    }
  }

  // ---- getDirInfo ----

  /** The results are about distinct entries. */
  predicate DistinctPaths(items: seq<FileInfo>) {
    forall i, j :: 0 <= i < j < |items| ==> items[i].PathOf() != items[j].PathOf()
  }

  /** Each result describes its entry. */
  ghost predicate AllDescribed(disk: Disk, items: seq<FileInfo>) {
    forall i :: 0 <= i < |items| ==> Describes(disk, items[i])
  }

  /** Appending the result for one more entry keeps the results distinct and described. */
  lemma AppendEntry(disk: Disk, items: seq<FileInfo>, item: FileInfo)
    requires DistinctPaths(items) && AllDescribed(disk, items)
    requires Describes(disk, item) && item.PathOf() !in Paths(items)
    ensures Paths(items + [item]) == Paths(items) + {item.PathOf()}
    ensures DistinctPaths(items + [item]) && AllDescribed(disk, items + [item])
  {
    var s := items + [item];
    assert s[..|items|] == items;
    forall i | 0 <= i < |items| ensures items[i].PathOf() != item.PathOf() {
      PathsHasEach(items, i);
    }
  }

  /** Distinct results, one for each entry of a directory, describe that directory. */
  lemma ListingDescribed(disk: Disk, dir: string, items: seq<FileInfo>)
    requires dir in disk && disk[dir] == Dir && Paths(items) == Children(disk, dir)
    requires DistinctPaths(items) && AllDescribed(disk, items)
    ensures Describes(disk, Listing(dir, items))
  {
  }

  /** `k` is an entry directly inside `dir`. */
  predicate IsChild(k: string, dir: string) {
    StartsWith(k, dir + "/") && '/' !in k[|dir| + 1..]
  }

  function Children(disk: Disk, dir: string): set<string> {
    set k | k in disk && IsChild(k, dir)
  }

  function Below(disk: Disk, dir: string): set<string> {
    set k | k in disk && StartsWith(k, dir + "/")
  }

  /** The entries the results of `items` are about. */
  function Paths(items: seq<FileInfo>): set<string> {
    if items == [] then {} else Paths(items[..|items| - 1]) + {items[|items| - 1].PathOf()}
  }

  lemma {:induction false} PathsHasEach(items: seq<FileInfo>, i: nat)
    requires i < |items|
    ensures items[i].PathOf() in Paths(items)
  {
    if i < |items| - 1 {
      PathsHasEach(items[..|items| - 1], i);
    }
  }

  /** `info` is what collectFilesInfo yields for the entry it is labelled with:
      a file's size, or one result for each entry of a directory, in some order. */
  ghost predicate Describes(disk: Disk, info: FileInfo)
    decreases info
  {
    match info
    case Stat(p, s) => p in disk && disk[p] == File(s)
    case Listing(d, items) =>
      && d in disk && disk[d] == Dir
      && Paths(items) == Children(disk, d)
      && (forall i, j :: 0 <= i < j < |items| ==> items[i].PathOf() != items[j].PathOf())
      && (forall i :: 0 <= i < |items| ==> Describes(disk, items[i]))
  }

  /** lodash `sumBy(items, "size")`: 0 for an empty array; otherwise the sum of the
      sizes that are defined, undefined when none is (a nested array has no `size`). */
  function SumBy(items: seq<FileInfo>): (r: Option<nat>)
    ensures items == [] ==> r == Some(0)
    ensures items != [] ==> (r.None? <==> forall i :: 0 <= i < |items| ==> items[i].Listing?)
  {
    if items == [] then Some(0) else BaseSum(items)
  }

  function BaseSum(items: seq<FileInfo>): (r: Option<nat>)
    ensures r.None? <==> forall i :: 0 <= i < |items| ==> items[i].Listing?
  {
    if items == [] then None
    else
      var rest := BaseSum(items[..|items| - 1]);
      match items[|items| - 1]
      case Listing(_, _) => rest
      case Stat(_, s) => Some(rest.GetOr(0) + s)
  }

  lemma StartsWithTrans(k: string, a: string, b: string)
    requires StartsWith(k, a) && StartsWith(a, b)
    ensures StartsWith(k, b)
  {
    assert k[..|b|] == k[..|a|][..|b|];
  }

  lemma BelowShrinks(disk: Disk, dir: string, c: string)
    requires c in Children(disk, dir)
    ensures |Below(disk, c)| < |Below(disk, dir)|
  {
    forall k | k in Below(disk, c) ensures k in Below(disk, dir) {
      assert StartsWith(c + "/", dir + "/") by {
        assert (c + "/")[..|dir + "/"|] == c[..|dir + "/"|];
      }
      StartsWithTrans(k, c + "/", dir + "/");
    }
    assert c !in Below(disk, c);
    assert c in Below(disk, dir);
    SubsetCardinality(Below(disk, c), Below(disk, dir) - {c});
  }

  lemma {:induction false} SubsetCardinality<T>(a: set<T>, b: set<T>)
    requires a <= b
    ensures |a| <= |b|
    decreases b
  {
    if b != {} {
      var x :| x in b;
      SubsetCardinality(a - {x}, b - {x});
    }
  }

  /** The file system together with the download registry, as the library sees them. */
  class WrapperFS {
    var disk: Disk
    var activeDownloads: Registry

    constructor (initial: Disk)
      ensures disk == initial && activeDownloads == map[]
    {
      disk := initial;
      activeDownloads := map[];
    }

    // ---- the react-native-fs primitives ----

    /** `exists`: true for files and directories alike. */
    method Exists(path: string) returns (b: bool)
      ensures b == (path in disk)
    {
      b := path in disk;
    }

    /** `stat`: rejects on a missing path. */
    method StatPath(path: string) returns (r: Result<Node>)
      ensures r == if path in disk then Ok(disk[path]) else Err(NoSuchPath(path))
    {
      if path in disk {
        r := Ok(disk[path]);
      } else {
        r := Err(NoSuchPath(path));
      }
    }

    method Mkdir(path: string, outcome: MkdirOutcome) returns (r: Result<()>)
      modifies this`disk
      ensures outcome == Creates ==> r == Ok(()) && disk == old(disk)[path := Dir]
      ensures outcome == CreatesNothing ==> r == Ok(()) && disk == old(disk)
      ensures outcome.Throws? ==> r == Err(Rejected(outcome.message)) && disk == old(disk)
    {
      match outcome
      case Creates =>
        disk := disk[path := Dir];
        r := Ok(());
      case CreatesNothing =>
        r := Ok(());
      case Throws(m) =>
        r := Err(Rejected(m));
    }

    /** `unlink`: a directory goes with everything below it. */
    method Unlink(path: string)
      requires path in disk
      modifies this`disk
      ensures disk == if old(disk)[path].Dir? then RemoveTree(old(disk), path) else old(disk) - {path}
    {
      if disk[path].Dir? {
        disk := RemoveTree(disk, path);
      } else {
        disk := disk - {path};
      }
    }

    /** `moveFile`. */
    method MoveFile(from: string, to: string) returns (r: Result<()>)
      modifies this`disk
      ensures from !in old(disk) ==> r == Err(NoSuchPath(from)) && disk == old(disk)
      ensures from in old(disk) ==> r == Ok(()) && disk == (old(disk) - {from})[to := old(disk)[from]]
    {
      if from !in disk {
        return Err(NoSuchPath(from));
      }
      disk := (disk - {from})[to := disk[from]];
      r := Ok(());
    }

    /** `downloadFile` of react-native-fs: the body goes to `toFile`. */
    method Fetch(toFile: string, t: Transfer) returns (r: Result<nat>)
      modifies this`disk
      ensures t.TransferFailed? ==> r == Err(Rejected(t.message)) && disk == old(disk)
      ensures t.Completed? ==> r == Ok(t.statusCode) && disk == old(disk)[toFile := File(t.bytesWritten)]
    {
      match t
      case TransferFailed(m) =>
        r := Err(Rejected(m));
      case Completed(code, _, written) =>
        disk := disk[toFile := File(written)];
        r := Ok(code);
    }

    // ---- WrapperFS ----

    method EnsurePath(path: Option<string>, mkdir: MkdirOutcome) returns (r: Result<()>)
      modifies this`disk
      ensures (r, disk) == EnsurePathOn(old(disk), path, mkdir)
    {
      if path.None? {
        return Err(UndefinedPath);
      }
      var dirPath := GetDirPath(path.value);
      var isDir := Exists(dirPath);
      if !isDir {
        var made := Mkdir(dirPath, mkdir);
        if made.Err? {
          return Catch(made.error);
        }
        var exist := Exists(dirPath);
        if !exist {
          return Catch(Thrown("Invalid cacheLocation"));
        }
      }
      r := Ok(());
    }

    method DeleteFile(filePath: string) returns (r: Result<()>)
      modifies this`disk
      ensures (r, disk) == DeleteFileOn(old(disk), filePath)
    {
      var res := StatPath(filePath);
      if res.Err? {
        return Err(res.error);
      }
      if res.value.File? {
        Unlink(filePath);
      }
      r := Ok(());
    }

    method CopyFile(fromFile: string, toFile: string, mkdir: MkdirOutcome) returns (r: Result<()>)
      modifies this`disk
      ensures (r, disk) == CopyFileOn(old(disk), fromFile, toFile, mkdir)
    {
      r := EnsurePath(Some(toFile), mkdir);
      if r.Err? {
        return;
      }
      if fromFile in disk && disk[fromFile].File? {
        disk := disk[toFile := disk[fromFile]];
        r := Ok(());
      } else {
        r := Err(NoSuchPath(fromFile));
      }
    }

    method CleanDir(dirPath: string, mkdir: MkdirOutcome) returns (r: Result<()>)
      modifies this`disk
      ensures (r, disk) == CleanDirOn(old(disk), dirPath, mkdir)
    {
      var res := StatPath(dirPath);
      if res.Err? {
        return Err(res.error);
      }
      if res.value.Dir? {
        Unlink(dirPath);
      }
      r := EnsurePath(Some(dirPath), mkdir);
    }

    /** `downloadFile`: registers the operation for `toFile` unless one is registered,
        and returns the registered operation itself, not its run. */
    method DownloadFile(fromUrl: string, toFile: string, headers: Option<Headers>) returns (op: DownloadOp)
      modifies this`activeDownloads
      ensures toFile in old(activeDownloads) ==> activeDownloads == old(activeDownloads) && op == old(activeDownloads)[toFile]
      ensures toFile !in old(activeDownloads) ==>
        op == DownloadOp(fromUrl, toFile, toFile + ".tmp", headers) && activeDownloads == old(activeDownloads)[toFile := op]
      ensures toFile in activeDownloads && activeDownloads[toFile] == op
      ensures RegistryKeyed(old(activeDownloads)) ==> RegistryKeyed(activeDownloads)
    {
      if toFile !in activeDownloads {
        var tmpFile := toFile + ".tmp";
        activeDownloads := activeDownloads[toFile := DownloadOp(fromUrl, toFile, tmpFile, headers)];
      }
      op := activeDownloads[toFile];
    }

    /** The transfer steps of the stored operation. */
    method Transfer(op: DownloadOp, t: Transfer) returns (r: Result<bool>)
      modifies this`disk
      ensures (r, disk) == TransferOn(old(disk), op, t)
    {
      var res := Fetch(op.tmpFile, t);
      if res.Err? {
        return Err(res.error);
      }
      var code := res.value;
      if code == 304 {
        return Ok(false);
      }
      var status := code / 100;
      if status != 2 {
        return Err(Thrown("Cannot download image, status code: " + NatToString(code)));
      }
      var stats := StatPath(op.tmpFile);
      if t.contentLength != stats.value.size {
        return Err(Thrown("Download failed, the image could not be fully downloaded"));
      }
      var moved := MoveFile(op.tmpFile, op.toFile);
      r := Ok(true);
    }

    /** Calling the stored operation, as written. */
    method RunStoredDownload(op: DownloadOp) returns (r: Result<string>)
      modifies this`disk, this`activeDownloads
      ensures (r, disk, activeDownloads) == RunStoredOn(old(disk), old(activeDownloads), op)
    {
      var ensured := EnsurePath(None, Creates);
      r := Err(ensured.error);
    }

    /** Calling the stored operation with `ensurePath(toFile)`, the rest as written. */
    method RunDownloadEnsuringTarget(op: DownloadOp, mkdir: MkdirOutcome, t: Transfer) returns (r: Result<string>)
      modifies this`disk, this`activeDownloads
      ensures (r, disk, activeDownloads) == RunEnsuringTargetOn(old(disk), old(activeDownloads), op, mkdir, t)
    {
      var ensured := EnsurePath(Some(op.toFile), mkdir);
      if ensured.Err? {
        return Err(ensured.error);
      }
      var moved := Transfer(op, t);
      if moved.Err? {
        return Err(moved.error);
      }
      if !moved.value {
        return Ok(op.toFile);
      }
      var deleted := DeleteFile(op.tmpFile);
      if deleted.Err? {
        return Err(deleted.error);
      }
      activeDownloads := activeDownloads - {op.toFile};
      r := Ok(op.toFile);
    }

    /** Calling the stored operation with both corrections. */
    method RunDownloadCorrected(op: DownloadOp, mkdir: MkdirOutcome, t: Transfer) returns (r: Result<string>)
      modifies this`disk, this`activeDownloads
      ensures (r, disk, activeDownloads) == RunCorrectedOn(old(disk), old(activeDownloads), op, mkdir, t)
    {
      var ensured := EnsurePath(Some(op.toFile), mkdir);
      if ensured.Err? {
        return Err(ensured.error);
      }
      var moved := Transfer(op, t);
      if moved.Err? {
        return Err(moved.error);
      }
      if moved.value {
        activeDownloads := activeDownloads - {op.toFile};
      }
      r := Ok(op.toFile);
    }

    /** `collectFilesInfo`: a file's stat, or the results for a directory's entries, in
        the order readdir lists them (any order). */
    method CollectFilesInfo(basePath: string) returns (info: FileInfo)
      requires basePath in disk
      ensures Describes(disk, info) && info.PathOf() == basePath
      decreases |Below(disk, basePath)|
    {
      if disk[basePath].File? {
        return Stat(basePath, disk[basePath].size);
      }
      var names := Children(disk, basePath);
      var items: seq<FileInfo> := [];
      while names != {}
        invariant names <= Children(disk, basePath)
        invariant Paths(items) == Children(disk, basePath) - names
        invariant DistinctPaths(items) && AllDescribed(disk, items)
        decreases names
      {
        var c :| c in names;
        BelowShrinks(disk, basePath, c);
        var item := CollectFilesInfo(c);
        AppendEntry(disk, items, item);
        items := items + [item];
        names := names - {c};
      }
      ListingDescribed(disk, basePath, items);
      info := Listing(basePath, items);
    }

    /** `getDirInfo`: rejects unless the path is a directory; otherwise its entries and
        lodash's sum of their sizes. */
    method GetDirInfo(dirPath: string) returns (r: Result<DirInfo>)
      ensures dirPath !in disk ==> r == Err(NoSuchPath(dirPath))
      ensures dirPath in disk && disk[dirPath].File? ==> r == Err(Thrown("Dir does not exists in 'getDirInfo'"))
      ensures dirPath in disk && disk[dirPath].Dir? ==>
        r.Ok? && Describes(disk, Listing(dirPath, r.value.files)) && r.value.size == SumBy(r.value.files)
    {
      var res := StatPath(dirPath);
      if res.Err? {
        return Err(res.error);
      }
      if res.value.Dir? {
        var files := CollectFilesInfo(dirPath);
        r := Ok(DirInfo(files.items, SumBy(files.items)));
      } else {
        r := Err(Thrown("Dir does not exists in 'getDirInfo'"));
      }
    }
  }
}
