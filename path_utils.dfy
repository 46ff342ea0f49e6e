/** The path/key codec of `utils/pathUtils.js`: canonical URLs, cache keys,
    host buckets and cache file paths. SHA-1 and the URL parser are foreign:
    they come in as the fields of a `Foreign` record. */
module PathUtils {
  import opened Common
  import opened Text

  /** A query parameter: its name and its value. */
  type Param = (string, string)

  /** A parsed query string, in the order the parameters appear. */
  type Query = seq<Param>

  /** The parts of a parsed URL the codec uses; `protocol` stands for
      everything before the host and `hash` for everything after the query. */
  datatype Url = Url(protocol: string, host: string, pathname: string, query: Query, hash: string)

  /** The foreign functions: SHA-1 as hex text, `new URL(s, null, true)` and `url.toString()`. */
  datatype Foreign = Foreign(sha1: string -> string, parse: string -> Url, format: Url -> string)

  /** The `useQueryParamsInCacheKey` option: a boolean, or a list of parameter names. */
  datatype Policy = Flag(on: bool) | Keys(names: seq<string>)

  const DefaultImageTypes: seq<string> := ["png", "jpeg", "jpg", "gif", "bmp", "tiff", "tif"]

  function KeySet(q: Query): set<string> {
    set p | p in q :: p.0
  }

  function ElemSet(q: Query): set<Param> {
    set p | p in q
  }

  /** No parameter name occurs twice (url-parse keeps the first of repeated names). */
  predicate UniqueKeys(q: Query) {
    forall i, j :: 0 <= i < j < |q| ==> q[i].0 != q[j].0
  }

  /** The value of the first parameter called `k`. */
  function Get(q: Query, k: string): string
    requires k in KeySet(q)
  {
    if q[0].0 == k then q[0].1 else Get(q[1..], k)
  }

  lemma {:induction false} GetOfUnique(q: Query, p: Param)
    requires UniqueKeys(q) && p in q
    ensures p.0 in KeySet(q) && Get(q, p.0) == p.1
  {
    if q[0] != p {
      assert q[0].0 != p.0 by {
        var j :| 0 <= j < |q| && q[j] == p;
        assert j > 0;
      }
      assert p in q[1..];
      GetOfUnique(q[1..], p);
    }
  }

  // ---- _.sortBy(pairs, a => a[0]) ----

  /** Parameters ordered by name; equal names keep their order. */
  predicate Sorted(q: Query) {
    forall i, j :: 0 <= i < j < |q| ==> !Less(q[j].0, q[i].0)
  }

  predicate StrictlySorted(q: Query) {
    forall i, j :: 0 <= i < j < |q| ==> Less(q[i].0, q[j].0)
  }

  /** Puts `p` before the first parameter whose name is not smaller. */
  function Insert(p: Param, s: Query): (r: Query)
    ensures |r| == |s| + 1
    ensures ElemSet(r) == ElemSet(s) + {p}
    ensures KeySet(r) == KeySet(s) + {p.0}
  {
    if s == [] then [p]
    else if Less(s[0].0, p.0) then
      var t := Insert(p, s[1..]);
      assert s == [s[0]] + s[1..];
      assert ElemSet([s[0]] + t) == {s[0]} + ElemSet(t);
      assert KeySet([s[0]] + t) == {s[0].0} + KeySet(t);
      [s[0]] + t
    else [p] + s
  }

  /** Stable insertion sort by name, as lodash's `sortBy` orders the pairs. */
  function SortByKey(q: Query): (r: Query)
    ensures |r| == |q|
    ensures ElemSet(r) == ElemSet(q)
    ensures KeySet(r) == KeySet(q)
  {
    if q == [] then []
    else
      assert ElemSet(q) == {q[0]} + ElemSet(q[1..]);
      Insert(q[0], SortByKey(q[1..]))
  }

  lemma {:induction false} InsertSorted(p: Param, s: Query)
    requires Sorted(s)
    ensures Sorted(Insert(p, s))
  {
    if s != [] {
      if Less(s[0].0, p.0) {
        InsertSorted(p, s[1..]);
        var r := Insert(p, s);
        var t := Insert(p, s[1..]);
        assert r == [s[0]] + t;
        forall j | 0 < j < |r| ensures !Less(r[j].0, s[0].0) {
          assert r[j] in ElemSet(t);
          if r[j] == p {
            LessAsymmetric(s[0].0, p.0);
          } else {
            assert r[j] in s[1..];
            var k :| 0 <= k < |s[1..]| && s[1..][k] == r[j];
            assert s[k + 1] == r[j];
          }
        }
      } else {
        var r := [p] + s;
        forall j | 0 <= j < |s| ensures !Less(s[j].0, p.0) {
          if Less(s[j].0, p.0) {
            if j > 0 {
              if s[0].0 == p.0 {
              } else {
                LessTotal(s[0].0, p.0);
                LessTransitive(s[j].0, p.0, s[0].0);
              }
            }
          }
        }
        assert forall j :: 0 < j < |r| ==> r[j] == s[j - 1];
      }
    }
  }

  lemma {:induction false} InsertUnique(p: Param, s: Query)
    requires UniqueKeys(s) && p.0 !in KeySet(s)
    ensures UniqueKeys(Insert(p, s))
  {
    if s != [] && Less(s[0].0, p.0) {
      assert p.0 !in KeySet(s[1..]) && s[0].0 !in KeySet(s[1..]) by {
        assert forall x :: x in s[1..] ==> x in s;
        forall x | x in s[1..] ensures x.0 != s[0].0 {
          var k :| 0 <= k < |s[1..]| && s[1..][k] == x;
          assert s[k + 1] == x;
        }
      }
      assert UniqueKeys(s[1..]);
      InsertUnique(p, s[1..]);
      var t := Insert(p, s[1..]);
      forall j | 0 <= j < |t| ensures t[j].0 != s[0].0 {
        assert t[j] in ElemSet(t);
        assert t[j].0 in KeySet(t);
      }
    } else if s != [] {
      forall j | 0 <= j < |s| ensures s[j].0 != p.0 {
        assert s[j] in s;
      }
    }
  }

  /** Sorting orders the parameters by name and keeps exactly the same parameters;
      with distinct names the order is strict. */
  lemma {:induction false} SortByKeyCorrect(q: Query)
    ensures Sorted(SortByKey(q)) && ElemSet(SortByKey(q)) == ElemSet(q)
    ensures UniqueKeys(q) ==> UniqueKeys(SortByKey(q)) && StrictlySorted(SortByKey(q))
  {
    if q != [] {
      SortByKeyCorrect(q[1..]);
      InsertSorted(q[0], SortByKey(q[1..]));
      if UniqueKeys(q) {
        assert UniqueKeys(q[1..]);
        assert q[0].0 !in KeySet(q[1..]) by {
          forall x | x in q[1..] ensures x.0 != q[0].0 {
            var k :| 0 <= k < |q[1..]| && q[1..][k] == x;
            assert q[k + 1] == x;
          }
        }
        InsertUnique(q[0], SortByKey(q[1..]));
        SortedUniqueIsStrict(SortByKey(q));
      }
    }
  }

  lemma SortedUniqueIsStrict(s: Query)
    requires Sorted(s) && UniqueKeys(s)
    ensures StrictlySorted(s)
  {
    forall i, j | 0 <= i < j < |s| ensures Less(s[i].0, s[j].0) {
      LessTotal(s[i].0, s[j].0);
    }
  }

  /** Two strictly sorted lists of the same parameters are the same list. */
  lemma {:induction false} StrictlySortedUnique(s1: Query, s2: Query)
    requires StrictlySorted(s1) && StrictlySorted(s2) && ElemSet(s1) == ElemSet(s2)
    ensures s1 == s2
  {
    assert |s2| > 0 ==> s2[0] in ElemSet(s2);
    if s1 != [] {
      assert s1[0] in ElemSet(s2);
      assert s2 != [];
      assert s2[0] in ElemSet(s1);
      var k :| 0 <= k < |s2| && s2[k] == s1[0];
      var m :| 0 <= m < |s1| && s1[m] == s2[0];
      if k > 0 {
        if m == 0 {
          LessIrreflexive(s1[0].0);
        } else {
          LessAsymmetric(s2[0].0, s1[0].0);
        }
      }
      assert s1[0] == s2[0];
      assert ElemSet(s1[1..]) == ElemSet(s1) - {s1[0]} by {
        forall x | x in s1[1..] ensures x != s1[0] {
          var i :| 0 <= i < |s1[1..]| && s1[1..][i] == x;
          assert s1[i + 1] == x;
          LessIrreflexive(x.0);
        }
        assert s1 == [s1[0]] + s1[1..];
      }
      assert ElemSet(s2[1..]) == ElemSet(s2) - {s2[0]} by {
        forall x | x in s2[1..] ensures x != s2[0] {
          var i :| 0 <= i < |s2[1..]| && s2[1..][i] == x;
          assert s2[i + 1] == x;
          LessIrreflexive(x.0);
        }
        assert s2 == [s2[0]] + s2[1..];
      }
      StrictlySortedUnique(s1[1..], s2[1..]);
      assert s1 == [s1[0]] + s1[1..] && s2 == [s2[0]] + s2[1..];
    }
  }

  function Values(q: Query): (r: seq<string>)
    ensures |r| == |q| && forall i :: 0 <= i < |q| ==> r[i] == q[i].1
  {
    if q == [] then [] else [q[0].1] + Values(q[1..])
  }

  /** `serializeObjectKeys`: the values, ordered by parameter name. */
  function SerializeObjectKeys(q: Query): seq<string> {
    Values(SortByKey(q))
  }

  /** The serialisation does not depend on the order of the parameters in the URL. */
  lemma SerializeOrderIndependent(q1: Query, q2: Query)
    requires UniqueKeys(q1) && UniqueKeys(q2) && ElemSet(q1) == ElemSet(q2)
    ensures SerializeObjectKeys(q1) == SerializeObjectKeys(q2)
  {
    SortByKeyCorrect(q1);
    SortByKeyCorrect(q2);
    StrictlySortedUnique(SortByKey(q1), SortByKey(q2));
  }

  // ---- _.pick(query, names) ----

  function NameSet(names: seq<string>): set<string> {
    set n | n in names
  }

  /** `_.pick(query, names)`: the listed parameters that are present, in the
      order of their first mention in `names`. */
  function Pick(q: Query, names: seq<string>): (r: Query)
    ensures KeySet(r) == KeySet(q) * NameSet(names)
    ensures UniqueKeys(r)
    ensures forall i :: 0 <= i < |r| ==> r[i].0 in KeySet(q) && r[i].1 == Get(q, r[i].0)
    decreases |names|
  {
    if names == [] then []
    else
      var r := Pick(q, names[..|names| - 1]);
      var k := names[|names| - 1];
      assert NameSet(names) == NameSet(names[..|names| - 1]) + {k} by {
        assert names == names[..|names| - 1] + [k];
      }
      if k in KeySet(q) && k !in KeySet(r) then
        assert forall i :: 0 <= i < |r| ==> r[i].0 in KeySet(r);
        assert KeySet(r + [(k, Get(q, k))]) == KeySet(r) + {k};
        r + [(k, Get(q, k))]
      else r
  }

  /** Picking the same names from two orderings of the same parameters gives the same result. */
  lemma {:induction false} PickOrderIndependent(q1: Query, q2: Query, names: seq<string>)
    requires UniqueKeys(q1) && UniqueKeys(q2) && ElemSet(q1) == ElemSet(q2)
    ensures Pick(q1, names) == Pick(q2, names)
    decreases |names|
  {
    assert KeySet(q1) == KeySet(q2) by {
      forall k | k in KeySet(q1) ensures k in KeySet(q2) {
        var p :| p in q1 && p.0 == k;
        assert p in ElemSet(q2);
      }
      forall k | k in KeySet(q2) ensures k in KeySet(q1) {
        var p :| p in q2 && p.0 == k;
        assert p in ElemSet(q1);
      }
    }
    if names != [] {
      PickOrderIndependent(q1, q2, names[..|names| - 1]);
      var k := names[|names| - 1];
      if k in KeySet(q1) {
        var p :| p in q1 && p.0 == k;
        assert p in ElemSet(q2);
        GetOfUnique(q1, p);
        GetOfUnique(q2, p);
      }
    }
  }

  /** A parameter whose name is not listed does not change what is picked. */
  lemma {:induction false} PickIgnoresUnlisted(q: Query, e: Param, names: seq<string>)
    requires e.0 !in NameSet(names)
    ensures Pick([e] + q, names) == Pick(q, names)
    decreases |names|
  {
    if names != [] {
      var init := names[..|names| - 1];
      assert NameSet(names) == NameSet(init) + {names[|names| - 1]} by {
        assert names == init + [names[|names| - 1]];
      }
      PickIgnoresUnlisted(q, e, init);
      var k := names[|names| - 1];
      assert KeySet([e] + q) == {e.0} + KeySet(q) by {
        assert forall p :: p in [e] + q <==> p == e || p in q;
      }
      if k in KeySet(q) {
        assert ([e] + q)[1..] == q;
      }
    }
  }

  // ---- getQueryForCacheKey and getCacheableUrl ----

  /** `getQueryForCacheKey` concatenated to a string: the array of values is
      joined with commas, and a falsy policy contributes nothing. */
  function GetQueryForCacheKey(u: Url, p: Policy): string {
    match p
    case Keys(names) => Join(SerializeObjectKeys(Pick(u.query, names)), ',')
    case Flag(on) => if on then Join(SerializeObjectKeys(u.query), ',') else ""
  }

  /** The query part of the key depends only on which parameters the URL has. */
  lemma QueryForCacheKeyOrderIndependent(u1: Url, u2: Url, p: Policy)
    requires UniqueKeys(u1.query) && UniqueKeys(u2.query) && ElemSet(u1.query) == ElemSet(u2.query)
    ensures GetQueryForCacheKey(u1, p) == GetQueryForCacheKey(u2, p)
  {
    match p
    case Keys(names) => PickOrderIndependent(u1.query, u2.query, names);
    case Flag(on) => SerializeOrderIndependent(u1.query, u2.query);
  }

  /** Under an allow-list, a parameter that is not listed does not reach the key. */
  lemma QueryForCacheKeyIgnoresUnlisted(u: Url, e: Param, names: seq<string>)
    requires e.0 !in NameSet(names)
    ensures GetQueryForCacheKey(u.(query := [e] + u.query), Keys(names)) == GetQueryForCacheKey(u, Keys(names))
  {
    PickIgnoresUnlisted(u.query, e, names);
  }

  /** The query the canonical URL keeps under a policy. */
  function CanonicalQuery(q: Query, p: Policy): (r: Query)
    ensures p == Flag(false) ==> r == []
    ensures p == Flag(true) ==> r == q
    ensures p.Keys? ==> KeySet(r) == KeySet(q) * NameSet(p.names) && UniqueKeys(r)
    ensures p.Keys? ==> forall i :: 0 <= i < |r| ==> r[i].0 in KeySet(q) && r[i].1 == Get(q, r[i].0)
  {
    match p
    case Keys(names) => Pick(q, names)
    case Flag(on) => if on then q else []
  }

  /** The parsed URL that `getCacheableUrl` formats. */
  function CanonicalRecord(f: Foreign, url: string, p: Policy): Url {
    var u := f.parse(url);
    u.(query := CanonicalQuery(u.query, p))
  }

  /** `getCacheableUrl`. */
  function GetCacheableUrl(f: Foreign, url: string, p: Policy): string {
    f.format(CanonicalRecord(f, url, p))
  }

  /** Canonicalisation changes nothing but the query. */
  lemma CanonicalKeepsAllButQuery(f: Foreign, url: string, p: Policy)
    ensures var (u, c) := (f.parse(url), CanonicalRecord(f, url, p));
      c.protocol == u.protocol && c.host == u.host && c.pathname == u.pathname && c.hash == u.hash
  {
  }

  // ---- generateCacheKey ----

  /** The last `/`-segment of the path: the file name. */
  function FileName(pathname: string): string {
    var parts := Split(pathname, '/');
    parts[|parts| - 1]
  }

  /** The other segments joined again: the directory, without its last `/`. */
  function FilePath(pathname: string): string {
    var parts := Split(pathname, '/');
    Join(parts[..|parts| - 1], '/')
  }

  /** The lower-cased last extension, or "" when the name has no `.`. */
  function FileType(fileName: string): string {
    var parts := Split(fileName, '.');
    if |parts| > 1 then Lower(parts[|parts| - 1]) else ""
  }

  /** The image type of a file name. */
  function ImageType(fileName: string): (t: string)
    ensures t in DefaultImageTypes
  {
    var ft := FileType(fileName);
    if ft in DefaultImageTypes then ft else "jpg"
  }

  /** A name ending in `.ext` has type `ext` lower-cased when that is a known image type, else `jpg`. */
  lemma ImageTypeOfExtension(stem: string, ext: string)
    requires '.' !in ext
    ensures ImageType(stem + "." + ext) == if Lower(ext) in DefaultImageTypes then Lower(ext) else "jpg"
  {
    SplitAtSeparator(stem, '.', ext);
    SplitWithoutSeparator(ext, '.');
    assert stem + "." + ext == stem + ['.'] + ext;
  }

  /** A name without any `.` has type `jpg`. */
  lemma ImageTypeWithoutExtension(name: string)
    requires '.' !in name
    ensures ImageType(name) == "jpg"
  {
    SplitWithoutSeparator(name, '.');
  }

  /** What the hash is computed over. */
  function HashInput(u: Url, p: Policy): string {
    FilePath(u.pathname) + FileName(u.pathname) + ImageType(FileName(u.pathname)) + GetQueryForCacheKey(u, p)
  }

  /** `generateCacheKey(url, policy)`. */
  function GenerateCacheKey(f: Foreign, url: string, p: Policy): string {
    var u := f.parse(url);
    f.sha1(HashInput(u, p)) + "." + ImageType(FileName(u.pathname))
  }

  /** For a path `dir/name`, the key is the hash of `dir + name + type + query`
      (the last `/` is not hashed) followed by `.` and the type, which is the
      known image type of the name or `jpg`. */
  lemma CacheKeyOfPath(f: Foreign, url: string, p: Policy, dir: string, name: string)
    requires f.parse(url).pathname == dir + "/" + name && '/' !in name
    ensures var t := ImageType(name);
      t in DefaultImageTypes &&
      GenerateCacheKey(f, url, p) == f.sha1(dir + name + t + GetQueryForCacheKey(f.parse(url), p)) + "." + t
  {
    SplitLast(dir, '/', name);
    assert dir + "/" + name == dir + ['/'] + name;
  }

  /** Two URLs that parse to the same path and the same parameters, in any order, get the same key. */
  lemma CacheKeyOrderIndependent(f: Foreign, url1: string, url2: string, p: Policy)
    requires f.parse(url1).pathname == f.parse(url2).pathname
    requires UniqueKeys(f.parse(url1).query) && UniqueKeys(f.parse(url2).query)
    requires ElemSet(f.parse(url1).query) == ElemSet(f.parse(url2).query)
    ensures GenerateCacheKey(f, url1, p) == GenerateCacheKey(f, url2, p)
  {
    QueryForCacheKeyOrderIndependent(f.parse(url1), f.parse(url2), p);
  }

  // ---- getHostCachePathComponent ----

  /** `replace(/\.:/gi, '_')`: every `.:` becomes one `_`. */
  function ReplaceDotColon(s: string): (r: string)
    ensures |r| <= |s|
  {
    if |s| >= 2 && s[0] == '.' && s[1] == ':' then "_" + ReplaceDotColon(s[2..])
    else if |s| == 0 then ""
    else [s[0]] + ReplaceDotColon(s[1..])
  }

  predicate IsWordChar(c: char) {
    'a' <= c <= 'z' || 'A' <= c <= 'Z' || '0' <= c <= '9' || c == '_'
  }

  /** `replace(/[^a-z0-9_]/gi, '_')`. */
  function SanitizeChars(s: string): (r: string)
    ensures |r| == |s|
    ensures forall i :: 0 <= i < |s| ==> r[i] == if IsWordChar(s[i]) then s[i] else '_'
  {
    seq(|s|, i requires 0 <= i < |s| => if IsWordChar(s[i]) then s[i] else '_')
  }

  /** The readable part of the host bucket. */
  function HostBucketName(host: string): string {
    Lower(SanitizeChars(ReplaceDotColon(host)))
  }

  /** `getHostCachePathComponent`. */
  function GetHostCachePathComponent(f: Foreign, url: string): string {
    var host := f.parse(url).host;
    HostBucketName(host) + "_" + f.sha1(host)
  }

  /** The bucket name is made of lower-case letters, digits and `_` only, and is no longer than the host. */
  lemma HostBucketNameIsSafe(host: string)
    ensures var b := HostBucketName(host);
      |b| <= |host| && forall i :: 0 <= i < |b| ==> ('a' <= b[i] <= 'z' || '0' <= b[i] <= '9' || b[i] == '_')
  {
  }

  /** Without any `.:` in the host, each host character maps to one bucket character:
      itself lower-cased when it is a letter, digit or `_`, else `_`. */
  lemma {:induction false} HostBucketNamePerChar(host: string)
    requires forall i :: 0 <= i < |host| - 1 ==> !(host[i] == '.' && host[i + 1] == ':')
    ensures var b := HostBucketName(host);
      |b| == |host| && forall i :: 0 <= i < |host| ==> b[i] == LowerChar(if IsWordChar(host[i]) then host[i] else '_')
  {
    ReplaceDotColonIdentity(host);
  }

  lemma {:induction false} ReplaceDotColonIdentity(s: string)
    requires forall i :: 0 <= i < |s| - 1 ==> !(s[i] == '.' && s[i + 1] == ':')
    ensures ReplaceDotColon(s) == s
  {
    if |s| > 0 {
      forall i | 0 <= i < |s[1..]| - 1 ensures !(s[1..][i] == '.' && s[1..][i + 1] == ':') {
        assert s[1..][i] == s[i + 1] && s[1..][i + 1] == s[i + 2];
      }
      ReplaceDotColonIdentity(s[1..]);
      assert [s[0]] + s[1..] == s;
    }
  }

  // ---- getImageFilePath / getImageRelativeFilePath ----

  /** `getImageRelativeFilePath`: the host bucket, then the key with the default policy `true`. */
  function GetImageRelativeFilePath(f: Foreign, url: string): string {
    GetHostCachePathComponent(f, url) + "/" + GenerateCacheKey(f, url, Flag(true))
  }

  /** `getImageFilePath` is the cache location, `/`, and the relative path. */
  function GetImageFilePath(f: Foreign, url: string, cacheLocation: string): (r: string)
    ensures r == cacheLocation + "/" + GetImageRelativeFilePath(f, url)
  {
    cacheLocation + "/" + GetHostCachePathComponent(f, url) + "/" + GenerateCacheKey(f, url, Flag(true))
  }

  /** The key of a canonical URL hashes the values of every parameter the canonical
      URL kept, when formatting and parsing again gives back the canonical record. */
  lemma CanonicalKeyUsesKeptParams(f: Foreign, url: string, p: Policy)
    requires f.parse(GetCacheableUrl(f, url, p)) == CanonicalRecord(f, url, p)
    ensures GetQueryForCacheKey(f.parse(GetCacheableUrl(f, url, p)), Flag(true))
         == Join(SerializeObjectKeys(CanonicalQuery(f.parse(url).query, p)), ',')
  {
  }
}
