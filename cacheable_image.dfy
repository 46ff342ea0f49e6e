/** The decisions `src/CacheableImage.js` makes outside rendering: the loader size,
    the `file://` prefix, the options it hands to the cache manager and which of
    loader, fallback or image it renders. */
module CacheableImage {
  import opened Common

  /** A width or height prop: a number, or anything else (including absent). */
  datatype Dimension = Num(n: int) | NotNumber

  /** What the component renders. */
  datatype Branch = Loader | Fallback | Image(source: Source)

  datatype Source = CachedFile(uri: string) | OriginalSource

  const DefaultLoaderSide := 16

  function SideOf(d: Dimension): int {
    if d.Num? then d.n else DefaultLoaderSide
  }

  /** `getLoaderSize(width, height)`. */
  function GetLoaderSize(width: Dimension, height: Dimension): (r: int)
    ensures r <= 80
    ensures var m := if SideOf(width) <= SideOf(height) then SideOf(width) else SideOf(height);
      (r == 80 <==> m >= 85) && (m <= 85 ==> r == m - 5)
  {
    var w := if width.Num? then width.n else 16;
    var h := if height.Num? then height.n else 16;
    var maxSize := 80;
    var min := if w <= h then w else h;
    if min > maxSize + 5 then maxSize else min - 5
  }

  /** Anything but a number counts as 16, so two of them give 11; a larger
      side never gives a smaller loader. */
  lemma LoaderSizeProperties(width: Dimension, height: Dimension, w2: int, h2: int)
    ensures GetLoaderSize(NotNumber, NotNumber) == 11
    ensures GetLoaderSize(width, height) == GetLoaderSize(Num(SideOf(width)), Num(SideOf(height)))
    ensures SideOf(width) <= w2 && SideOf(height) <= h2 ==> GetLoaderSize(width, height) <= GetLoaderSize(Num(w2), Num(h2))
  {
  }

  /** `AddPathPrefix`. */
  function AddPathPrefix(path: string): (r: string)
    ensures |r| == |path| + 7 && r[..7] == "file://" && r[7..] == path
  {
    "file://" + path
  }

  /** The keys of the component's default options. */
  const ManagerOptionKeys: set<string> := {"headers", "ttl", "useQueryParamsInCacheKey", "cacheLocation", "allowSelfSignedSSL"}

  /** `getCacheManagerOptions(props)`: `_.pick` of the option keys. */
  function GetCacheManagerOptions<V>(props: map<string, V>): (r: map<string, V>)
    ensures r.Keys == props.Keys * ManagerOptionKeys
    ensures forall k :: k in r ==> r[k] == props[k]
  {
    map k | k in props && k in ManagerOptionKeys :: props[k]
  }

  /** Picking the options again changes nothing; props that hold only option keys are
      passed on whole; props without any give `{}`. */
  lemma CacheManagerOptionsPick<V>(props: map<string, V>)
    ensures GetCacheManagerOptions(GetCacheManagerOptions(props)) == GetCacheManagerOptions(props)
    ensures props.Keys <= ManagerOptionKeys ==> GetCacheManagerOptions(props) == props
    ensures props.Keys !! ManagerOptionKeys ==> GetCacheManagerOptions(props) == map[]
  {
  }

  /** A cached path counts only when it is a non-empty string. */
  predicate HasCachedPath(cachedImagePath: Option<string>) {
    cachedImagePath.Some? && cachedImagePath.value != ""
  }

  /** The choice at the end of the component (`isInternetReachable` null counts as false). */
  function RenderBranch(isCacheable: bool, cachedImagePath: Option<string>, isInternetReachable: bool, hasFallback: bool): Branch {
    if isCacheable && !HasCachedPath(cachedImagePath) && isInternetReachable then Loader
    else
      var source := if isCacheable && HasCachedPath(cachedImagePath) then CachedFile(AddPathPrefix(cachedImagePath.value)) else OriginalSource;
      if hasFallback && !HasCachedPath(cachedImagePath) then Fallback
      else Image(source)
  }

  /** The loader is shown exactly for a cacheable source with no cached path while online;
      the fallback exactly when one is given, there is no cached path and the loader is
      not shown; the cached file exactly when the source is cacheable and has a cached path,
      then as a `file://` uri; the original source in every other case. */
  lemma RenderBranchSpec(isCacheable: bool, cachedImagePath: Option<string>, isInternetReachable: bool, hasFallback: bool)
    ensures var b := RenderBranch(isCacheable, cachedImagePath, isInternetReachable, hasFallback);
      && (b == Loader <==> isCacheable && !HasCachedPath(cachedImagePath) && isInternetReachable)
      && (b == Fallback <==> hasFallback && !HasCachedPath(cachedImagePath) && !(isCacheable && isInternetReachable))
      && (b.Image? && b.source.CachedFile? <==> isCacheable && HasCachedPath(cachedImagePath))
      && (b.Image? && b.source.CachedFile? ==> b.source.uri == AddPathPrefix(cachedImagePath.value))
      && (b == Image(OriginalSource) <==>
            if HasCachedPath(cachedImagePath) then !isCacheable else !hasFallback && !(isCacheable && isInternetReachable))
  {
  }
}
