/** The options object of the cache managers: the defaults, the object spread
    `{ ...a, ...b }` of the newer manager and the in-place `_.defaults` of the older
    one. An absent key of a partial options object is `None`. */
module CacheOptions {
  import opened Common
  import PathUtils

  datatype Options = Options(
    headers: Headers,
    ttl: nat,
    policy: PathUtils.Policy,      // useQueryParamsInCacheKey
    cacheLocation: string,
    allowSelfSignedSSL: bool)

  datatype Partial = Partial(
    headers: Option<Headers>,
    ttl: Option<nat>,
    policy: Option<PathUtils.Policy>,
    cacheLocation: Option<string>,
    allowSelfSignedSSL: Option<bool>)

  /** The `{}` passed when a call gives no options. */
  const NoOptions := Partial(None, None, None, None, None)

  /** `WrapperFS.getCacheDir`: the platform's caches directory and `imagesCacheDir`. */
  function GetCacheDir(cachesDirectoryPath: string): string {
    cachesDirectoryPath + "/imagesCacheDir"
  }

  /** The default options; the two managers differ only in `allowSelfSignedSSL`. */
  function DefaultOptions(cachesDirectoryPath: string, allowSelfSignedSSL: bool): (d: Options)
    ensures d.ttl == 1209600 && d.headers == map[] && d.policy == PathUtils.Flag(false)
    ensures d.cacheLocation == cachesDirectoryPath + "/imagesCacheDir"
  {
    Options(map[], 3600 * 24 * 14, PathUtils.Flag(false), GetCacheDir(cachesDirectoryPath), allowSelfSignedSSL)
  }

  /** `{ ...base, ...over }` for a complete base. */
  function Over(base: Options, over: Partial): Options {
    Options(
      over.headers.GetOr(base.headers),
      over.ttl.GetOr(base.ttl),
      over.policy.GetOr(base.policy),
      over.cacheLocation.GetOr(base.cacheLocation),
      over.allowSelfSignedSSL.GetOr(base.allowSelfSignedSSL))
  }

  /** Each option comes from the call if it gives one, else from the constructor, else
      from the defaults. */
  lemma OptionPrecedence(defaults: Options, ctor: Partial, call: Partial)
    ensures var o := Over(Over(defaults, ctor), call);
      && o.headers == (if call.headers.Some? then call.headers.value else if ctor.headers.Some? then ctor.headers.value else defaults.headers)
      && o.ttl == (if call.ttl.Some? then call.ttl.value else if ctor.ttl.Some? then ctor.ttl.value else defaults.ttl)
      && o.policy == (if call.policy.Some? then call.policy.value else if ctor.policy.Some? then ctor.policy.value else defaults.policy)
      && o.cacheLocation == (if call.cacheLocation.Some? then call.cacheLocation.value
                             else if ctor.cacheLocation.Some? then ctor.cacheLocation.value else defaults.cacheLocation)
      && o.allowSelfSignedSSL == (if call.allowSelfSignedSSL.Some? then call.allowSelfSignedSSL.value
                                  else if ctor.allowSelfSignedSSL.Some? then ctor.allowSelfSignedSSL.value else defaults.allowSelfSignedSSL)
    ensures Over(Over(defaults, ctor), NoOptions) == Over(defaults, ctor)
  {
  }

  predicate IsComplete(p: Partial) {
    p.headers.Some? && p.ttl.Some? && p.policy.Some? && p.cacheLocation.Some? && p.allowSelfSignedSSL.Some?
  }

  function AsOptions(p: Partial): Options
    requires IsComplete(p)
  {
    Options(p.headers.value, p.ttl.value, p.policy.value, p.cacheLocation.value, p.allowSelfSignedSSL.value)
  }

  /** `_.defaults(p, d)`: every key `p` lacks is taken from `d`. */
  function FillDefaults(p: Partial, d: Options): (r: Partial)
    ensures IsComplete(r)
  {
    Partial(
      Some(p.headers.GetOr(d.headers)),
      Some(p.ttl.GetOr(d.ttl)),
      Some(p.policy.GetOr(d.policy)),
      Some(p.cacheLocation.GetOr(d.cacheLocation)),
      Some(p.allowSelfSignedSSL.GetOr(d.allowSelfSignedSSL)))
  }

  /** `_.defaults` only fills missing keys: a present key keeps its value, a missing
      one gets the default, and filling a filled object again changes nothing.
      The outcome is the spread of the object over the defaults. */
  lemma FillDefaultsSpec(p: Partial, d: Options, d': Options)
    ensures var r := FillDefaults(p, d);
      && (p.ttl.Some? ==> r.ttl == p.ttl) && (p.ttl.None? ==> r.ttl == Some(d.ttl))
      && (p.headers.Some? ==> r.headers == p.headers) && (p.headers.None? ==> r.headers == Some(d.headers))
      && (p.policy.Some? ==> r.policy == p.policy) && (p.policy.None? ==> r.policy == Some(d.policy))
      && (p.cacheLocation.Some? ==> r.cacheLocation == p.cacheLocation) && (p.cacheLocation.None? ==> r.cacheLocation == Some(d.cacheLocation))
      && (p.allowSelfSignedSSL.Some? ==> r.allowSelfSignedSSL == p.allowSelfSignedSSL)
      && (p.allowSelfSignedSSL.None? ==> r.allowSelfSignedSSL == Some(d.allowSelfSignedSSL))
      && FillDefaults(r, d') == r
      && AsOptions(r) == Over(d, p)
  {
  }

  /** A JavaScript options object that `_.defaults` updates in place. */
  class OptionsObject {
    var fields: Partial

    constructor (initial: Partial)
      ensures fields == initial
    {
      fields := initial;
    }

    /** `_.defaults(this, d)`. */
    method AssignDefaults(d: Options)
      modifies this
      ensures fields == FillDefaults(old(fields), d)
    {
      fields := FillDefaults(fields, d);
    }
  }
}
