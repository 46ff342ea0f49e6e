/** The index the engine keeps in `MemoryCache` (react-native-async-storage-cache):
    key to value with a time to live. The clock is not modelled; what a lookup
    finds is a parameter. */
module MemoryCacheIndex {
  import opened Common

  datatype Entry = Entry(value: string, ttl: nat)

  type Index = map<string, Entry>

  /** How a lookup goes: a present entry is live or has expired (and the lookup
      drops it), or the storage rejects, whether the key is present or not. */
  datatype Lookup = Live | Expired | LookupFails(message: string)

  /** `MemoryCache.get(key)`: the value, or undefined for an absent or expired key. */
  function GetOn(index: Index, key: string, lookup: Lookup): (out: (Result<Option<string>>, Index))
    ensures out.0 == Ok(None) ==> key !in out.1
    ensures out.0.Ok? && out.0.value.Some? ==> key in index && out.0.value.value == index[key].value && out.1 == index
    ensures forall k :: k != key ==> (k in out.1 <==> k in index) && (k in index ==> out.1[k] == index[k])
    ensures out.1 == index || out.1 == index - {key}
    ensures out.0.Err? <==> lookup.LookupFails?
    ensures out.0.Err? ==> out.1 == index
  {
    match lookup
    case LookupFails(m) => (Err(Rejected(m)), index)
    case Live => if key in index then (Ok(Some(index[key].value)), index) else (Ok(None), index)
    case Expired => if key in index then (Ok(None), index - {key}) else (Ok(None), index)
  }

  class MemoryCache {
    var entries: Index

    constructor ()
      ensures entries == map[]
    {
      entries := map[];
    }

    method Get(key: string, lookup: Lookup) returns (r: Result<Option<string>>)
      modifies this
      ensures (r, entries) == GetOn(old(entries), key, lookup)
    {
      match lookup
      case LookupFails(m) =>
        r := Err(Rejected(m));
      case Live =>
        r := if key in entries then Ok(Some(entries[key].value)) else Ok(None);
      case Expired =>
        if key in entries {
          entries := entries - {key};
        }
        r := Ok(None);
    }

    method Set(key: string, value: string, ttl: nat)
      modifies this
      ensures entries == old(entries)[key := Entry(value, ttl)]
    {
      entries := entries[key := Entry(value, ttl)];
    }

    method Remove(key: string)
      modifies this
      ensures entries == old(entries) - {key}
    {
      entries := entries - {key};
    }

    method Flush()
      modifies this
      ensures entries == map[]
    {
      entries := map[];
    }
  }
}
