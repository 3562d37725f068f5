/**
  The dogpile.cache `region` shared by the providers and the settings code: a key-value
  store whose entries remember when they were created. Time is a count of seconds.
 */
module CacheRegion {
  import opened Wrappers

  /** A cached value and the time it was stored at. */
  datatype Stored<V> = Stored(value: V, createdAt: int)

  class Region<V> {
    var entries: map<string, Stored<V>>

    constructor ()
      ensures entries == map[]
    {
      entries := map[];
    }

    /**
      `region.get(key, expiration_time=maxAge)`: None stands for `NO_VALUE`, returned when
      the key is absent or its entry is more than `maxAge` seconds old.
     */
    function Get(key: string, now: int, maxAge: Option<int>): (r: Option<V>)
      reads this
      ensures r.Some? <==> key in entries && (maxAge.None? || now - entries[key].createdAt <= maxAge.value)
      ensures r.Some? ==> r.value == entries[key].value
    {
      if key in entries && (maxAge.None? || now - entries[key].createdAt <= maxAge.value)
      then Some(entries[key].value)
      else None
    }

    /** `region.set(key, value)` */
    method Set(key: string, value: V, now: int)
      modifies this
      ensures entries == old(entries)[key := Stored(value, now)]
    {
      entries := entries[key := Stored(value, now)];
    }

    /** `region.delete(key)`: deleting an absent key is not an error. */
    method Delete(key: string)
      modifies this
      ensures entries == old(entries) - {key}
    {
      entries := entries - {key};
    }
  }
}
