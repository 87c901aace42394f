/** The cache with a time to live, as one goroutine sees it. */
module Cache {
  import opened Basics

  datatype Entry<V> = Entry(value: V, expiresAt: int) {
    predicate Expired(now: int) { now > expiresAt }
  }

  class Cache<K(==), V> {
    var data: map<K, Entry<V>>
    const defaultTTL: int

    constructor (ttl: int)
      ensures data == map[] && defaultTTL == ttl
    {
      data, defaultTTL := map[], ttl;
    }

    method Get(key: K, now: int) returns (r: Option<V>)
      modifies this
      ensures r == if old(key in data && !data[key].Expired(now)) then Some(old(data[key]).value) else None
      ensures data == if r.None? then old(data) - {key} else old(data)
    {
      if key !in data {
        return None;
      }
      if data[key].Expired(now) {
        data := data - {key};
        return None;
      }
      r := Some(data[key].value);
    }

    /** loaded is what the loader would answer; it is asked only on a miss, and a failed load stores
        nothing. */
    method GetOrLoad(key: K, now: int, loaded: Option<V>) returns (r: Option<V>, asked: bool)
      modifies this
      ensures asked <==> old(key !in data || data[key].Expired(now))
      ensures !asked ==> r == Some(old(data[key]).value) && data == old(data)
      ensures asked && loaded.Some? ==> r == loaded && data == old(data)[key := Entry(loaded.value, now + defaultTTL)]
      ensures asked && loaded.None? ==> r == None && data == old(data) - {key}
    {
      asked := false;
      r := Get(key, now);
      if r.Some? { return; }
      r := Get(key, now);
      if r.Some? { return; }
      asked := true;
      if loaded.None? {
        return None, asked;
      }
      Set(key, loaded.value, now);
      r := loaded;
    }

    method Set(key: K, value: V, now: int)
      modifies this
      ensures data == old(data)[key := Entry(value, now + defaultTTL)]
    {
      data := data[key := Entry(value, now + defaultTTL)];
    }

    method Del(key: K)
      modifies this
      ensures data == old(data) - {key}
    {
      data := data - {key};
    }

    /** One tick of the cleanup loop: it goes over the keys and drops those that have expired. Every entry
        left is as it was, and none of the entries gone could have been a hit. */
    method Sweep(now: int)
      modifies this
      ensures forall key :: key in data ==> key in old(data) && data[key] == old(data)[key]
      ensures forall key :: key in old(data) ==> (key in data <==> !old(data)[key].Expired(now))
    {
      var keys := data.Keys;
      while keys != {}
        invariant forall key :: key in data ==> key in old(data) && data[key] == old(data)[key]
        invariant forall key :: key in old(data) ==>
                    (key in data <==> key in keys || !old(data)[key].Expired(now))
        decreases keys
      {
        var key :| key in keys;
        if data[key].Expired(now) {
          data := data - {key};
        }
        keys := keys - {key};
      }
    }
  }
}
