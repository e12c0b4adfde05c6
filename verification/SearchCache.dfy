// search-app/kosher_search/server.py `Backend.search`: threads share a cache of recent
// answers, ordered by use, and a table of the requests in flight. The regions under
// the lock are methods of `Backend`.
module SearchCache {
  const CACHE_SECONDS := 60
  const CACHE_ENTRIES := 32

  datatype Key = Key(query: string, category: string, page: int)

  // key = (query, category, max(1, page))
  function KeyOf(query: string, category: string, page: int): Key {
    Key(query, category, if page > 1 then page else 1)
  }

  // What the engine answered; only a non-empty result list is remembered.
  datatype Payload = Payload(results: seq<string>)

  // A remembered answer: `ref` is the payload object, stored at expires - CACHE_SECONDS.
  datatype Entry = Entry(key: Key, expires: int, ref: int)

  // The ordered dictionary, least recently used first.
  type Cache = seq<Entry>

  predicate Holds(cache: Cache, key: Key) {
    exists i :: 0 <= i < |cache| && cache[i].key == key
  }

  function Find(cache: Cache, key: Key): (i: nat)
    ensures i <= |cache|
    ensures i < |cache| ==> cache[i].key == key
    ensures i == |cache| <==> !Holds(cache, key)
  {
    if cache == [] then 0
    else if cache[0].key == key then 0
    else
      var i := Find(cache[1..], key);
      assert i < |cache[1..]| ==> cache[1..][i] == cache[i + 1];
      assert Holds(cache, key) ==> Holds(cache[1..], key) by {
        if j :| 0 <= j < |cache| && cache[j].key == key {
          assert cache[1..][j - 1] == cache[j];
        }
      }
      1 + i
  }

  function Drop(cache: Cache, i: nat): Cache
    requires i < |cache|
  {
    cache[..i] + cache[i + 1..]
  }

  // What the first region decides: a hit, a request to wait for, or a request to make.
  datatype Answer = Hit(entry: Entry) | Wait(future: int) | Own

  // Lines 184-195: look up, dropping an expired entry, then join or register.
  function LookupRegion(cache: Cache, pending: map<Key, int>, key: Key, now: int, future: int): (r: (Cache, map<Key, int>, Answer)) {
    var i := Find(cache, key);
    if i < |cache| && cache[i].expires > now then
      (Drop(cache, i) + [cache[i]], pending, Hit(cache[i]))
    else
      var rest := if i < |cache| then Drop(cache, i) else cache;
      if key in pending then (rest, pending, Wait(pending[key]))
      else (rest, pending[key := future], Own)
  }

  // An assignment to an ordered dictionary: in place for a key it has, else last.
  function Assign(cache: Cache, e: Entry): Cache {
    var i := Find(cache, e.key);
    if i < |cache| then cache[i := e] else cache + [e]
  }

  // Lines 203-206: remember, then drop the least recently used while there are too many.
  function StoreRegion(cache: Cache, e: Entry): Cache {
    var more := Assign(cache, e);
    if |more| > CACHE_ENTRIES then more[|more| - CACHE_ENTRIES..] else more
  }

  class Backend {
    var cache: Cache
    var pending: map<Key, int>

    constructor ()
      ensures cache == [] && pending == map[]
    {
      cache, pending := [], map[];
    }

    method Lookup(key: Key, now: int, future: int) returns (answer: Answer)
      modifies this
      ensures (cache, pending, answer) == LookupRegion(old(cache), old(pending), key, now, future)
    {
      var i := Find(cache, key);
      if i < |cache| {
        var entry := cache[i];
        if entry.expires > now {
          cache := Drop(cache, i) + [entry];
          return Hit(entry);
        }
        cache := Drop(cache, i);
      }
      if key in pending {
        return Wait(pending[key]);
      }
      pending := pending[key := future];
      return Own;
    }

    method Store(key: Key, now: int, ref: int)
      modifies this`cache
      ensures cache == StoreRegion(old(cache), Entry(key, now + CACHE_SECONDS, ref))
    {
      cache := Assign(cache, Entry(key, now + CACHE_SECONDS, ref));
      ghost var more := cache;
      while |cache| > CACHE_ENTRIES
        invariant |cache| <= |more| && cache == more[|more| - |cache|..]
        invariant |cache| == |more| || |cache| >= CACHE_ENTRIES
      {
        cache := cache[1..];
      }
    }

    method Forget(key: Key)
      modifies this`pending
      ensures pending == old(pending) - {key}
    {
      pending := pending - {key};
    }
  }
}
