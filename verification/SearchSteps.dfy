// search-app/kosher_search/server.py `Backend.search`: every step of any call, on success
// and on every error path, keeps the invariant of the machine.
module SearchSteps {
  import opened SearchCache
  import opened SingleFlight

  // What a step of call t leaves alone for the other calls.
  ghost predicate Frame(s: State, x: State, t: int) {
    && t in s.calls
    && (forall f <- s.futures :: f in x.futures && x.futures[f].key == s.futures[f].key && x.futures[f].owner == s.futures[f].owner
          && (s.futures[f].owner != t || s.futures[f].state != Unset ==> x.futures[f] == s.futures[f]))
    && (forall ref <- s.fetched :: ref in x.fetched && x.fetched[ref] == s.fetched[ref])
    && (forall c <- s.holder :: c in x.holder && x.holder[c] == s.holder[c])
    && (forall k <- s.pending :: s.pending[k] in s.futures && s.futures[s.pending[k]].owner != t ==> k in x.pending && x.pending[k] == s.pending[k])
    && (forall k: Key :: !Holds(s.cache, k) && (k in s.pending && s.pending[k] in s.futures && s.futures[s.pending[k]].owner != t)
          ==> !Holds(x.cache, k))
  }

  lemma OtherCallKeeps(s: State, x: State, t: int, u: int, c: Call)
    requires Frame(s, x, t) && u != t && CallOk(s, u, c)
    ensures CallOk(x, u, c)
  {
  }

  lemma CallsKeep(s: State, x: State, t: int, c: Call)
    requires Inv(s) && Frame(s, x, t) && x.calls == s.calls[t := c] && CallOk(x, t, c)
    ensures forall u <- x.calls :: CallOk(x, u, x.calls[u])
  {
    forall u <- x.calls ensures CallOk(x, u, x.calls[u]) {
      if u != t {
        OtherCallKeeps(s, x, t, u, s.calls[u]);
      }
    }
  }

  lemma DropKeeps(cache: Cache, i: nat, fetched: map<int, Fetch>, used: map<Key, int>, uses: int, now: int)
    requires CacheOk(cache, fetched, used, uses, now) && i < |cache|
    ensures CacheOk(Drop(cache, i), fetched, used, uses, now)
    ensures !Holds(Drop(cache, i), cache[i].key)
    ensures forall k :: !Holds(cache, k) ==> !Holds(Drop(cache, i), k)
  {
    var rest := Drop(cache, i);
    assert forall j :: 0 <= j < |rest| ==> rest[j] == cache[if j < i then j else j + 1];
  }

  // Using a key, new or just taken out, puts it last.
  lemma UseKeeps(cache: Cache, e: Entry, fetched: map<int, Fetch>, used: map<Key, int>, uses: int, now: int)
    requires CacheOk(cache, fetched, used, uses, now) && !Holds(cache, e.key) && |cache| < CACHE_ENTRIES
    requires EntryOk(e, fetched, used[e.key := uses], uses + 1, now)
    ensures CacheOk(cache + [e], fetched, used[e.key := uses], uses + 1, now)
    ensures forall k :: !Holds(cache, k) && k != e.key ==> !Holds(cache + [e], k)
  {
    var more := cache + [e];
    assert forall j :: 0 <= j < |cache| ==> more[j] == cache[j] && cache[j].key != e.key;
    forall j | 0 <= j < |more| ensures EntryOk(more[j], fetched, used[e.key := uses], uses + 1, now) {
      if j < |cache| { assert EntryOk(cache[j], fetched, used, uses, now); }
    }
    forall i, j | 0 <= i < j < |more|
      ensures used[e.key := uses][more[i].key] < used[e.key := uses][more[j].key]
    {
      assert EntryOk(cache[i], fetched, used, uses, now);
    }
  }

  // Storing a key the cache does not hold drops the least recently used when full.
  lemma StoreKeeps(cache: Cache, e: Entry, fetched: map<int, Fetch>, used: map<Key, int>, uses: int, now: int)
    requires CacheOk(cache, fetched, used, uses, now) && !Holds(cache, e.key)
    requires EntryOk(e, fetched, used[e.key := uses], uses + 1, now)
    ensures StoreRegion(cache, e) == (if |cache| == CACHE_ENTRIES then cache[1..] else cache) + [e]
    ensures CacheOk(StoreRegion(cache, e), fetched, used[e.key := uses], uses + 1, now)
    ensures forall k :: !Holds(cache, k) && k != e.key ==> !Holds(StoreRegion(cache, e), k)
  {
    if |cache| == CACHE_ENTRIES {
      DropKeeps(cache, 0, fetched, used, uses, now);
      assert Drop(cache, 0) == cache[1..];
      assert (cache + [e])[1..] == cache[1..] + [e];
      assert !Holds(cache[1..], e.key);
      UseKeeps(cache[1..], e, fetched, used, uses, now);
    } else {
      UseKeeps(cache, e, fetched, used, uses, now);
    }
  }

  // A hit moves its answer to the end and hands a copy of it out.
  lemma {:induction false} HitKeepsInv(s: State, t: int)
    requires Inv(s) && t in s.calls && s.calls[t].phase.Looking?
    requires LookupRegion(s.cache, s.pending, s.calls[t].key, s.now, s.next).2.Hit?
    ensures Inv(DoLookup(s, t))
  {
    var key := s.calls[t].key;
    var i := Find(s.cache, key);
    var e := s.cache[i];
    assert EntryOk(e, s.fetched, s.used, s.uses, s.now);
    var moved := Moved(s, i);
    MoveKeepsInv(s, i);
    var how := FromCache(s.now, e.expires - CACHE_SECONDS);
    ReturnCopyKeepsInv(moved, t, e.ref, how);
    assert DoLookup(s, t) == At(WithCopy(moved, t, e.ref), t, Returned(s.next, e.ref, s.heap[e.ref], how));
  }

  function Moved(s: State, i: nat): State
    requires i < |s.cache|
  {
    s.(cache := Drop(s.cache, i) + [s.cache[i]], used := s.used[s.cache[i].key := s.uses], uses := s.uses + 1)
  }

  lemma MoveKeepsInv(s: State, i: nat)
    requires Inv(s) && i < |s.cache|
    ensures Inv(Moved(s, i))
  {
    var x, e := Moved(s, i), s.cache[i];
    assert EntryOk(e, s.fetched, s.used, s.uses, s.now);
    DropKeeps(s.cache, i, s.fetched, s.used, s.uses, s.now);
    UseKeeps(Drop(s.cache, i), e, s.fetched, s.used, s.uses, s.now);
    assert Holds(s.cache, e.key);
    forall t <- x.calls
      ensures CallOk(x, t, x.calls[t])
    {
      assert CallOk(s, t, s.calls[t]);
    }
  }

  // The futures and the table stay right when call t, which owns nothing in flight or
  // goes on owning it, moves on.
  lemma FuturesKeep(s: State, x: State, t: int)
    requires FuturesOk(s) && Frame(s, x, t) && x.futures == s.futures && x.pending == s.pending && x.next >= s.next
    requires t in x.calls && x.calls == s.calls[t := x.calls[t]] && x.calls[t].key == s.calls[t].key
    requires Live(s.calls[t].phase) ==> Live(x.calls[t].phase) && x.calls[t].phase.future == s.calls[t].phase.future
    requires Settling(s.calls[t].phase) ==> Settling(x.calls[t].phase)
    ensures FuturesOk(x)
  {
  }

  lemma MissKeepsCache(s: State, t: int)
    requires Inv(s) && t in s.calls && s.calls[t].phase.Looking?
    requires !LookupRegion(s.cache, s.pending, s.calls[t].key, s.now, s.next).2.Hit?
    ensures var x := DoLookup(s, t);
      && CacheOk(x.cache, s.fetched, s.used, s.uses, s.now)
      && !Holds(x.cache, s.calls[t].key)
      && forall k :: !Holds(s.cache, k) ==> !Holds(x.cache, k)
  {
    var i := Find(s.cache, s.calls[t].key);
    if i < |s.cache| {
      DropKeeps(s.cache, i, s.fetched, s.used, s.uses, s.now);
    }
  }

  lemma JoinKeepsInv(s: State, t: int)
    requires Inv(s) && t in s.calls && s.calls[t].phase.Looking?
    requires LookupRegion(s.cache, s.pending, s.calls[t].key, s.now, s.next).2.Wait?
    ensures Inv(DoLookup(s, t))
  {
    var x := DoLookup(s, t);
    MissKeepsCache(s, t);
    CallsKeep(s, x, t, x.calls[t]);
    FuturesKeep(s, x, t);
  }

  lemma RegisterKeepsFutures(s: State, t: int, cache: Cache, key: Key)
    requires FuturesOk(s) && t in s.calls && s.calls[t] == Call(key, Looking) && key !in s.pending
    ensures var x := s.(cache := cache, pending := s.pending[key := s.next],
                        futures := s.futures[s.next := Future(key, t, Unset)], next := s.next + 1);
      FuturesOk(At(x, t, Fetching(s.next)))
  {
    var x := At(s.(cache := cache, pending := s.pending[key := s.next],
                   futures := s.futures[s.next := Future(key, t, Unset)], next := s.next + 1), t, Fetching(s.next));
    forall k <- x.pending
      ensures x.pending[k] in x.futures && x.futures[x.pending[k]].key == k
      ensures var u := x.futures[x.pending[k]].owner;
        u in x.calls && x.calls[u].key == k && Live(x.calls[u].phase) && x.calls[u].phase.future == x.pending[k]
    {
      if k != key {
        assert s.pending[k] in s.futures && s.pending[k] != s.next;
      }
    }
  }

  function Registered(s: State, t: int, cache: Cache): State
    requires t in s.calls
  {
    var key := s.calls[t].key;
    At(s.(cache := cache, pending := s.pending[key := s.next],
          futures := s.futures[s.next := Future(key, t, Unset)], next := s.next + 1), t, Fetching(s.next))
  }

  lemma RegisteredFrame(s: State, t: int, cache: Cache)
    requires FuturesOk(s) && t in s.calls && s.calls[t].key !in s.pending
    requires forall k :: !Holds(s.cache, k) ==> !Holds(cache, k)
    ensures Frame(s, Registered(s, t, cache), t)
  {
  }

  lemma RegisteredKeepsInv(s: State, t: int, cache: Cache)
    requires Inv(s) && t in s.calls && s.calls[t].phase.Looking? && s.calls[t].key !in s.pending
    requires CacheOk(cache, s.fetched, s.used, s.uses, s.now) && !Holds(cache, s.calls[t].key)
    requires forall k :: !Holds(s.cache, k) ==> !Holds(cache, k)
    ensures Inv(Registered(s, t, cache))
  {
    var x := Registered(s, t, cache);
    RegisterKeepsFutures(s, t, cache, s.calls[t].key);
    RegisteredFrame(s, t, cache);
    CallsKeep(s, x, t, x.calls[t]);
  }

  lemma {:induction false} RegisterKeepsInv(s: State, t: int)
    requires Inv(s) && t in s.calls && s.calls[t].phase.Looking?
    requires LookupRegion(s.cache, s.pending, s.calls[t].key, s.now, s.next).2.Own?
    ensures Inv(DoLookup(s, t))
  {
    MissKeepsCache(s, t);
    var x := DoLookup(s, t);
    assert x == Registered(s, t, x.cache);
    RegisteredKeepsInv(s, t, x.cache);
  }

  lemma LookupKeepsInv(s: State, t: int)
    requires Inv(s) && t in s.calls && s.calls[t].phase.Looking?
    ensures Inv(DoLookup(s, t))
  {
    match LookupRegion(s.cache, s.pending, s.calls[t].key, s.now, s.next).2
    case Hit(_) => HitKeepsInv(s, t);
    case Wait(_) => JoinKeepsInv(s, t);
    case Own => RegisterKeepsInv(s, t);
  }

  lemma FetchKeepsInv(s: State, t: int, payload: Payload)
    requires Inv(s) && t in s.calls && s.calls[t].phase.Fetching?
    ensures Inv(Apply(s, FetchReturns(t, payload)))
  {
    var fetch := Fetch(s.calls[t].key, payload, s.now, t);
    var heap, fetched := s.heap[s.next := payload], s.fetched[s.next := fetch];
    FetchedKeepsInv(s, t, heap, fetched, fetch);
    assert Apply(s, FetchReturns(t, payload))
        == At(s.(heap := heap, fetched := fetched, next := s.next + 1), t, Got(s.calls[t].phase.future, s.next));
  }

  lemma FetchedKeepsInv(s: State, t: int, heap: map<int, Payload>, fetched: map<int, Fetch>, fetch: Fetch)
    requires Inv(s) && t in s.calls && s.calls[t].phase.Fetching? && fetch.key == s.calls[t].key && fetch.at == s.now && fetch.who == t
    requires heap == s.heap[s.next := fetch.payload] && fetched == s.fetched[s.next := fetch]
    ensures Inv(At(s.(heap := heap, fetched := fetched, next := s.next + 1), t, Got(s.calls[t].phase.future, s.next)))
  {
    var x := At(s.(heap := heap, fetched := fetched, next := s.next + 1), t, Got(s.calls[t].phase.future, s.next));
    assert CallOk(s, t, s.calls[t]);
    CallsKeep(s, x, t, x.calls[t]);
    FuturesKeep(s, x, t);
    HeapGrowsFetched(s, x, fetch);
    CacheGrowsFetched(s.cache, s.fetched, x.fetched, s.used, s.uses, s.now);
  }

  lemma HeapGrowsFetched(s: State, x: State, fetch: Fetch)
    requires HeapOk(s) && fetch.at == s.now && x.now == s.now && x.next == s.next + 1 && x.holder == s.holder
    requires x.heap == s.heap[s.next := fetch.payload] && x.fetched == s.fetched[s.next := fetch]
    ensures HeapOk(x)
  {
  }

  lemma CacheGrowsFetched(cache: Cache, fetched: map<int, Fetch>, more: map<int, Fetch>, used: map<Key, int>, uses: int, now: int)
    requires CacheOk(cache, fetched, used, uses, now)
    requires forall ref <- fetched :: ref in more && more[ref] == fetched[ref]
    ensures CacheOk(cache, more, used, uses, now)
  {
    forall i | 0 <= i < |cache| ensures EntryOk(cache[i], more, used, uses, now) {
      assert EntryOk(cache[i], fetched, used, uses, now);
    }
  }

  ghost predicate OnlyAdds(cache: Cache, more: Cache, key: Key) {
    forall k :: !Holds(cache, k) && k != key ==> !Holds(more, k)
  }

  // Two live calls never have the same key, so a store leaves other owners' keys out.
  lemma StoreFrame(s: State, t: int, cache: Cache, used: map<Key, int>, uses: int, p: Phase)
    requires Inv(s) && t in s.calls && s.calls[t].phase.Got?
    requires OnlyAdds(s.cache, cache, s.calls[t].key)
    ensures Frame(s, At(s.(cache := cache, used := used, uses := uses), t, p), t)
  {
    assert CallOk(s, t, s.calls[t]);
    forall k: Key | !Holds(s.cache, k) && k in s.pending && s.pending[k] in s.futures && s.futures[s.pending[k]].owner != t
      ensures !Holds(cache, k)
    {
      assert k != s.calls[t].key;
    }
  }

  lemma StoredKeepsInv(s: State, t: int, cache: Cache, used: map<Key, int>, uses: int)
    requires Inv(s) && t in s.calls && s.calls[t].phase.Got?
    requires OnlyAdds(s.cache, cache, s.calls[t].key)
    requires CacheOk(cache, s.fetched, used, uses, s.now)
    ensures Inv(WithStore(s, t, cache, used, uses))
  {
    var p := Stored(s.calls[t].phase.future, s.calls[t].phase.ref);
    var x := At(s.(cache := cache, used := used, uses := uses), t, p);
    assert CallOk(s, t, s.calls[t]);
    StoreFrame(s, t, cache, used, uses, p);
    CallsKeep(s, x, t, x.calls[t]);
    FuturesKeep(s, x, t);
  }

  lemma StoreKeepsInv(s: State, t: int)
    requires Inv(s) && t in s.calls && s.calls[t].phase.Got? && s.calls[t].phase.ref in s.heap
    ensures Inv(DoStore(s, t))
  {
    var r := Remembered(s, s.calls[t].key, s.calls[t].phase.ref);
    if s.heap[s.calls[t].phase.ref].results != [] {
      ResultsAreRemembered(s, t, r);
    } else {
      NothingIsRemembered(s, t, r);
    }
    StoredKeepsInv(s, t, r.0, r.1, r.2);
  }

  // The cache an owner leaves, which keeps the keys of other owners out.
  ghost predicate CanFollow(s: State, t: int, r: (Cache, map<Key, int>, int))
    requires t in s.calls
  {
    CacheOk(r.0, s.fetched, r.1, r.2, s.now) && OnlyAdds(s.cache, r.0, s.calls[t].key)
  }

  lemma NothingIsRemembered(s: State, t: int, r: (Cache, map<Key, int>, int))
    requires Inv(s) && t in s.calls && r == (s.cache, s.used, s.uses)
    ensures CanFollow(s, t, r)
  {
  }

  lemma ResultsAreRemembered(s: State, t: int, r: (Cache, map<Key, int>, int))
    requires Inv(s) && t in s.calls && s.calls[t].phase.Got? && s.calls[t].phase.ref in s.heap
    requires s.heap[s.calls[t].phase.ref].results != []
    requires r == (StoreRegion(s.cache, Entry(s.calls[t].key, s.now + CACHE_SECONDS, s.calls[t].phase.ref)),
                   s.used[s.calls[t].key := s.uses], s.uses + 1)
    ensures CanFollow(s, t, r)
  {
    assert CallOk(s, t, s.calls[t]);
    StoreKeeps(s.cache, Entry(s.calls[t].key, s.now + CACHE_SECONDS, s.calls[t].phase.ref), s.fetched, s.used, s.uses, s.now);
  }

  // Setting a future its owner is at work on.
  lemma SetKeepsFutures(s: State, t: int, state: FutureState, p: Phase)
    requires FuturesOk(s) && t in s.calls && Live(s.calls[t].phase) && Owns(s, t, s.calls[t].key, s.calls[t].phase.future)
    requires Live(p) && p.future == s.calls[t].phase.future
    requires state.Value? ==> FetchedBy(s, state.ref, s.calls[t].key, t)
    requires state != Unset && s.futures[p.future].state == Unset
    ensures FuturesOk(At(SetFuture(s, p.future, state), t, p))
    ensures Frame(s, At(SetFuture(s, p.future, state), t, p), t)
  {
  }

  lemma PublishKeepsInv(s: State, t: int)
    requires Inv(s) && t in s.calls && s.calls[t].phase.Stored?
    ensures Inv(Apply(s, Publish(t)))
  {
    var x, p := Apply(s, Publish(t)), s.calls[t].phase;
    assert CallOk(s, t, s.calls[t]);
    SetKeepsFutures(s, t, Value(p.ref), Published(p.future, p.ref));
    CallsKeep(s, x, t, x.calls[t]);
  }

  lemma CopyKeepsInv(s: State, t: int)
    requires Inv(s) && t in s.calls && s.calls[t].phase.Published?
    ensures Inv(Apply(s, Copy(t)))
  {
    var x, p := Apply(s, Copy(t)), s.calls[t].phase;
    assert CallOk(s, t, s.calls[t]);
    assert x == At(WithCopy(s, t, p.ref), t, Copied(p.future, s.next, p.ref, s.heap[p.ref]));
    CopyKeepsHeap(s, t, p.ref);
    CallsKeep(s, x, t, x.calls[t]);
    FuturesKeep(s, x, t);
  }

  lemma FailKeepsInv(s: State, t: int)
    requires Inv(s) && t in s.calls
    ensures Inv(DoFail(s, t))
  {
    var p := s.calls[t].phase;
    if Settling(p) {
      FailWithError(s, t);
    } else if p.Published? {
      FailAfterwards(s, t);
    }
  }

  lemma FailWithError(s: State, t: int)
    requires Inv(s) && t in s.calls && Settling(s.calls[t].phase)
    ensures Inv(At(SetFuture(s, s.calls[t].phase.future, Error), t, Failing(s.calls[t].phase.future)))
  {
    var f := s.calls[t].phase.future;
    var x := At(SetFuture(s, f, Error), t, Failing(f));
    assert CallOk(s, t, s.calls[t]);
    SetKeepsFutures(s, t, Error, Failing(f));
    CallsKeep(s, x, t, x.calls[t]);
  }

  lemma FailAfterwards(s: State, t: int)
    requires Inv(s) && t in s.calls && s.calls[t].phase.Published?
    ensures Inv(At(s, t, Failing(s.calls[t].phase.future)))
  {
    var x := At(s, t, Failing(s.calls[t].phase.future));
    assert CallOk(s, t, s.calls[t]);
    CallsKeep(s, x, t, x.calls[t]);
    FuturesKeep(s, x, t);
  }

  lemma ReleaseKeepsInv(s: State, t: int)
    requires Inv(s) && t in s.calls
    ensures Inv(DoRelease(s, t))
  {
    var x, p := DoRelease(s, t), s.calls[t].phase;
    assert CallOk(s, t, s.calls[t]);
    if p.Copied? || p.Failing? {
      ReleaseKeepsFutures(s, t, x);
      CallsKeep(s, x, t, x.calls[t]);
    }
  }

  lemma ReleaseKeepsFutures(s: State, t: int, x: State)
    requires FuturesOk(s) && t in s.calls && Live(s.calls[t].phase) && Owns(s, t, s.calls[t].key, s.calls[t].phase.future)
    requires !Settling(s.calls[t].phase)
    requires t in x.calls && x == s.(pending := s.pending - {s.calls[t].key}, calls := s.calls[t := x.calls[t]])
    ensures FuturesOk(x) && Frame(s, x, t)
  {
    forall k <- x.pending
      ensures var u := x.futures[x.pending[k]].owner;
        u in x.calls && x.calls[u].key == k && Live(x.calls[u].phase) && x.calls[u].phase.future == x.pending[k]
    {
      assert k in s.pending && k != s.calls[t].key;
    }
  }

  lemma CopyKeepsHeap(s: State, t: int, ref: int)
    requires HeapOk(s) && ref in s.heap
    ensures HeapOk(WithCopy(s, t, ref))
  {
  }

  // A call that owns nothing in flight returns with a copy of an object fetched for
  // its key.
  lemma ReturnCopyKeepsInv(s: State, t: int, ref: int, how: How)
    requires Inv(s) && t in s.calls && !Live(s.calls[t].phase)
    requires FetchedFor(s, ref, s.calls[t].key)
    requires match how
      case FromCache(at, storedAt) =>
        s.fetched[ref].payload.results != [] && s.fetched[ref].at <= storedAt <= at < storedAt + CACHE_SECONDS
      case FromOwner(f) => f in s.futures && s.futures[f].key == s.calls[t].key && s.futures[f].state == Value(ref)
      case Fetched => s.fetched[ref].who == t
    ensures ref in s.heap
    ensures Inv(At(WithCopy(s, t, ref), t, Returned(s.next, ref, s.heap[ref], how)))
  {
    var x := At(WithCopy(s, t, ref), t, Returned(s.next, ref, s.heap[ref], how));
    CopyKeepsHeap(s, t, ref);
    CallsKeep(s, x, t, x.calls[t]);
    FuturesKeep(s, x, t);
  }

  lemma GiveUpKeepsInv(s: State, t: int)
    requires Inv(s) && t in s.calls && s.calls[t].phase.Waiting?
    ensures Inv(At(s, t, Raised))
  {
    var x := At(s, t, Raised);
    CallsKeep(s, x, t, x.calls[t]);
    FuturesKeep(s, x, t);
  }

  lemma WakeKeepsInv(s: State, t: int)
    requires Inv(s) && t in s.calls && s.calls[t].phase.Waiting? && s.calls[t].phase.future in s.futures
    ensures Inv(DoWake(s, t))
  {
    var f := s.calls[t].phase.future;
    assert CallOk(s, t, s.calls[t]);
    match s.futures[f].state
    case Unset =>
    case Error => GiveUpKeepsInv(s, t);
    case Value(ref) => ReturnCopyKeepsInv(s, t, ref, FromOwner(f));
  }

  lemma BeginKeepsInv(s: State, t: int, key: Key)
    requires Inv(s) && t !in s.calls
    ensures Inv(Apply(s, Begin(t, key)))
  {
    var x := Apply(s, Begin(t, key));
    forall u <- x.calls ensures CallOk(x, u, x.calls[u]) {
      if u != t { assert CallOk(s, u, s.calls[u]); }
    }
  }

  // A caller can change its own copy and nothing the others share.
  lemma WriteKeepsInv(s: State, t: int, payload: Payload)
    requires Inv(s) && t in s.calls && s.calls[t].phase.Returned?
    ensures Inv(Apply(s, Write(t, payload)))
    ensures forall ref <- s.fetched :: Apply(s, Write(t, payload)).heap[ref] == s.heap[ref]
    ensures forall u <- s.calls :: u != t && s.calls[u].phase.Returned? ==>
      s.calls[u].phase.copy in s.heap && Apply(s, Write(t, payload)).heap[s.calls[u].phase.copy] == s.heap[s.calls[u].phase.copy]
  {
    var x := Apply(s, Write(t, payload));
    assert CallOk(s, t, s.calls[t]);
    forall u <- x.calls ensures CallOk(x, u, x.calls[u]) {
      assert CallOk(s, u, s.calls[u]);
    }
    forall u <- s.calls | u != t && s.calls[u].phase.Returned? ensures s.calls[u].phase.copy != s.calls[t].phase.copy {
      assert CallOk(s, u, s.calls[u]);
    }
  }

  lemma TickKeepsInv(s: State, seconds: nat)
    requires Inv(s)
    ensures Inv(Apply(s, Tick(seconds)))
  {
    var x := Apply(s, Tick(seconds));
    forall i | 0 <= i < |s.cache| ensures EntryOk(s.cache[i], s.fetched, s.used, s.uses, x.now) {
      assert EntryOk(s.cache[i], s.fetched, s.used, s.uses, s.now);
    }
    forall u <- x.calls ensures CallOk(x, u, x.calls[u]) {
      assert CallOk(s, u, s.calls[u]);
    }
  }

  lemma {:induction false} ApplyKeepsInv(s: State, e: Event)
    requires Inv(s)
    ensures Inv(Apply(s, e))
  {
    if Apply(s, e) != s {
      match e
      case Lookup(t) => LookupKeepsInv(s, t);
      case FetchReturns(t, payload) => FetchKeepsInv(s, t, payload);
      case Store(t) => StoreKeepsInv(s, t);
      case Publish(t) => PublishKeepsInv(s, t);
      case Copy(t) => CopyKeepsInv(s, t);
      case Fail(t) => FailKeepsInv(s, t);
      case Release(t) => ReleaseKeepsInv(s, t);
      case Wake(t) => WakeKeepsInv(s, t);
      case Begin(t, key) => BeginKeepsInv(s, t, key);
      case TimeOut(t) => GiveUpKeepsInv(s, t);
      case Write(t, payload) => WriteKeepsInv(s, t, payload);
      case Tick(seconds) => TickKeepsInv(s, seconds);
    }
  }

  lemma {:induction false} PlayKeepsInv(s: State, events: seq<Event>)
    requires Inv(s)
    ensures Inv(Play(s, events))
    decreases |events|
  {
    if events != [] {
      ApplyKeepsInv(s, events[0]);
      PlayKeepsInv(Apply(s, events[0]), events[1..]);
    }
  }
}
