// search-app/kosher_search/server.py `Backend.search`: what any number of calls may rely on,
// in every run of the machine and at every moment of it.
module SearchGuarantees {
  import opened SearchCache
  import opened SingleFlight
  import opened SearchSteps

  lemma Reached(events: seq<Event>)
    ensures Inv(Play(Initial, events))
  {
    PlayKeepsInv(Initial, events);
  }

  // At most one call at a time is working on a key's answer, so at most one upstream
  // request for it is in flight.
  lemma OneFetchPerKey(events: seq<Event>, t: int, u: int)
    requires var s := Play(Initial, events);
      t in s.calls && u in s.calls && s.calls[t].key == s.calls[u].key && Live(s.calls[t].phase) && Live(s.calls[u].phase)
    ensures t == u
  {
    Reached(events);
    var s := Play(Initial, events);
    assert CallOk(s, t, s.calls[t]) && CallOk(s, u, s.calls[u]);
  }

  // A key is in the table of requests in flight exactly while some call works on it,
  // whether that ends well or in an error.
  lemma PendingWhileOwnerLives(events: seq<Event>, key: Key)
    ensures var s := Play(Initial, events);
      key in s.pending <==> exists t :: t in s.calls && s.calls[t].key == key && Live(s.calls[t].phase)
  {
    Reached(events);
    var s := Play(Initial, events);
    if t :| t in s.calls && s.calls[t].key == key && Live(s.calls[t].phase) {
      assert CallOk(s, t, s.calls[t]);
    }
  }

  // What a call that returned was given: a copy of what was fetched for its own key. One
  // answered from the cache got a non-empty answer stored under a minute before, one that
  // waited got the answer of the very call whose future it waited on, and an owner got
  // what its own request returned.
  lemma ReturnedWasFetchedForKey(events: seq<Event>, t: int)
    requires var s := Play(Initial, events); t in s.calls && s.calls[t].phase.Returned?
    ensures var s := Play(Initial, events);
      var p := s.calls[t].phase;
      && p.from in s.fetched && s.fetched[p.from].key == s.calls[t].key && s.fetched[p.from].payload == p.given
      && match p.how
         case FromCache(at, storedAt) =>
           p.given.results != [] && s.fetched[p.from].at <= storedAt <= at < storedAt + CACHE_SECONDS
         case FromOwner(f) =>
           f in s.futures && s.futures[f].key == s.calls[t].key && s.fetched[p.from].who == s.futures[f].owner
         case Fetched => s.fetched[p.from].who == t
  {
    Reached(events);
    var s := Play(Initial, events);
    assert CallOk(s, t, s.calls[t]);
  }

  // The future a waiter returns from is the one it waited on.
  lemma WakesFromItsFuture(s: State, t: int)
    requires t in s.calls && s.calls[t].phase.Waiting?
    ensures Apply(s, Wake(t)).calls[t].phase.Returned? ==>
              Apply(s, Wake(t)).calls[t].phase.how == FromOwner(s.calls[t].phase.future)
  {
  }

  // No waiter is left to its timeout by a call that has ended: the future it waits on is
  // set, or the future's owner is still on its way to set it, however that goes.
  lemma NoWaiterIsStranded(events: seq<Event>, t: int)
    requires var s := Play(Initial, events); t in s.calls && s.calls[t].phase.Waiting?
    ensures var s := Play(Initial, events);
      var f := s.calls[t].phase.future;
      && f in s.futures
      && (s.futures[f].state == Unset ==>
            var owner := s.futures[f].owner;
            owner in s.calls && Settling(s.calls[owner].phase) && s.calls[owner].phase.future == f)
  {
    Reached(events);
    var s := Play(Initial, events);
    assert CallOk(s, t, s.calls[t]);
  }

  // What the cache holds: at most 32 answers, in order of use, each still what the
  // engine returned, and none for a key whose owner has yet to store it.
  lemma CacheIsByUse(events: seq<Event>)
    ensures var s := Play(Initial, events);
      && |s.cache| <= CACHE_ENTRIES
      && ByUse(s.cache, s.used)
      && (forall i :: 0 <= i < |s.cache| ==>
            && s.cache[i].ref in s.fetched && s.fetched[s.cache[i].ref].key == s.cache[i].key
            && s.cache[i].ref in s.heap && s.heap[s.cache[i].ref] == s.fetched[s.cache[i].ref].payload)
      && forall t <- s.calls :: s.calls[t].phase.Fetching? || s.calls[t].phase.Got? ==> !Holds(s.cache, s.calls[t].key)
  {
    Reached(events);
    var s := Play(Initial, events);
    forall i | 0 <= i < |s.cache| ensures EntryOk(s.cache[i], s.fetched, s.used, s.uses, s.now) {}
    forall t <- s.calls | s.calls[t].phase.Fetching? || s.calls[t].phase.Got? ensures !Holds(s.cache, s.calls[t].key) {
      assert CallOk(s, t, s.calls[t]);
    }
  }

  // An owner about to store into a full cache, and what becomes of the cache.
  ghost predicate StoresIntoFull(s: State, t: int) {
    && t in s.calls && s.calls[t].phase.Got? && s.calls[t].phase.ref in s.heap
    && s.heap[s.calls[t].phase.ref].results != [] && |s.cache| == CACHE_ENTRIES
  }

  ghost predicate DropsOldest(s: State, t: int)
    requires StoresIntoFull(s, t)
  {
    && Apply(s, Store(t)).cache == s.cache[1..] + [Entry(s.calls[t].key, s.now + CACHE_SECONDS, s.calls[t].phase.ref)]
    && forall i :: 1 <= i < CACHE_ENTRIES ==>
         s.cache[0].key in s.used && s.cache[i].key in s.used && s.used[s.cache[0].key] < s.used[s.cache[i].key]
  }

  // A store into a full cache drops exactly the answer whose last use is oldest.
  lemma EvictsLeastRecentlyUsed(events: seq<Event>, t: int)
    requires StoresIntoFull(Play(Initial, events), t)
    ensures DropsOldest(Play(Initial, events), t)
  {
    Reached(events);
    StoreEvictsOldest(Play(Initial, events), t);
  }

  lemma StoreEvictsOldest(s: State, t: int)
    requires Inv(s) && StoresIntoFull(s, t)
    ensures DropsOldest(s, t)
  {
    assert CallOk(s, t, s.calls[t]) && ByUse(s.cache, s.used);
    StoreKeeps(s.cache, Entry(s.calls[t].key, s.now + CACHE_SECONDS, s.calls[t].phase.ref), s.fetched, s.used, s.uses, s.now);
  }

  // An owner's run up to ten seconds after its fetch, still waiting to store.
  lemma SlowOwner(key: Key, answer: Payload)
    ensures var s := Play(Initial, [Begin(0, key), Lookup(0), FetchReturns(0, answer), Tick(10)]);
      && s.calls == map[0 := Call(key, Got(0, 1))] && s.cache == [] && s.now == 10
      && 1 in s.heap && s.heap[1] == answer && 1 in s.fetched && s.fetched[1] == Fetch(key, answer, 0, 0)
  {
    PlayFour(Initial, Begin(0, key), Lookup(0), FetchReturns(0, answer), Tick(10));
    var s1 := Apply(Initial, Begin(0, key));
    var s2 := Apply(s1, Lookup(0));
    assert s2.calls[0] == Call(key, Fetching(0)) && s2.cache == [] && s2.next == 1;
    var s3 := Apply(s2, FetchReturns(0, answer));
    assert s3.calls[0] == Call(key, Got(0, 1));
  }

  // A call begun some seconds later, and answered by its lookup.
  function BegunAfter(s: State, t: int, key: Key, seconds: nat): State {
    Apply(Apply(s, Tick(seconds)), Begin(t, key))
  }

  function AskedAfter(s: State, t: int, key: Key, seconds: nat): State {
    Apply(BegunAfter(s, t, key, seconds), Lookup(t))
  }

  // That call was handed an answer fetched a minute before or longer ago.
  ghost predicate GetsOldAnswer(s: State, t: int, key: Key, seconds: nat) {
    var x := AskedAfter(s, t, key, seconds);
    && t in x.calls && x.calls[t].phase.Returned? && x.calls[t].phase.from in x.fetched
    && s.now + seconds - x.fetched[x.calls[t].phase.from].at >= CACHE_SECONDS
  }

  lemma HitAt(s: State, i: nat, t: int)
    requires Inv(s) && i < |s.cache| && s.cache[i].expires > s.now
    requires t in s.calls && s.calls[t] == Call(s.cache[i].key, Looking)
    ensures var x := Apply(s, Lookup(t));
      && t in x.calls && x.calls[t].phase.Returned? && x.calls[t].phase.from == s.cache[i].ref
      && x.calls[t].phase.how == FromCache(s.now, s.cache[i].expires - CACHE_SECONDS) && x.fetched == s.fetched
  {
    assert EntryOk(s.cache[i], s.fetched, s.used, s.uses, s.now);
    assert Find(s.cache, s.cache[i].key) == i by {
      assert ByUse(s.cache, s.used);
      assert Holds(s.cache, s.cache[i].key);
    }
  }

  // Only the clock moved, and the call is about to look.
  ghost predicate LooksLater(s: State, x: State, t: int, key: Key, seconds: nat) {
    && Inv(x) && x.cache == s.cache && x.fetched == s.fetched && x.now == s.now + seconds
    && t in x.calls && x.calls[t] == Call(key, Looking)
  }

  lemma BegunLooks(s: State, later: State, t: int, key: Key, seconds: nat)
    requires Inv(s) && t !in s.calls && later == Apply(s, Tick(seconds))
    ensures LooksLater(s, Apply(later, Begin(t, key)), t, key, seconds)
  {
    TickKeepsInv(s, seconds);
    BeginKeepsInv(later, t, key);
  }

  ghost predicate ServesAfter(s: State, t: int, key: Key, seconds: nat, ref: int, storedAt: int) {
    var x := AskedAfter(s, t, key, seconds);
    && t in x.calls && x.calls[t].phase.Returned? && x.calls[t].phase.from == ref
    && x.calls[t].phase.how == FromCache(s.now + seconds, storedAt) && x.fetched == s.fetched
  }

  lemma AskedAfterHits(s: State, i: nat, e: Entry, t: int, seconds: nat)
    requires Inv(s) && i < |s.cache| && s.cache[i] == e && t !in s.calls && s.now + seconds < e.expires
    ensures ServesAfter(s, t, e.key, seconds, e.ref, e.expires - CACHE_SECONDS)
  {
    BegunLooks(s, Apply(s, Tick(seconds)), t, e.key, seconds);
    HitAt(BegunAfter(s, t, e.key, seconds), i, t);
  }

  // A remembered answer can be served, at some moment before it expires, a minute or more
  // after it was fetched exactly when its owner let time pass between fetching and storing.
  lemma HitIsOldExactly(s: State, i: nat, t: int)
    requires Inv(s) && i < |s.cache| && t !in s.calls && s.now < s.cache[i].expires
    ensures s.cache[i].ref in s.fetched
    ensures (exists seconds: nat :: s.now + seconds < s.cache[i].expires && GetsOldAnswer(s, t, s.cache[i].key, seconds))
       <==> s.fetched[s.cache[i].ref].at < s.cache[i].expires - CACHE_SECONDS
  {
    var e := s.cache[i];
    assert EntryOk(e, s.fetched, s.used, s.uses, s.now);
    forall seconds: nat | s.now + seconds < e.expires
      ensures GetsOldAnswer(s, t, e.key, seconds) <==> s.now + seconds - s.fetched[e.ref].at >= CACHE_SECONDS
    {
      AskedAfterHits(s, i, e, t, seconds);
    }
    if s.fetched[e.ref].at < e.expires - CACHE_SECONDS {
      assert GetsOldAnswer(s, t, e.key, e.expires - 1 - s.now);
    }
  }

  lemma StoredIsLast(s: State, t: int)
    requires Inv(s) && t in s.calls && s.calls[t].phase.Got? && s.calls[t].phase.ref in s.heap
    requires s.heap[s.calls[t].phase.ref].results != []
    ensures var x := Apply(s, Store(t));
      && x.calls.Keys == s.calls.Keys && x.fetched == s.fetched && x.now == s.now && x.cache != []
      && x.cache[|x.cache| - 1] == Entry(s.calls[t].key, s.now + CACHE_SECONDS, s.calls[t].phase.ref)
  {
    assert CallOk(s, t, s.calls[t]);
    StoreKeeps(s.cache, Entry(s.calls[t].key, s.now + CACHE_SECONDS, s.calls[t].phase.ref), s.fetched, s.used, s.uses, s.now);
  }

  lemma LastIsOldExactly(x: State, e: Entry, u: int)
    requires Inv(x) && x.cache != [] && x.cache[|x.cache| - 1] == e && e.expires == x.now + CACHE_SECONDS && u !in x.calls
    ensures e.ref in x.fetched
    ensures (exists seconds: nat :: seconds < CACHE_SECONDS && GetsOldAnswer(x, u, e.key, seconds)) <==> x.fetched[e.ref].at < x.now
  {
    HitIsOldExactly(x, |x.cache| - 1, u);
  }

  // The same of an owner about to store: its answer can be served old exactly when it is
  // not the second of its fetch any more.
  lemma StoredLateExactly(s: State, t: int, u: int)
    requires Inv(s) && t in s.calls && s.calls[t].phase.Got? && s.calls[t].phase.ref in s.heap
    requires s.heap[s.calls[t].phase.ref].results != [] && u !in s.calls
    ensures s.calls[t].phase.ref in s.fetched
    ensures (exists seconds: nat :: seconds < CACHE_SECONDS && GetsOldAnswer(Apply(s, Store(t)), u, s.calls[t].key, seconds))
       <==> s.fetched[s.calls[t].phase.ref].at < s.now
  {
    StoredIsLast(s, t);
    StoreKeepsInv(s, t);
    LastIsOldExactly(Apply(s, Store(t)), Entry(s.calls[t].key, s.now + CACHE_SECONDS, s.calls[t].phase.ref), u);
  }

  // The minute counts from storing, not from fetching: an owner that waits for the lock
  // stores an older answer, which is then served over a minute after it was fetched.
  lemma HitCanBeOlderThanAMinute(key: Key)
    ensures exists events ::
      var s := Play(Initial, events);
      1 in s.calls && s.calls[1].phase.Returned? && s.calls[1].phase.how.FromCache?
      && s.calls[1].phase.from in s.fetched
      && s.calls[1].phase.how.at - s.fetched[s.calls[1].phase.from].at > CACHE_SECONDS
  {
    var answer := Payload(["r"]);
    var first := [Begin(0, key), Lookup(0), FetchReturns(0, answer), Tick(10)];
    var rest := [Store(0), Tick(59), Begin(1, key), Lookup(1)];
    SlowOwner(key, answer);
    Reached(first);
    SlowOwnerIsServed(Play(Initial, first), key, answer);
    PlayIsApply(Initial, first, rest);
    var s := Play(Initial, first + rest);
    assert s.calls[1].phase.how.at == 69;
  }

  lemma SlowOwnerIsServed(s: State, key: Key, answer: Payload)
    requires Inv(s) && s.calls == map[0 := Call(key, Got(0, 1))] && s.now == 10
    requires 1 in s.heap && s.heap[1] == answer && 1 in s.fetched && s.fetched[1].at == 0 && answer.results != []
    ensures var x := Play(s, [Store(0), Tick(59), Begin(1, key), Lookup(1)]);
      && 1 in x.calls && x.calls[1].phase.Returned? && x.calls[1].phase.how == FromCache(69, 10)
      && x.calls[1].phase.from in x.fetched && x.fetched[x.calls[1].phase.from].at == 0
  {
    StoredServes(s, 0, 1, 59);
    PlayFour(s, Store(0), Tick(59), Begin(1, key), Lookup(1));
  }

  lemma StoredServes(s: State, t: int, u: int, seconds: nat)
    requires Inv(s) && t in s.calls && s.calls[t].phase.Got? && s.calls[t].phase.ref in s.heap && u !in s.calls
    requires s.heap[s.calls[t].phase.ref].results != [] && seconds < CACHE_SECONDS
    ensures Apply(s, Store(t)).fetched == s.fetched && Apply(s, Store(t)).now == s.now
    ensures ServesAfter(Apply(s, Store(t)), u, s.calls[t].key, seconds, s.calls[t].phase.ref, s.now)
  {
    StoredIsLast(s, t);
    StoreKeepsInv(s, t);
    var x := Apply(s, Store(t));
    AskedAfterHits(x, |x.cache| - 1, Entry(s.calls[t].key, s.now + CACHE_SECONDS, s.calls[t].phase.ref), u, seconds);
  }

  // An owner that has results to store does so in the very second of its fetch.
  ghost predicate PromptStep(s: State, e: Event) {
    e.Store? && e.t in s.calls && s.calls[e.t].phase.Got? ==>
      var ref := s.calls[e.t].phase.ref;
      ref in s.heap && ref in s.fetched && s.heap[ref].results != [] ==> s.fetched[ref].at == s.now
  }

  ghost predicate PromptRun(s: State, events: seq<Event>)
    decreases |events|
  {
    events == [] || (PromptStep(s, events[0]) && PromptRun(Apply(s, events[0]), events[1..]))
  }

  ghost predicate FetchedAt(fetched: map<int, Fetch>, ref: int, at: int) {
    ref in fetched && fetched[ref].at == at
  }

  ghost predicate EntriesAsFetched(cache: Cache, fetched: map<int, Fetch>) {
    forall i :: 0 <= i < |cache| ==> FetchedAt(fetched, cache[i].ref, cache[i].expires - CACHE_SECONDS)
  }

  ghost predicate HitsAsFetched(calls: map<int, Call>, fetched: map<int, Fetch>) {
    forall t <- calls :: calls[t].phase.Returned? && calls[t].phase.how.FromCache? ==>
      FetchedAt(fetched, calls[t].phase.from, calls[t].phase.how.storedAt)
  }

  ghost predicate StoredAsFetched(s: State) {
    EntriesAsFetched(s.cache, s.fetched) && HitsAsFetched(s.calls, s.fetched)
  }

  lemma LookupTakesOut(cache: Cache, pending: map<Key, int>, key: Key, now: int, future: int)
    ensures var r := LookupRegion(cache, pending, key, now, future);
      && (forall j :: 0 <= j < |r.0| ==> r.0[j] in cache) && (r.2.Hit? ==> r.2.entry in cache)
  {
  }

  lemma EntriesAfterStore(cache: Cache, e: Entry, fetched: map<int, Fetch>)
    requires EntriesAsFetched(cache, fetched) && FetchedAt(fetched, e.ref, e.expires - CACHE_SECONDS)
    ensures EntriesAsFetched(StoreRegion(cache, e), fetched)
  {
    var more := StoreRegion(cache, e);
    forall j | 0 <= j < |more| ensures more[j] in cache || more[j] == e {
    }
  }

  // What a step of call t that hands out no hit does to the rest.
  ghost predicate Passes(s: State, x: State, t: int) {
    && x.cache == s.cache
    && (forall ref <- s.fetched :: ref in x.fetched && x.fetched[ref] == s.fetched[ref])
    && (forall u <- x.calls :: (u in s.calls && x.calls[u] == s.calls[u])
                            || (u == t && !(x.calls[u].phase.Returned? && x.calls[u].phase.how.FromCache?)))
  }

  lemma PassesKeeps(s: State, x: State, t: int)
    requires StoredAsFetched(s) && Passes(s, x, t)
    ensures StoredAsFetched(x)
  {
  }

  lemma OwnerPasses(s: State, t: int, e: Event)
    requires e == Publish(t) || e == Copy(t)
    ensures Passes(s, Apply(s, e), t)
  {
    match e
    case Publish(_) =>
    case Copy(_) =>
  }

  lemma ReleasePasses(s: State, t: int)
    ensures Passes(s, Apply(s, Release(t)), t)
  {
  }

  lemma FetcherPasses(s: State, t: int, payload: Payload)
    requires s.next !in s.fetched
    ensures Passes(s, Apply(s, FetchReturns(t, payload)), t)
  {
  }

  lemma FailingPasses(s: State, t: int, f: int, state: FutureState)
    requires t in s.calls
    ensures Passes(s, At(SetFuture(s, f, state), t, Failing(f)), t) && Passes(s, At(s, t, Failing(f)), t)
  {
  }

  lemma FailPasses(s: State, t: int)
    requires t in s.calls
    ensures Passes(s, DoFail(s, t), t)
  {
    match s.calls[t].phase
    case Fetching(f) => FailingPasses(s, t, f, Error);
    case Got(f, _) => FailingPasses(s, t, f, Error);
    case Stored(f, _) => FailingPasses(s, t, f, Error);
    case Published(f, _) => FailingPasses(s, t, f, Error);
    case _ =>
  }

  lemma WaiterPasses(s: State, t: int, e: Event)
    requires e == Wake(t) || e == TimeOut(t)
    ensures Passes(s, Apply(s, e), t)
  {
    match e
    case Wake(_) =>
    case TimeOut(_) =>
  }

  // A hit, or a miss, on a cache that only loses entries.
  lemma PromptLookup(s: State, t: int)
    requires Inv(s) && StoredAsFetched(s) && t in s.calls && s.calls[t].phase.Looking?
    ensures StoredAsFetched(DoLookup(s, t))
  {
    var r := LookupRegion(s.cache, s.pending, s.calls[t].key, s.now, s.next);
    LookupTakesOut(s.cache, s.pending, s.calls[t].key, s.now, s.next);
    EntriesStay(s.cache, r.0, s.fetched);
    match r.2
    case Hit(e) =>
      var how := FromCache(s.now, e.expires - CACHE_SECONDS);
      if e.ref in s.heap {
        HitsStay(s, t, Call(s.calls[t].key, Returned(s.next, e.ref, s.heap[e.ref], how)));
      }
    case Wait(f) => HitsStay(s, t, Call(s.calls[t].key, Waiting(f)));
    case Own => HitsStay(s, t, Call(s.calls[t].key, Fetching(s.next)));
  }

  lemma EntriesStay(cache: Cache, rest: Cache, fetched: map<int, Fetch>)
    requires EntriesAsFetched(cache, fetched) && forall j :: 0 <= j < |rest| ==> rest[j] in cache
    ensures EntriesAsFetched(rest, fetched)
  {
  }

  lemma HitsStay(s: State, t: int, c: Call)
    requires HitsAsFetched(s.calls, s.fetched)
    requires c.phase.Returned? && c.phase.how.FromCache? ==> FetchedAt(s.fetched, c.phase.from, c.phase.how.storedAt)
    ensures HitsAsFetched(s.calls[t := c], s.fetched)
  {
  }

  lemma PromptStore(s: State, t: int)
    requires StoredAsFetched(s) && PromptStep(s, Store(t))
    requires t in s.calls && s.calls[t].phase.Got? && s.calls[t].phase.ref in s.heap && s.calls[t].phase.ref in s.fetched
    ensures StoredAsFetched(DoStore(s, t))
  {
    var key, p := s.calls[t].key, s.calls[t].phase;
    HitsStay(s, t, Call(key, Stored(p.future, p.ref)));
    if s.heap[p.ref].results != [] {
      var e := Entry(key, s.now + CACHE_SECONDS, p.ref);
      EntriesAfterStore(s.cache, e, s.fetched);
      assert DoStore(s, t).cache == StoreRegion(s.cache, e);
    }
  }

  lemma PromptStepKeeps(s: State, e: Event)
    requires Inv(s) && StoredAsFetched(s) && PromptStep(s, e)
    ensures StoredAsFetched(Apply(s, e))
  {
    if Apply(s, e) != s {
      match e
      case Lookup(t) => PromptLookup(s, t);
      case Store(t) =>
        assert CallOk(s, t, s.calls[t]);
        PromptStore(s, t);
      case FetchReturns(t, payload) =>
        FetcherPasses(s, t, payload);
        PassesKeeps(s, Apply(s, e), t);
      case Publish(t) =>
        OwnerPasses(s, t, e);
        PassesKeeps(s, Apply(s, e), t);
      case Copy(t) =>
        OwnerPasses(s, t, e);
        PassesKeeps(s, Apply(s, e), t);
      case Release(t) =>
        ReleasePasses(s, t);
        PassesKeeps(s, Apply(s, e), t);
      case Fail(t) =>
        FailPasses(s, t);
        PassesKeeps(s, Apply(s, e), t);
      case Wake(t) =>
        WaiterPasses(s, t, e);
        PassesKeeps(s, Apply(s, e), t);
      case TimeOut(t) =>
        WaiterPasses(s, t, e);
        PassesKeeps(s, Apply(s, e), t);
      case _ =>
    }
  }

  lemma {:induction false} PromptRunKeeps(s: State, events: seq<Event>)
    requires Inv(s) && StoredAsFetched(s) && PromptRun(s, events)
    ensures StoredAsFetched(Play(s, events))
    decreases |events|
  {
    if events != [] {
      PromptStepKeeps(s, events[0]);
      ApplyKeepsInv(s, events[0]);
      PromptRunKeeps(Apply(s, events[0]), events[1..]);
    }
  }

  // While every owner stores in the second of its fetch, every hit was fetched under a
  // minute before.
  lemma PromptOwnersServeFreshAnswers(events: seq<Event>, t: int)
    requires PromptRun(Initial, events)
    requires var s := Play(Initial, events); t in s.calls && s.calls[t].phase.Returned? && s.calls[t].phase.how.FromCache?
    ensures var s := Play(Initial, events);
      && s.calls[t].phase.from in s.fetched
      && s.calls[t].phase.how.at - s.fetched[s.calls[t].phase.from].at < CACHE_SECONDS
  {
    PromptRunKeeps(Initial, events);
    Reached(events);
    assert CallOk(Play(Initial, events), t, Play(Initial, events).calls[t]);
  }

  lemma {:induction false} PlayIsApply(s: State, first: seq<Event>, rest: seq<Event>)
    ensures Play(s, first + rest) == Play(Play(s, first), rest)
    decreases |first|
  {
    if first == [] {
      assert first + rest == rest;
    } else {
      assert (first + rest)[1..] == first[1..] + rest;
      PlayIsApply(Apply(s, first[0]), first[1..], rest);
    }
  }

  lemma PlayFour(s: State, a: Event, b: Event, c: Event, d: Event)
    ensures Play(s, [a, b, c, d]) == Apply(Apply(Apply(Apply(s, a), b), c), d)
  {
    assert [a, b, c, d][1..] == [b, c, d] && [b, c, d][1..] == [c, d] && [c, d][1..] == [d] && [d][1..] == [];
    assert Play(s, [a, b, c, d]) == Play(Apply(s, a), [b, c, d]);
    assert Play(Apply(s, a), [b, c, d]) == Play(Apply(Apply(s, a), b), [c, d]);
    assert Play(Apply(Apply(s, a), b), [c, d]) == Play(Apply(Apply(Apply(s, a), b), c), [d]);
  }
}
