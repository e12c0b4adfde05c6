// search-app/kosher_search/server.py `Backend.search`: any number of calls, each region
// under the lock one step, interleaved as they like.
module SingleFlight {
  import opened SearchCache

  // A future, as the requests in flight share it.
  datatype FutureState = Unset | Value(ref: int) | Error
  datatype Future = Future(key: Key, owner: int, state: FutureState)

  // How a call got its answer: from the cache, from the owner of the future it waited on,
  // or by its own request.
  datatype How = FromCache(at: int, storedAt: int) | FromOwner(future: int) | Fetched

  // Where one call of `search` is. Copied and Returned carry the caller's own copy,
  // the payload object it was made from, and what it held when it was made.
  datatype Phase =
    | Looking
    | Waiting(future: int)
    | Fetching(future: int)
    | Got(future: int, ref: int)
    | Stored(future: int, ref: int)
    | Published(future: int, ref: int)
    | Copied(future: int, copy: int, from: int, given: Payload)
    | Failing(future: int)
    | Returned(copy: int, from: int, given: Payload, how: How)
    | Raised

  datatype Call = Call(key: Key, phase: Phase)

  // What the engine returned, for which key, when and to which call.
  datatype Fetch = Fetch(key: Key, payload: Payload, at: int, who: int)

  // `heap` is what every payload object holds now; `fetched` and `holder` say which of
  // them came from the engine and which are some caller's copy. `used` is when each
  // key was last stored or hit, counted in uses.
  datatype State = State(
    cache: Cache, pending: map<Key, int>, futures: map<int, Future>,
    heap: map<int, Payload>, fetched: map<int, Fetch>, holder: map<int, int>,
    calls: map<int, Call>, now: int, used: map<Key, int>, uses: int, next: int)

  datatype Event =
    | Begin(t: int, key: Key)
    | Lookup(t: int)
    | FetchReturns(t: int, payload: Payload)
    | Store(t: int)
    | Publish(t: int)
    | Copy(t: int)
    | Fail(t: int)
    | Release(t: int)
    | Wake(t: int)
    | TimeOut(t: int)
    | Write(t: int, payload: Payload)
    | Tick(seconds: nat)

  predicate Live(p: Phase) {
    p.Fetching? || p.Got? || p.Stored? || p.Published? || p.Copied? || p.Failing?
  }

  function At(s: State, t: int, p: Phase): State
    requires t in s.calls
  {
    s.(calls := s.calls[t := s.calls[t].(phase := p)])
  }

  // A deep copy of a payload object, held by call t.
  function WithCopy(s: State, t: int, ref: int): State
    requires ref in s.heap
  {
    s.(heap := s.heap[s.next := s.heap[ref]], holder := s.holder[s.next := t], next := s.next + 1)
  }

  function DoLookup(s: State, t: int): State
    requires t in s.calls
  {
    var key := s.calls[t].key;
    var (cache, pending, answer) := LookupRegion(s.cache, s.pending, key, s.now, s.next);
    match answer
    case Hit(e) =>
      if e.ref !in s.heap then s
      else At(WithCopy(s.(cache := cache, used := s.used[key := s.uses], uses := s.uses + 1), t, e.ref),
              t, Returned(s.next, e.ref, s.heap[e.ref], FromCache(s.now, e.expires - CACHE_SECONDS)))
    case Wait(f) => At(s.(cache := cache), t, Waiting(f))
    case Own =>
      At(s.(cache := cache, pending := pending, futures := s.futures[s.next := Future(key, t, Unset)], next := s.next + 1),
         t, Fetching(s.next))
  }

  // Call t is past its store, with this cache.
  function WithStore(s: State, t: int, cache: Cache, used: map<Key, int>, uses: int): State
    requires t in s.calls && s.calls[t].phase.Got?
  {
    At(s.(cache := cache, used := used, uses := uses), t, Stored(s.calls[t].phase.future, s.calls[t].phase.ref))
  }

  // The cache and its uses after an answer for `key` came: no results, nothing stored.
  function Remembered(s: State, key: Key, ref: int): (Cache, map<Key, int>, int)
    requires ref in s.heap
  {
    if s.heap[ref].results == [] then (s.cache, s.used, s.uses)
    else (StoreRegion(s.cache, Entry(key, s.now + CACHE_SECONDS, ref)), s.used[key := s.uses], s.uses + 1)
  }

  function DoStore(s: State, t: int): State
    requires t in s.calls && s.calls[t].phase.Got? && s.calls[t].phase.ref in s.heap
  {
    var r := Remembered(s, s.calls[t].key, s.calls[t].phase.ref);
    WithStore(s, t, r.0, r.1, r.2)
  }

  function SetFuture(s: State, f: int, state: FutureState): State {
    if f in s.futures then s.(futures := s.futures[f := s.futures[f].(state := state)]) else s
  }

  // An exception before the future is set sets it to the error; one in making the
  // copy finds it already set.
  function DoFail(s: State, t: int): State
    requires t in s.calls
  {
    match s.calls[t].phase
    case Fetching(f) => At(SetFuture(s, f, Error), t, Failing(f))
    case Got(f, _) => At(SetFuture(s, f, Error), t, Failing(f))
    case Stored(f, _) => At(SetFuture(s, f, Error), t, Failing(f))
    case Published(f, _) => At(s, t, Failing(f))
    case _ => s
  }

  // The `finally`: the entry goes, however the owner ended.
  function DoRelease(s: State, t: int): State
    requires t in s.calls
  {
    var rest := s.(pending := s.pending - {s.calls[t].key});
    match s.calls[t].phase
    case Copied(_, copy, from, given) => At(rest, t, Returned(copy, from, given, Fetched))
    case Failing(_) => At(rest, t, Raised)
    case _ => s
  }

  // A waiter whose future has been set.
  function DoWake(s: State, t: int): State
    requires t in s.calls && s.calls[t].phase.Waiting? && s.calls[t].phase.future in s.futures
  {
    match s.futures[s.calls[t].phase.future].state
    case Unset => s
    case Error => At(s, t, Raised)
    case Value(ref) =>
      if ref !in s.heap then s else At(WithCopy(s, t, ref), t, Returned(s.next, ref, s.heap[ref], FromOwner(s.calls[t].phase.future)))
  }

  function Apply(s: State, e: Event): State {
    match e
    case Begin(t, key) => if t in s.calls then s else s.(calls := s.calls[t := Call(key, Looking)])
    case Lookup(t) => if t in s.calls && s.calls[t].phase.Looking? then DoLookup(s, t) else s
    case FetchReturns(t, payload) =>
      if t !in s.calls || !s.calls[t].phase.Fetching? then s
      else At(s.(heap := s.heap[s.next := payload],
                 fetched := s.fetched[s.next := Fetch(s.calls[t].key, payload, s.now, t)], next := s.next + 1),
              t, Got(s.calls[t].phase.future, s.next))
    case Store(t) =>
      if t in s.calls && s.calls[t].phase.Got? && s.calls[t].phase.ref in s.heap then DoStore(s, t) else s
    case Publish(t) =>
      if t !in s.calls || !s.calls[t].phase.Stored? then s
      else
        var p := s.calls[t].phase;
        At(SetFuture(s, p.future, Value(p.ref)), t, Published(p.future, p.ref))
    case Copy(t) =>
      if t !in s.calls || !s.calls[t].phase.Published? || s.calls[t].phase.ref !in s.heap then s
      else
        var p := s.calls[t].phase;
        At(WithCopy(s, t, p.ref), t, Copied(p.future, s.next, p.ref, s.heap[p.ref]))
    case Fail(t) =>
      if t in s.calls then DoFail(s, t) else s
    case Release(t) =>
      if t in s.calls then DoRelease(s, t) else s
    case Wake(t) =>
      if t in s.calls && s.calls[t].phase.Waiting? && s.calls[t].phase.future in s.futures then DoWake(s, t) else s
    case TimeOut(t) => if t in s.calls && s.calls[t].phase.Waiting? then At(s, t, Raised) else s
    case Write(t, payload) =>
      if t in s.calls && s.calls[t].phase.Returned? then s.(heap := s.heap[s.calls[t].phase.copy := payload]) else s
    case Tick(seconds) => s.(now := s.now + seconds)
  }

  function Play(s: State, events: seq<Event>): State
    decreases |events|
  {
    if events == [] then s else Play(Apply(s, events[0]), events[1..])
  }

  const Initial := State([], map[], map[], map[], map[], map[], map[], 0, map[], 0, 0)

  // ---- the invariant ----

  // The call that made a future is still at work on it, and it is the one in flight
  // for its key.
  ghost predicate Owns(s: State, t: int, key: Key, f: int) {
    f in s.futures && s.futures[f].owner == t && s.futures[f].key == key && key in s.pending && s.pending[key] == f
  }

  ghost predicate FetchedFor(s: State, ref: int, key: Key) {
    ref in s.fetched && s.fetched[ref].key == key
  }

  ghost predicate FetchedBy(s: State, ref: int, key: Key, who: int) {
    FetchedFor(s, ref, key) && s.fetched[ref].who == who
  }

  // Still to set its future.
  predicate Settling(p: Phase) { p.Fetching? || p.Got? || p.Stored? }

  ghost predicate OwnCopy(s: State, t: int, key: Key, copy: int, from: int, given: Payload) {
    copy in s.holder && s.holder[copy] == t && FetchedFor(s, from, key) && given == s.fetched[from].payload
  }

  ghost predicate CallOk(s: State, t: int, c: Call) {
    match c.phase
    case Looking => true
    case Waiting(f) => f in s.futures && s.futures[f].key == c.key
    case Fetching(f) => Owns(s, t, c.key, f) && !Holds(s.cache, c.key) && s.futures[f].state == Unset
    case Got(f, ref) => Owns(s, t, c.key, f) && !Holds(s.cache, c.key) && FetchedBy(s, ref, c.key, t) && s.futures[f].state == Unset
    case Stored(f, ref) => Owns(s, t, c.key, f) && FetchedBy(s, ref, c.key, t) && s.futures[f].state == Unset
    case Published(f, ref) => Owns(s, t, c.key, f) && FetchedBy(s, ref, c.key, t) && s.futures[f].state == Value(ref)
    case Copied(f, copy, from, given) =>
      Owns(s, t, c.key, f) && OwnCopy(s, t, c.key, copy, from, given) && s.fetched[from].who == t && s.futures[f].state != Unset
    case Failing(f) => Owns(s, t, c.key, f) && s.futures[f].state != Unset
    case Returned(copy, from, given, how) =>
      && OwnCopy(s, t, c.key, copy, from, given)
      && (match how
          case FromCache(at, storedAt) =>
            given.results != [] && s.fetched[from].at <= storedAt <= at < storedAt + CACHE_SECONDS
          case FromOwner(f) =>
            f in s.futures && s.futures[f].key == c.key && s.futures[f].state == Value(from) && s.fetched[from].who == s.futures[f].owner
          case Fetched => s.fetched[from].who == t)
    case Raised => true
  }

  ghost predicate EntryOk(e: Entry, fetched: map<int, Fetch>, used: map<Key, int>, uses: int, now: int) {
    && e.ref in fetched && fetched[e.ref].key == e.key
    && fetched[e.ref].payload.results != []
    && fetched[e.ref].at <= e.expires - CACHE_SECONDS <= now
    && e.key in used && used[e.key] < uses
  }

  // The order of the cache is the order of use, so a key is in it at most once.
  ghost predicate ByUse(cache: Cache, used: map<Key, int>) {
    forall i, j :: 0 <= i < j < |cache| ==>
      cache[i].key in used && cache[j].key in used && used[cache[i].key] < used[cache[j].key]
  }

  ghost predicate CacheOk(cache: Cache, fetched: map<int, Fetch>, used: map<Key, int>, uses: int, now: int) {
    && |cache| <= CACHE_ENTRIES
    && (forall i :: 0 <= i < |cache| ==> EntryOk(cache[i], fetched, used, uses, now))
    && ByUse(cache, used)
  }

  // A future that is set holds its owner's answer; one that is not has its owner at work.
  ghost predicate FutureOk(s: State, f: int, future: Future) {
    match future.state
    case Value(ref) => FetchedBy(s, ref, future.key, future.owner)
    case Unset => future.owner in s.calls && Settling(s.calls[future.owner].phase) && s.calls[future.owner].phase.future == f
    case Error => true
  }

  ghost predicate FuturesOk(s: State) {
    && (forall f <- s.futures :: f < s.next && FutureOk(s, f, s.futures[f]))
    && forall k <- s.pending ::
         && s.pending[k] in s.futures && s.futures[s.pending[k]].key == k
         && var t := s.futures[s.pending[k]].owner;
            t in s.calls && s.calls[t].key == k && Live(s.calls[t].phase) && s.calls[t].phase.future == s.pending[k]
  }

  // The engine's payload objects hold what they were fetched with, and no caller
  // holds one of them.
  ghost predicate HeapOk(s: State) {
    && (forall ref <- s.fetched :: ref < s.next && ref in s.heap && s.heap[ref] == s.fetched[ref].payload
                                && ref !in s.holder && s.fetched[ref].at <= s.now)
    && forall copy <- s.holder :: copy < s.next && copy in s.heap
  }

  ghost predicate Inv(s: State) {
    CacheOk(s.cache, s.fetched, s.used, s.uses, s.now) && FuturesOk(s) && HeapOk(s) && forall t <- s.calls :: CallOk(s, t, s.calls[t])
  }
}
