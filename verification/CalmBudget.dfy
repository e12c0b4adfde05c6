// mitm/kosher_filter.py: the daily budget of a calmed site. Seconds per account and site
// are kept in memory for the day and written out now and then, so that a restart of the
// proxy does not hand spent time back.
module CalmBudget {
  import opened Options

  const BEAT_MAX := 120.0
  const FLUSH_SECONDS := 30.0

  datatype Entry = Entry(day: int, seconds: real)
  type Entries = map<string, Entry>

  // The store as this process holds it (None until first wanted), the clock reading of
  // the last attempt to write it, and the file it is written to.
  datatype State = State(store: Option<Entries>, flushedAt: real, file: Entries)

  function Min(a: real, b: real): real { if a <= b then a else b }
  function Max(a: real, b: real): real { if a >= b then a else b }

  // What a heartbeat may credit, whatever the page says.
  function Clamped(seconds: real): real { Max(0.0, Min(BEAT_MAX, seconds)) }

  function Seconds(entries: Entries, key: string, day: int): real {
    if key in entries && entries[key].day == day then entries[key].seconds else 0.0
  }

  function OfDay(entries: Entries, day: int): Entries {
    map key | key in entries && entries[key].day == day :: entries[key]
  }

  function Loaded(s: State, day: int): Entries {
    if s.store.Some? then s.store.value else OfDay(s.file, day)
  }

  function WithEntry(s: State, key: string, day: int): State {
    var entries := Loaded(s, day);
    s.(store := Some(if key in entries && entries[key].day == day then entries else entries[key := Entry(day, 0.0)]))
  }

  function Left(minutes: int, spent: real): real { Max(0.0, minutes as real * 60.0 - spent) }

  function Cap(minutes: int): real { minutes as real * 60.0 + BEAT_MAX }

  predicate Writes(s: State, force: bool, now: real) {
    && s.store.Some? && s.store.value != map[]
    && (force || now - s.flushedAt >= FLUSH_SECONDS)
  }

  // `works` is whether the write goes through.
  function Flushed(s: State, force: bool, now: real, day: int, works: bool): State {
    if !Writes(s, force, now) then s
    else State(s.store, now, if works then OfDay(s.store.value, day) else s.file)
  }

  function Accrued(s: State, key: string, seconds: real, minutes: int, day: int): State {
    var held := WithEntry(s, key, day);
    var spent := Min(Cap(minutes), Seconds(held.store.value, key, day) + seconds);
    held.(store := Some(held.store.value[key := Entry(day, spent)]))
  }

  function Credited(s: State, key: string, seconds: real, minutes: int, now: real, day: int, works: bool): State {
    Flushed(Accrued(s, key, seconds, minutes, day), false, now, day, works)
  }

  class Budget {
    var store: Option<Entries>
    var flushedAt: real
    var file: Entries

    // A process starts with the file the last one left and nothing in memory.
    constructor (file: Entries)
      ensures Now() == State(None, 0.0, file)
    {
      store, flushedAt := None, 0.0;
      this.file := file;
    }

    function Now(): State
      reads this
    {
      State(store, flushedAt, file)
    }

    method Store(day: int) returns (entries: Entries)
      modifies this
      ensures entries == Loaded(old(Now()), day)
      ensures Now() == old(Now()).(store := Some(entries))
    {
      if store.None? {
        store := Some(map key | key in file && file[key].day == day :: file[key]);
      }
      entries := store.value;
    }

    method EntryFor(key: string, day: int) returns (seconds: real)
      modifies this
      ensures Now() == WithEntry(old(Now()), key, day)
      ensures seconds == Seconds(Loaded(old(Now()), day), key, day)
    {
      var entries := Store(day);
      if key !in entries || entries[key].day != day {
        entries := entries[key := Entry(day, 0.0)];
        store := Some(entries);
      }
      seconds := entries[key].seconds;
    }

    method Remaining(key: string, minutes: int, day: int) returns (left: real)
      modifies this
      ensures Now() == WithEntry(old(Now()), key, day)
      ensures left == Left(minutes, Seconds(Loaded(old(Now()), day), key, day))
    {
      var spent := EntryFor(key, day);
      left := Max(0.0, minutes as real * 60.0 - spent);
    }

    method Flush(force: bool, now: real, day: int, works: bool)
      modifies this
      ensures Now() == Flushed(old(Now()), force, now, day, works)
    {
      if store.None? || store.value == map[] {
        return;
      }
      if !force && now - flushedAt < FLUSH_SECONDS {
        return;
      }
      flushedAt := now;
      var keep := map key | key in store.value && store.value[key].day == day :: store.value[key];
      if works {
        file := keep;
      }
    }

    method Credit(key: string, seconds: real, minutes: int, now: real, day: int, works: bool) returns (left: real)
      modifies this
      ensures Now() == Credited(old(Now()), key, seconds, minutes, now, day, works)
      ensures left == Left(minutes, Min(Cap(minutes), Seconds(Loaded(old(Now()), day), key, day) + seconds))
    {
      var held := EntryFor(key, day);
      var spent := Min(minutes as real * 60.0 + BEAT_MAX, held + seconds);
      store := Some(store.value[key := Entry(day, spent)]);
      Flush(false, now, day, works);
      left := Max(0.0, minutes as real * 60.0 - spent);
    }

    // A page's heartbeat; -1 for an account with no limit on the site.
    method Beat(key: string, reported: real, minutes: int, now: real, day: int, works: bool) returns (remaining: int, over: bool)
      modifies this
      ensures minutes <= 0 ==> Now() == old(Now()) && remaining == -1 && !over
      ensures minutes > 0 ==> Now() == Credited(old(Now()), key, Clamped(reported), minutes, now, day, works)
      ensures minutes > 0 ==>
                var left := Left(minutes, Min(Cap(minutes), Seconds(Loaded(old(Now()), day), key, day) + Clamped(reported)));
                remaining == left.Floor && (over <==> left <= 0.0)
    {
      var seconds := Max(0.0, Min(BEAT_MAX, reported));
      if minutes <= 0 {
        return -1, false;
      }
      var left := Credit(key, seconds, minutes, now, day, works);
      return left.Floor, left <= 0.0;
    }
  }

  // ---- what is remembered ----

  // A heartbeat as it was credited.
  datatype Beat = Beat(key: string, day: int, seconds: real, at: real)

  function Total(beats: seq<Beat>, key: string, day: int): (total: real)
    requires forall b :: b in beats ==> b.seconds >= 0.0
    ensures total >= 0.0
  {
    if beats == [] then 0.0
    else
      var last := beats[|beats| - 1];
      Total(beats[..|beats| - 1], key, day) + if last.key == key && last.day == day then last.seconds else 0.0
  }

  // The time spent: the day's heartbeats, up to a little past the limit.
  function Spent(beats: seq<Beat>, key: string, day: int, limit: string -> int): real
    requires forall b :: b in beats ==> b.seconds >= 0.0
  {
    if limit(key) <= 0 then 0.0 else Min(Cap(limit(key)), Total(beats, key, day))
  }

  // A budget in use, with its clocks, every heartbeat it still counts, and how many of
  // those the file has.
  datatype World = World(state: State, now: real, day: int, beats: seq<Beat>, saved: nat)

  datatype Event =
    | BeatEvent(key: string, reported: real, works: bool)
    | PageLoad(key: string)
    | Restart(works: bool)
    | Crash
    | Later(now: real, day: int)

  // A process that goes with the store unwritten takes the unsaved heartbeats along.
  function Gone(w: World, saved: nat, file: Entries): World
    requires saved <= |w.beats|
  {
    w.(state := State(None, 0.0, file), beats := w.beats[..saved], saved := saved)
  }

  function SavedAfter(before: State, force: bool, now: real, works: bool, saved: nat, all: nat): nat {
    if Writes(before, force, now) && works then all else saved
  }

  function Step(w: World, e: Event, limit: string -> int): World
    requires w.saved <= |w.beats|
  {
    match e
    case BeatEvent(key, reported, works) =>
      if limit(key) <= 0 then w
      else
        var accrued := Accrued(w.state, key, Clamped(reported), limit(key), w.day);
        var beats := w.beats + [Beat(key, w.day, Clamped(reported), w.now)];
        w.(state := Credited(w.state, key, Clamped(reported), limit(key), w.now, w.day, works), beats := beats,
           saved := SavedAfter(accrued, false, w.now, works, w.saved, |beats|))
    case PageLoad(key) => w.(state := WithEntry(w.state, key, w.day))
    case Restart(works) =>
      var flushed := Flushed(w.state, true, w.now, w.day, works);
      Gone(w, SavedAfter(w.state, true, w.now, works, w.saved, |w.beats|), flushed.file)
    case Crash => Gone(w, w.saved, w.state.file)
    case Later(now, day) => if now >= w.now && day >= w.day then w.(now := now, day := day) else w
  }

  ghost predicate Keeps(entries: Entries, beats: seq<Beat>, day: int, limit: string -> int)
    requires forall b :: b in beats ==> b.seconds >= 0.0
  {
    && (forall key :: key in entries ==> entries[key].day <= day)
    && forall key :: Seconds(entries, key, day) == Spent(beats, key, day, limit)
  }

  ghost predicate Inv(w: World, limit: string -> int) {
    && w.saved <= |w.beats|
    && (forall b :: b in w.beats ==> b.seconds >= 0.0 && b.day <= w.day && b.at <= w.now)
    && Keeps(w.state.file, w.beats[..w.saved], w.day, limit)
    && (w.state.store.Some? ==> Keeps(w.state.store.value, w.beats, w.day, limit))
    && (w.state.store.None? || w.state.store.value == map[] ==> w.saved == |w.beats|)
  }

  // Nothing waits longer than half a minute to be written.
  ghost predicate Prompt(w: World) {
    forall i :: w.saved <= i < |w.beats| ==> w.beats[i].at < w.state.flushedAt + FLUSH_SECONDS
  }

  lemma {:induction false} NothingYet(beats: seq<Beat>, key: string, day: int, later: int)
    requires forall b :: b in beats ==> b.seconds >= 0.0 && b.day <= day
    requires later > day
    ensures Total(beats, key, later) == 0.0
  {
    if beats != [] {
      NothingYet(beats[..|beats| - 1], key, day, later);
      assert beats[|beats| - 1] in beats;
    }
  }

  lemma KeepsLater(entries: Entries, beats: seq<Beat>, day: int, later: int, limit: string -> int)
    requires forall b :: b in beats ==> b.seconds >= 0.0 && b.day <= day
    requires Keeps(entries, beats, day, limit) && later >= day
    ensures Keeps(entries, beats, later, limit)
  {
    if later > day {
      forall key
        ensures Seconds(entries, key, later) == Spent(beats, key, later, limit)
      {
        NothingYet(beats, key, day, later);
      }
    }
  }

  lemma KeepsOfDay(entries: Entries, beats: seq<Beat>, day: int, limit: string -> int)
    requires forall b :: b in beats ==> b.seconds >= 0.0
    requires Keeps(entries, beats, day, limit)
    ensures Keeps(OfDay(entries, day), beats, day, limit)
  {
    forall key
      ensures Seconds(OfDay(entries, day), key, day) == Seconds(entries, key, day)
    {
    }
  }

  lemma KeepsWithEntry(s: State, beats: seq<Beat>, key: string, day: int, limit: string -> int)
    requires forall b :: b in beats ==> b.seconds >= 0.0
    requires Keeps(Loaded(s, day), beats, day, limit)
    ensures Keeps(WithEntry(s, key, day).store.value, beats, day, limit)
  {
    var entries, held := Loaded(s, day), WithEntry(s, key, day).store.value;
    forall k
      ensures Seconds(held, k, day) == Seconds(entries, k, day)
    {
    }
  }

  lemma KeepsLoaded(w: World, limit: string -> int)
    requires Inv(w, limit)
    ensures Keeps(Loaded(w.state, w.day), w.beats, w.day, limit)
  {
    if w.state.store.None? {
      assert w.beats[..w.saved] == w.beats;
      KeepsOfDay(w.state.file, w.beats, w.day, limit);
    }
  }

  lemma KeepsCredit(entries: Entries, beats: seq<Beat>, beat: Beat, limit: string -> int)
    requires forall b :: b in beats ==> b.seconds >= 0.0
    requires beat.seconds >= 0.0 && limit(beat.key) > 0
    requires Keeps(entries, beats, beat.day, limit)
    ensures Keeps(entries[beat.key := Entry(beat.day, Min(Cap(limit(beat.key)), Seconds(entries, beat.key, beat.day) + beat.seconds))],
                  beats + [beat], beat.day, limit)
  {
    assert (beats + [beat])[..|beats|] == beats;
    var after := entries[beat.key := Entry(beat.day, Min(Cap(limit(beat.key)), Seconds(entries, beat.key, beat.day) + beat.seconds))];
    forall key
      ensures Seconds(after, key, beat.day) == Spent(beats + [beat], key, beat.day, limit)
    {
      assert Seconds(entries, key, beat.day) == Spent(beats, key, beat.day, limit);
    }
  }

  // What a flush leaves: the store as it was, and a file that keeps what it saved.
  lemma FlushKeeps(s: State, beats: seq<Beat>, saved: nat, force: bool, now: real, day: int, works: bool, limit: string -> int)
    requires saved <= |beats| && forall b :: b in beats ==> b.seconds >= 0.0
    requires s.store.Some? && Keeps(s.store.value, beats, day, limit)
    requires Keeps(s.file, beats[..saved], day, limit)
    ensures Flushed(s, force, now, day, works).store == s.store
    ensures Keeps(Flushed(s, force, now, day, works).file, beats[..SavedAfter(s, force, now, works, saved, |beats|)], day, limit)
  {
    assert beats[..|beats|] == beats;
    KeepsOfDay(s.store.value, beats, day, limit);
  }

  lemma BeatKeepsInv(w: World, key: string, reported: real, works: bool, limit: string -> int)
    requires Inv(w, limit) && limit(key) > 0
    ensures Inv(Step(w, BeatEvent(key, reported, works), limit), limit)
  {
    var beat := Beat(key, w.day, Clamped(reported), w.now);
    var beats := w.beats + [beat];
    KeepsLoaded(w, limit);
    KeepsWithEntry(w.state, w.beats, key, w.day, limit);
    KeepsCredit(WithEntry(w.state, key, w.day).store.value, w.beats, beat, limit);
    var accrued := Accrued(w.state, key, beat.seconds, limit(key), w.day);
    assert beats[..w.saved] == w.beats[..w.saved];
    FlushKeeps(accrued, beats, w.saved, false, w.now, w.day, works, limit);
    assert key in accrued.store.value;
  }

  lemma StepKeepsInv(w: World, e: Event, limit: string -> int)
    requires Inv(w, limit)
    ensures Inv(Step(w, e, limit), limit)
  {
    match e
    case BeatEvent(key, reported, works) =>
      if limit(key) > 0 {
        BeatKeepsInv(w, key, reported, works, limit);
      }
    case PageLoad(key) =>
      KeepsLoaded(w, limit);
      KeepsWithEntry(w.state, w.beats, key, w.day, limit);
    case Restart(works) =>
      var after := Step(w, e, limit);
      assert w.beats[..|w.beats|] == w.beats && after.beats[..after.saved] == after.beats;
      if Writes(w.state, true, w.now) {
        KeepsOfDay(w.state.store.value, w.beats, w.day, limit);
      }
    case Crash =>
      assert w.beats[..w.saved][..w.saved] == w.beats[..w.saved];
    case Later(now, day) =>
      if now >= w.now && day >= w.day {
        KeepsLater(w.state.file, w.beats[..w.saved], w.day, day, limit);
        if w.state.store.Some? {
          KeepsLater(w.state.store.value, w.beats, w.day, day, limit);
        }
      }
  }

  // ---- whole runs ----

  // A machine that has just started, with no time on file.
  function Start(now: real, day: int): World { World(State(None, 0.0, map[]), now, day, [], 0) }

  function Play(events: seq<Event>, now: real, day: int, limit: string -> int): (w: World)
    ensures w.saved <= |w.beats|
  {
    if events == [] then Start(now, day)
    else Step(Play(events[..|events| - 1], now, day, limit), events[|events| - 1], limit)
  }

  lemma {:induction false} PlayKeepsInv(events: seq<Event>, now: real, day: int, limit: string -> int)
    ensures Inv(Play(events, now, day, limit), limit)
  {
    if events != [] {
      PlayKeepsInv(events[..|events| - 1], now, day, limit);
      StepKeepsInv(Play(events[..|events| - 1], now, day, limit), events[|events| - 1], limit);
    }
  }

  // What a page load or a heartbeat would be told is left of today.
  function LeftOf(w: World, key: string, limit: string -> int): real {
    Left(limit(key), Seconds(Loaded(w.state, w.day), key, w.day))
  }

  // After any run of heartbeats, page loads, restarts and crashes, the time held for a
  // site is the sum of its clamped heartbeats of the day, up to two minutes past the
  // limit; what is left is the limit less the sum.
  lemma TimeIsCounted(events: seq<Event>, now: real, day: int, key: string, limit: string -> int)
    requires limit(key) > 0
    ensures var w := Play(events, now, day, limit);
            && (forall b :: b in w.beats ==> b.seconds >= 0.0)
            && Seconds(Loaded(w.state, w.day), key, w.day) == Min(Cap(limit(key)), Total(w.beats, key, w.day))
            && LeftOf(w, key, limit) == Left(limit(key), Total(w.beats, key, w.day))
  {
    var w := Play(events, now, day, limit);
    PlayKeepsInv(events, now, day, limit);
    HeldIsTotal(w, key, limit);
  }

  lemma HeldIsTotal(w: World, key: string, limit: string -> int)
    requires Inv(w, limit) && limit(key) > 0
    ensures forall b :: b in w.beats ==> b.seconds >= 0.0
    ensures Seconds(Loaded(w.state, w.day), key, w.day) == Min(Cap(limit(key)), Total(w.beats, key, w.day))
    ensures LeftOf(w, key, limit) == Left(limit(key), Total(w.beats, key, w.day))
  {
    KeepsLoaded(w, limit);
    assert Seconds(Loaded(w.state, w.day), key, w.day) == Spent(w.beats, key, w.day, limit);
    CapIsPastTheLimit(limit(key), Total(w.beats, key, w.day));
  }

  lemma CapIsPastTheLimit(minutes: int, total: real)
    ensures Left(minutes, Min(Cap(minutes), total)) == Left(minutes, total)
  {
  }

  predicate Tame(e: Event) { !e.Crash? && (e.Restart? ==> e.works) }

  // Nothing but a crash, or a restart that could not write, takes a heartbeat back.
  lemma TameKeepsBeats(w: World, e: Event, limit: string -> int)
    requires Inv(w, limit) && Tame(e)
    ensures w.beats <= Step(w, e, limit).beats
  {
    if e.Restart? {
      assert w.beats[..|w.beats|] == w.beats;
    }
  }

  lemma {:induction false} TotalGrows(beats: seq<Beat>, more: seq<Beat>, key: string, day: int)
    requires beats <= more && forall b :: b in more ==> b.seconds >= 0.0
    ensures forall b :: b in beats ==> b.seconds >= 0.0
    ensures Total(beats, key, day) <= Total(more, key, day)
  {
    assert forall b :: b in beats ==> b in more by {
      assert forall i :: 0 <= i < |beats| ==> beats[i] == more[i];
    }
    if |beats| < |more| {
      TotalGrows(beats, more[..|more| - 1], key, day);
      assert more[|more| - 1] in more;
    } else {
      assert beats == more;
    }
  }

  // Within a day the time left never rises.
  lemma NeverRises(w: World, e: Event, key: string, limit: string -> int)
    requires Inv(w, limit) && Tame(e) && limit(key) > 0 && Step(w, e, limit).day == w.day
    ensures LeftOf(Step(w, e, limit), key, limit) <= LeftOf(w, key, limit)
  {
    var after := Step(w, e, limit);
    StepKeepsInv(w, e, limit);
    TameKeepsBeats(w, e, limit);
    TotalGrows(w.beats, after.beats, key, w.day);
    HeldIsTotal(w, key, limit);
    HeldIsTotal(after, key, limit);
  }

  predicate WritesWork(e: Event) { (e.BeatEvent? || e.Restart?) ==> e.works }

  lemma PromptStep(w: World, e: Event, limit: string -> int)
    requires Inv(w, limit) && Prompt(w) && WritesWork(e)
    ensures Prompt(Step(w, e, limit))
  {
    var after := Step(w, e, limit);
    if e.BeatEvent? && limit(e.key) > 0 {
      var accrued := Accrued(w.state, e.key, Clamped(e.reported), limit(e.key), w.day);
      assert e.key in accrued.store.value;
      forall i | after.saved <= i < |after.beats|
        ensures after.beats[i].at < after.state.flushedAt + FLUSH_SECONDS
      {
        assert i < |w.beats| ==> after.beats[i] == w.beats[i];
      }
    }
  }

  // As long as writes go through, a crash loses only heartbeats credited within half a
  // minute of the last write.
  lemma {:induction false} CrashLosesLittle(events: seq<Event>, now: real, day: int, limit: string -> int)
    requires forall e :: e in events ==> WritesWork(e)
    ensures var w, after := Play(events, now, day, limit), Step(Play(events, now, day, limit), Crash, limit);
            && after.beats <= w.beats
            && forall i :: |after.beats| <= i < |w.beats| ==> w.beats[i].at < w.state.flushedAt + FLUSH_SECONDS
  {
    AlwaysPrompt(events, now, day, limit);
  }

  lemma {:induction false} AlwaysPrompt(events: seq<Event>, now: real, day: int, limit: string -> int)
    requires forall e :: e in events ==> WritesWork(e)
    ensures Prompt(Play(events, now, day, limit))
  {
    if events != [] {
      var before := events[..|events| - 1];
      assert events[|events| - 1] in events && forall e :: e in before ==> e in events;
      AlwaysPrompt(before, now, day, limit);
      PlayKeepsInv(before, now, day, limit);
      PromptStep(Play(before, now, day, limit), events[|events| - 1], limit);
    }
  }
}
