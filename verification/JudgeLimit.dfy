// mitm/kosher_filter.py `_judge_allowed`: how many judge calls a page may make. One
// counter a page token, in an ordered table of bounded size that forgets the token
// longest without a call.
module JudgeLimit {
  import opened Options

  const CALLS_PER_MINUTE := 120
  const MAX_COUNTERS := 1024
  const MINUTE := 60.0

  // A counting window: when it began, and the calls in it so far.
  datatype Window = Window(started: real, count: nat)
  datatype Counter = Counter(token: string, window: Window)

  // ---- one token's calls, by themselves ----

  predicate Expired(window: Option<Window>, now: real) {
    window.None? || now - window.value.started >= MINUTE
  }

  function Counted(window: Option<Window>, now: real): Window {
    if Expired(window, now) then Window(now, 1) else Window(window.value.started, window.value.count + 1)
  }

  predicate Admits(window: Option<Window>, now: real) {
    Expired(window, now) || window.value.count < CALLS_PER_MINUTE
  }

  // ---- the table ----

  ghost predicate Distinct(table: seq<Counter>) {
    forall i, j :: 0 <= i < j < |table| ==> table[i].token != table[j].token
  }

  ghost predicate IsTable(table: seq<Counter>) { Distinct(table) && |table| <= MAX_COUNTERS }

  function WindowOf(table: seq<Counter>, token: string): (window: Option<Window>)
    ensures window.Some? ==> Counter(token, window.value) in table
    ensures window.None? ==> forall i :: 0 <= i < |table| ==> table[i].token != token
  {
    if table == [] then None
    else if table[0].token == token then Some(table[0].window)
    else WindowOf(table[1..], token)
  }

  function Without(table: seq<Counter>, token: string): seq<Counter> {
    if table == [] then []
    else if table[0].token == token then table[1..]
    else [table[0]] + Without(table[1..], token)
  }

  function Evicted(table: seq<Counter>): seq<Counter> {
    if |table| > MAX_COUNTERS then table[|table| - MAX_COUNTERS..] else table
  }

  function Recorded(table: seq<Counter>, token: string, now: real): seq<Counter> {
    Evicted(Without(table, token) + [Counter(token, Counted(WindowOf(table, token), now))])
  }

  lemma {:induction false} WithoutAt(table: seq<Counter>, k: nat)
    requires k < |table| && Distinct(table)
    ensures Without(table, table[k].token) == table[..k] + table[k + 1..]
  {
    if k > 0 {
      WithoutAt(table[1..], k - 1);
    }
  }

  lemma {:induction false} WithoutNothing(table: seq<Counter>, token: string)
    requires forall i :: 0 <= i < |table| ==> table[i].token != token
    ensures Without(table, token) == table
  {
    if table != [] {
      WithoutNothing(table[1..], token);
    }
  }

  lemma {:induction false} WindowAtIndex(table: seq<Counter>, k: nat)
    requires k < |table| && Distinct(table)
    ensures WindowOf(table, table[k].token) == Some(table[k].window)
  {
    if k > 0 {
      WindowAtIndex(table[1..], k - 1);
    }
  }

  lemma WithoutIsTable(table: seq<Counter>, token: string)
    requires IsTable(table)
    ensures IsTable(Without(table, token)) && |Without(table, token)| <= |table|
    ensures forall i :: 0 <= i < |Without(table, token)| ==> Without(table, token)[i].token != token
    ensures forall c :: c in Without(table, token) ==> c in table
  {
    if k :| 0 <= k < |table| && table[k].token == token {
      WithoutAt(table, k);
    } else {
      WithoutNothing(table, token);
    }
  }

  // The table stays a table: no token twice, never more than it may hold, and the token
  // just heard from stands last.
  lemma {:induction false} RecordedIsTable(table: seq<Counter>, token: string, now: real)
    requires IsTable(table)
    ensures IsTable(Recorded(table, token, now))
    ensures var last := |Recorded(table, token, now)| - 1;
            last >= 0 && Recorded(table, token, now)[last] == Counter(token, Counted(WindowOf(table, token), now))
    ensures forall c :: c in Recorded(table, token, now) ==> c.token == token || c in table
  {
    WithoutIsTable(table, token);
    var left, added := Without(table, token), Counter(token, Counted(WindowOf(table, token), now));
    assert Distinct(left + [added]);
    assert Recorded(table, token, now) == Evicted(left + [added]);
  }

  class Limiter {
    var calls: seq<Counter>

    constructor ()
      ensures calls == []
    {
      calls := [];
    }

    method Allowed(token: string, now: real) returns (allowed: bool)
      requires IsTable(calls)
      modifies this
      ensures IsTable(calls) && calls == Recorded(old(calls), token, now)
      ensures allowed == Admits(WindowOf(old(calls), token), now)
    {
      RecordedIsTable(calls, token, now);
      WithoutIsTable(calls, token);
      var popped := WindowOf(calls, token);
      calls := Without(calls, token);
      var started, count := now, 0;
      if popped.Some? {
        started, count := popped.value.started, popped.value.count;
      }
      if now - started >= MINUTE {
        started, count := now, 0;
      }
      assert Window(started, count + 1) == Counted(popped, now);
      calls := calls + [Counter(token, Window(started, count + 1))];
      Evict();
      allowed := count < CALLS_PER_MINUTE;
    }

    // The counters longest without a call go while there are too many.
    method Evict()
      modifies this
      ensures calls == Evicted(old(calls))
    {
      ghost var all := calls;
      while |calls| > MAX_COUNTERS
        invariant |calls| <= |all| && calls == all[|all| - |calls|..]
        invariant |calls| == |all| || |calls| >= MAX_COUNTERS
      {
        calls := calls[1..];
      }
    }
  }

  // ---- one token's calls over time ----

  ghost predicate Ascending(times: seq<real>) { forall i, j :: 0 <= i <= j < |times| ==> times[i] <= times[j] }

  function WindowAfter(times: seq<real>): Option<Window> {
    if times == [] then None
    else Some(Counted(WindowAfter(times[..|times| - 1]), times[|times| - 1]))
  }

  predicate InMinute(t: real, from: real) { from <= t < from + MINUTE }

  // The calls let through from `from` on, for a minute.
  function AdmittedIn(times: seq<real>, from: real): nat {
    if times == [] then 0
    else
      var before, now := times[..|times| - 1], times[|times| - 1];
      AdmittedIn(before, from) + if InMinute(now, from) && Admits(WindowAfter(before), now) then 1 else 0
  }

  // The calls let through in the counting window that began at `started`.
  function AdmittedSince(times: seq<real>, started: real): nat {
    if times == [] then 0
    else
      var before, now := times[..|times| - 1], times[|times| - 1];
      AdmittedSince(before, started)
      + if WindowAfter(times).value.started == started && Admits(WindowAfter(before), now) then 1 else 0
  }

  function Capped(count: nat): nat { if count < CALLS_PER_MINUTE then count else CALLS_PER_MINUTE }

  lemma {:induction false} WindowIsRecent(times: seq<real>)
    requires Ascending(times) && times != []
    ensures var w := WindowAfter(times).value; w.count >= 1 && w.started <= times[|times| - 1] < w.started + MINUTE
  {
    if |times| > 1 {
      WindowIsRecent(times[..|times| - 1]);
    }
  }

  lemma {:induction false} AdmittedSoFar(times: seq<real>, from: real)
    requires Ascending(times) && times != []
    ensures var w, n := WindowAfter(times).value, AdmittedIn(times, from);
            && w.count >= 1
            && (times[|times| - 1] < from ==> n == 0)
            && (w.started < from ==> n <= Capped(w.count) - 1)
            && (InMinute(w.started, from) ==> n <= CALLS_PER_MINUTE - 1 + Capped(w.count))
            && n <= 2 * CALLS_PER_MINUTE - 1
  {
    var before := times[..|times| - 1];
    if before != [] {
      AdmittedSoFar(before, from);
      WindowIsRecent(before);
    } else {
      assert AdmittedIn(before, from) == 0;
    }
    WindowIsRecent(times);
  }

  // A window lets through at most its number of calls.
  lemma {:induction false} AtMostInAWindow(times: seq<real>, started: real)
    requires Ascending(times) && times != []
    ensures var w, n := WindowAfter(times).value, AdmittedSince(times, started);
            && (w.started < started ==> n == 0)
            && (w.started == started ==> n == Capped(w.count))
            && n <= CALLS_PER_MINUTE
  {
    var before := times[..|times| - 1];
    if before != [] {
      AtMostInAWindow(before, started);
      WindowIsRecent(before);
    } else {
      assert AdmittedSince(before, started) == 0;
    }
    WindowIsRecent(times);
  }

  // Two hundred and thirty-nine in a minute is the most there can be, not twice the
  // limit: the earlier of two windows the minute meets began before it, with a call.
  lemma AtMostInAMinute(times: seq<real>, from: real)
    requires Ascending(times)
    ensures AdmittedIn(times, from) <= 2 * CALLS_PER_MINUTE - 1
  {
    if times != [] {
      AdmittedSoFar(times, from);
    }
  }

  // A first call, `late` calls just before its minute is up, and `next` after.
  function Burst(late: nat, next: nat): seq<real> {
    [0.0] + seq(late, _ => 59.0) + seq(next, _ => 60.0)
  }

  lemma OneMore(before: seq<real>, now: real, from: real)
    ensures WindowAfter(before + [now]) == Some(Counted(WindowAfter(before), now))
    ensures AdmittedIn(before + [now], from)
         == AdmittedIn(before, from) + if InMinute(now, from) && Admits(WindowAfter(before), now) then 1 else 0
  {
    assert (before + [now])[..|before|] == before;
  }

  lemma {:induction false} BurstCount(late: nat, next: nat)
    requires late < CALLS_PER_MINUTE && next <= CALLS_PER_MINUTE
    ensures AdmittedIn(Burst(late, next), 59.0) == late + next
    ensures WindowAfter(Burst(late, next)) == Some(if next == 0 then Window(0.0, late + 1) else Window(60.0, next))
  {
    if next > 0 {
      assert Burst(late, next) == Burst(late, next - 1) + [60.0];
      BurstCount(late, next - 1);
      OneMore(Burst(late, next - 1), 60.0, 59.0);
    } else if late > 0 {
      assert Burst(late, 0) == Burst(late - 1, 0) + [59.0];
      BurstCount(late - 1, 0);
      OneMore(Burst(late - 1, 0), 59.0, 59.0);
    } else {
      assert Burst(0, 0) == [] + [0.0];
      OneMore([], 0.0, 59.0);
    }
  }

  // The bound is met.
  lemma BoundIsTight()
    ensures exists times, from :: Ascending(times) && AdmittedIn(times, from) == 2 * CALLS_PER_MINUTE - 1
  {
    BurstCount(CALLS_PER_MINUTE - 1, CALLS_PER_MINUTE);
    assert Ascending(Burst(CALLS_PER_MINUTE - 1, CALLS_PER_MINUTE));
  }

  function CallsIn(times: seq<real>, from: real): nat {
    if times == [] then 0
    else CallsIn(times[..|times| - 1], from) + if InMinute(times[|times| - 1], from) then 1 else 0
  }

  lemma {:induction false} WindowCountsCalls(times: seq<real>)
    requires Ascending(times) && times != []
    ensures var w := WindowAfter(times).value; w.count <= CallsIn(times, w.started)
  {
    var before := times[..|times| - 1];
    if before != [] {
      WindowCountsCalls(before);
    }
    WindowIsRecent(times);
  }

  // A page that never makes more than the limit in any minute is never refused.
  lemma SteadyPageIsNeverRefused(times: seq<real>, now: real)
    requires Ascending(times + [now])
    requires forall from :: CallsIn(times + [now], from) <= CALLS_PER_MINUTE
    ensures Admits(WindowAfter(times), now)
  {
    assert (times + [now])[..|times|] == times;
    if times != [] && !Expired(WindowAfter(times), now) {
      assert forall i, j :: 0 <= i <= j < |times| ==> (times + [now])[i] == times[i] && (times + [now])[j] == times[j];
      WindowCountsCalls(times);
      WindowIsRecent(times);
      var started := WindowAfter(times).value.started;
      assert times[|times| - 1] == (times + [now])[|times| - 1] <= (times + [now])[|times|];
      assert CallsIn(times + [now], started) == CallsIn(times, started) + 1;
    }
  }

  // ---- every token's calls, sharing the table ----

  datatype Call = Call(token: string, now: real)

  function Last<T>(s: seq<T>): T requires s != [] { s[|s| - 1] }
  function Init<T>(s: seq<T>): seq<T> requires s != [] { s[..|s| - 1] }

  function TableAfter(run: seq<Call>): seq<Counter> {
    if run == [] then [] else Recorded(TableAfter(Init(run)), Last(run).token, Last(run).now)
  }

  function TimesOf(run: seq<Call>, token: string): seq<real> {
    if run == [] then []
    else TimesOf(Init(run), token) + if Last(run).token == token then [Last(run).now] else []
  }

  // The other tokens heard from since this one was.
  function OthersSince(run: seq<Call>, token: string): set<string> {
    if run == [] || Last(run).token == token then {}
    else OthersSince(Init(run), token) + {Last(run).token}
  }

  // Each time the token calls again, fewer others called meanwhile than the table holds.
  predicate KeepsUp(run: seq<Call>, token: string) {
    run == [] || (KeepsUp(Init(run), token) && (Last(run).token == token ==> |OthersSince(Init(run), token)| < MAX_COUNTERS))
  }

  // The calls of the token the table lets through in the minute from `from`.
  function AdmittedOf(run: seq<Call>, token: string, from: real): nat {
    if run == [] then 0
    else
      AdmittedOf(Init(run), token, from)
      + if Last(run).token == token && InMinute(Last(run).now, from) && Admits(WindowOf(TableAfter(Init(run)), token), Last(run).now)
        then 1 else 0
  }

  lemma {:induction false} TableIsTable(run: seq<Call>)
    ensures IsTable(TableAfter(run))
  {
    if run != [] {
      TableIsTable(Init(run));
      RecordedIsTable(TableAfter(Init(run)), Last(run).token, Last(run).now);
    }
  }

  lemma {:induction false} NoMoreThan(table: seq<Counter>, others: set<string>)
    requires Distinct(table) && forall i :: 0 <= i < |table| ==> table[i].token in others
    ensures |table| <= |others|
  {
    if table != [] {
      NoMoreThan(table[1..], others - {table[0].token});
    }
  }

  // Everyone standing behind the token in the table is among `others`.
  ghost predicate StandsBefore(table: seq<Counter>, token: string, window: Window, others: set<string>, at: nat) {
    && at < |table| && table[at] == Counter(token, window)
    && forall i :: at < i < |table| ==> table[i].token in others
  }

  // Another token's call leaves the counter where at most that token comes behind it.
  lemma StillStands(table: seq<Counter>, token: string, window: Window, others: set<string>, at: nat, call: Call) returns (now: nat)
    requires IsTable(table) && StandsBefore(table, token, window, others, at)
    requires call.token != token && |others + {call.token}| < MAX_COUNTERS
    ensures StandsBefore(Recorded(table, call.token, call.now), token, window, others + {call.token}, now)
  {
    if k :| 0 <= k < |table| && table[k].token == call.token {
      WithoutAt(table, k);
      now := if k < at then at - 1 else at;
    } else {
      WithoutNothing(table, call.token);
      now := at;
      if |table| == MAX_COUNTERS {
        NoMoreThan(table[at + 1..], others - {call.token});
        assert others + {call.token} == (others - {call.token}) + {call.token};
        now := at - 1;
      }
    }
  }

  lemma SubsetSize(small: set<string>, large: set<string>)
    requires small <= large
    ensures |small| <= |large|
  {
    assert large == small + (large - small);
  }

  lemma TimesOfStep(run: seq<Call>, token: string)
    requires run != []
    ensures Last(run).token != token ==> TimesOf(run, token) == TimesOf(Init(run), token)
    ensures Last(run).token == token ==>
              WindowAfter(TimesOf(run, token)) == Some(Counted(WindowAfter(TimesOf(Init(run), token)), Last(run).now))
  {
    var before := TimesOf(Init(run), token);
    if Last(run).token == token {
      assert TimesOf(run, token)[..|before|] == before;
    }
  }

  // The token's counter is in the table as its own calls alone would have it.
  ghost predicate Stands(run: seq<Call>, token: string) {
    var window := WindowAfter(TimesOf(run, token));
    if window.None? then forall c :: c in TableAfter(run) ==> c.token != token
    else exists at :: StandsBefore(TableAfter(run), token, window.value, OthersSince(run, token), at)
  }

  lemma {:induction false} CounterStands(run: seq<Call>, token: string)
    requires KeepsUp(run, token) && |OthersSince(run, token)| < MAX_COUNTERS
    ensures Stands(run, token)
  {
    if run != [] {
      var table, call := TableAfter(Init(run)), Last(run);
      TableIsTable(Init(run));
      RecordedIsTable(table, call.token, call.now);
      TimesOfStep(run, token);
      if call.token == token {
        CounterStands(Init(run), token);
        StandsMeansFound(Init(run), token);
        assert StandsBefore(TableAfter(run), token, WindowAfter(TimesOf(run, token)).value, {}, |TableAfter(run)| - 1);
      } else {
        SubsetSize(OthersSince(Init(run), token), OthersSince(run, token));
        CounterStands(Init(run), token);
        var window := WindowAfter(TimesOf(Init(run), token));
        if window.Some? {
          var at :| StandsBefore(table, token, window.value, OthersSince(Init(run), token), at);
          var now := StillStands(table, token, window.value, OthersSince(Init(run), token), at, call);
          assert StandsBefore(TableAfter(run), token, window.value, OthersSince(run, token), now);
        }
      }
    }
  }

  lemma StandsMeansFound(run: seq<Call>, token: string)
    requires Stands(run, token)
    ensures WindowOf(TableAfter(run), token) == WindowAfter(TimesOf(run, token))
  {
    var window := WindowAfter(TimesOf(run, token));
    if window.Some? {
      var at :| StandsBefore(TableAfter(run), token, window.value, OthersSince(run, token), at);
      TableIsTable(run);
      WindowAtIndex(TableAfter(run), at);
    }
  }

  // While fewer others call between its calls than the table holds, what a token is let
  // is what its own calls alone decide.
  lemma {:induction false} CompanyChangesNothing(run: seq<Call>, token: string, from: real)
    requires KeepsUp(run, token)
    ensures AdmittedOf(run, token, from) == AdmittedIn(TimesOf(run, token), from)
  {
    if run != [] {
      CompanyChangesNothing(Init(run), token, from);
      var before, times := TimesOf(Init(run), token), TimesOf(run, token);
      if Last(run).token == token {
        CounterStands(Init(run), token);
        StandsMeansFound(Init(run), token);
        assert times[..|times| - 1] == before && times[|times| - 1] == Last(run).now;
      } else {
        assert times == before;
      }
    }
  }

  ghost predicate InOrder(run: seq<Call>) { forall i, j :: 0 <= i <= j < |run| ==> run[i].now <= run[j].now }

  lemma {:induction false} TimesAscend(run: seq<Call>, token: string)
    requires InOrder(run)
    ensures Ascending(TimesOf(run, token))
    ensures forall t :: t in TimesOf(run, token) ==> t <= Last(run).now
  {
    if run != [] {
      TimesAscend(Init(run), token);
      var before := TimesOf(Init(run), token);
      assert forall i :: 0 <= i < |before| ==> before[i] in before;
      forall t | t in before
        ensures t <= Last(run).now
      {
        assert Last(Init(run)).now == run[|run| - 2].now <= run[|run| - 1].now;
      }
    }
  }

  // Whatever the other pages do, a page that keeps up is let at most 239 calls in any
  // minute.
  lemma PageIsLimited(run: seq<Call>, token: string, from: real)
    requires InOrder(run) && KeepsUp(run, token)
    ensures AdmittedOf(run, token, from) <= 2 * CALLS_PER_MINUTE - 1
    ensures |TableAfter(run)| <= MAX_COUNTERS
  {
    CompanyChangesNothing(run, token, from);
    TimesAscend(run, token);
    AtMostInAMinute(TimesOf(run, token), from);
    TableIsTable(run);
  }
}
