// scripts/pr-test.py: `groups_for` splits the suites over machines, longest first onto
// the least loaded; `parse_shard` and `shard_groups` let each machine of a split run
// work out its own group.
module Scheduler {
  import opened Numerals
  import opened Sorting

  const SUITE_SECONDS: map<string, nat> := map[
    "10-core" := 12, "20-enforcement" := 32, "30-apps" := 61, "40-guest" := 9,
    "50-inspect" := 16, "60-persistence" := 77, "70-categories" := 22,
    "80-hardening" := 51, "90-developer" := 93]

  function Seconds(suite: string): (s: nat)
    ensures s > 0
  {
    if suite in SUITE_SECONDS then SUITE_SECONDS[suite] else 60
  }

  // The measured times, a minute for a suite not listed. What follows holds for any.
  function Time(): string -> nat { suite => Seconds(suite) }

  ghost predicate Positive(time: string -> nat) {
    forall suite :: time(suite) > 0
  }

  lemma MeasuredTimesArePositive()
    ensures Positive(Time())
  {
  }

  // ---- the greedy split, as a function ----

  datatype Packing = Packing(bins: seq<seq<string>>, load: seq<nat>)

  predicate Consistent(p: Packing, time: string -> nat) {
    |p.bins| == |p.load| && forall i :: 0 <= i < |p.bins| ==> p.load[i] == Sum(p.bins[i], time)
  }

  // The first of the least loads.
  function LeastLoaded(load: seq<nat>): (i: nat)
    requires |load| > 0
    ensures i < |load|
    ensures forall j :: 0 <= j < |load| ==> load[i] <= load[j]
    ensures forall j :: 0 <= j < i ==> load[i] < load[j]
  {
    if |load| == 1 then 0
    else
      var i := LeastLoaded(load[..|load| - 1]);
      if load[|load| - 1] < load[i] then |load| - 1 else i
  }

  function Empty(m: nat): Packing {
    Packing(seq(m, i => []), seq(m, i => 0))
  }

  function Place(p: Packing, suite: string, time: string -> nat): (q: Packing)
    requires Consistent(p, time) && |p.bins| > 0
    ensures Consistent(q, time) && |q.bins| == |p.bins|
  {
    var i := LeastLoaded(p.load);
    SumLast(p.bins[i], suite, time);
    Packing(p.bins[i := p.bins[i] + [suite]], p.load[i := p.load[i] + time(suite)])
  }

  function Pack(suites: seq<string>, m: nat, time: string -> nat): (p: Packing)
    requires m > 0
    ensures Consistent(p, time) && |p.bins| == m
  {
    if suites == [] then Empty(m) else Place(Pack(suites[..|suites| - 1], m, time), suites[|suites| - 1], time)
  }

  lemma PackOneMore(suites: seq<string>, suite: string, m: nat, time: string -> nat)
    requires m > 0
    ensures Pack(suites + [suite], m, time) == Place(Pack(suites, m, time), suite, time)
  {
    assert (suites + [suite])[..|suites|] == suites;
  }

  lemma PackNext(suites: seq<string>, k: nat, m: nat, time: string -> nat)
    requires m > 0 && k < |suites|
    ensures Pack(suites[..k + 1], m, time) == Place(Pack(suites[..k], m, time), suites[k], time)
  {
    assert suites[..k + 1] == suites[..k] + [suites[k]];
    PackOneMore(suites[..k], suites[k], m, time);
  }

  function LongerFirst(time: string -> nat): (string, string) -> bool {
    (a, b) => time(a) >= time(b)
  }

  function ByTime(suites: seq<string>, time: string -> nat): seq<string> { Sort(suites, LongerFirst(time)) }

  // Lexicographic order, as Python compares strings and lists of strings.
  predicate NameLe(a: string, b: string) { LexLe(a, b, (x: char, y: char) => x <= y) }
  predicate NamesLe(a: seq<string>, b: seq<string>) { LexLe(a, b, (x: string, y: string) => NameLe(x, y)) }

  lemma NamesAreOrdered()
    ensures TotalOrder(NameLe) && TotalOrder(NamesLe)
  {
    LexOrders((x: char, y: char) => x <= y, NameLe);
    LexOrders((x: string, y: string) => NameLe(x, y), NamesLe);
  }

  function InNameOrder(bins: seq<seq<string>>): seq<seq<string>> {
    if bins == [] then []
    else (if bins[0] == [] then [] else [Sort(bins[0], NameLe)]) + InNameOrder(bins[1..])
  }

  function Machines(suites: seq<string>, n: int): (m: nat)
    ensures m > 0
  {
    if n < 1 || |suites| == 0 then 1 else if n < |suites| then n else |suites|
  }

  function Groups(suites: seq<string>, n: int, time: string -> nat): seq<seq<string>> {
    InNameOrder(Pack(ByTime(suites, time), Machines(suites, n), time).bins)
  }

  // One suite, onto the first of the least loaded bins, in place.
  method PlaceOn(bins: array<seq<string>>, load: array<nat>, suite: string, time: string -> nat)
    requires bins.Length == load.Length > 0
    requires Consistent(Packing(bins[..], load[..]), time)
    modifies bins, load
    ensures Packing(bins[..], load[..]) == Place(old(Packing(bins[..], load[..])), suite, time)
  {
    ghost var bins0, load0 := bins[..], load[..];
    var i := LeastLoaded(load[..]);
    bins[i] := bins[i] + [suite];
    load[i] := load[i] + time(suite);
    assert bins[..] == bins0[i := bins0[i] + [suite]];
    assert load[..] == load0[i := load0[i] + time(suite)];
  }

  // `groups_for`: the bins and their loads are filled in place.
  method GroupsFor(suites: seq<string>, n: int, time: string -> nat) returns (groups: seq<seq<string>>)
    ensures groups == Groups(suites, n, time)
  {
    var m := Machines(suites, n);
    var bins := new seq<string>[m](i => []);
    var load := new nat[m](i => 0);
    var ordered := ByTime(suites, time);
    assert bins[..] == Empty(m).bins && load[..] == Empty(m).load;
    PlaceAll(bins, load, ordered, time);
    groups := InNameOrder(bins[..]);
  }

  // Every suite in turn onto empty bins.
  method PlaceAll(bins: array<seq<string>>, load: array<nat>, suites: seq<string>, time: string -> nat)
    requires bins.Length == load.Length > 0
    requires Packing(bins[..], load[..]) == Empty(bins.Length)
    modifies bins, load
    ensures Packing(bins[..], load[..]) == Pack(suites, bins.Length, time)
  {
    ghost var p := Packing(bins[..], load[..]);
    for k := 0 to |suites|
      invariant p == Packing(bins[..], load[..]) && p == Pack(suites[..k], bins.Length, time)
    {
      PackNext(suites, k, bins.Length, time);
      PlaceOn(bins, load, suites[k], time);
      p := Packing(bins[..], load[..]);
    }
    assert suites[..|suites|] == suites;
  }

  // ---- the split holds every suite once ----

  lemma {:induction false} PackHoldsAll(suites: seq<string>, m: nat, time: string -> nat)
    requires m > 0
    ensures multiset(Flatten(Pack(suites, m, time).bins)) == multiset(suites)
  {
    if suites == [] {
      FlattenEmpty(m);
    } else {
      var front, last := suites[..|suites| - 1], suites[|suites| - 1];
      assert suites == front + [last];
      PackHoldsAll(front, m, time);
      var p := Pack(front, m, time);
      var i := LeastLoaded(p.load);
      FlattenUpdate(p.bins, i, p.bins[i] + [last]);
      CancelBin(multiset(Flatten(Pack(suites, m, time).bins)), multiset(p.bins[i]), multiset(front), multiset{last});
    }
  }

  lemma CancelBin<T>(r: multiset<T>, bin: multiset<T>, f: multiset<T>, x: multiset<T>)
    requires r + bin == f + (bin + x)
    ensures r == f + x
  {
    assert forall e :: r[e] + bin[e] == (r + bin)[e] == f[e] + (bin[e] + x[e]);
  }

  lemma {:induction false} FlattenEmpty(m: nat)
    ensures Flatten(Empty(m).bins) == []
    decreases m
  {
    if m > 0 {
      assert Empty(m).bins[1..] == Empty(m - 1).bins;
      FlattenEmpty(m - 1);
    }
  }

  lemma {:induction false} InNameOrderHoldsAll(bins: seq<seq<string>>)
    ensures multiset(Flatten(InNameOrder(bins))) == multiset(Flatten(bins))
  {
    if bins != [] {
      InNameOrderHoldsAll(bins[1..]);
      SortKeeps(bins[0], NameLe);
      var first := if bins[0] == [] then [] else [Sort(bins[0], NameLe)];
      FlattenJoin(first, InNameOrder(bins[1..]));
      assert first != [] ==> first[1..] == [];
      assert Flatten(first) == if bins[0] == [] then [] else Sort(bins[0], NameLe);
    }
  }

  // Every selected suite is in exactly one group, as often as it was selected.
  lemma GroupsHoldAll(suites: seq<string>, n: int, time: string -> nat)
    ensures multiset(Flatten(Groups(suites, n, time))) == multiset(suites)
  {
    SortKeeps(suites, LongerFirst(time));
    PackHoldsAll(ByTime(suites, time), Machines(suites, n), time);
    InNameOrderHoldsAll(Pack(ByTime(suites, time), Machines(suites, n), time).bins);
  }

  // ---- how many groups ----

  // The first k bins hold something and the others nothing.
  ghost predicate Filled(p: Packing, k: nat) {
    && |p.bins| == |p.load|
    && forall i :: 0 <= i < |p.bins| ==> (p.bins[i] != [] <==> i < k) && (p.load[i] > 0 <==> i < k)
  }

  lemma PlaceFills(p: Packing, k: nat, suite: string, time: string -> nat)
    requires Consistent(p, time) && |p.bins| > 0 && Filled(p, k) && time(suite) > 0
    ensures k < |p.bins| ==> LeastLoaded(p.load) == k
    ensures Filled(Place(p, suite, time), k + 1)
  {
    var i := LeastLoaded(p.load);
    if k < |p.bins| {
      assert p.load[k] == 0;
      assert p.load[i] == 0;
    }
  }

  // The bins fill from the first: the earliest empty one is always the least loaded.
  lemma {:induction false} BinsFill(suites: seq<string>, m: nat, time: string -> nat)
    requires m > 0 && Positive(time)
    ensures Filled(Pack(suites, m, time), |suites|)
  {
    if suites != [] {
      var front := suites[..|suites| - 1];
      BinsFill(front, m, time);
      PlaceFills(Pack(front, m, time), |front|, suites[|suites| - 1], time);
    }
  }

  lemma {:induction false} InNameOrderKeepsFull(bins: seq<seq<string>>, k: nat)
    requires k <= |bins|
    requires forall i :: 0 <= i < |bins| ==> (bins[i] != [] <==> i < k)
    ensures |InNameOrder(bins)| == k
    ensures forall i :: 0 <= i < k ==> InNameOrder(bins)[i] == Sort(bins[i], NameLe)
  {
    if bins != [] {
      InNameOrderKeepsFull(bins[1..], if k == 0 then 0 else k - 1);
    }
  }

  // A group is a non-empty bin with its suites in the order of their names.
  ghost predicate IsGroup(group: seq<string>, bin: seq<string>, load: nat, time: string -> nat) {
    && group != [] && multiset(group) == multiset(bin) && SortedBy(group, NameLe) && Sum(group, time) == load
  }

  lemma BinInNameOrder(bin: seq<string>, time: string -> nat)
    requires bin != []
    ensures IsGroup(Sort(bin, NameLe), bin, Sum(bin, time), time)
  {
    NamesAreOrdered();
    SortKeeps(bin, NameLe);
    SumOfMultiset(Sort(bin, NameLe), bin, time);
  }

  // How many groups there are: min(n, number of suites), one when n is not positive.
  function Count(suites: seq<string>, n: int): nat {
    if |suites| < Machines(suites, n) then |suites| else Machines(suites, n)
  }

  function Packed(suites: seq<string>, n: int, time: string -> nat): (p: Packing)
    ensures Consistent(p, time) && |p.bins| == Machines(suites, n)
  {
    Pack(ByTime(suites, time), Machines(suites, n), time)
  }

  // Each group is one bin in name order, and none is empty: n of them, or one a suite.
  lemma GroupsAreBins(suites: seq<string>, n: int, time: string -> nat)
    requires Positive(time)
    ensures var groups, p := Groups(suites, n, time), Packed(suites, n, time);
      && |groups| == Count(suites, n)
      && (n >= 1 ==> |groups| == if n < |suites| then n else |suites|)
      && forall i :: 0 <= i < |groups| ==> IsGroup(groups[i], p.bins[i], p.load[i], time)
  {
    SortKeeps(suites, LongerFirst(time));
    var p := Packed(suites, n, time);
    BinsFill(ByTime(suites, time), Machines(suites, n), time);
    InNameOrderKeepsFull(p.bins, Count(suites, n));
    forall i | 0 <= i < Count(suites, n)
      ensures IsGroup(Sort(p.bins[i], NameLe), p.bins[i], p.load[i], time)
    {
      BinInNameOrder(p.bins[i], time);
    }
  }

  // ---- how even the groups are ----

  // Taking its last suite away leaves no bin fuller than any other.
  ghost predicate Even(p: Packing, time: string -> nat) {
    |p.bins| == |p.load| &&
    forall i, j :: 0 <= i < |p.bins| && 0 <= j < |p.bins| && p.bins[i] != [] ==>
      p.load[i] <= p.load[j] + time(p.bins[i][|p.bins[i]| - 1])
  }

  lemma PlaceKeepsEven(p: Packing, suite: string, time: string -> nat)
    requires Consistent(p, time) && |p.bins| > 0 && Even(p, time)
    ensures Even(Place(p, suite, time), time)
  {
    var q, least := Place(p, suite, time), LeastLoaded(p.load);
    forall i, j | 0 <= i < |q.bins| && 0 <= j < |q.bins| && q.bins[i] != []
      ensures q.load[i] <= q.load[j] + time(q.bins[i][|q.bins[i]| - 1])
    {
      assert p.load[j] <= q.load[j];
      if i == least {
        assert q.bins[i][|q.bins[i]| - 1] == suite;
      } else {
        assert q.bins[i] == p.bins[i];
      }
    }
  }

  lemma {:induction false} LoadsAreEven(suites: seq<string>, m: nat, time: string -> nat)
    requires m > 0
    ensures Even(Pack(suites, m, time), time)
  {
    if suites != [] {
      var front := suites[..|suites| - 1];
      LoadsAreEven(front, m, time);
      PlaceKeepsEven(Pack(front, m, time), suites[|suites| - 1], time);
    }
  }

  // Two groups never differ by more than one suite of the fuller.
  lemma GroupsAreEven(suites: seq<string>, n: int, i: nat, j: nat, time: string -> nat)
    requires Positive(time) && i < |Groups(suites, n, time)| && j < |Groups(suites, n, time)|
    ensures var gs := Groups(suites, n, time);
      exists suite :: suite in gs[i] && Sum(gs[i], time) <= Sum(gs[j], time) + time(suite)
  {
    var p := Packed(suites, n, time);
    GroupsAreBins(suites, n, time);
    LoadsAreEven(ByTime(suites, time), Machines(suites, n), time);
    LastOfGroup(Groups(suites, n, time)[i], p.bins[i], p.load[i], time);
    assert Sum(Groups(suites, n, time)[j], time) == p.load[j];
  }

  lemma LastOfGroup(group: seq<string>, bin: seq<string>, load: nat, time: string -> nat)
    requires IsGroup(group, bin, load, time)
    ensures bin != [] && bin[|bin| - 1] in group
  {
    assert |group| == |multiset(group)| && |bin| == |multiset(bin)|;
    assert bin[|bin| - 1] in multiset(bin);
    assert bin[|bin| - 1] in multiset(group);
  }

  // ---- the longest-processing-time bound ----

  // Some way of splitting these suites over m machines with no load above `bound`.
  ghost predicate Fits(other: seq<seq<string>>, suites: seq<string>, m: nat, bound: nat, time: string -> nat) {
    && |other| == m
    && multiset(Flatten(other)) == multiset(suites)
    && forall g <- other :: Sum(g, time) <= bound
  }

  // Dropping one suite, the rest still fit.
  lemma FitsWithout(other: seq<seq<string>>, suites: seq<string>, x: string, m: nat, bound: nat, time: string -> nat)
    returns (rest: seq<seq<string>>)
    requires Fits(other, suites + [x], m, bound, time)
    ensures Fits(rest, suites, m, bound, time)
    ensures time(x) <= bound
  {
    assert x in multiset(suites + [x]);
    assert x in Flatten(other);
    InSomeList(other, x);
    var i :| 0 <= i < |other| && x in other[i];
    var k :| 0 <= k < |other[i]| && other[i][k] == x;
    var g := Without(other[i], k);
    rest := other[i := g];
    SumWithout(other[i], k, time);
    assert other[i] in other;
    SwappedHolds(other, i, k, suites, x);
    SwappedWithin(other, i, g, bound, time);
  }

  lemma SwappedHolds(other: seq<seq<string>>, i: nat, k: nat, suites: seq<string>, x: string)
    requires i < |other| && k < |other[i]| && other[i][k] == x
    requires multiset(Flatten(other)) == multiset(suites + [x])
    ensures multiset(Flatten(other[i := Without(other[i], k)])) == multiset(suites)
  {
    var g := Without(other[i], k);
    MultisetWithout(other[i], k);
    FlattenUpdate(other, i, g);
    Cancel(multiset(Flatten(other[i := g])), multiset(g), multiset{x}, multiset(suites));
  }

  lemma SwappedWithin(other: seq<seq<string>>, i: nat, g: seq<string>, bound: nat, time: string -> nat)
    requires i < |other| && Sum(g, time) <= bound && forall h <- other :: Sum(h, time) <= bound
    ensures forall h <- other[i := g] :: Sum(h, time) <= bound
  {
    forall h <- other[i := g] ensures h == g || h in other {
    }
  }

  lemma Cancel<T>(r: multiset<T>, g: multiset<T>, x: multiset<T>, s: multiset<T>)
    requires r + (g + x) == (s + x) + g
    ensures r == s
  {
    assert forall e :: r[e] + (g[e] + x[e]) == (r + (g + x))[e] == (s[e] + x[e]) + g[e];
  }

  // A suite weighs two when it cannot share a machine with one of `short` seconds
  // within `bound`.
  function Weight(short: nat, bound: nat, time: string -> nat): string -> nat {
    suite => if time(suite) + short > bound then 2 else 1
  }

  lemma {:induction false} SumAtLeast(g: seq<string>, short: nat, time: string -> nat)
    requires forall x <- g :: time(x) >= short
    ensures Sum(g, time) >= |g| * short
  {
    if g != [] {
      SumAtLeast(g[1..], short, time);
      OneMoreTimes(|g[1..]|, short);
    }
  }

  // When every suite takes more than a third of the bound, a machine within the bound
  // holds weight at most two.
  lemma LightGroup(g: seq<string>, short: nat, bound: nat, time: string -> nat)
    requires forall x <- g :: time(x) >= short
    requires 3 * short > bound && Sum(g, time) <= bound
    ensures Sum(g, Weight(short, bound, time)) <= 2
  {
    var w := Weight(short, bound, time);
    SumAtLeast(g, short, time);
    if |g| >= 3 {
      MulMono(short, 3, |g|);
    }
    if |g| == 1 {
      assert g == [g[0]] && g[1..] == [];
    } else if |g| == 2 {
      assert g == [g[0]] + [g[1]] && [g[0]][1..] == [];
      SumLast([g[0]], g[1], time);
      SumLast([g[0]], g[1], w);
      assert g[0] in g && g[1] in g;
    }
  }

  // A machine that `short` more seconds would push over the bound holds weight at
  // least two.
  lemma HeavyGroup(g: seq<string>, short: nat, bound: nat, time: string -> nat)
    requires short <= bound && Sum(g, time) + short > bound
    ensures Sum(g, Weight(short, bound, time)) >= 2
  {
    var w := Weight(short, bound, time);
    assert g != [];
    if |g| == 1 {
      assert g[1..] == [];
    } else {
      assert Sum(g, w) == w(g[0]) + (w(g[1..][0]) + Sum(g[1..][1..], w));
    }
  }

  // With suites all above a third of the bound, the last one still fits on the least
  // loaded machine.
  lemma LongSuitesFit(front: seq<string>, x: string, p: Packing, other: seq<seq<string>>, m: nat, bound: nat, time: string -> nat)
    requires m > 0 && Consistent(p, time) && |p.bins| == m && multiset(Flatten(p.bins)) == multiset(front)
    requires Fits(other, front + [x], m, bound, time)
    requires forall y <- front :: time(y) >= time(x)
    requires 3 * time(x) > bound
    ensures p.load[LeastLoaded(p.load)] + time(x) <= bound
  {
    var short := time(x);
    var w := Weight(short, bound, time);
    var least := p.load[LeastLoaded(p.load)];
    if least + short > bound {
      var _ := FitsWithout(other, front, x, m, bound, time);
      forall g <- other ensures Sum(g, w) <= 2 {
        forall y <- g ensures time(y) >= short {
          MemberOf(other, g, y, front + [x]);
        }
        LightGroup(g, short, bound, time);
      }
      TotalAtMost(other, w, 2);
      forall g <- p.bins ensures Sum(g, w) >= 2 {
        var i :| 0 <= i < m && p.bins[i] == g;
        assert p.load[i] >= least;
        HeavyGroup(g, short, bound, time);
      }
      TotalAtLeast(p.bins, w, 2);
      TotalIsSum(other, w);
      TotalIsSum(p.bins, w);
      SumOfMultiset(Flatten(other), front + [x], w);
      SumOfMultiset(Flatten(p.bins), front, w);
      SumLast(front, x, w);
    }
  }

  lemma MemberOf(other: seq<seq<string>>, g: seq<string>, y: string, all: seq<string>)
    requires g in other && y in g && multiset(Flatten(other)) == multiset(all)
    ensures y in all
  {
    var i :| 0 <= i < |other| && other[i] == g;
    InFlatten(other, i, y);
    assert y in multiset(Flatten(other));
  }

  // With a suite at most a third of the bound, the average load is enough.
  lemma ShortSuitesFit(front: seq<string>, x: string, p: Packing, other: seq<seq<string>>, m: nat, bound: nat, time: string -> nat)
    requires m > 0 && Consistent(p, time) && |p.bins| == m && multiset(Flatten(p.bins)) == multiset(front)
    requires Fits(other, front + [x], m, bound, time)
    ensures m * p.load[LeastLoaded(p.load)] + time(x) <= m * bound
  {
    var least := p.load[LeastLoaded(p.load)];
    forall g <- p.bins ensures Sum(g, time) >= least {
      var i :| 0 <= i < m && p.bins[i] == g;
      assert p.load[i] >= least;
    }
    TotalAtLeast(p.bins, time, least);
    TotalAtMost(other, time, bound);
    TotalIsSum(p.bins, time);
    TotalIsSum(other, time);
    SumOfMultiset(Flatten(p.bins), front, time);
    SumOfMultiset(Flatten(other), front + [x], time);
    SumLast(front, x, time);
  }

  // A load within 4/3 - 1/(3m) of the bound.
  predicate Near(load: nat, m: nat, bound: nat)
    requires m > 0
  {
    3 * m * load <= (4 * m - 1) * bound
  }

  lemma Spread(m: nat, a: int, b: int)
    ensures m * (a + b) == m * a + m * b
  {
  }

  lemma ShortBound(m: nat, least: nat, x: nat, bound: nat)
    requires m > 0 && m * least + x <= m * bound && 3 * x <= bound
    ensures Near(least + x, m, bound)
  {
    var all := m * bound;
    Spread(m, least, x);
    MulMono(m - 1, 3 * x, bound);
    assert m * x == (m - 1) * x + x;
    assert (m - 1) * (3 * x) == 3 * ((m - 1) * x);
    assert (m - 1) * bound == all - bound;
    assert 3 * m * (least + x) == 3 * (m * (least + x));
    assert (4 * m - 1) * bound == 4 * all - bound;
  }

  lemma LongBound(m: nat, total: nat, bound: nat)
    requires m > 0 && total <= bound
    ensures Near(total, m, bound)
  {
    var all := m * bound;
    MulMono(m, total, bound);
    MulMono(bound, 1, m);
    assert 3 * m * total == 3 * (m * total);
    assert (4 * m - 1) * bound == 4 * all - bound;
  }

  ghost predicate Falling(suites: seq<string>, time: string -> nat) {
    forall i, j :: 0 <= i < j < |suites| ==> time(suites[i]) >= time(suites[j])
  }

  lemma FallingFront(front: seq<string>, x: string, time: string -> nat)
    requires Falling(front + [x], time)
    ensures Falling(front, time) && forall y <- front :: time(y) >= time(x)
  {
    var all := front + [x];
    assert forall i :: 0 <= i < |front| ==> all[i] == front[i] && time(all[i]) >= time(all[|front|]);
  }

  // The least loaded machine stays near the bound with the next suite on it.
  lemma NextFits(front: seq<string>, x: string, p: Packing, other: seq<seq<string>>, m: nat, bound: nat, time: string -> nat)
    requires m > 0 && Consistent(p, time) && |p.bins| == m && multiset(Flatten(p.bins)) == multiset(front)
    requires Fits(other, front + [x], m, bound, time)
    requires forall y <- front :: time(y) >= time(x)
    ensures Near(p.load[LeastLoaded(p.load)] + time(x), m, bound)
  {
    var least := p.load[LeastLoaded(p.load)];
    if 3 * time(x) > bound {
      LongSuitesFit(front, x, p, other, m, bound, time);
      LongBound(m, least + time(x), bound);
    } else {
      ShortSuitesFit(front, x, p, other, m, bound, time);
      ShortBound(m, least, time(x), bound);
    }
  }

  lemma OneMoreLoad(front: seq<string>, x: string, m: nat, bound: nat, time: string -> nat)
    requires m > 0 && forall l <- Pack(front, m, time).load :: Near(l, m, bound)
    requires var p := Pack(front, m, time); Near(p.load[LeastLoaded(p.load)] + time(x), m, bound)
    ensures forall l <- Pack(front + [x], m, time).load :: Near(l, m, bound)
  {
    var p := Pack(front, m, time);
    PackOneMore(front, x, m, time);
    forall l <- Pack(front + [x], m, time).load
      ensures l in p.load || l == p.load[LeastLoaded(p.load)] + time(x)
    {
    }
  }

  lemma NextWithinBound(front: seq<string>, x: string, other: seq<seq<string>>, m: nat, bound: nat, time: string -> nat)
    requires m > 0 && Fits(other, front + [x], m, bound, time) && Falling(front + [x], time)
    requires forall l <- Pack(front, m, time).load :: Near(l, m, bound)
    ensures forall l <- Pack(front + [x], m, time).load :: Near(l, m, bound)
  {
    FallingFront(front, x, time);
    PackHoldsAll(front, m, time);
    NextFits(front, x, Pack(front, m, time), other, m, bound, time);
    OneMoreLoad(front, x, m, bound, time);
  }

  // No load exceeds 4/3 - 1/(3m) of what any other split over the m machines needs.
  lemma {:induction false} PackWithinBound(suites: seq<string>, m: nat, other: seq<seq<string>>, bound: nat, time: string -> nat)
    requires m > 0 && Fits(other, suites, m, bound, time) && Falling(suites, time)
    ensures forall l <- Pack(suites, m, time).load :: Near(l, m, bound)
    decreases |suites|
  {
    if suites == [] {
      LongBound(m, 0, bound);
      assert forall l <- Pack(suites, m, time).load :: l == 0;
    } else {
      var front, x := suites[..|suites| - 1], suites[|suites| - 1];
      assert suites == front + [x];
      var rest := FitsWithout(other, front, x, m, bound, time);
      FallingFront(front, x, time);
      PackWithinBound(front, m, rest, bound, time);
      NextWithinBound(front, x, other, m, bound, time);
    }
  }

  // With a machine for every suite, a load is one suite's time, which every split bears.
  lemma LoneLoadNear(suites: seq<string>, ordered: seq<string>, n: nat, m: nat, i: nat, other: seq<seq<string>>, bound: nat, time: string -> nat)
    requires n >= 1 && m > 0 && Fits(other, suites, n, bound, time) && Positive(time)
    requires multiset(ordered) == multiset(suites) && |ordered| <= m && i < m && Pack(ordered, m, time).bins[i] != []
    ensures Near(Pack(ordered, m, time).load[i], n, bound)
  {
    var p := Pack(ordered, m, time);
    OneEach(ordered, m, i, time);
    var suite := p.bins[i][0];
    PackHoldsAll(ordered, m, time);
    InFlatten(p.bins, i, suite);
    assert suite in multiset(Flatten(p.bins));
    SuiteWithinBound(other, suites, n, bound, suite, time);
    LongBound(n, time(suite), bound);
  }

  lemma LoadsNear(suites: seq<string>, n: nat, i: nat, other: seq<seq<string>>, bound: nat, time: string -> nat)
    requires n >= 1 && Fits(other, suites, n, bound, time) && Positive(time)
    requires i < Machines(suites, n) && Packed(suites, n, time).bins[i] != []
    ensures Near(Packed(suites, n, time).load[i], n, bound)
  {
    var ordered := ByTime(suites, time);
    SortKeeps(suites, LongerFirst(time));
    assert TotalPreorder(LongerFirst(time));
    if n <= |suites| {
      PackWithinBound(ordered, n, other, bound, time);
      assert Packed(suites, n, time).load[i] in Packed(suites, n, time).load;
    } else {
      LoneLoadNear(suites, ordered, n, Machines(suites, n), i, other, bound, time);
    }
  }

  // The split `groups_for` makes, against every other split of the same suites into
  // the n groups that were asked for.
  lemma {:induction false} GroupsWithinBound(suites: seq<string>, n: nat, other: seq<seq<string>>, bound: nat, time: string -> nat)
    requires n >= 1 && Fits(other, suites, n, bound, time) && Positive(time)
    ensures forall g <- Groups(suites, n, time) :: Near(Sum(g, time), n, bound)
  {
    GroupsAreBins(suites, n, time);
    var groups, p := Groups(suites, n, time), Packed(suites, n, time);
    forall i | 0 <= i < |groups|
      ensures Near(Sum(groups[i], time), n, bound)
    {
      LastOfGroup(groups[i], p.bins[i], p.load[i], time);
      LoadsNear(suites, n, i, other, bound, time);
    }
  }

  lemma SuiteWithinBound(other: seq<seq<string>>, suites: seq<string>, n: nat, bound: nat, suite: string, time: string -> nat)
    requires Fits(other, suites, n, bound, time) && suite in multiset(suites)
    ensures time(suite) <= bound
  {
    assert suite in multiset(Flatten(other));
    InSomeList(other, suite);
    var i :| 0 <= i < |other| && suite in other[i];
    var k :| 0 <= k < |other[i]| && other[i][k] == suite;
    SumWithout(other[i], k, time);
    assert other[i] in other;
  }

  // With no more suites than machines each is alone.
  lemma {:induction false} OneEach(suites: seq<string>, m: nat, i: nat, time: string -> nat)
    requires m > 0 && i < m && |suites| <= m && Positive(time)
    ensures |Pack(suites, m, time).bins[i]| <= 1
    ensures |Pack(suites, m, time).bins[i]| == 1 ==> Pack(suites, m, time).load[i] == time(Pack(suites, m, time).bins[i][0])
  {
    if suites != [] {
      var front := suites[..|suites| - 1];
      OneEach(front, m, i, time);
      BinsFill(front, m, time);
      PlaceFills(Pack(front, m, time), |front|, suites[|suites| - 1], time);
    }
  }

  // ---- shards ----

  // What a machine runs: the desktop or not, and the K-th of N suite groups.
  datatype Shard = All | Desktop | Part(k: nat, n: nat) | Refused

  function ParseShard(text: string): Shard {
    if text == "" || text == "all" then All
    else if text == "desktop" then Desktop
    else if "suites:" <= text then ParsePart(text[7..])
    else Refused
  }

  function ParsePart(rest: string): Shard {
    var i := LeadingDigits(rest);
    if i == 0 || i == |rest| || rest[i] != '/' then Refused
    else
      var tail := rest[i + 1..];
      if LeadingDigits(tail) == 0 || LeadingDigits(tail) < |tail| then Refused
      else
        var k, n := DecimalValue(rest[..i]), DecimalValue(tail);
        if 1 <= k <= n then Part(k, n) else Refused
  }

  predicate IsNumeral(text: string) {
    text != [] && forall i :: 0 <= i < |text| ==> IsDecimal(text[i])
  }

  // Two numerals around a slash, in any spelling of the numbers, leading zeros included.
  ghost predicate SpellsPart(rest: string, k: nat, n: nat) {
    exists a: string, b: string :: rest == a + ("/" + b) && SpellsBoth(a, b, k, n)
  }

  ghost predicate SpellsBoth(a: string, b: string, k: nat, n: nat) {
    IsNumeral(a) && IsNumeral(b) && DecimalValue(a) == k && DecimalValue(b) == n
  }

  lemma ParsePartReads(a: string, b: string, k: nat, n: nat)
    requires SpellsBoth(a, b, k, n)
    ensures ParsePart(a + ("/" + b)) == if 1 <= k <= n then Part(k, n) else Refused
  {
    var rest := a + ("/" + b);
    LeadingDigitsOf(a, "/" + b);
    assert rest[..|a|] == a;
    assert rest[|a| + 1..] == b;
    assert b + "" == b;
    LeadingDigitsOf(b, "");
  }

  lemma PartIsSpelt(rest: string)
    ensures var r := ParsePart(rest);
      (r.Part? && SpellsPart(rest, r.k, r.n) && 1 <= r.k <= r.n) || r.Refused?
  {
    var i := LeadingDigits(rest);
    if ParsePart(rest).Part? {
      var a, b := rest[..i], rest[i + 1..];
      assert rest == a + ("/" + b);
      assert SpellsBoth(a, b, DecimalValue(a), DecimalValue(b));
    }
  }

  // Which texts name a part at all.
  ghost predicate Spells(text: string, k: nat, n: nat) {
    "suites:" <= text && SpellsPart(text[7..], k, n)
  }

  // "suites:K/N" names the K-th of N groups exactly when both are numerals, however
  // written, and 1 <= K <= N; what is neither that nor one of the fixed names is refused.
  lemma ParseShardReads(text: string)
    ensures ParseShard(text) == All <==> text == "" || text == "all"
    ensures ParseShard(text) == Desktop <==> text == "desktop"
    ensures forall k, n :: ParseShard(text) == Part(k, n) <==> Spells(text, k, n) && 1 <= k <= n
  {
    assert "suites:"[0] == 's' && "all"[0] == 'a' && "desktop"[0] == 'd';
    if "suites:" <= text {
      assert text[0] == 's';
      PartIsSpelt(text[7..]);
      forall k, n | SpellsPart(text[7..], k, n)
        ensures ParsePart(text[7..]) == if 1 <= k <= n then Part(k, n) else Refused
      {
        var a: string, b: string :| text[7..] == a + ("/" + b) && SpellsBoth(a, b, k, n);
        ParsePartReads(a, b, k, n);
      }
    }
  }

  function HeavierFirst(time: string -> nat): (seq<string>, seq<string>) -> bool {
    (a, b) => Sum(a, time) > Sum(b, time) || (Sum(a, time) == Sum(b, time) && NamesLe(a, b))
  }

  // The groups in the order every machine counts them, heaviest first.
  function Ranked(suites: seq<string>, n: nat, time: string -> nat): seq<seq<string>> {
    Sort(Groups(suites, n, time), HeavierFirst(time))
  }

  lemma WeightsAreOrdered(time: string -> nat)
    ensures TotalPreorder(HeavierFirst(time))
  {
    NamesAreOrdered();
    var le := HeavierFirst(time);
    forall a, b ensures le(a, b) || le(b, a) {
      assert NamesLe(a, b) || NamesLe(b, a);
    }
    forall a, b, c | le(a, b) && le(b, c) ensures le(a, c) {
      assert NamesLe(a, b) && NamesLe(b, c) ==> NamesLe(a, c);
    }
  }

  // Every machine counts the same groups, a heavier one before a lighter, two of one
  // weight by their names.
  lemma RankedHeaviestFirst(suites: seq<string>, n: nat, time: string -> nat)
    ensures multiset(Ranked(suites, n, time)) == multiset(Groups(suites, n, time))
    ensures SortedBy(Ranked(suites, n, time), HeavierFirst(time))
    ensures var ranked := Ranked(suites, n, time);
      forall i, j :: 0 <= i < j < |ranked| ==>
        Sum(ranked[i], time) > Sum(ranked[j], time) || (Sum(ranked[i], time) == Sum(ranked[j], time) && NamesLe(ranked[i], ranked[j]))
  {
    WeightsAreOrdered(time);
    SortKeeps(Groups(suites, n, time), HeavierFirst(time));
  }

  function Pick(groups: seq<seq<string>>, k: nat): seq<seq<string>>
    requires k >= 1
  {
    if k <= |groups| then [groups[k - 1]] else []
  }

  // `shard_groups` for "suites:k/n", worked out by one machine on its own.
  method ShardGroups(suites: seq<string>, k: nat, n: nat, time: string -> nat) returns (mine: seq<seq<string>>)
    requires n == 0 || 1 <= k <= n
    ensures mine == ShardOf(suites, k, n, time)
  {
    if n == 0 {
      return [];
    }
    var groups := GroupsFor(suites, n, time);
    groups := Sort(groups, HeavierFirst(time));
    if k <= |groups| {
      return [groups[k - 1]];
    }
    return [];
  }

  function ShardOf(suites: seq<string>, k: nat, n: nat, time: string -> nat): seq<seq<string>>
    requires n == 0 || 1 <= k <= n
  {
    if n == 0 then [] else Pick(Ranked(suites, n, time), k)
  }

  // What the first k of n machines run together.
  function FirstShards(suites: seq<string>, k: nat, n: nat, time: string -> nat): seq<seq<string>>
    requires k <= n
  {
    if k == 0 then [] else FirstShards(suites, k - 1, n, time) + ShardOf(suites, k, n, time)
  }

  lemma {:induction false} FirstShardsAre(suites: seq<string>, k: nat, n: nat, groups: seq<seq<string>>, time: string -> nat)
    requires k <= n && n >= 1 && groups == Ranked(suites, n, time)
    ensures FirstShards(suites, k, n, time) == if k <= |groups| then groups[..k] else groups
  {
    if k > 0 {
      FirstShardsAre(suites, k - 1, n, groups, time);
      PickNext(groups, k);
    }
  }

  lemma PickNext(groups: seq<seq<string>>, k: nat)
    requires k >= 1
    ensures (if k - 1 <= |groups| then groups[..k - 1] else groups) + Pick(groups, k)
         == if k <= |groups| then groups[..k] else groups
  {
  }

  // For any selection and any n, the n machines, each sorting for itself, cover every
  // selected suite exactly as often as it was selected.
  lemma ShardsCoverOnce(suites: seq<string>, n: nat, time: string -> nat)
    requires n >= 1 && Positive(time)
    ensures multiset(Flatten(FirstShards(suites, n, n, time))) == multiset(suites)
  {
    var groups, ranked := Groups(suites, n, time), Ranked(suites, n, time);
    GroupsAreBins(suites, n, time);
    SortKeeps(groups, HeavierFirst(time));
    FirstShardsAre(suites, n, n, ranked, time);
    assert ranked[..|ranked|] == ranked;
    FlattenOfSameLists(ranked, groups);
    GroupsHoldAll(suites, n, time);
  }
}
