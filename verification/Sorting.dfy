// Stable sorting as Python's `sorted` does it, and sums over lists.
module Sorting {

  ghost predicate TotalPreorder<T(!new)>(le: (T, T) -> bool) {
    && (forall a, b :: le(a, b) || le(b, a))
    && forall a, b, c :: le(a, b) && le(b, c) ==> le(a, c)
  }

  ghost predicate SortedBy<T>(s: seq<T>, le: (T, T) -> bool) {
    forall i, j :: 0 <= i < j < |s| ==> le(s[i], s[j])
  }

  // Put x after everything that may come before it.
  function Insert<T>(x: T, s: seq<T>, le: (T, T) -> bool): seq<T> {
    if s == [] || le(s[|s| - 1], x) then s + [x]
    else Insert(x, s[..|s| - 1], le) + [s[|s| - 1]]
  }

  function Sort<T>(s: seq<T>, le: (T, T) -> bool): seq<T> {
    if s == [] then [] else Insert(s[|s| - 1], Sort(s[..|s| - 1], le), le)
  }

  lemma {:induction false} InsertKeeps<T(!new)>(x: T, s: seq<T>, le: (T, T) -> bool)
    ensures multiset(Insert(x, s, le)) == multiset(s) + multiset{x}
    ensures TotalPreorder(le) && SortedBy(s, le) ==> SortedBy(Insert(x, s, le), le)
  {
    if !(s == [] || le(s[|s| - 1], x)) {
      var front, last := s[..|s| - 1], s[|s| - 1];
      assert s == front + [last];
      InsertKeeps(x, front, le);
      var r := Insert(x, front, le);
      if TotalPreorder(le) && SortedBy(s, le) {
        forall i | 0 <= i < |r| ensures le(r[i], last) {
          assert r[i] in multiset(r);
          assert r[i] in multiset(front) + multiset{x};
        }
      }
    }
  }

  lemma {:induction false} SortKeeps<T(!new)>(s: seq<T>, le: (T, T) -> bool)
    ensures multiset(Sort(s, le)) == multiset(s) && |Sort(s, le)| == |s|
    ensures TotalPreorder(le) ==> SortedBy(Sort(s, le), le)
  {
    if s != [] {
      var front, last := s[..|s| - 1], s[|s| - 1];
      assert s == front + [last];
      SortKeeps(front, le);
      InsertKeeps(last, Sort(front, le), le);
    }
    assert |multiset(Sort(s, le))| == |multiset(s)|;
  }

  // ---- lists by their first difference ----

  // Lists compare by their first difference, a list before what extends it.
  predicate LexLe<T(==)>(a: seq<T>, b: seq<T>, le: (T, T) -> bool) {
    if a == [] then true
    else if b == [] then false
    else if a[0] == b[0] then LexLe(a[1..], b[1..], le)
    else le(a[0], b[0])
  }

  ghost predicate TotalOrder<T(!new)>(le: (T, T) -> bool) {
    TotalPreorder(le) && forall x, y :: le(x, y) && le(y, x) ==> x == y
  }

  lemma {:induction false} LexTotal<T(!new)>(a: seq<T>, b: seq<T>, le: (T, T) -> bool)
    requires TotalOrder(le)
    ensures LexLe(a, b, le) || LexLe(b, a, le)
    ensures LexLe(a, b, le) && LexLe(b, a, le) ==> a == b
  {
    if a != [] && b != [] && a[0] == b[0] {
      LexTotal(a[1..], b[1..], le);
      assert a == [a[0]] + a[1..] && b == [b[0]] + b[1..];
    }
  }

  lemma {:induction false} LexTransitive<T(!new)>(a: seq<T>, b: seq<T>, c: seq<T>, le: (T, T) -> bool)
    requires TotalOrder(le) && LexLe(a, b, le) && LexLe(b, c, le)
    ensures LexLe(a, c, le)
  {
    if a != [] && a[0] == b[0] && b[0] == c[0] {
      LexTransitive(a[1..], b[1..], c[1..], le);
    }
  }

  lemma LexOrders<T(!new)>(le: (T, T) -> bool, lex: (seq<T>, seq<T>) -> bool)
    requires TotalOrder(le) && forall a, b :: lex(a, b) == LexLe(a, b, le)
    ensures TotalOrder(lex)
  {
    forall a, b
      ensures lex(a, b) || lex(b, a)
      ensures lex(a, b) && lex(b, a) ==> a == b
    {
      LexTotal(a, b, le);
    }
    forall a, b, c | lex(a, b) && lex(b, c)
      ensures lex(a, c)
    {
      LexTransitive(a, b, c, le);
    }
  }

  // ---- sums ----

  function Sum<T>(s: seq<T>, w: T -> nat): nat {
    if s == [] then 0 else w(s[0]) + Sum(s[1..], w)
  }

  lemma {:induction false} SumAppend<T>(a: seq<T>, b: seq<T>, w: T -> nat)
    ensures Sum(a + b, w) == Sum(a, w) + Sum(b, w)
  {
    if a == [] {
      assert a + b == b;
    } else {
      assert (a + b)[1..] == a[1..] + b;
      SumAppend(a[1..], b, w);
    }
  }

  lemma SumLast<T>(a: seq<T>, x: T, w: T -> nat)
    ensures Sum(a + [x], w) == Sum(a, w) + w(x)
  {
    SumAppend(a, [x], w);
    assert [x][1..] == [];
  }

  function Without<T>(s: seq<T>, i: nat): (r: seq<T>)
    requires i < |s|
  {
    s[..i] + s[i + 1..]
  }

  lemma MultisetWithout<T>(s: seq<T>, i: nat)
    requires i < |s|
    ensures multiset(Without(s, i)) == multiset(s) - multiset{s[i]}
    ensures multiset(s) == multiset(Without(s, i)) + multiset{s[i]}
  {
    assert s == s[..i] + [s[i]] + s[i + 1..];
  }

  lemma SumAround<T>(before: seq<T>, x: T, after: seq<T>, w: T -> nat)
    ensures Sum(before + [x] + after, w) == Sum(before + after, w) + w(x)
  {
    SumAppend(before + [x], after, w);
    SumLast(before, x, w);
    SumAppend(before, after, w);
  }

  lemma SumWithout<T>(s: seq<T>, i: nat, w: T -> nat)
    requires i < |s|
    ensures Sum(s, w) == Sum(Without(s, i), w) + w(s[i])
  {
    assert s == s[..i] + [s[i]] + s[i + 1..];
    SumAround(s[..i], s[i], s[i + 1..], w);
  }

  // The first element of one list, found in a list with the same elements.
  lemma Matching<T>(a: seq<T>, b: seq<T>) returns (i: nat)
    requires a != [] && multiset(a) == multiset(b)
    ensures i < |b| && b[i] == a[0] && multiset(a[1..]) == multiset(Without(b, i))
  {
    assert a[0] in multiset(b);
    i :| 0 <= i < |b| && b[i] == a[0];
    MultisetWithout(a, 0);
    assert Without(a, 0) == a[1..];
    MultisetWithout(b, i);
  }

  // A sum does not depend on the order.
  lemma {:induction false} SumOfMultiset<T>(a: seq<T>, b: seq<T>, w: T -> nat)
    requires multiset(a) == multiset(b)
    ensures Sum(a, w) == Sum(b, w)
    decreases |a|
  {
    if a == [] {
      assert |multiset(b)| == 0;
    } else {
      var i := Matching(a, b);
      SumOfMultiset(a[1..], Without(b, i), w);
      SumWithout(b, i, w);
    }
  }

  // ---- lists of lists ----

  function Flatten<T>(groups: seq<seq<T>>): seq<T> {
    if groups == [] then [] else groups[0] + Flatten(groups[1..])
  }

  // All the sums together.
  function Total<T>(groups: seq<seq<T>>, w: T -> nat): nat {
    if groups == [] then 0 else Sum(groups[0], w) + Total(groups[1..], w)
  }

  lemma {:induction false} TotalIsSum<T>(groups: seq<seq<T>>, w: T -> nat)
    ensures Total(groups, w) == Sum(Flatten(groups), w)
  {
    if groups != [] {
      TotalIsSum(groups[1..], w);
      SumAppend(groups[0], Flatten(groups[1..]), w);
    }
  }

  lemma SumOfThree<T>(f: multiset<T>, x: multiset<T>, a: multiset<T>, y: multiset<T>, b: multiset<T>)
    requires x + a == y + b
    ensures f + x + a == f + y + b
  {
    assert f + x + a == f + (x + a);
    assert f + y + b == f + (y + b);
  }

  // Replacing one list by one with some more (or fewer) elements.
  lemma {:induction false} FlattenUpdate<T>(groups: seq<seq<T>>, i: nat, g: seq<T>)
    requires i < |groups|
    ensures multiset(Flatten(groups[i := g])) + multiset(groups[i]) == multiset(Flatten(groups)) + multiset(g)
  {
    var more := groups[i := g];
    if i == 0 {
      assert more[1..] == groups[1..];
    } else {
      var rest := groups[1..];
      assert more[1..] == rest[i - 1 := g] && more[0] == groups[0];
      FlattenUpdate(rest, i - 1, g);
      assert multiset(Flatten(more)) == multiset(groups[0]) + multiset(Flatten(rest[i - 1 := g]));
      assert multiset(Flatten(groups)) == multiset(groups[0]) + multiset(Flatten(rest));
      SumOfThree(multiset(groups[0]), multiset(Flatten(rest[i - 1 := g])), multiset(groups[i]),
                 multiset(Flatten(rest)), multiset(g));
    }
  }

  lemma {:induction false} InSomeList<T>(groups: seq<seq<T>>, x: T)
    requires x in Flatten(groups)
    ensures exists i :: 0 <= i < |groups| && x in groups[i]
  {
    if x !in groups[0] {
      InSomeList(groups[1..], x);
      var i :| 0 <= i < |groups[1..]| && x in groups[1..][i];
      assert x in groups[i + 1];
    }
  }

  lemma {:induction false} InFlatten<T>(groups: seq<seq<T>>, i: nat, x: T)
    requires i < |groups| && x in groups[i]
    ensures x in Flatten(groups)
  {
    if i > 0 {
      InFlatten(groups[1..], i - 1, x);
    }
  }

  lemma OneMoreTimes(n: nat, x: nat)
    ensures (n + 1) * x == n * x + x
  {
  }

  lemma {:induction false} TotalAtLeast<T>(groups: seq<seq<T>>, w: T -> nat, low: nat)
    requires forall g <- groups :: Sum(g, w) >= low
    ensures Total(groups, w) >= |groups| * low
  {
    if groups != [] {
      TotalAtLeast(groups[1..], w, low);
      OneMoreTimes(|groups[1..]|, low);
    }
  }

  lemma {:induction false} TotalAtMost<T>(groups: seq<seq<T>>, w: T -> nat, high: nat)
    requires forall g <- groups :: Sum(g, w) <= high
    ensures Total(groups, w) <= |groups| * high
  {
    if groups != [] {
      TotalAtMost(groups[1..], w, high);
      OneMoreTimes(|groups[1..]|, high);
    }
  }

  lemma {:induction false} FlattenOfSameLists<T>(a: seq<seq<T>>, b: seq<seq<T>>)
    requires multiset(a) == multiset(b)
    ensures multiset(Flatten(a)) == multiset(Flatten(b))
    decreases |a|
  {
    if a == [] {
      assert |multiset(b)| == 0;
    } else {
      var i := Matching(a, b);
      FlattenOfSameLists(a[1..], Without(b, i));
      assert b == b[..i] + ([b[i]] + b[i + 1..]);
      FlattenJoin(b[..i], [b[i]] + b[i + 1..]);
      FlattenJoin([b[i]], b[i + 1..]);
      FlattenJoin(b[..i], b[i + 1..]);
      assert Flatten([b[i]]) == b[i];
    }
  }

  lemma {:induction false} FlattenJoin<T>(a: seq<seq<T>>, b: seq<seq<T>>)
    ensures Flatten(a + b) == Flatten(a) + Flatten(b)
  {
    if a == [] {
      assert a + b == b;
    } else {
      assert (a + b)[1..] == a[1..] + b;
      FlattenJoin(a[1..], b);
    }
  }
}
