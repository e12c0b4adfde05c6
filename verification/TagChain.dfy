// scripts/publish-releases.py `reserve` with the tag readers of scripts/version.py:
// runs with stale views of the tags claim versions by pushing them to one remote.
// The history is linear: commit i is followed by commit i + 1.
module TagChain {
  import opened Options
  import opened Versions

  // For every commit, oldest first, whether its message asks for a minor step.
  type History = seq<bool>

  // Which commit each version tag is on.
  type Tags = map<Version, nat>

  predicate SubTags(view: Tags, tags: Tags) {
    forall v <- view :: v in tags && tags[v] == view[v]
  }

  // ---- reading the history ----

  function HistoryOf(messages: seq<string>): (h: History)
    ensures |h| == |messages|
  {
    seq(|messages|, i requires 0 <= i < |messages| => AsksForMinor(messages[i]))
  }

  // The messages after `tag` up to `commit`, newest first, blank ones left out.
  function MessagesBy(messages: seq<string>, tag: nat, commit: nat, blank: string -> bool): seq<string>
    requires commit < |messages|
  {
    if commit <= tag then []
    else (if blank(messages[commit]) then [] else [messages[commit]]) + MessagesBy(messages, tag, commit - 1, blank)
  }

  function MessagesSince(messages: seq<string>, tag: nat, commit: nat): seq<string>
    requires commit < |messages|
  {
    MessagesBy(messages, tag, commit, (m: string) => Strip(m) == "")
  }

  predicate HasFeature(h: History, tag: nat, commit: nat)
    requires commit < |h|
  {
    exists i :: tag < i <= commit && h[i]
  }

  function KindSince(h: History, tag: nat, commit: nat): (kind: Kind)
    requires commit < |h|
  {
    if HasFeature(h, tag, commit) then MinorStep else PatchStep
  }

  lemma {:induction false} MessagesInRange(messages: seq<string>, tag: nat, commit: nat, blank: string -> bool, m: string)
    requires commit < |messages|
    ensures m in MessagesBy(messages, tag, commit, blank) <==> !blank(m) && exists i :: tag < i <= commit && messages[i] == m
  {
    if commit > tag {
      MessagesInRange(messages, tag, commit - 1, blank, m);
      var last := messages[commit];
      var range, rest := MessagesBy(messages, tag, commit, blank), MessagesBy(messages, tag, commit - 1, blank);
      assert range == if blank(last) then rest else [last] + rest;
      assert m in range <==> (m == last && !blank(last)) || m in rest;
      if m == last {
        assert tag < commit <= commit && messages[commit] == m;
      }
    }
  }

  lemma RangeKind(messages: seq<string>, tag: nat, commit: nat, blank: string -> bool, asks: string -> bool)
    requires commit < |messages| && forall m :: blank(m) ==> !asks(m)
    ensures KindBy(MessagesBy(messages, tag, commit, blank), asks)
         == if exists i :: tag < i <= commit && asks(messages[i]) then MinorStep else PatchStep
  {
    var range := MessagesBy(messages, tag, commit, blank);
    KindByAny(range, asks);
    forall m
      ensures m in range <==> !blank(m) && exists i :: tag < i <= commit && messages[i] == m
    {
      MessagesInRange(messages, tag, commit, blank, m);
    }
  }

  // kind_of over messages_since is decided by the set of commits in the range, so
  // it only grows as the range does.
  lemma KindSinceReadsMessages(messages: seq<string>, tag: nat, commit: nat)
    requires commit < |messages|
    ensures KindOf(MessagesSince(messages, tag, commit)) == KindSince(HistoryOf(messages), tag, commit)
  {
    var blank, asks := (m: string) => Strip(m) == "", (m: string) => AsksForMinor(m);
    forall m
      ensures blank(m) ==> !asks(m)
    {
    }
    RangeKind(messages, tag, commit, blank, asks);
    assert forall i :: 0 <= i < |messages| ==> HistoryOf(messages)[i] == asks(messages[i]);
  }

  // The nearest tagged commit at or before c, or -1.
  function Nearest(tags: Tags, c: int): (r: int)
    ensures -1 <= r && (c >= -1 ==> r <= c)
    ensures r >= 0 ==> r in tags.Values
    ensures forall d :: r < d <= c && d >= 0 ==> d !in tags.Values
    decreases c + 1
  {
    if c < 0 then -1 else if c in tags.Values then c else Nearest(tags, c - 1)
  }

  predicate OneTagEach(tags: Tags) {
    forall v <- tags, w <- tags :: tags[v] == tags[w] ==> v == w
  }

  function VersionAt(tags: Tags, c: nat): (v: Version)
    requires OneTagEach(tags) && c in tags.Values
    ensures v in tags && tags[v] == c
  {
    var v :| v in tags && tags[v] == c;
    v
  }

  // The version a commit is, or would be released as, in a view of the tags; none
  // when no tag is reachable.
  function ReleaseVersion(h: History, view: Tags, commit: nat): Option<Version>
    requires commit < |h| && OneTagEach(view)
  {
    if commit in view.Values then Some(VersionAt(view, commit))
    else
      var last := Nearest(view, commit);
      if last < 0 then None
      else Some(Step(h, view, last, commit))
  }

  // The version counted from the tag on `last` to `commit`.
  function Step(h: History, view: Tags, last: nat, commit: nat): Version
    requires commit < |h| && OneTagEach(view) && last in view.Values
  {
    Next(VersionAt(view, last), KindSince(h, last, commit))
  }

  // ---- the invariant of the tags ----

  // Every tagged commit but the first is the step from the tagged commit before it.
  ghost predicate Chain(h: History, tags: Tags) {
    && OneTagEach(tags)
    && (forall v <- tags :: tags[v] < |h|)
    && forall b: nat :: Follows(h, tags, b)
  }

  lemma TaggedInHistory(h: History, tags: Tags, b: nat)
    requires Chain(h, tags) && b in tags.Values
    ensures b < |h|
  {
    assert tags[VersionAt(tags, b)] < |h|;
  }

  lemma SubTagsKeep(h: History, view: Tags, tags: Tags)
    requires Chain(h, tags) && SubTags(view, tags)
    ensures OneTagEach(view)
    ensures forall c: nat :: c in view.Values ==> c in tags.Values && VersionAt(view, c) == VersionAt(tags, c)
  {
    forall c: nat | c in view.Values ensures OneTagEach(view) && c in tags.Values && VersionAt(view, c) == VersionAt(tags, c) {
      var v := VersionAt(view, c);
      assert v in tags && tags[v] == c;
    }
  }

  // Later commits carry strictly later versions.
  lemma {:induction false} VersionsAscend(h: History, tags: Tags, a: nat, b: nat)
    requires Chain(h, tags) && a in tags.Values && b in tags.Values && a < b
    ensures Precedes(VersionAt(tags, a), VersionAt(tags, b))
    decreases b
  {
    assert Follows(h, tags, b);
    var p := Nearest(tags, b - 1);
    assert p >= a;
    if p > a {
      VersionsAscend(h, tags, a, p);
    }
  }

  // Stepping past a patch release to a feature lands where the feature alone would.
  lemma StepAbsorbs(h: History, tags: Tags, d: nat, e: nat, c: nat)
    requires OneTagEach(tags) && d in tags.Values && e in tags.Values && d < e < c < |h|
    requires VersionAt(tags, e) == Step(h, tags, d, e)
    ensures VersionAt(tags, e) == Step(h, tags, d, c) || Step(h, tags, e, c) == Step(h, tags, d, c)
  {
    if !HasFeature(h, d, e) && HasFeature(h, d, c) {
      var i :| d < i <= c && h[i];
      assert i > e;
    }
  }

  // Counting from an older tag a gives a version that is either taken by a tag
  // between a and d, or the one counting from d gives.
  lemma {:induction false} CountFromOlder(h: History, tags: Tags, a: nat, d: nat, c: nat)
    requires Chain(h, tags) && a in tags.Values && d in tags.Values && a <= d < c < |h|
    ensures (exists t: nat :: a < t <= d && t in tags.Values && VersionAt(tags, t) == Step(h, tags, a, c))
         || Step(h, tags, d, c) == Step(h, tags, a, c)
    decreases d
  {
    if a < d {
      var p := Nearest(tags, d - 1);
      assert p >= a;
      CountFromOlder(h, tags, a, p, c);
      if Step(h, tags, p, c) == Step(h, tags, a, c) {
        assert Follows(h, tags, d);
        StepAbsorbs(h, tags, p, d, c);
      }
    }
  }

  // What a run counts from a stale view: a version already on a tag after the one
  // it started from and at or before its own commit, or exactly the complete view's
  // answer.
  lemma {:induction false} StaleCount(h: History, view: Tags, tags: Tags, c: nat)
    requires Chain(h, tags) && SubTags(view, tags) && c < |h|
    requires OneTagEach(view) && ReleaseVersion(h, view, c).Some?
    ensures OneTagEach(view) && Nearest(view, c) >= 0 && Nearest(tags, c) >= 0
    ensures var w := ReleaseVersion(h, view, c).value;
      || (w in tags && Nearest(view, c) < tags[w] < c)
      || ReleaseVersion(h, tags, c) == Some(w)
  {
    SubTagsKeep(h, view, tags);
    if c in view.Values {
      assert c in tags.Values;
    } else {
      var a := Nearest(view, c);
      assert a in tags.Values && Step(h, view, a, c) == Step(h, tags, a, c);
      var d := if c in tags.Values then Nearest(tags, c - 1) else Nearest(tags, c);
      assert a <= d < c;
      assert Follows(h, tags, c);
      CountFromOlder(h, tags, a, d, c);
    }
  }

  // With the complete view, a version that is taken is on a later commit.
  lemma FreshCountIsAhead(h: History, tags: Tags, c: nat)
    requires Chain(h, tags) && c < |h| && ReleaseVersion(h, tags, c).Some?
    ensures var w := ReleaseVersion(h, tags, c).value; w in tags ==> tags[w] >= c
  {
    var w := ReleaseVersion(h, tags, c).value;
    if w in tags && tags[w] < c && c !in tags.Values {
      var a, t := Nearest(tags, c), tags[w];
      assert t in tags.Values;
      assert t <= a && VersionAt(tags, t) == w;
      assert Precedes(VersionAt(tags, a), w);
      if t < a {
        VersionsAscend(h, tags, t, a);
      }
    }
  }

  ghost predicate Follows(h: History, tags: Tags, b: nat)
    requires OneTagEach(tags)
  {
    b in tags.Values && Nearest(tags, b - 1) >= 0 ==>
      b < |h| && VersionAt(tags, b) == Step(h, tags, Nearest(tags, b - 1), b)
  }

  // Adding the complete view's answer keeps the chain, wherever the commit lies:
  // before, between or after the tagged ones.
  lemma InsertKeepsChain(h: History, tags: Tags, c: nat)
    requires Chain(h, tags) && c < |h| && ReleaseVersion(h, tags, c).Some?
    requires ReleaseVersion(h, tags, c).value !in tags
    ensures Chain(h, tags[ReleaseVersion(h, tags, c).value := c])
  {
    var w := ReleaseVersion(h, tags, c).value;
    var more := tags[w := c];
    assert c !in tags.Values;
    TagsAfterInsert(tags, w, c);
    forall b: nat ensures Follows(h, more, b) {
      if b in more.Values && Nearest(more, b - 1) >= 0 {
        if b == c {
          NewTagFollows(h, tags, c);
        } else if Nearest(more, b - 1) == c {
          TaggedInHistory(h, tags, b);
          InsertBefore(h, tags, c, b);
        } else {
          OldTagFollows(h, tags, w, c, b);
        }
      }
    }
    assert forall v <- more :: more[v] < |h|;
  }

  lemma NewTagFollows(h: History, tags: Tags, c: nat)
    requires Chain(h, tags) && c < |h| && c !in tags.Values && ReleaseVersion(h, tags, c).Some?
    requires ReleaseVersion(h, tags, c).value !in tags
    ensures OneTagEach(tags[ReleaseVersion(h, tags, c).value := c])
    ensures Follows(h, tags[ReleaseVersion(h, tags, c).value := c], c)
  {
    var w := ReleaseVersion(h, tags, c).value;
    TagsAfterInsert(tags, w, c);
    NearestUnique(tags[w := c], c - 1, Nearest(tags, c));
  }

  lemma OldTagFollows(h: History, tags: Tags, w: Version, c: nat, b: nat)
    requires Chain(h, tags) && w !in tags && c !in tags.Values && b != c
    requires OneTagEach(tags[w := c]) && b in tags.Values
    requires Nearest(tags[w := c], b - 1) >= 0 && Nearest(tags[w := c], b - 1) != c
    ensures Follows(h, tags[w := c], b)
  {
    TagsAfterInsert(tags, w, c);
    TaggedInHistory(h, tags, b);
    assert Follows(h, tags, b);
    NearestUnique(tags, b - 1, Nearest(tags[w := c], b - 1));
  }

  lemma TagsAfterInsert(tags: Tags, w: Version, c: nat)
    requires OneTagEach(tags) && w !in tags && c !in tags.Values
    ensures var more := tags[w := c];
      && OneTagEach(more) && more.Values == tags.Values + {c}
      && VersionAt(more, c) == w
      && forall b: nat :: b in tags.Values ==> VersionAt(more, b) == VersionAt(tags, b)
  {
    var more := tags[w := c];
    assert w in more && more[w] == c;
    forall b: nat | b in tags.Values ensures b in more.Values && OneTagEach(more) && VersionAt(more, b) == VersionAt(tags, b) {
      var v := VersionAt(tags, b);
      assert v in more && more[v] == b;
    }
  }

  lemma NearestUnique(tags: Tags, c: int, p: int)
    requires 0 <= p <= c && p in tags.Values
    requires forall d :: p < d <= c ==> d !in tags.Values
    ensures Nearest(tags, c) == p
  {
  }

  // The tagged commit b after c still follows from its new neighbour c.
  lemma InsertBefore(h: History, tags: Tags, c: nat, b: nat)
    requires Chain(h, tags) && c < b < |h| && c !in tags.Values && b in tags.Values
    requires forall d :: c < d < b ==> d !in tags.Values
    requires ReleaseVersion(h, tags, c).Some? && ReleaseVersion(h, tags, c).value !in tags
    ensures var w := ReleaseVersion(h, tags, c).value;
      var more := tags[w := c];
      OneTagEach(more) && c in more.Values && b in more.Values && VersionAt(more, b) == Step(h, more, c, b)
  {
    var w := ReleaseVersion(h, tags, c).value;
    TagsAfterInsert(tags, w, c);
    var a := Nearest(tags, c);
    NearestUnique(tags, b - 1, a);
    assert Follows(h, tags, b) && VersionAt(tags, b) in tags;
    if HasFeature(h, a, b) {
      var i :| a < i <= b && h[i];
    }
  }
}
