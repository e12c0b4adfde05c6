// The reservation protocol: any number of runs of `reserve`, each with its own stale
// view of the tags, interleaved at their pushes and fetches.
module ReserveRuns {
  import opened Options
  import opened Versions
  import opened TagChain

  // `reserve` tries RESERVE_ATTEMPTS times; the theorems hold for every limit.
  const RESERVE_ATTEMPTS := 5

  // Rejected holds the version whose push just failed; the last three are how
  // `reserve` ends: it returns its tag, returns None, or exits with an error.
  datatype Phase =
    | Counting
    | Rejected(version: Version)
    | Tagged(version: Version)
    | Contained(version: Version)
    | Failed(why: Why)

  datatype Why = NoTagReachable | NotPushed | TooManyTries

  // `created` is history: whether a push of this run put a tag on the remote.
  datatype Run = Run(commit: nat, view: Tags, phase: Phase, attempts: nat, created: bool)

  datatype World = World(origin: Tags, runs: map<nat, Run>)

  // What becomes of one push: answered, applied with the answer lost, or never
  // reaching the remote.
  datatype Reply = Delivered | Lost | Unreached

  datatype Event =
    | Start(id: nat, commit: nat, view: Tags)
    | Push(id: nat, reply: Reply)
    | Fetch(id: nat, works: bool)

  // The remote takes a tag it does not have, or has on this very commit.
  predicate Accepts(origin: Tags, version: Version, commit: nat) {
    version in origin ==> origin[version] == commit
  }

  // `git push` of the version counted from the run's view.
  function AfterPush(h: History, origin: Tags, r: Run, reply: Reply): (Tags, Run)
    requires r.commit < |h| && OneTagEach(r.view)
  {
    match ReleaseVersion(h, r.view, r.commit)
    case None => (origin, r.(phase := Failed(NoTagReachable)))
    case Some(version) =>
      if !Accepts(origin, version, r.commit) || reply == Unreached then (origin, r.(phase := Rejected(version)))
      else
        var pushed := r.(created := r.created || version !in origin);
        if reply == Lost then (origin[version := r.commit], pushed.(phase := Rejected(version)))
        else (origin[version := r.commit],
              pushed.(phase := Tagged(version), view := r.view[version := r.commit]))
  }

  // The fetch after a rejected push, and what the tag found means for this run.
  function AfterFetch(origin: Tags, r: Run, works: bool, limit: nat): Run
    requires r.phase.Rejected?
  {
    var view := if works then r.view + origin else r.view;
    var version := r.phase.version;
    var seen := r.(view := view);
    if version !in view then seen.(phase := Failed(NotPushed))
    else if view[version] == r.commit then seen.(phase := Tagged(version))
    else if r.commit < view[version] then seen.(phase := Contained(version))
    else if r.attempts + 1 >= limit then seen.(phase := Failed(TooManyTries), attempts := r.attempts + 1)
    else seen.(phase := Counting, attempts := r.attempts + 1)
  }

  function Apply(h: History, limit: nat, w: World, e: Event): World {
    match e
    case Start(id, commit, view) =>
      if id in w.runs || commit >= |h| || !SubTags(view, w.origin) then w
      else w.(runs := w.runs[id := Run(commit, view, Counting, 0, false)])
    case Push(id, reply) =>
      if id !in w.runs || !w.runs[id].phase.Counting? || w.runs[id].commit >= |h| || !OneTagEach(w.runs[id].view) then w
      else
        var (origin, r) := AfterPush(h, w.origin, w.runs[id], reply);
        World(origin, w.runs[id := r])
    case Fetch(id, works) =>
      if id !in w.runs || !w.runs[id].phase.Rejected? then w
      else w.(runs := w.runs[id := AfterFetch(w.origin, w.runs[id], works, limit)])
  }

  function Play(h: History, limit: nat, w: World, events: seq<Event>): World
    decreases |events|
  {
    if events == [] then w else Play(h, limit, Apply(h, limit, w, events[0]), events[1..])
  }

  // ---- the invariant ----

  ghost predicate RunInv(h: History, base: nat, limit: nat, origin: Tags, r: Run) {
    && r.commit < |h|
    && OneTagEach(r.view) && SubTags(r.view, origin)
    && (r.created ==> LeftATag(origin, r))
    && (r.attempts > 0 ==> r.attempts <= Nearest(r.view, r.commit) - base)
    && match r.phase
       case Counting => true
       case Rejected(version) => ReleaseVersion(h, r.view, r.commit) == Some(version)
       case Tagged(version) => version in origin && origin[version] == r.commit
       case Contained(version) => version in origin && r.commit < origin[version]
       case Failed(why) => why == TooManyTries ==> limit <= r.attempts
  }

  // A run whose push has put a tag on the remote has returned it, is about to look for
  // it, or has failed to see it there.
  ghost predicate LeftATag(origin: Tags, r: Run) {
    match r.phase
    case Tagged(version) => true
    case Rejected(version) => version in origin && origin[version] == r.commit && version !in r.view
    case Failed(why) => why == NotPushed && r.commit in origin.Values
    case _ => false
  }

  // `base` is the commit of the one tag there was before any run.
  ghost predicate TagsInv(h: History, first: Version, base: nat, origin: Tags) {
    && Chain(h, origin)
    && first in origin && origin[first] == base
    && forall v <- origin :: base <= origin[v]
  }

  ghost predicate Inv(h: History, first: Version, base: nat, limit: nat, w: World) {
    && TagsInv(h, first, base, w.origin)
    && forall id <- w.runs :: RunInv(h, base, limit, w.origin, w.runs[id])
  }

  function Initial(first: Version, base: nat): World {
    World(map[first := base], map[])
  }

  lemma InitialInv(h: History, first: Version, base: nat, limit: nat)
    requires base < |h|
    ensures Inv(h, first, base, limit, Initial(first, base))
  {
    var origin := map[first := base];
    forall b: nat ensures Follows(h, origin, b) {
      if b in origin.Values {
        assert b == base;
      }
    }
  }

  // One landed push: the tags stay a chain that starts at the base, whatever view it
  // was counted from.
  lemma LandedPush(h: History, first: Version, base: nat, origin: Tags, view: Tags, c: nat)
    requires TagsInv(h, first, base, origin) && OneTagEach(view) && SubTags(view, origin) && c < |h|
    requires ReleaseVersion(h, view, c).Some? && Accepts(origin, ReleaseVersion(h, view, c).value, c)
    ensures var w := ReleaseVersion(h, view, c).value;
      TagsInv(h, first, base, origin[w := c]) && SubTags(origin, origin[w := c])
  {
    var w := ReleaseVersion(h, view, c).value;
    StaleCount(h, view, origin, c);
    if w !in origin {
      InsertKeepsChain(h, origin, c);
      assert VersionAt(origin, Nearest(origin, c)) in origin;
    } else {
      assert origin[w := c] == origin;
    }
  }

  // "Counting again": the tag that took the number is on an earlier commit, the
  // fetch has worked, and the run's nearest reachable tag has strictly advanced.
  lemma RecountAdvances(h: History, base: nat, limit: nat, origin: Tags, r: Run, works: bool)
    requires Chain(h, origin) && RunInv(h, base, limit, origin, r) && r.phase.Rejected?
    requires AfterFetch(origin, r, works, limit).attempts > r.attempts
    ensures works
    ensures Nearest(r.view, r.commit) < Nearest(AfterFetch(origin, r, works, limit).view, r.commit)
  {
    var version, a := r.phase.version, Nearest(r.view, r.commit);
    var s := AfterFetch(origin, r, works, limit);
    assert version in s.view && s.view[version] < r.commit;
    assert version in origin && origin[version] == s.view[version];
    StaleCount(h, r.view, origin, r.commit);
    SubTagsKeep(h, r.view, origin);
    if !(a < origin[version]) {
      FreshCountIsAhead(h, origin, r.commit);
    }
    assert origin[version] in s.view.Values;
  }

  lemma MergedViewInv(h: History, origin: Tags, view: Tags)
    requires Chain(h, origin) && SubTags(view, origin)
    ensures OneTagEach(view + origin) && SubTags(view + origin, origin)
    ensures forall c :: Nearest(view, c) <= Nearest(view + origin, c)
  {
    var both := view + origin;
    forall c ensures Nearest(view, c) <= Nearest(both, c) {
      var a := Nearest(view, c);
      if a >= 0 {
        var v :| v in view && view[v] == a;
        assert v in both && both[v] == a;
        assert a in both.Values && a <= c;
      }
    }
  }

  lemma NearestGrows(view: Tags, version: Version, commit: nat)
    requires OneTagEach(view) && OneTagEach(view[version := commit])
    requires version in view ==> view[version] == commit
    ensures Nearest(view, commit) <= Nearest(view[version := commit], commit)
  {
    var more := view[version := commit];
    assert more[version] == commit;
    assert commit in more.Values;
  }

  lemma {:induction false} PushKeepsRun(h: History, first: Version, base: nat, limit: nat, origin: Tags, r: Run, reply: Reply)
    requires TagsInv(h, first, base, origin) && RunInv(h, base, limit, origin, r) && r.phase.Counting?
    ensures var (more, s) := AfterPush(h, origin, r, reply);
      TagsInv(h, first, base, more) && SubTags(origin, more) && RunInv(h, base, limit, more, s)
  {
    if ReleaseVersion(h, r.view, r.commit).Some? {
      var version := ReleaseVersion(h, r.view, r.commit).value;
      if Accepts(origin, version, r.commit) && reply != Unreached {
        LandedPush(h, first, base, origin, r.view, r.commit);
        var (more, s) := AfterPush(h, origin, r, reply);
        SubTagsKeep(h, s.view, more);
        if reply == Delivered {
          NearestGrows(r.view, version, r.commit);
        }
      }
    }
  }

  lemma StartedAtBase(h: History, first: Version, base: nat, origin: Tags, view: Tags, c: nat)
    requires TagsInv(h, first, base, origin) && OneTagEach(view) && SubTags(view, origin) && c < |h|
    requires ReleaseVersion(h, view, c).Some?
    ensures base <= Nearest(view, c)
  {
    StaleCount(h, view, origin, c);
    assert VersionAt(view, Nearest(view, c)) in origin;
  }

  lemma FetchPhase(origin: Tags, r: Run, works: bool, limit: nat)
    requires r.phase.Rejected? && SubTags(r.view, origin)
    ensures var s := AfterFetch(origin, r, works, limit);
      && s.view == (if works then r.view + origin else r.view)
      && s.commit == r.commit && s.created == r.created
      && match s.phase
         case Tagged(version) => version in origin && origin[version] == r.commit
         case Contained(version) => version in origin && r.commit < origin[version]
         case Failed(why) => why == TooManyTries ==> limit <= s.attempts
         case Counting => true
         case Rejected(_) => false
  {
  }

  lemma FetchKeepsRun(h: History, first: Version, base: nat, limit: nat, origin: Tags, r: Run, works: bool)
    requires TagsInv(h, first, base, origin) && RunInv(h, base, limit, origin, r) && r.phase.Rejected?
    ensures RunInv(h, base, limit, origin, AfterFetch(origin, r, works, limit))
  {
    FetchPhase(origin, r, works, limit);
    MergedViewInv(h, origin, r.view);
    FetchKeepsAttempts(h, first, base, limit, origin, r, works);
    FetchLeavesATag(origin, r, works, limit);
  }

  lemma FetchKeepsAttempts(h: History, first: Version, base: nat, limit: nat, origin: Tags, r: Run, works: bool)
    requires TagsInv(h, first, base, origin) && RunInv(h, base, limit, origin, r) && r.phase.Rejected?
    ensures var s := AfterFetch(origin, r, works, limit);
      s.attempts > 0 ==> s.attempts <= Nearest(s.view, s.commit) - base
  {
    var s := AfterFetch(origin, r, works, limit);
    FetchAttempts(origin, r, works, limit);
    FetchNearest(h, origin, r, works, limit);
    if s.attempts > r.attempts {
      RecountFromBase(h, first, base, limit, origin, r, works);
    }
  }

  lemma FetchAttempts(origin: Tags, r: Run, works: bool, limit: nat)
    requires r.phase.Rejected?
    ensures var s := AfterFetch(origin, r, works, limit);
      s.commit == r.commit && (s.attempts == r.attempts || s.attempts == r.attempts + 1)
  {
  }

  lemma FetchNearest(h: History, origin: Tags, r: Run, works: bool, limit: nat)
    requires Chain(h, origin) && SubTags(r.view, origin) && r.phase.Rejected?
    ensures Nearest(r.view, r.commit) <= Nearest(AfterFetch(origin, r, works, limit).view, r.commit)
  {
    MergedViewInv(h, origin, r.view);
  }

  lemma RecountFromBase(h: History, first: Version, base: nat, limit: nat, origin: Tags, r: Run, works: bool)
    requires TagsInv(h, first, base, origin) && RunInv(h, base, limit, origin, r) && r.phase.Rejected?
    requires AfterFetch(origin, r, works, limit).attempts > r.attempts
    ensures base <= Nearest(r.view, r.commit) < Nearest(AfterFetch(origin, r, works, limit).view, r.commit)
  {
    RecountAdvances(h, base, limit, origin, r, works);
    StartedAtBase(h, first, base, origin, r.view, r.commit);
  }

  lemma FetchLeavesATag(origin: Tags, r: Run, works: bool, limit: nat)
    requires r.phase.Rejected? && SubTags(r.view, origin) && (r.created ==> LeftATag(origin, r))
    ensures r.created ==> LeftATag(origin, AfterFetch(origin, r, works, limit))
  {
  }

  lemma RunInvGrows(h: History, base: nat, limit: nat, origin: Tags, more: Tags, r: Run)
    requires RunInv(h, base, limit, origin, r) && SubTags(origin, more)
    ensures RunInv(h, base, limit, more, r)
  {
  }

  lemma OneRunChanges(h: History, first: Version, base: nat, limit: nat, w: World, origin: Tags, id: nat, r: Run)
    requires Inv(h, first, base, limit, w) && TagsInv(h, first, base, origin) && SubTags(w.origin, origin)
    requires RunInv(h, base, limit, origin, r)
    ensures Inv(h, first, base, limit, World(origin, w.runs[id := r]))
  {
    var runs := w.runs[id := r];
    forall k <- runs ensures RunInv(h, base, limit, origin, runs[k]) {
      if k != id {
        RunInvGrows(h, base, limit, w.origin, origin, w.runs[k]);
      }
    }
  }

  lemma {:induction false} ApplyKeepsInv(h: History, first: Version, base: nat, limit: nat, w: World, e: Event)
    requires Inv(h, first, base, limit, w)
    ensures Inv(h, first, base, limit, Apply(h, limit, w, e))
  {
    var x := Apply(h, limit, w, e);
    if x != w {
      match e
      case Start(id, commit, view) =>
        SubTagsKeep(h, view, w.origin);
        OneRunChanges(h, first, base, limit, w, w.origin, id, Run(commit, view, Counting, 0, false));
      case Push(id, reply) =>
        PushKeepsRun(h, first, base, limit, w.origin, w.runs[id], reply);
        var (origin, r) := AfterPush(h, w.origin, w.runs[id], reply);
        OneRunChanges(h, first, base, limit, w, origin, id, r);
      case Fetch(id, works) =>
        FetchKeepsRun(h, first, base, limit, w.origin, w.runs[id], works);
        OneRunChanges(h, first, base, limit, w, w.origin, id, AfterFetch(w.origin, w.runs[id], works, limit));
    }
  }

  lemma {:induction false} PlayKeepsInv(h: History, first: Version, base: nat, limit: nat, w: World, events: seq<Event>)
    requires Inv(h, first, base, limit, w)
    ensures Inv(h, first, base, limit, Play(h, limit, w, events))
    decreases |events|
  {
    if events != [] {
      ApplyKeepsInv(h, first, base, limit, w, events[0]);
      PlayKeepsInv(h, first, base, limit, Apply(h, limit, w, events[0]), events[1..]);
    }
  }

  // ---- the chain a sequential walk would give ----

  // The tags one run at a time leaves: the commits of `tagged` taken oldest first,
  // each with a complete view of the tags before it.
  function Walk(h: History, first: Version, base: nat, tagged: set<nat>, n: nat): (tags: Tags)
    requires n <= |h|
    ensures OneTagEach(tags)
  {
    if n == 0 then map[first := base]
    else
      var before := Walk(h, first, base, tagged, n - 1);
      if n - 1 !in tagged || n - 1 in before.Values then before
      else match ReleaseVersion(h, before, n - 1)
        case None => before
        case Some(version) =>
          if version in before then before
          else
            TagsAfterInsert(before, version, n - 1);
            before[version := n - 1]
  }

  function Upto(tags: Tags, n: nat): Tags {
    map v | v in tags && tags[v] < n :: tags[v]
  }

  lemma UptoReads(h: History, tags: Tags, n: nat, p: nat)
    requires Chain(h, tags) && p < n
    ensures OneTagEach(Upto(tags, n))
    ensures p in Upto(tags, n).Values <==> p in tags.Values
    ensures p in tags.Values ==> VersionAt(Upto(tags, n), p) == VersionAt(tags, p)
  {
    if p in tags.Values {
      var v := VersionAt(tags, p);
      assert v in Upto(tags, n) && Upto(tags, n)[v] == p;
    }
  }

  lemma OnlyTheFirst(h: History, first: Version, base: nat, tags: Tags)
    requires TagsInv(h, first, base, tags)
    ensures Upto(tags, base + 1) == map[first := base]
  {
  }

  lemma {:induction false} WalkToBase(h: History, first: Version, base: nat, tags: Tags, n: nat)
    requires TagsInv(h, first, base, tags) && n <= base + 1 <= |h|
    ensures Walk(h, first, base, tags.Values, n) == map[first := base]
  {
    if n > 0 {
      WalkToBase(h, first, base, tags, n - 1);
      var before := Walk(h, first, base, tags.Values, n - 1);
      assert first in before && before[first] == base;
      if n - 1 in tags.Values {
        assert VersionAt(tags, n - 1) in tags;
      }
    }
  }

  lemma {:induction false} WalkReaches(h: History, first: Version, base: nat, tags: Tags, n: nat)
    requires TagsInv(h, first, base, tags) && base < |h| && n <= |h|
    ensures Walk(h, first, base, tags.Values, n) == Upto(tags, if n <= base then base + 1 else n)
    decreases n
  {
    if n <= base + 1 {
      OnlyTheFirst(h, first, base, tags);
      WalkToBase(h, first, base, tags, n);
    } else {
      WalkReaches(h, first, base, tags, n - 1);
      WalkOne(h, first, base, tags, n);
    }
  }

  lemma WalkOne(h: History, first: Version, base: nat, tags: Tags, n: nat)
    requires TagsInv(h, first, base, tags) && base + 1 < n <= |h|
    requires Walk(h, first, base, tags.Values, n - 1) == Upto(tags, n - 1)
    ensures Walk(h, first, base, tags.Values, n) == Upto(tags, n)
  {
    if n - 1 in tags.Values {
      WalkStep(h, first, base, tags, n - 1);
    } else {
      assert Upto(tags, n - 1) == Upto(tags, n);
    }
  }

  // The walk's next tag is the one the race left there.
  lemma WalkStep(h: History, first: Version, base: nat, tags: Tags, c: nat)
    requires TagsInv(h, first, base, tags) && base < c && c in tags.Values
    ensures var before := Upto(tags, c);
      && OneTagEach(before) && c < |h| && c !in before.Values
      && ReleaseVersion(h, before, c).Some?
      && ReleaseVersion(h, before, c).value !in before
      && before[ReleaseVersion(h, before, c).value := c] == Upto(tags, c + 1)
  {
    var before := Upto(tags, c);
    TaggedInHistory(h, tags, c);
    assert Follows(h, tags, c);
    var p := Nearest(tags, c - 1);
    assert base in tags.Values;
    UptoReads(h, tags, c, p);
    forall d: nat | p < d < c ensures d !in before.Values {
      UptoReads(h, tags, c, d);
    }
    NearestUnique(before, c, p);
    assert ReleaseVersion(h, before, c) == Some(VersionAt(tags, c));
    var w := VersionAt(tags, c);
    assert forall v <- tags :: tags[v] == c ==> v == w;
    assert before[w := c] == Upto(tags, c + 1);
  }

  // ---- the theorems ----

  // However the runs interleave and however stale their views, the remote holds, at
  // every moment, exactly the tags a sequential walk over the tagged commits leaves:
  // a version is on one commit, a commit has one version, and each is the step from
  // the one before it.
  lemma RaceLeavesSequentialChain(h: History, first: Version, base: nat, limit: nat, events: seq<Event>)
    requires base < |h|
    ensures var tags := Play(h, limit, Initial(first, base), events).origin;
      && OneTagEach(tags)
      && Walk(h, first, base, tags.Values, |h|) == tags
      && forall a: nat, b: nat :: a in tags.Values && b in tags.Values && a < b ==>
           Precedes(VersionAt(tags, a), VersionAt(tags, b))
  {
    InitialInv(h, first, base, limit);
    PlayKeepsInv(h, first, base, limit, Initial(first, base), events);
    var tags := Play(h, limit, Initial(first, base), events).origin;
    WalkReaches(h, first, base, tags, |h|);
    assert Upto(tags, |h|) == tags;
    forall a: nat, b: nat | a in tags.Values && b in tags.Values && a < b
      ensures Precedes(VersionAt(tags, a), VersionAt(tags, b))
    {
      VersionsAscend(h, tags, a, b);
    }
  }

  // One try of a run, whatever other runs do between its push and its fetch: it fails
  // with its tag on the remote exactly when the name was free, the answer to the push was
  // lost and the fetch failed.
  lemma TryFailsWithTag(h: History, first: Version, base: nat, limit: nat, origin: Tags, r: Run, reply: Reply,
                        later: Tags, works: bool)
    requires TagsInv(h, first, base, origin) && RunInv(h, base, limit, origin, r) && r.phase.Counting?
    requires ReleaseVersion(h, r.view, r.commit).Some?
    requires AfterPush(h, origin, r, reply).1.phase.Rejected? && SubTags(AfterPush(h, origin, r, reply).0, later)
    ensures var s := AfterFetch(later, AfterPush(h, origin, r, reply).1, works, limit);
      s.phase.Failed? && s.created <==>
        reply == Lost && !works && ReleaseVersion(h, r.view, r.commit).value !in origin
  {
  }

  lemma {:induction false} PlayOneMore(h: History, limit: nat, w: World, events: seq<Event>, e: Event)
    ensures Play(h, limit, w, events + [e]) == Apply(h, limit, Play(h, limit, w, events), e)
    decreases |events|
  {
    if events == [] {
      assert (events + [e])[1..] == [];
    } else {
      assert (events + [e])[1..] == events[1..] + [e];
      PlayOneMore(h, limit, Apply(h, limit, w, events[0]), events[1..], e);
    }
  }

  // Event i is a push of the run that takes a free name, its answer lost.
  ghost predicate LandsUnanswered(h: History, limit: nat, w: World, events: seq<Event>, id: nat, i: nat) {
    && i < |events| && events[i] == Push(id, Lost)
    && TakesFreeName(h, Play(h, limit, w, events[..i]), id)
  }

  ghost predicate TakesFreeName(h: History, w: World, id: nat) {
    && id in w.runs && w.runs[id].phase.Counting? && w.runs[id].commit < |h| && OneTagEach(w.runs[id].view)
    && ReleaseVersion(h, w.runs[id].view, w.runs[id].commit).Some?
    && ReleaseVersion(h, w.runs[id].view, w.runs[id].commit).value !in w.origin
  }

  predicate LooksAgain(e: Event, id: nat) { e.Fetch? && e.id == id }

  // No event from `from` on is a fetch of the run.
  ghost predicate NoLook(events: seq<Event>, id: nat, from: nat) {
    forall k: nat :: from <= k < |events| ==> !LooksAgain(events[k], id)
  }

  // The run's next fetch after event i is event j, and it fails.
  ghost predicate NextLookFails(events: seq<Event>, id: nat, i: nat, j: nat) {
    i < j < |events| && events[j] == Fetch(id, false) && NoLook(events[..j], id, i + 1)
  }

  ghost predicate Awaits(h: History, limit: nat, w: World, events: seq<Event>, id: nat) {
    exists i: nat :: LandsUnanswered(h, limit, w, events, id, i) && NoLook(events, id, i + 1)
  }

  ghost predicate LostAndUnseen(h: History, limit: nat, w: World, events: seq<Event>, id: nat) {
    exists i: nat, j: nat :: LandsUnanswered(h, limit, w, events, id, i) && NextLookFails(events, id, i, j)
  }

  ghost predicate MustLook(w: World, id: nat) { id in w.runs && w.runs[id].phase.Rejected? && w.runs[id].created }
  ghost predicate FailedWithTag(w: World, id: nat) { id in w.runs && w.runs[id].phase.Failed? && w.runs[id].created }

  lemma AwaitsOneMore(h: History, limit: nat, w: World, events: seq<Event>, e: Event, id: nat)
    ensures Awaits(h, limit, w, events + [e], id) <==>
              (e == Push(id, Lost) && TakesFreeName(h, Play(h, limit, w, events), id))
              || (Awaits(h, limit, w, events, id) && !LooksAgain(e, id))
  {
    var more, n := events + [e], |events|;
    assert more[..n] == events;
    forall i: nat | i < n
      ensures LandsUnanswered(h, limit, w, more, id, i) <==> LandsUnanswered(h, limit, w, events, id, i)
      ensures NoLook(more, id, i + 1) <==> NoLook(events, id, i + 1) && !LooksAgain(e, id)
    {
      assert more[..i] == events[..i];
      assert more[n] == e;
      assert forall k: nat :: k < n ==> more[k] == events[k];
    }
    if e == Push(id, Lost) && TakesFreeName(h, Play(h, limit, w, events), id) {
      assert LandsUnanswered(h, limit, w, more, id, n) && NoLook(more, id, n + 1);
    }
  }

  lemma LostOneMore(h: History, limit: nat, w: World, events: seq<Event>, e: Event, id: nat)
    ensures LostAndUnseen(h, limit, w, events + [e], id) <==>
              LostAndUnseen(h, limit, w, events, id) || (Awaits(h, limit, w, events, id) && e == Fetch(id, false))
  {
    var more, n := events + [e], |events|;
    assert more[..n] == events;
    forall i: nat | i < n
      ensures LandsUnanswered(h, limit, w, more, id, i) <==> LandsUnanswered(h, limit, w, events, id, i)
    {
      assert more[..i] == events[..i];
    }
    forall i: nat, j: nat | j < n
      ensures NextLookFails(more, id, i, j) <==> NextLookFails(events, id, i, j)
    {
      assert more[..j] == events[..j];
    }
    forall i: nat
      ensures NextLookFails(more, id, i, n) <==> i < n && e == Fetch(id, false) && NoLook(events, id, i + 1)
    {
    }
    if i: nat, j: nat :| LandsUnanswered(h, limit, w, more, id, i) && NextLookFails(more, id, i, j) {
      assert j < n || j == n;
    }
    if i: nat, j: nat :| LandsUnanswered(h, limit, w, events, id, i) && NextLookFails(events, id, i, j) {
      assert LandsUnanswered(h, limit, w, more, id, i) && NextLookFails(more, id, i, j);
    }
    if e == Fetch(id, false) {
      if i: nat :| LandsUnanswered(h, limit, w, events, id, i) && NoLook(events, id, i + 1) {
        assert LandsUnanswered(h, limit, w, more, id, i) && NextLookFails(more, id, i, n);
      }
    }
  }

  lemma PushOutcome(h: History, origin: Tags, r: Run, reply: Reply)
    requires r.commit < |h| && OneTagEach(r.view) && !r.created
    ensures var s, v := AfterPush(h, origin, r, reply).1, ReleaseVersion(h, r.view, r.commit);
      && (s.phase.Rejected? && s.created <==> reply == Lost && v.Some? && v.value !in origin)
      && !(s.phase.Failed? && s.created)
  {
  }

  lemma FetchOutcome(origin: Tags, r: Run, works: bool, limit: nat)
    requires r.phase.Rejected? && (r.created ==> LeftATag(origin, r))
    ensures var s := AfterFetch(origin, r, works, limit);
      !s.phase.Rejected? && (s.phase.Failed? && s.created <==> r.created && !works)
  {
  }

  // What one event makes of the run.
  lemma OneEvent(h: History, first: Version, base: nat, limit: nat, w: World, e: Event, id: nat)
    requires Inv(h, first, base, limit, w)
    ensures MustLook(Apply(h, limit, w, e), id) <==>
              (e == Push(id, Lost) && TakesFreeName(h, w, id)) || (MustLook(w, id) && !LooksAgain(e, id))
    ensures FailedWithTag(Apply(h, limit, w, e), id) <==>
              FailedWithTag(w, id) || (MustLook(w, id) && e == Fetch(id, false))
  {
    if id in w.runs {
      var r := w.runs[id];
      assert RunInv(h, base, limit, w.origin, r);
      match e
      case Start(_, _, _) =>
      case Push(_, reply) =>
        if e.id == id && r.phase.Counting? {
          PushOutcome(h, w.origin, r, reply);
        }
      case Fetch(_, works) =>
        if e.id == id && r.phase.Rejected? {
          FetchOutcome(w.origin, r, works, limit);
        }
    }
  }

  // Over every run of the protocol: a run has failed and left its tag exactly when a push
  // of it took a free name with the answer lost and its next fetch failed.
  lemma {:induction false} FailsWithTagExactly(h: History, first: Version, base: nat, limit: nat, events: seq<Event>, id: nat)
    requires base < |h|
    ensures var start := Initial(first, base);
      && (MustLook(Play(h, limit, start, events), id) <==> Awaits(h, limit, start, events, id))
      && (FailedWithTag(Play(h, limit, start, events), id) <==> LostAndUnseen(h, limit, start, events, id))
    decreases |events|
  {
    if events != [] {
      var start, before, e := Initial(first, base), events[..|events| - 1], events[|events| - 1];
      assert events == before + [e];
      FailsWithTagExactly(h, first, base, limit, before, id);
      InitialInv(h, first, base, limit);
      PlayKeepsInv(h, first, base, limit, start, before);
      PlayOneMore(h, limit, start, before, e);
      AwaitsOneMore(h, limit, start, before, e, id);
      LostOneMore(h, limit, start, before, e, id);
      OneEvent(h, first, base, limit, Play(h, limit, start, before), e, id);
    }
  }

  // How a run can end: a run that returned its tag has it on its own commit, one
  // that returned None has its commit inside a tagged one and has made no tag, one that
  // failed has made a tag exactly when a push took a free name with its answer lost and
  // the next fetch failed, and one that gave up has counted at least `limit` times, never
  // more than there are commits since the base: with a limit above that the loop ends on
  // its own.
  lemma HowRunsEnd(h: History, first: Version, base: nat, limit: nat, events: seq<Event>, id: nat)
    requires base < |h| && id in Play(h, limit, Initial(first, base), events).runs
    ensures var w := Play(h, limit, Initial(first, base), events);
      var r := w.runs[id];
      && (r.attempts > 0 ==> r.attempts <= r.commit - base)
      && match r.phase
         case Tagged(version) => version in w.origin && w.origin[version] == r.commit
         case Contained(version) => version in w.origin && w.origin[version] > r.commit && !r.created
         case Failed(why) =>
           && (r.created <==> LostAndUnseen(h, limit, Initial(first, base), events, id))
           && (r.created ==> r.commit in w.origin.Values)
           && (why == TooManyTries ==> limit <= r.attempts)
         case _ => true
  {
    InitialInv(h, first, base, limit);
    PlayKeepsInv(h, first, base, limit, Initial(first, base), events);
    var w := Play(h, limit, Initial(first, base), events);
    assert RunInv(h, base, limit, w.origin, w.runs[id]);
    FailsWithTagExactly(h, first, base, limit, events, id);
    assert FailedWithTag(w, id) <==> w.runs[id].phase.Failed? && w.runs[id].created;
  }

  // A failed run can leave its tag behind when the push landed, its answer was lost
  // and the fetch that follows fails too.
  lemma LostAnswerLeavesTag()
    ensures var h, v := [false, false], Release(0, 1, 0);
      var events := [Start(0, 1, map[v := 0]), Push(0, Lost), Fetch(0, false)];
      var w := Play(h, RESERVE_ATTEMPTS, Initial(v, 0), events);
      0 in w.runs && w.runs[0].phase.Failed? && w.runs[0].created && Release(0, 1, 1) in w.origin
  {
    var h, v := [false, false], Release(0, 1, 0);
    var view := map[v := 0];
    var events := [Start(0, 1, view), Push(0, Lost), Fetch(0, false)];
    var w0 := Initial(v, 0);
    var w1 := Apply(h, RESERVE_ATTEMPTS, w0, events[0]);
    assert w1.runs[0] == Run(1, view, Counting, 0, false);
    assert Nearest(view, 1) == 0 by {
      assert view[v] == 0;
      assert 0 in view.Values && 1 !in view.Values;
      NearestUnique(view, 1, 0);
    }
    assert ReleaseVersion(h, view, 1) == Some(Release(0, 1, 1));
    var w2 := Apply(h, RESERVE_ATTEMPTS, w1, events[1]);
    assert w2.runs[0].phase == Rejected(Release(0, 1, 1));
    var w3 := Apply(h, RESERVE_ATTEMPTS, w2, events[2]);
    assert events[1..] == [Push(0, Lost), Fetch(0, false)];
    assert events[1..][1..] == [Fetch(0, false)];
    assert Play(h, RESERVE_ATTEMPTS, w0, events) == Play(h, RESERVE_ATTEMPTS, w1, [Push(0, Lost), Fetch(0, false)])
        == Play(h, RESERVE_ATTEMPTS, w2, [Fetch(0, false)]);
    assert [Fetch(0, false)][1..] == [];
    assert Play(h, RESERVE_ATTEMPTS, w2, [Fetch(0, false)]) == Play(h, RESERVE_ATTEMPTS, w3, []) == w3;
  }
}
