// scripts/publish-releases.py: `reserve` as the retry loop it is, against a remote that
// other runs push to meanwhile, and `create_release`, `finish` and `publish` over the
// registry and the releases. What the network does is chosen freely (`:= *`).
module PublishReleases {
  import opened Options
  import opened Versions
  import opened TagChain
  import opened ReserveRuns

  class Origin {
    var tags: Tags
    constructor (tags: Tags) ensures this.tags == tags { this.tags := tags; }
  }

  class Clone {
    var tags: Tags
    constructor (tags: Tags) ensures this.tags == tags { this.tags := tags; }
  }

  // Other runs of `reserve`, each with a view of its own, push any number of times.
  method OthersPush(h: History, origin: Origin, ghost first: Version, ghost base: nat)
    requires TagsInv(h, first, base, origin.tags)
    modifies origin
    ensures TagsInv(h, first, base, origin.tags) && SubTags(old(origin.tags), origin.tags)
  {
    var pushes: nat := *;
    while pushes > 0
      invariant TagsInv(h, first, base, origin.tags) && SubTags(old(origin.tags), origin.tags)
    {
      var view: Tags := *;
      var commit: nat := *;
      if commit < |h| && SubTags(view, origin.tags) {
        SubTagsKeep(h, view, origin.tags);
        var counted := ReleaseVersion(h, view, commit);
        if counted.Some? && Accepts(origin.tags, counted.value, commit) {
          LandedPush(h, first, base, origin.tags, view, commit);
          origin.tags := origin.tags[counted.value := commit];
        }
      }
      pushes := pushes - 1;
    }
  }

  // The version this commit has in the tags, or one that would be refused there.
  ghost predicate SpokenFor(h: History, tags: Tags, commit: nat)
    requires commit < |h| && OneTagEach(tags)
  {
    ReleaseVersion(h, tags, commit).Some? && ReleaseVersion(h, tags, commit).value in tags
  }

  // The tags on the remote form a chain and the clone knows some of them.
  ghost predicate Known(h: History, first: Version, base: nat, origin: Tags, view: Tags) {
    TagsInv(h, first, base, origin) && OneTagEach(view) && SubTags(view, origin)
  }

  // `git push` of a version counted from the clone's view, and `git tag -f` when the
  // remote said yes.
  method PushTag(h: History, origin: Origin, clone: Clone, version: Version, commit: nat, quiet: bool,
                 ghost first: Version, ghost base: nat)
    returns (accepted: bool)
    requires commit < |h| && Known(h, first, base, origin.tags, clone.tags)
    requires ReleaseVersion(h, clone.tags, commit) == Some(version)
    modifies origin, clone
    ensures Known(h, first, base, origin.tags, clone.tags)
    ensures SubTags(old(origin.tags), origin.tags) && SubTags(old(clone.tags), clone.tags)
    ensures accepted ==> version in clone.tags && clone.tags[version] == commit
    ensures accepted ==> ReleaseVersion(h, origin.tags, commit) == Some(version)
    ensures !accepted ==> clone.tags == old(clone.tags)
    ensures quiet ==> origin.tags == old(origin.tags) || version !in old(origin.tags)
    ensures quiet && version in old(clone.tags) ==> clone.tags == old(clone.tags)
    ensures quiet && old(clone.tags) == old(origin.tags) && version in old(origin.tags) ==> clone.tags == old(clone.tags)
  {
    if !quiet {
      OthersPush(h, origin, first, base);
    }
    var reply := Delivered;
    if !quiet {
      reply := *;
    }
    var landed := reply != Unreached && Accepts(origin.tags, version, commit);
    if landed {
      PushHolds(h, first, base, origin.tags, clone.tags, version, commit);
      origin.tags := origin.tags[version := commit];
    }
    accepted := landed && reply != Lost;
    if accepted {
      clone.tags := clone.tags[version := commit];
    }
  }

  lemma PushHolds(h: History, first: Version, base: nat, origin: Tags, view: Tags, version: Version, commit: nat)
    requires commit < |h| && Known(h, first, base, origin, view)
    requires ReleaseVersion(h, view, commit) == Some(version) && Accepts(origin, version, commit)
    ensures var after, seen := origin[version := commit], view[version := commit];
      && Known(h, first, base, after, view) && Known(h, first, base, after, seen)
      && SubTags(origin, after) && SubTags(view, seen)
      && ReleaseVersion(h, after, commit) == Some(version)
      && (version in origin ==> after == origin) && (version in view ==> seen == view)
  {
    LandedPush(h, first, base, origin, view, commit);
    KeepSame(origin, version, commit);
    KeepSame(view, version, commit);
    SubTagsKeep(h, view[version := commit], origin[version := commit]);
    TaggedHere(h, origin[version := commit], version, commit);
  }

  lemma KeepSame(tags: Tags, version: Version, commit: nat)
    ensures version in tags && tags[version] == commit ==> tags[version := commit] == tags
  {
  }

  lemma TaggedHere(h: History, tags: Tags, version: Version, commit: nat)
    requires OneTagEach(tags) && version in tags && tags[version] == commit && commit < |h|
    ensures commit in tags.Values && ReleaseVersion(h, tags, commit) == Some(version)
  {
  }

  // The fetch after a rejected push, and what the tag found there means.
  method LookAgain(h: History, origin: Origin, clone: Clone, version: Version, commit: nat, quiet: bool,
                   ghost first: Version, ghost base: nat)
    returns (r: Phase)
    requires commit < |h| && Known(h, first, base, origin.tags, clone.tags)
    requires ReleaseVersion(h, clone.tags, commit) == Some(version)
    modifies origin, clone
    ensures Known(h, first, base, origin.tags, clone.tags)
    ensures SubTags(old(origin.tags), origin.tags) && SubTags(old(clone.tags), clone.tags)
    ensures match r
      case Tagged(v) => v == version && version in clone.tags && clone.tags[version] == commit
                     && ReleaseVersion(h, origin.tags, commit) == Some(version)
      case Contained(v) => v == version && version in origin.tags && origin.tags[version] > commit
                        && ReleaseVersion(h, origin.tags, commit) == Some(version)
      case Failed(_) => version !in old(clone.tags) && (quiet ==> version !in old(origin.tags))
      case Counting => Nearest(old(clone.tags), commit) < Nearest(clone.tags, commit)
                    && (quiet ==> ReleaseVersion(h, origin.tags, commit) != Some(version))
      case Rejected(_) => false
    ensures quiet ==> origin.tags == old(origin.tags)
    ensures quiet && old(clone.tags) == old(origin.tags) ==> clone.tags == old(clone.tags)
  {
    if !quiet {
      OthersPush(h, origin, first, base);
    }
    ghost var before := clone.tags;
    var works := true;
    if !quiet {
      works := *;
    }
    MergedViewInv(h, origin.tags, clone.tags);
    if works {
      SameMerged(clone.tags, origin.tags);
      clone.tags := clone.tags + origin.tags;
    }
    if version !in clone.tags {
      return Failed(NotPushed);
    }
    if clone.tags[version] == commit {
      TaggedHere(h, origin.tags, version, commit);
      return Tagged(version);
    }
    if commit < clone.tags[version] {
      StaleCount(h, before, origin.tags, commit);
      return Contained(version);
    }
    Recounting(h, base, origin.tags, before, commit, works);
    return Counting;
  }

  lemma SameMerged(view: Tags, origin: Tags)
    ensures view == origin ==> view + origin == view
  {
  }

  method Reserve(h: History, origin: Origin, clone: Clone, commit: nat, quiet: bool,
                 ghost first: Version, ghost base: nat)
    returns (r: Phase)
    requires commit < |h| && Known(h, first, base, origin.tags, clone.tags)
    modifies origin, clone
    ensures Known(h, first, base, origin.tags, clone.tags)
    ensures SubTags(old(origin.tags), origin.tags) && SubTags(old(clone.tags), clone.tags)
    ensures r.Tagged? || r.Contained? || r.Failed?
    ensures r.Tagged? ==> r.version in clone.tags && clone.tags[r.version] == commit
    ensures r.Contained? ==> r.version in origin.tags && origin.tags[r.version] > commit
    ensures !r.Failed? ==> ReleaseVersion(h, origin.tags, commit) == Some(r.version)
    ensures quiet && old(clone.tags) == old(origin.tags) && SpokenFor(h, old(origin.tags), commit)
      ==> !r.Failed? && origin.tags == old(origin.tags) && clone.tags == old(clone.tags)
  {
    ghost var calm := quiet && clone.tags == origin.tags && SpokenFor(h, origin.tags, commit);
    for attempt := 0 to RESERVE_ATTEMPTS
      invariant Known(h, first, base, origin.tags, clone.tags)
      invariant SubTags(old(origin.tags), origin.tags) && SubTags(old(clone.tags), clone.tags)
      invariant attempt > 0 ==> attempt <= Nearest(clone.tags, commit) - base
      invariant calm ==> attempt == 0 && origin.tags == old(origin.tags) && clone.tags == old(clone.tags)
    {
      var counted := ReleaseVersion(h, clone.tags, commit);
      if counted.None? {
        return Failed(NoTagReachable);
      }
      StartedAtBase(h, first, base, origin.tags, clone.tags, commit);
      var accepted := PushTag(h, origin, clone, counted.value, commit, quiet, first, base);
      if accepted {
        return Tagged(counted.value);
      }
      r := LookAgain(h, origin, clone, counted.value, commit, quiet, first, base);
      if !r.Counting? {
        return;
      }
    }
    return Failed(TooManyTries);
  }

  // A loop that goes round again has a strictly nearer tag to count from.
  lemma Recounting(h: History, base: nat, origin: Tags, before: Tags, commit: nat, works: bool)
    requires Chain(h, origin) && OneTagEach(before) && SubTags(before, origin) && commit < |h|
    requires ReleaseVersion(h, before, commit).Some?
    requires var version := ReleaseVersion(h, before, commit).value;
      var after := if works then before + origin else before;
      version in after && after[version] < commit
    ensures works && Nearest(before, commit) < Nearest(before + origin, commit)
    ensures ReleaseVersion(h, origin, commit) != ReleaseVersion(h, before, commit)
  {
    var version := ReleaseVersion(h, before, commit).value;
    var r := Run(commit, before, Rejected(version), 0, false);
    RecountAdvances(h, base, 2, origin, r, works);
    if ReleaseVersion(h, origin, commit) == Some(version) {
      FreshCountIsAhead(h, origin, commit);
    }
  }

  // ---- after the tag: the image and the release ----

  // An image in the registry, under its commit or under a version.
  datatype ImageTag = OfCommit(commit: nat) | OfVersion(version: Version)

  const ATTEMPTS := 3
  const BACKOFF := 15
  const LIST_LIMIT := 500

  predicate NoRepeats<T(==)>(s: seq<T>) {
    forall i, j :: 0 <= i < j < |s| ==> s[i] != s[j]
  }

  // The releases in the order they were made, the registry's images, and the versions
  // whose image has been signed under them.
  class Hub {
    var releases: seq<Version>
    var images: set<ImageTag>
    var signed: set<Version>

    constructor (releases: seq<Version>, images: set<ImageTag>, signed: set<Version>)
      ensures this.releases == releases && this.images == images && this.signed == signed
    {
      this.releases, this.images, this.signed := releases, images, signed;
    }

    // `gh release create`: refused for a tag that has a release; otherwise it may
    // work, fail without effect, or fail with the release there all the same: its
    // answer was lost, or another run made it first.
    method Create(version: Version) returns (ok: bool)
      requires NoRepeats(releases)
      modifies this`releases
      ensures NoRepeats(releases)
      ensures releases == old(releases) || (version !in old(releases) && releases == old(releases) + [version])
      ensures ok ==> version in releases
    {
      if version in releases {
        return false;
      }
      var works: bool := *;
      if works {
        releases := releases + [version];
        ok := *;
      } else {
        ok := false;
      }
    }
  }

  // What `gh release list --limit 500` shows: the newest ones.
  function Listed(releases: seq<Version>): (shown: set<Version>)
    ensures forall v <- shown :: v in releases
    ensures |releases| <= LIST_LIMIT ==> forall v <- releases :: v in shown
  {
    var newest := if |releases| <= LIST_LIMIT then releases else releases[|releases| - LIST_LIMIT..];
    set v | v in newest
  }

  // `create_release`: three attempts with a doubling wait; another run's release
  // counts as made.
  method CreateRelease(hub: Hub, version: Version) returns (made: bool, waited: nat)
    requires NoRepeats(hub.releases)
    modifies hub`releases
    ensures NoRepeats(hub.releases)
    ensures made <==> version in hub.releases
    ensures hub.releases == old(hub.releases) || (version !in old(hub.releases) && hub.releases == old(hub.releases) + [version])
    ensures waited in {0, BACKOFF, 3 * BACKOFF} && (!made ==> waited == 3 * BACKOFF)
  {
    var delay := BACKOFF;
    waited := 0;
    for attempt := 1 to ATTEMPTS + 1
      invariant NoRepeats(hub.releases)
      invariant hub.releases == old(hub.releases) || (version !in old(hub.releases) && hub.releases == old(hub.releases) + [version])
      invariant attempt > 1 ==> version !in hub.releases
      invariant attempt == 1 ==> delay == BACKOFF && waited == 0
      invariant attempt == 2 ==> delay == 2 * BACKOFF && waited == BACKOFF
      invariant attempt >= 3 ==> delay == 4 * BACKOFF && waited == 3 * BACKOFF
    {
      var ok := hub.Create(version);
      if ok {
        return true, waited;
      }
      if version in hub.releases {
        return true, waited;
      }
      if attempt < ATTEMPTS {
        waited := waited + delay;
        delay := delay * 2;
      }
    }
    return false, waited;
  }

  // The images after the version on `commit` has been looked after.
  function Imaged(images: set<ImageTag>, version: Version, commit: nat): set<ImageTag> {
    if OfCommit(commit) in images then images + {OfVersion(version)} else images
  }

  // `finish`: none when it exits with an error, else whether it made a release.
  method Finish(hub: Hub, version: Version, commit: nat, release: bool) returns (made: Option<bool>)
    requires NoRepeats(hub.releases)
    modifies hub
    ensures NoRepeats(hub.releases)
    ensures hub.releases == old(hub.releases) || (version !in old(hub.releases) && hub.releases == old(hub.releases) + [version])
    ensures hub.images == old(hub.images) || hub.images == Imaged(old(hub.images), version, commit)
    ensures made.Some? ==> hub.images == Imaged(old(hub.images), version, commit)
    ensures made.Some? && release ==> version in hub.releases && made.value == (version !in old(hub.releases))
    ensures made.Some? && !release ==> !made.value && hub.releases == old(hub.releases)
    ensures old(hub.signed) <= hub.signed <= old(hub.signed) + {version}
    ensures version in hub.signed && version !in old(hub.signed) ==> OfVersion(version) in hub.images && OfVersion(version) !in old(hub.images)
    ensures made.Some? ==>
      (version in hub.signed <==> version in old(hub.signed) || (OfVersion(version) !in old(hub.images) && OfCommit(commit) in old(hub.images)))
  {
    if OfVersion(version) !in hub.images && OfCommit(commit) in hub.images {
      var copied: bool := *;
      if !copied {
        return None;
      }
      hub.images := hub.images + {OfVersion(version)};
      var signs: bool := *;
      if !signs {
        return None;
      }
      hub.signed := hub.signed + {version};
    }
    assert OfVersion(version) in hub.images ==> hub.images + {OfVersion(version)} == hub.images;
    if !release {
      return Some(false);
    }
    if version in hub.releases {
      return Some(false);
    }
    var written: bool := *;
    if !written {
      return None;
    }
    var ok, _ := CreateRelease(hub, version);
    if !ok {
      return None;
    }
    return Some(true);
  }

  // ---- publish ----

  // A plain version tag on a commit `head` contains.
  predicate InHistory(tags: Tags, version: Version, head: nat) {
    version in tags && version.Release? && tags[version] <= head
  }

  // The least of some versions, in the order their numbers sort.
  lemma {:induction false} LeastExists(vs: set<Version>)
    requires vs != {}
    ensures exists v :: v in vs && forall w <- vs :: w != v ==> Precedes(v, w)
  {
    var x :| x in vs;
    if vs == {x} {
      assert x in vs && forall w <- vs :: w != x ==> Precedes(x, w);
    } else {
      var rest := vs - {x};
      LeastExists(rest);
      var y :| y in rest && forall w <- rest :: w != y ==> Precedes(y, w);
      assert vs == rest + {x};
      var least := if Precedes(x, y) then x else y;
      assert least in vs && forall w <- vs :: w != least ==> Precedes(least, w);
    }
  }

  function Sorted(vs: set<Version>): (s: seq<Version>)
    ensures |s| == |vs|
  {
    if vs == {} then []
    else
      LeastExists(vs);
      var v :| v in vs && forall w <- vs :: w != v ==> Precedes(v, w);
      [v] + Sorted(vs - {v})
  }

  lemma {:induction false} SortedHolds(vs: set<Version>)
    ensures forall v :: v in Sorted(vs) <==> v in vs
    ensures forall i, j :: 0 <= i < j < |Sorted(vs)| ==> Precedes(Sorted(vs)[i], Sorted(vs)[j])
  {
    if vs != {} {
      var s := Sorted(vs);
      var v, rest := s[0], s[1..];
      SortedHolds(vs - {v});
      assert s == [v] + rest && rest == Sorted(vs - {v});
      forall j | 0 < j < |s|
        ensures s[j] in vs - {v}
      {
        assert s[j] == rest[j - 1] && rest[j - 1] in rest;
      }
    }
  }

  // The tags `publish` goes back to: in this commit's history, not this run's own,
  // and not among the releases listed.
  function Waiting(tags: Tags, listed: set<Version>, own: Option<Version>, head: nat): set<Version> {
    set v | v in tags && InHistory(tags, v, head) && v !in listed && own != Some(v)
  }

  function Names(vs: seq<Version>): set<Version> {
    set v | v in vs
  }

  // The images once all of `vs` have been looked after.
  function AllImaged(images: set<ImageTag>, tags: Tags, vs: set<Version>): set<ImageTag> {
    images + set v | v in vs && v in tags && OfCommit(tags[v]) in images :: OfVersion(v)
  }

  lemma AllImagedOneMore(images: set<ImageTag>, tags: Tags, vs: set<Version>, v: Version)
    requires v in tags
    ensures AllImaged(images, tags, vs + {v}) == Imaged(AllImaged(images, tags, vs), v, tags[v])
  {
    var before := AllImaged(images, tags, vs);
    assert OfCommit(tags[v]) in before <==> OfCommit(tags[v]) in images;
  }

  // A tag `publish` answers for: a plain one in this commit's history, or its own.
  predicate Mine(tags: Tags, version: Version, head: nat) {
    version in tags && tags[version] <= head && (version.Release? || tags[version] == head)
  }

  // What a `publish` that makes releases leaves behind when it returns: every version
  // tag its clone knows in this commit's history has exactly one release.
  ghost predicate AllReleased(tags: Tags, releases: seq<Version>, head: nat) {
    NoRepeats(releases) && forall v :: Mine(tags, v, head) ==> v in releases
  }

  // What was there stays, and new releases and images belong to this commit's history.
  ghost predicate OnlyInHistory(tags: Tags, head: nat, releases: seq<Version>, more: seq<Version>,
                                images: set<ImageTag>, imaged: set<ImageTag>)
  {
    && releases <= more && images <= imaged
    && (forall v :: v in more && v !in releases ==> Mine(tags, v, head))
    && forall i :: i in imaged && i !in images ==> i.OfVersion? && i.version in tags && tags[i.version] <= head
  }

  lemma OnlyInHistoryJoins(tags: Tags, all: Tags, head: nat, r0: seq<Version>, r1: seq<Version>, r2: seq<Version>,
                           i0: set<ImageTag>, i1: set<ImageTag>, i2: set<ImageTag>)
    requires SubTags(tags, all)
    requires OnlyInHistory(tags, head, r0, r1, i0, i1) && OnlyInHistory(all, head, r1, r2, i1, i2)
    ensures OnlyInHistory(all, head, r0, r2, i0, i2)
  {
  }

  // Those of `vs` that have no release yet.
  function Unreleased(vs: seq<Version>, releases: seq<Version>): seq<Version> {
    if vs == [] then []
    else
      var last := vs[|vs| - 1];
      Unreleased(vs[..|vs| - 1], releases) + if last in releases then [] else [last]
  }

  lemma {:induction false} NoneUnreleased(vs: seq<Version>, releases: seq<Version>)
    requires forall v <- vs :: v in releases
    ensures Unreleased(vs, releases) == []
  {
    if vs != [] {
      NoneUnreleased(vs[..|vs| - 1], releases);
      assert vs[|vs| - 1] in vs;
    }
  }

  method FinishWaiting(hub: Hub, tags: Tags, waiting: seq<Version>, head: nat)
    returns (r: Option<seq<Version>>)
    requires NoRepeats(hub.releases) && NoRepeats(waiting)
    requires forall v <- waiting :: InHistory(tags, v, head)
    modifies hub
    ensures NoRepeats(hub.releases)
    ensures OnlyInHistory(tags, head, old(hub.releases), hub.releases, old(hub.images), hub.images)
    ensures r.Some? ==> forall v <- waiting :: v in hub.releases
    ensures r.Some? ==> hub.images == AllImaged(old(hub.images), tags, Names(waiting))
    ensures r.Some? ==> hub.releases == old(hub.releases) + r.value && r.value == Unreleased(waiting, old(hub.releases))
  {
    ghost var releases0, images0 := hub.releases, hub.images;
    var made := [];
    assert FinishedSome(tags, releases0, images0, hub.releases, hub.images, [], made);
    for i := 0 to |waiting|
      invariant OnlyInHistory(tags, head, releases0, hub.releases, images0, hub.images)
      invariant FinishedSome(tags, releases0, images0, hub.releases, hub.images, waiting[..i], made)
    {
      var other := waiting[i];
      assert other in waiting && other !in waiting[..i];
      ghost var releases, images := hub.releases, hub.images;
      var finished := Finish(hub, other, tags[other], true);
      OneInHistory(tags, head, other, releases, hub.releases, images, hub.images);
      OnlyInHistoryJoins(tags, tags, head, releases0, releases, hub.releases, images0, images, hub.images);
      if finished.None? {
        return None;
      }
      FinishedOneMore(tags, releases0, images0, releases, images, waiting[..i], made, other, if finished.value then [other] else []);
      made := made + if finished.value then [other] else [];
      assert waiting[..i + 1] == waiting[..i] + [other];
    }
    assert waiting[..|waiting|] == waiting;
    return Some(made);
  }

  lemma OneInHistory(tags: Tags, head: nat, v: Version, releases: seq<Version>, more: seq<Version>, images: set<ImageTag>, imaged: set<ImageTag>)
    requires InHistory(tags, v, head)
    requires more == releases || more == releases + [v]
    requires imaged == images || imaged == Imaged(images, v, tags[v])
    ensures OnlyInHistory(tags, head, releases, more, images, imaged)
  {
  }

  // What the hub is once all of `done` have been finished, `made` of them newly released.
  ghost predicate FinishedSome(tags: Tags, releases0: seq<Version>, images0: set<ImageTag>,
                               releases: seq<Version>, images: set<ImageTag>, done: seq<Version>, made: seq<Version>)
  {
    ReleasedSome(releases0, releases, done, made) && images == AllImaged(images0, tags, Names(done))
  }

  ghost predicate ReleasedSome(releases0: seq<Version>, releases: seq<Version>, done: seq<Version>, made: seq<Version>) {
    && NoRepeats(releases) && releases == releases0 + made
    && made == Unreleased(done, releases0) && (forall v <- made :: v in done)
    && (forall v <- done :: v in releases)
  }

  lemma FinishedOneMore(tags: Tags, releases0: seq<Version>, images0: set<ImageTag>, releases: seq<Version>, images: set<ImageTag>,
                        done: seq<Version>, made: seq<Version>, v: Version, newly: seq<Version>)
    requires FinishedSome(tags, releases0, images0, releases, images, done, made)
    requires v in tags && v !in done && newly == if v in releases then [] else [v]
    ensures FinishedSome(tags, releases0, images0, releases + newly, Imaged(images, v, tags[v]), done + [v], made + newly)
  {
    ImagedOneMore(tags, images0, done, v);
    ReleasedOneMore(releases0, releases, done, made, v, newly);
  }

  lemma ReleasedOneMore(releases0: seq<Version>, releases: seq<Version>, done: seq<Version>, made: seq<Version>, v: Version, newly: seq<Version>)
    requires ReleasedSome(releases0, releases, done, made)
    requires v !in done && newly == if v in releases then [] else [v]
    ensures ReleasedSome(releases0, releases + newly, done + [v], made + newly)
  {
    UnreleasedMore(done, v, releases0);
    if v in releases {
      assert releases + newly == releases && made + newly == made;
      assert v in releases0;
    } else {
      Joined(releases0, made, newly);
      NoRepeatsMore(releases, v);
      assert v !in releases0;
    }
  }

  lemma NoRepeatsMore(s: seq<Version>, x: Version)
    requires NoRepeats(s) && x !in s
    ensures NoRepeats(s + [x])
  {
  }

  lemma ImagedOneMore(tags: Tags, images0: set<ImageTag>, done: seq<Version>, v: Version)
    requires v in tags
    ensures AllImaged(images0, tags, Names(done + [v])) == Imaged(AllImaged(images0, tags, Names(done)), v, tags[v])
  {
    assert Names(done + [v]) == Names(done) + {v};
    AllImagedOneMore(images0, tags, Names(done), v);
  }

  lemma UnreleasedMore(done: seq<Version>, v: Version, releases: seq<Version>)
    ensures Unreleased(done + [v], releases) == Unreleased(done, releases) + if v in releases then [] else [v]
  {
    assert (done + [v])[..|done|] == done;
  }

  // The version tag on this commit itself.
  function OwnTag(tags: Tags, head: nat): Option<Version>
    requires OneTagEach(tags)
  {
    if head in tags.Values then Some(VersionAt(tags, head)) else None
  }

  // The version on this commit if it has no release yet.
  function OwnUnreleased(own: Option<Version>, releases: seq<Version>): seq<Version> {
    if own.Some? && own.value !in releases then [own.value] else []
  }

  // Reserving this commit's version and finishing it: none when either exits with an
  // error, else the versions released by that.
  method PublishOwn(h: History, origin: Origin, clone: Clone, hub: Hub, head: nat, release: bool, quiet: bool,
                    ghost first: Version, ghost base: nat)
    returns (own: Option<Version>, made: Option<seq<Version>>)
    requires head < |h| && Known(h, first, base, origin.tags, clone.tags) && NoRepeats(hub.releases)
    modifies origin, clone, hub
    ensures Known(h, first, base, origin.tags, clone.tags) && NoRepeats(hub.releases)
    ensures OnlyInHistory(clone.tags, head, old(hub.releases), hub.releases, old(hub.images), hub.images)
    ensures own.Some? ==> own.value in clone.tags && clone.tags[own.value] == head
    ensures made.Some? ==> SpokenFor(h, origin.tags, head) && own == OwnTag(origin.tags, head)
    ensures made.Some? ==> hub.releases == old(hub.releases) + made.value
    ensures made.Some? && !release ==> made.value == []
    ensures made.Some? && release ==> made.value == OwnUnreleased(own, old(hub.releases))
    ensures made.Some? && release && own.Some? ==> own.value in hub.releases
    ensures made.Some? ==> hub.images == OwnImaged(old(hub.images), own, head)
    ensures quiet && old(clone.tags) == old(origin.tags) && SpokenFor(h, old(origin.tags), head)
      ==> origin.tags == old(origin.tags) && clone.tags == old(clone.tags)
  {
    var phase := Reserve(h, origin, clone, head, quiet, first, base);
    if phase.Failed? {
      return None, None;
    }
    if !phase.Tagged? {
      return None, Some([]);
    }
    own := Some(phase.version);
    assert phase.version in origin.tags;
    var finished := Finish(hub, phase.version, head, release);
    if finished.None? {
      return own, None;
    }
    return own, Some(if finished.value then [phase.version] else []);
  }

  // The fetch of `version_tags`, which may fail.
  method FetchTags(h: History, origin: Origin, clone: Clone, quiet: bool, ghost first: Version, ghost base: nat)
    returns (fetched: bool)
    requires Known(h, first, base, origin.tags, clone.tags)
    modifies clone
    ensures Known(h, first, base, origin.tags, clone.tags)
    ensures SubTags(old(clone.tags), clone.tags)
    ensures fetched ==> clone.tags == origin.tags
    ensures !fetched ==> clone.tags == old(clone.tags)
    ensures quiet ==> fetched
  {
    fetched := true;
    if !quiet {
      fetched := *;
    }
    if fetched {
      MergedViewInv(h, origin.tags, clone.tags);
      MergeAll(clone.tags, origin.tags);
      clone.tags := clone.tags + origin.tags;
    }
  }

  lemma MergeAll(view: Tags, origin: Tags)
    requires SubTags(view, origin)
    ensures view + origin == origin
  {
  }

  // Going back over the version tags without a release.
  method PublishOthers(hub: Hub, tags: Tags, own: Option<Version>, head: nat)
    returns (r: Option<seq<Version>>)
    requires NoRepeats(hub.releases)
    requires own.Some? ==> own.value in hub.releases
    requires OneTagEach(tags) && own == OwnTag(tags, head)
    modifies hub
    ensures NoRepeats(hub.releases)
    ensures OnlyInHistory(tags, head, old(hub.releases), hub.releases, old(hub.images), hub.images)
    ensures r.Some? ==> AllReleased(tags, hub.releases, head)
    ensures r.Some? ==> hub.releases == old(hub.releases) + r.value
    ensures r.Some? ==> r.value == Unreleased(Sorted(Waiting(tags, Listed(old(hub.releases)), own, head)), old(hub.releases))
    ensures r.Some? ==> hub.images == AllImaged(old(hub.images), tags, Waiting(tags, Listed(old(hub.releases)), own, head))
  {
    var listing: bool := *;
    if !listing {
      return None;
    }
    var waiting := Waiting(tags, Listed(hub.releases), own, head);
    SortedHolds(waiting);
    r := FinishWaiting(hub, tags, Sorted(waiting), head);
    assert Names(Sorted(waiting)) == waiting;
    if r.Some? {
      forall v | Mine(tags, v, head) ensures v in hub.releases {
        if v in waiting {
          assert v in Sorted(waiting);
        }
      }
    }
  }

  // The images once the version on `head` has been looked after.
  function OwnImaged(images: set<ImageTag>, own: Option<Version>, head: nat): set<ImageTag> {
    if own.Some? then Imaged(images, own.value, head) else images
  }

  // The releases and images a `publish` leaves: its own version's first, then, when it
  // makes releases, in order those of the tags in its history that the listing does not
  // show.
  ghost function AfterPublish(tags: Tags, releases: seq<Version>, images: set<ImageTag>, head: nat, release: bool): (seq<Version>, set<ImageTag>)
    requires OneTagEach(tags)
  {
    var own := OwnTag(tags, head);
    var imaged := OwnImaged(images, own, head);
    if !release then (releases, imaged)
    else
      var more := releases + OwnUnreleased(own, releases);
      var waiting := Waiting(tags, Listed(more), own, head);
      (more + Unreleased(Sorted(waiting), more), AllImaged(imaged, tags, waiting))
  }

  // The second half of `publish`: fetch, then go back over the tags.
  method PublishRest(h: History, origin: Origin, clone: Clone, hub: Hub, own: Option<Version>, head: nat, quiet: bool,
                     ghost first: Version, ghost base: nat)
    returns (r: Option<seq<Version>>, fetched: bool)
    requires Known(h, first, base, origin.tags, clone.tags) && NoRepeats(hub.releases)
    requires own == OwnTag(origin.tags, head)
    requires own.Some? ==> own.value in clone.tags && own.value in hub.releases
    modifies clone, hub
    ensures Known(h, first, base, origin.tags, clone.tags)
    ensures SubTags(old(clone.tags), clone.tags)
    ensures fetched ==> clone.tags == origin.tags
    ensures quiet && old(clone.tags) == origin.tags ==> clone.tags == origin.tags
    ensures NoRepeats(hub.releases)
    ensures OnlyInHistory(clone.tags, head, old(hub.releases), hub.releases, old(hub.images), hub.images)
    ensures r.Some? ==> AllReleased(clone.tags, hub.releases, head)
    ensures r.Some? ==> hub.releases == old(hub.releases) + r.value
    ensures own == OwnTag(clone.tags, head)
    ensures r.Some? ==> r.value == Unreleased(Sorted(Waiting(clone.tags, Listed(old(hub.releases)), own, head)), old(hub.releases))
    ensures r.Some? ==> hub.images == AllImaged(old(hub.images), clone.tags, Waiting(clone.tags, Listed(old(hub.releases)), own, head))
  {
    fetched := FetchTags(h, origin, clone, quiet, first, base);
    SameOwnTag(h, clone.tags, origin.tags, head, own);
    r := PublishOthers(hub, clone.tags, own, head);
  }

  lemma SameOwnTag(h: History, view: Tags, tags: Tags, head: nat, own: Option<Version>)
    requires Chain(h, tags) && OneTagEach(view) && SubTags(view, tags) && own == OwnTag(tags, head)
    requires own.Some? ==> own.value in view && view[own.value] == head
    ensures own == OwnTag(view, head)
  {
    SubTagsKeep(h, view, tags);
  }

  // `publish`: none when it exits with an error, else the versions it released, this
  // run's own first. `fetched` says whether its last fetch of the tags worked.
  method Publish(h: History, origin: Origin, clone: Clone, hub: Hub, head: nat, release: bool, quiet: bool,
                 ghost first: Version, ghost base: nat)
    returns (r: Option<seq<Version>>, fetched: bool)
    requires head < |h| && Known(h, first, base, origin.tags, clone.tags) && NoRepeats(hub.releases)
    modifies origin, clone, hub
    ensures Known(h, first, base, origin.tags, clone.tags) && NoRepeats(hub.releases)
    ensures OnlyInHistory(clone.tags, head, old(hub.releases), hub.releases, old(hub.images), hub.images)
    ensures r.Some? ==> SpokenFor(h, origin.tags, head) && hub.releases == old(hub.releases) + r.value
    ensures r.Some? && release ==> AllReleased(clone.tags, hub.releases, head)
    ensures r.Some? && !release ==> r.value == []
    ensures fetched ==> clone.tags == origin.tags
    ensures quiet && old(clone.tags) == old(origin.tags) && SpokenFor(h, old(origin.tags), head)
      ==> origin.tags == old(origin.tags) && clone.tags == old(clone.tags)
    ensures r.Some? ==> (hub.releases, hub.images) == AfterPublish(clone.tags, old(hub.releases), old(hub.images), head, release)
  {
    fetched := false;
    var own, made := PublishOwn(h, origin, clone, hub, head, release, quiet, first, base);
    if made.None? {
      return None, false;
    }
    if !release {
      SameOwnTag(h, clone.tags, origin.tags, head, own);
      assert hub.releases == old(hub.releases);
      return made, false;
    }
    ghost var known, releases, images := clone.tags, hub.releases, hub.images;
    var rest;
    rest, fetched := PublishRest(h, origin, clone, hub, own, head, quiet, first, base);
    OnlyInHistoryJoins(known, clone.tags, head, old(hub.releases), releases, hub.releases, old(hub.images), images, hub.images);
    if rest.None? {
      return None, fetched;
    }
    Joined(old(hub.releases), made.value, rest.value);
    return Some(made.value + rest.value), fetched;
  }

  // An own version of a commit with an image has its image afterwards, released or not.
  lemma OwnHasImage(tags: Tags, releases: seq<Version>, images: set<ImageTag>, head: nat, release: bool)
    requires OneTagEach(tags) && OwnTag(tags, head).Some? && OfCommit(head) in images
    ensures OfVersion(OwnTag(tags, head).value) in AfterPublish(tags, releases, images, head, release).1
  {
  }

  lemma Joined<T>(a: seq<T>, b: seq<T>, c: seq<T>)
    ensures a + b + c == a + (b + c)
  {
  }

  // Another `publish` on a quiet network, where every known tag has its release: it pushes
  // no tag and makes no release, and when it returns, it has changed nothing at all exactly
  // when every tag it goes back to without seeing its release listed had its image already,
  // or has none to give.
  method PublishAgain(h: History, origin: Origin, clone: Clone, hub: Hub, head: nat, ghost first: Version, ghost base: nat)
    returns (again: Option<seq<Version>>)
    requires head < |h| && Known(h, first, base, origin.tags, clone.tags) && clone.tags == origin.tags
    requires SpokenFor(h, origin.tags, head) && AllReleased(origin.tags, hub.releases, head)
    modifies origin, clone, hub
    ensures origin.tags == old(origin.tags) && clone.tags == old(clone.tags) && hub.releases == old(hub.releases)
    ensures again.Some? ==> again.value == []
    ensures again.Some? ==> (hub.images == old(hub.images) <==> NothingLeftToImage(old(hub.images), origin.tags, hub.releases, head))
  {
    var fetched;
    again, fetched := Publish(h, origin, clone, hub, head, true, true, first, base);
    SettledReleases(origin.tags, old(hub.releases), hub.releases, head);
    SettledRepeat(origin.tags, hub.releases, old(hub.images), head);
    assert again.Some? ==> |again.value| == 0;
  }

  // A `publish` and at once another, once the first has returned with every tag fetched.
  method PublishTwice(h: History, origin: Origin, clone: Clone, hub: Hub, head: nat,
                      ghost first: Version, ghost base: nat)
    returns (settled: bool, again: Option<seq<Version>>,
             ghost tags: Tags, ghost releases: seq<Version>, ghost images: set<ImageTag>)
    requires head < |h| && Known(h, first, base, origin.tags, clone.tags) && NoRepeats(hub.releases)
    modifies origin, clone, hub
    ensures settled ==> origin.tags == tags && clone.tags == tags && hub.releases == releases
    ensures settled ==> AllReleased(tags, releases, head)
    ensures settled && again.Some? ==> again.value == []
    ensures settled && again.Some? ==> (hub.images == images <==> NothingLeftToImage(images, tags, releases, head))
    ensures settled && |releases| <= LIST_LIMIT ==> NothingLeftToImage(images, tags, releases, head)
  {
    var r, fetched := Publish(h, origin, clone, hub, head, true, false, first, base);
    settled := r.Some? && fetched;
    again, tags, releases, images := None, origin.tags, hub.releases, hub.images;
    if settled {
      ListedIsImaged(tags, releases, old(hub.releases), old(hub.images), images, head);
      again := PublishAgain(h, origin, clone, hub, head, first, base);
    }
  }

  // Within the listing's limit a repeat leaves no image to tag.
  lemma ListedIsImaged(tags: Tags, releases: seq<Version>, former: seq<Version>, images: set<ImageTag>, imaged: set<ImageTag>, head: nat)
    requires OneTagEach(tags) && AllReleased(tags, releases, head)
    requires (releases, imaged) == AfterPublish(tags, former, images, head, true)
    ensures |releases| <= LIST_LIMIT ==> NothingLeftToImage(imaged, tags, releases, head)
  {
  }

  ghost predicate NothingLeftToImage(images: set<ImageTag>, tags: Tags, releases: seq<Version>, head: nat) {
    forall v :: v in tags && OfCommit(tags[v]) in images && (tags[v] == head || (InHistory(tags, v, head) && v !in Listed(releases)))
      ==> OfVersion(v) in images
  }

  lemma ImagesSettled(tags: Tags, releases: seq<Version>, images: set<ImageTag>, head: nat)
    requires OneTagEach(tags)
    ensures var own := OwnTag(tags, head);
      AllImaged(OwnImaged(images, own, head), tags, Waiting(tags, Listed(releases), own, head)) == images
      <==> NothingLeftToImage(images, tags, releases, head)
  {
  }

  lemma ReleasesSettled(tags: Tags, releases: seq<Version>, head: nat)
    requires OneTagEach(tags) && AllReleased(tags, releases, head)
    ensures OwnUnreleased(OwnTag(tags, head), releases) == []
    ensures Unreleased(Sorted(Waiting(tags, Listed(releases), OwnTag(tags, head), head)), releases) == []
  {
    var waiting := Waiting(tags, Listed(releases), OwnTag(tags, head), head);
    SortedHolds(waiting);
    NoneUnreleased(Sorted(waiting), releases);
  }

  // What a repeat makes of a settled state.
  lemma SettledRepeat(tags: Tags, releases: seq<Version>, images: set<ImageTag>, head: nat)
    requires OneTagEach(tags) && AllReleased(tags, releases, head)
    ensures AfterPublish(tags, releases, images, head, true).0 == releases
    ensures AfterPublish(tags, releases, images, head, true).1 == images <==> NothingLeftToImage(images, tags, releases, head)
  {
    ReleasesSettled(tags, releases, head);
    assert releases + [] == releases;
    ImagesSettled(tags, releases, images, head);
  }

  lemma SettledReleases(tags: Tags, releases: seq<Version>, more: seq<Version>, head: nat)
    requires releases <= more && NoRepeats(more)
    requires forall v :: v in more && v !in releases ==> Mine(tags, v, head)
    requires AllReleased(tags, releases, head)
    ensures more == releases
  {
    GrownHasNew(releases, more);
  }

  lemma GrownHasNew(releases: seq<Version>, more: seq<Version>)
    requires releases <= more && NoRepeats(more)
    ensures |more| > |releases| ==> exists v :: v in more && v !in releases
  {
    if |more| > |releases| {
      assert more[|releases|] in more;
    }
  }

  // ---- a repeat that does tag an image ----

  function Nth(k: nat): Version { Release(0, 1, k) }

  // One patch release on each of 501 commits; all are tagged, the last two not released.
  function ManyCommits(): History { seq(LIST_LIMIT + 1, i => false) }
  function ManyTags(): Tags { map k: nat | k <= LIST_LIMIT :: Nth(k) := k }
  function ManyReleases(): seq<Version> { seq(LIST_LIMIT - 1, (i: nat) => Nth(i)) }

  lemma NthAt(c: nat)
    requires c <= LIST_LIMIT
    ensures OneTagEach(ManyTags()) && c in ManyTags().Values && VersionAt(ManyTags(), c) == Nth(c)
  {
    assert Nth(c) in ManyTags() && ManyTags()[Nth(c)] == c;
  }

  lemma NthFollows(b: nat)
    requires b <= LIST_LIMIT
    ensures OneTagEach(ManyTags()) && Follows(ManyCommits(), ManyTags(), b)
  {
    NthAt(b);
    if b > 0 {
      NthAt(b - 1);
      assert Nearest(ManyTags(), b - 1) == b - 1;
      assert !HasFeature(ManyCommits(), b - 1, b);
    }
  }

  lemma ManyAreTagged()
    ensures TagsInv(ManyCommits(), Nth(0), 0, ManyTags())
    ensures OwnTag(ManyTags(), LIST_LIMIT) == Some(Nth(LIST_LIMIT))
  {
    NthAt(LIST_LIMIT);
    forall b: nat ensures Follows(ManyCommits(), ManyTags(), b) {
      if b in ManyTags().Values {
        NthFollows(b);
      }
    }
    assert Nth(0) in ManyTags();
  }

  lemma SortedOne(v: Version)
    ensures Sorted({v}) == [v]
  {
    SortedHolds({v});
    assert Sorted({v})[0] in {v};
  }

  // What is known of these releases: all but the last two, each once.
  lemma ManyReleased(k: nat)
    ensures Nth(k) in ManyReleases() <==> k < LIST_LIMIT - 1
    ensures NoRepeats(ManyReleases())
    ensures forall v :: v in ManyReleases() ==> v.Release? && v == Nth(v.patch) && v.patch < LIST_LIMIT - 1
  {
    assert k < LIST_LIMIT - 1 ==> ManyReleases()[k] == Nth(k);
  }

  lemma OneIsWaiting()
    ensures var more := ManyReleases() + [Nth(LIST_LIMIT)];
      && Waiting(ManyTags(), Listed(more), Some(Nth(LIST_LIMIT)), LIST_LIMIT) == {Nth(LIST_LIMIT - 1)}
      && Nth(LIST_LIMIT - 1) !in more
  {
    var more := ManyReleases() + [Nth(LIST_LIMIT)];
    ManyReleased(LIST_LIMIT - 1);
    var waiting := Waiting(ManyTags(), Listed(more), Some(Nth(LIST_LIMIT)), LIST_LIMIT);
    forall v ensures v in waiting <==> v == Nth(LIST_LIMIT - 1) {
      if v in ManyTags() {
        ManyReleased(v.patch);
        assert v == Nth(v.patch);
      }
    }
  }

  lemma FirstRun(images: set<ImageTag>)
    requires images == {OfCommit(0)}
    ensures OneTagEach(ManyTags())
    ensures AfterPublish(ManyTags(), ManyReleases(), images, LIST_LIMIT, true)
         == (ManyReleases() + [Nth(LIST_LIMIT), Nth(LIST_LIMIT - 1)], images)
  {
    ManyAreTagged();
    ManyReleased(LIST_LIMIT);
    OneIsWaiting();
    SortedOne(Nth(LIST_LIMIT - 1));
    var more := ManyReleases() + [Nth(LIST_LIMIT)];
    assert Unreleased([Nth(LIST_LIMIT - 1)], more) == [Nth(LIST_LIMIT - 1)];
    assert more + [Nth(LIST_LIMIT - 1)] == ManyReleases() + [Nth(LIST_LIMIT), Nth(LIST_LIMIT - 1)];
    assert AllImaged(images, ManyTags(), {Nth(LIST_LIMIT - 1)}) == images;
  }

  lemma AllAreReleased()
    ensures AllReleased(ManyTags(), ManyReleases() + [Nth(LIST_LIMIT), Nth(LIST_LIMIT - 1)], LIST_LIMIT)
  {
    ManyReleased(LIST_LIMIT);
    ManyReleased(LIST_LIMIT - 1);
    forall v | Mine(ManyTags(), v, LIST_LIMIT) ensures v in ManyReleases() + [Nth(LIST_LIMIT), Nth(LIST_LIMIT - 1)] {
      assert v == Nth(v.patch);
      ManyReleased(v.patch);
    }
  }

  lemma OldestIsUnlisted()
    ensures Nth(0) !in Listed(ManyReleases() + [Nth(LIST_LIMIT), Nth(LIST_LIMIT - 1)])
  {
    var releases := ManyReleases() + [Nth(LIST_LIMIT), Nth(LIST_LIMIT - 1)];
    var newest := releases[|releases| - LIST_LIMIT..];
    forall i | 0 <= i < |newest| ensures newest[i] != Nth(0) {
      assert newest[i] == releases[i + 1];
    }
  }

  // The first release's image came late and was never given its version. Making the last
  // two releases pushes that release off the listing, so this `publish` leaves the image
  // alone and a repeat tags it.
  lemma RepeatCanTagAnImage()
    ensures OneTagEach(ManyTags())
    ensures var tags, images := ManyTags(), {OfCommit(0)};
      var (releases, imaged) := AfterPublish(tags, ManyReleases(), images, LIST_LIMIT, true);
      && TagsInv(ManyCommits(), Nth(0), 0, tags)
      && |releases| == LIST_LIMIT + 1 && imaged == images
      && AllReleased(tags, releases, LIST_LIMIT) && !NothingLeftToImage(images, tags, releases, LIST_LIMIT)
      && AfterPublish(tags, releases, images, LIST_LIMIT, true).0 == releases
      && AfterPublish(tags, releases, images, LIST_LIMIT, true).1 != images
  {
    var tags, images: set<ImageTag> := ManyTags(), {OfCommit(0)};
    FirstRun(images);
    ManyAreTagged();
    AllAreReleased();
    var releases := AfterPublish(tags, ManyReleases(), images, LIST_LIMIT, true).0;
    OldestIsUnlisted();
    assert Nth(0) in tags && OfCommit(tags[Nth(0)]) in images && InHistory(tags, Nth(0), LIST_LIMIT);
    assert !NothingLeftToImage(images, tags, releases, LIST_LIMIT);
    SettledRepeat(tags, releases, images, LIST_LIMIT);
  }
}
