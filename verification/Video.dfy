// mitm/kosher_filter.py: how a clip passes the two response hooks. The headers hook
// lets it through, refuses it, judges it through its source, or holds it; the response
// hook decides again over a held clip. Both consult a verdict cache every other clip
// shares. What each media level hides is kosherd/src/kosherd/vision.py.
module Video {
  import opened Options
  import opened Numerals

  // ---- what a media level hides ----

  datatype Level = HideNothing | HideNsfw | HideSuggestive | HideImmodest | HidePeople | HideAll

  const CLEAN := 0
  const IMMODEST := 1
  const SUGGESTIVE := 2
  const NSFW := 3

  type Severity = s: nat | s <= NSFW

  datatype Verdict = Verdict(severity: Severity, hasPerson: bool)

  function HideAt(level: Level): Option<Severity> {
    match level
    case HideNothing => None
    case HideNsfw => Some(NSFW)
    case HideSuggestive => Some(SUGGESTIVE)
    case HideImmodest => Some(IMMODEST)
    case HidePeople => Some(IMMODEST)
    case HideAll => Some(CLEAN)
  }

  predicate Hides(level: Level, verdict: Verdict) {
    var threshold := HideAt(level);
    if threshold.None? then false
    else if threshold.value == CLEAN then true
    else if level == HidePeople && verdict.hasPerson then true
    else verdict.severity >= threshold.value
  }

  predicate IsChecked(level: Level) { level != HideNothing && level != HideAll }
  predicate IsStrict(level: Level) { level != HideNothing && level != HideNsfw }

  function Rank(level: Level): nat {
    match level
    case HideNothing => 0
    case HideNsfw => 1
    case HideSuggestive => 2
    case HideImmodest => 3
    case HidePeople => 4
    case HideAll => 5
  }

  // The ladder a parent chooses from is one: a stricter level hides whatever a milder
  // one does.
  lemma StricterHidesMore(milder: Level, stricter: Level, verdict: Verdict)
    requires Rank(milder) <= Rank(stricter) && Hides(milder, verdict)
    ensures Hides(stricter, verdict)
  {
    assert milder == HideSuggestive ==> stricter != HideNothing && stricter != HideNsfw;
  }

  // ---- the clip and its response ----

  // A Content-Range header: the first and last byte, and the whole size if named.
  datatype Range = Range(first: nat, last: nat, total: Option<nat>)

  // A response that carries a clip or a playlist of clips, as its headers tell it.
  datatype Clip = Clip(
    uid: Option<nat>,
    bypass: bool,
    playlist: bool,
    level: Level,
    blockedSite: bool,
    url: string,
    status: nat,
    range: Option<Range>,
    length: Option<int>,
    acceptsRanges: bool)

  const VIDEO_MAX_BYTES := 40 * 1024 * 1024

  function First(clip: Clip): nat { if clip.range.Some? then clip.range.value.first else 0 }

  function Total(clip: Clip): Option<int> {
    if clip.range.None? then clip.length
    else match clip.range.value.total
      case None => None
      case Some(size) => Some(size)
  }

  function Whole(clip: Clip): Option<int> { if Total(clip).Some? then Total(clip) else clip.length }

  function WithoutFragment(url: string): (base: string)
    ensures base <= url && '#' !in base
    ensures base == url || base + "#" <= url
  {
    if url == "" || url[0] == '#' then "" else [url[0]] + WithoutFragment(url[1..])
  }

  datatype Key = Key(base: string, total: Option<int>)

  function KeyOf(clip: Clip): Key { Key(WithoutFragment(clip.url), Total(clip)) }

  // A piece of a file, or a file too big to hold: not to be judged from what arrives.
  predicate ArrivesInPart(clip: Clip) {
    First(clip) > 0 || (Whole(clip).Some? && Whole(clip).value > VIDEO_MAX_BYTES)
  }

  predicate CanSample(clip: Clip) {
    Whole(clip).Some? && (clip.status == 206 || clip.acceptsRanges)
  }

  datatype Decision = Stream | Refuse | Hold | Sample

  function Decide(clip: Clip, available: bool, cached: Option<Verdict>): Decision {
    var uncheckable := if IsStrict(clip.level) then Refuse else Stream;
    if clip.level == HideNothing then Stream
    else if clip.blockedSite then Refuse
    else if !IsChecked(clip.level) then Refuse
    else if !available then uncheckable
    else if cached.Some? then if Hides(clip.level, cached.value) then Refuse else Stream
    else if ArrivesInPart(clip) then if CanSample(clip) then Sample else uncheckable
    else Hold
  }

  // How the body goes on: held for the response hook, straight through, or dropped.
  datatype Passage = Held | Through | Dropped
  datatype Mark = Unmarked | Unchecked | CheckedAs(severity: Severity) | Blocked
  datatype Response = Response(status: nat, mark: Mark, passage: Passage, body: seq<byte>)

  // What reaches the browser as the body.
  function Received(r: Response): seq<byte> { if r.passage == Dropped then [] else r.body }

  function RefusedBeforeBody(r: Response): Response { Response(403, Blocked, Dropped, r.body) }
  function RefusedHeld(): Response { Response(403, Blocked, Held, []) }

  function SettledBeforeBody(level: Level, verdict: Option<Verdict>, r: Response): Response {
    match verdict
    case None => if IsStrict(level) then RefusedBeforeBody(r) else r.(mark := Unchecked, passage := Through)
    case Some(v) => if Hides(level, v) then RefusedBeforeBody(r) else r.(mark := CheckedAs(v.severity), passage := Through)
  }

  function SettledHeld(level: Level, verdict: Option<Verdict>, r: Response): Response {
    match verdict
    case None => if IsStrict(level) then RefusedHeld() else r.(mark := Unchecked)
    case Some(v) => if Hides(level, v) then RefusedHeld() else r.(mark := CheckedAs(v.severity))
  }

  predicate PlaylistRefused(clip: Clip) {
    clip.level != HideNothing && (clip.blockedSite || !IsChecked(clip.level))
  }

  // The headers hook, given what the cache held and what sampling the source answered.
  function AtHeaders(clip: Clip, available: bool, cached: Option<Verdict>, sampled: Option<Verdict>, r: Response): Response {
    if clip.uid.None? || clip.bypass then r.(passage := Through)
    else if clip.playlist then r
    else match Decide(clip, available, cached)
      case Stream => r.(passage := Through)
      case Refuse => RefusedBeforeBody(r)
      case Sample => SettledBeforeBody(clip.level, sampled, r)
      case Hold => r
  }

  // The video path over a body that was held.
  function Filtered(clip: Clip, available: bool, cached: Option<Verdict>, judged: Option<Verdict>, r: Response): Response {
    if clip.playlist then if PlaylistRefused(clip) then RefusedHeld() else r
    else match Decide(clip, available, cached)
      case Stream => r
      case Refuse => RefusedHeld()
      case Sample => SettledHeld(clip.level, judged, r)
      case Hold => SettledHeld(clip.level, judged, r)
  }

  function AtResponse(clip: Clip, available: bool, cached: Option<Verdict>, judged: Option<Verdict>, r: Response): Response {
    if clip.uid.None? || r.passage != Held then r else Filtered(clip, available, cached, judged, r)
  }

  // Everything the two hooks may read of the outside world, in the order they read it.
  datatype Reads = Reads(cachedFirst: Option<Verdict>, sampled: Option<Verdict>,
                         cachedThen: Option<Verdict>, judged: Option<Verdict>)

  function Arriving(clip: Clip, body: seq<byte>): Response { Response(clip.status, Unmarked, Held, body) }

  function Lifecycle(clip: Clip, available: bool, looked: Reads, body: seq<byte>): Response {
    AtResponse(clip, available, looked.cachedThen, looked.judged,
               AtHeaders(clip, available, looked.cachedFirst, looked.sampled, Arriving(clip, body)))
  }

  // ---- what decides whether a clip is delivered ----

  // The looks taken at this clip, in order; each finds a verdict or nothing.
  function Looks(clip: Clip, looked: Reads): seq<Option<Verdict>> {
    [looked.cachedFirst]
    + (if !ArrivesInPart(clip) then [looked.cachedThen, looked.judged]
       else if CanSample(clip) then [looked.sampled]
       else [])
  }

  function FirstFound(looks: seq<Option<Verdict>>): (found: Option<Verdict>)
    ensures found.Some? ==> found in looks
    ensures found.None? <==> forall i :: 0 <= i < |looks| ==> looks[i].None?
  {
    if looks == [] then None
    else if looks[0].Some? then looks[0]
    else FirstFound(looks[1..])
  }

  function Ruling(clip: Clip, available: bool, looked: Reads): Option<Verdict> {
    if available then FirstFound(Looks(clip, looked)) else None
  }

  lemma RulingOf(clip: Clip, available: bool, looked: Reads)
    ensures Ruling(clip, available, looked) ==
            if !available then None
            else if looked.cachedFirst.Some? then looked.cachedFirst
            else if !ArrivesInPart(clip) then if looked.cachedThen.Some? then looked.cachedThen else looked.judged
            else if CanSample(clip) then looked.sampled else None
  {
    if available && looked.cachedFirst.None? {
      var rest := Looks(clip, looked)[1..];
      assert FirstFound(Looks(clip, looked)) == FirstFound(rest);
      if !ArrivesInPart(clip) {
        assert rest == [looked.cachedThen, looked.judged] && rest[1..] == [looked.judged];
        assert [looked.judged][1..] == [];
      } else if CanSample(clip) {
        assert rest == [looked.sampled] && rest[1..] == [];
      } else {
        assert rest == [];
      }
    }
  }

  // Whether a filtered account receives a clip. Nothing about when the verdict was
  // found, or which hook found it, makes a difference.
  ghost predicate MayPass(clip: Clip, ruling: Option<Verdict>) {
    || clip.bypass
    || clip.level == HideNothing
    || (&& !clip.blockedSite
        && IsChecked(clip.level)
        && (clip.playlist || (if ruling.Some? then !Hides(clip.level, ruling.value) else !IsStrict(clip.level))))
  }

  // A clip arrives whole or not at all, and it arrives exactly when it may pass; what
  // is refused says so.
  lemma DeliveredExactlyWhenItMayPass(clip: Clip, available: bool, looked: Reads, body: seq<byte>)
    requires clip.uid.Some?
    ensures var r := Lifecycle(clip, available, looked, body);
            if MayPass(clip, Ruling(clip, available, looked))
            then Received(r) == body && r.status == clip.status && r.mark != Blocked
            else Received(r) == [] && r.status == 403 && r.mark == Blocked
  {
    RulingOf(clip, available, looked);
  }

  // At the strict levels no byte of a clip arrives without a bypass mark or a verdict
  // this level accepts, and at the strictest only the bypass mark will do.
  lemma NoUnjudgedByte(clip: Clip, available: bool, looked: Reads, body: seq<byte>)
    requires clip.uid.Some? && !clip.playlist && IsStrict(clip.level)
    requires Received(Lifecycle(clip, available, looked, body)) != []
    ensures clip.bypass || clip.level != HideAll
    ensures clip.bypass || exists look :: look in Looks(clip, looked) && look.Some? && !Hides(clip.level, look.value)
  {
    DeliveredExactlyWhenItMayPass(clip, available, looked, body);
    if !clip.bypass {
      assert Ruling(clip, available, looked) in Looks(clip, looked);
    }
  }

  // The mark a delivered clip carries tells the truth about it.
  lemma MarksAreTrue(clip: Clip, available: bool, looked: Reads, body: seq<byte>)
    ensures var r := Lifecycle(clip, available, looked, body);
            && (r.mark.CheckedAs? ==>
                  exists v: Verdict :: Ruling(clip, available, looked) == Some(v) && v.severity == r.mark.severity && !Hides(clip.level, v))
            && (r.mark.Unchecked? ==> clip.level == HideNsfw && Ruling(clip, available, looked).None?)
  {
    RulingOf(clip, available, looked);
  }

  // With the same reads, a clip a stricter level lets through passes a milder one too.
  lemma StricterDeliversLess(clip: Clip, stricter: Level, available: bool, looked: Reads, body: seq<byte>)
    requires clip.uid.Some? && Rank(clip.level) <= Rank(stricter)
    requires Received(Lifecycle(clip.(level := stricter), available, looked, body)) != []
    ensures Received(Lifecycle(clip, available, looked, body)) == body
  {
    var strict := clip.(level := stricter);
    DeliveredExactlyWhenItMayPass(strict, available, looked, body);
    DeliveredExactlyWhenItMayPass(clip, available, looked, body);
    assert Looks(strict, looked) == Looks(clip, looked);
    var ruling := Ruling(clip, available, looked);
    assert ruling == Ruling(strict, available, looked);
    if ruling.Some? && Hides(clip.level, ruling.value) {
      StricterHidesMore(clip.level, stricter, ruling.value);
    }
  }

  // What the browser can tell apart.
  function Seen(r: Response): (nat, Mark, seq<byte>) { (r.status, r.mark, Received(r)) }

  // The synchronous path takes every decision over the held body. For a clip no bypass
  // rule covers, the browser cannot tell it from the two hooks, whichever of them
  // answers, as long as the cache and the judge say the same.
  lemma OnePathOneAnswer(clip: Clip, available: bool, cached: Option<Verdict>, answer: Option<Verdict>, body: seq<byte>)
    requires clip.uid.Some? && !clip.bypass
    ensures Seen(Lifecycle(clip, available, Reads(cached, answer, cached, answer), body))
         == Seen(Filtered(clip, available, cached, answer, Arriving(clip, body)))
  {
    var arriving := Arriving(clip, body);
    var first := AtHeaders(clip, available, cached, answer, arriving);
    if !clip.playlist && Decide(clip, available, cached) == Hold {
      assert first == arriving;
    }
  }

  // ---- what a verdict was reached over ----

  // A clip that was judged, and the verdict.
  datatype Judgement = Judgement(clip: Clip, verdict: Verdict)

  ghost predicate WasJudged(judged: set<Judgement>, key: Key, verdict: Verdict) {
    exists j :: j in judged && KeyOf(j.clip) == key && j.verdict == verdict
  }

  // The body is what the headers say of a file.
  ghost predicate Carries(clip: Clip, file: seq<byte>, body: seq<byte>) {
    if clip.range.None? then body == file
    else
      var r := clip.range.value;
      r.first <= r.last < |file| && body == file[r.first..r.last + 1] && (r.total.Some? ==> r.total.value == |file|)
  }

  // The headers leave open that a held body is less than the file.
  predicate HoldsPiece(clip: Clip) {
    && !ArrivesInPart(clip)
    && clip.range.Some? && (clip.range.value.total.None? || clip.range.value.last + 1 != clip.range.value.total.value)
  }

  // A clip judged from its held body is judged whole exactly when its last byte is the
  // file's; when the size is named, the headers say which.
  lemma HeldIsWholeExactly(clip: Clip, file: seq<byte>, body: seq<byte>)
    requires Carries(clip, file, body) && !ArrivesInPart(clip)
    ensures body == file <==> clip.range.None? || clip.range.value.last + 1 == |file|
    ensures clip.range.None? || clip.range.value.total.Some? ==> (body == file <==> !HoldsPiece(clip))
  {
    if clip.range.Some? && clip.range.value.last + 1 < |file| {
      assert |body| < |file|;
    }
  }

  // While no clip was ever judged from a held piece, every remembered verdict was reached
  // over the whole file or over samples spread through it.
  lemma CachedVerdictsSawTheFile(judged: set<Judgement>, key: Key, verdict: Verdict)
    requires WasJudged(judged, key, verdict)
    requires forall j :: j in judged ==> !HoldsPiece(j.clip)
    ensures exists j ::
              && j in judged && KeyOf(j.clip) == key && j.verdict == verdict
              && (ArrivesInPart(j.clip) || forall file, body :: Carries(j.clip, file, body) ==> body == file)
  {
    var j :| j in judged && KeyOf(j.clip) == key && j.verdict == verdict;
    if !ArrivesInPart(j.clip) {
      forall file, body | Carries(j.clip, file, body) ensures body == file {
        HeldIsWholeExactly(j.clip, file, body);
      }
    }
  }

  // The first bytes of a file, and the bytes that follow them.
  function FirstPiece(url: string): Clip {
    Clip(Some(0), false, false, HideImmodest, false, url, 206, Some(Range(0, 740, Some(5_000_000))), Some(741), true)
  }

  function NextPiece(url: string): Clip {
    Clip(Some(0), false, false, HideImmodest, false, url, 206, Some(Range(741, 4_999_999, Some(5_000_000))), Some(4_999_259), true)
  }

  // A first piece is held and judged by itself, as the whole file: 741 bytes of five
  // million. A verdict found for it lets every later piece through unlooked at.
  lemma FirstPieceStandsForTheFile(url: string, verdict: Verdict, looked: Reads, body: seq<byte>)
    requires !Hides(HideImmodest, verdict) && looked.cachedFirst == Some(verdict)
    ensures Decide(FirstPiece(url), true, None) == Hold && HoldsPiece(FirstPiece(url))
    ensures forall file, held :: Carries(FirstPiece(url), file, held) ==> |held| == 741 && |file| == 5_000_000
    ensures KeyOf(NextPiece(url)) == KeyOf(FirstPiece(url))
    ensures Received(Lifecycle(NextPiece(url), true, looked, body)) == body
  {
  }

  // ---- the hooks ----

  // The verdict checker and the cache all clips share. `inflight` are the judgements
  // through the source under way, with the clip each was begun for. `judged` is every
  // judgement any clip ever got; verdicts leave the cache, never this.
  class Checker {
    const available: bool
    var cache: map<Key, Verdict>
    var inflight: map<Key, Clip>
    ghost var judged: set<Judgement>

    ghost predicate Valid()
      reads this
    {
      && (forall key :: key in cache ==> WasJudged(judged, key, cache[key]))
      && forall key :: key in inflight ==> KeyOf(inflight[key]) == key && ArrivesInPart(inflight[key])
    }

    constructor (available: bool)
      ensures Valid() && this.available == available && cache == map[] && inflight == map[]
    {
      this.available := available;
      cache, inflight := map[], map[];
      judged := {};
    }

    function Cached(key: Key): Option<Verdict>
      reads this
    {
      if key in cache then Some(cache[key]) else None
    }

    // A judgement lands in the cache.
    method Land(clip: Clip, verdict: Verdict)
      requires Valid()
      modifies this`cache, this`judged
      ensures Valid() && judged == old(judged) + {Judgement(clip, verdict)}
      ensures cache == old(cache)[KeyOf(clip) := verdict]
      ensures WasJudged(judged, KeyOf(clip), verdict)
    {
      judged := judged + {Judgement(clip, verdict)};
      cache := cache[KeyOf(clip) := verdict];
      assert Judgement(clip, verdict) in judged;
      assert forall key, v :: WasJudged(old(judged), key, v) ==> WasJudged(judged, key, v);
    }

    // Other clips are judged, begun to be, and old verdicts dropped while this one waits.
    method Meanwhile()
      requires Valid()
      modifies this
      ensures Valid() && old(judged) <= judged
    {
      var steps: nat := *;
      while steps > 0
        invariant Valid() && old(judged) <= judged
      {
        var other: Clip := *;
        var verdict: Verdict := *;
        var forget: bool := *;
        var begin: bool := *;
        if forget {
          cache, inflight := cache - {KeyOf(other)}, inflight - {KeyOf(other)};
        } else if begin && ArrivesInPart(other) {
          inflight := inflight[KeyOf(other) := other];
        } else {
          Land(other, verdict);
        }
        steps := steps - 1;
      }
    }

    // A verdict for the clip, from the cache or a fresh judgement, over the held body or
    // over ranges of its source; None when there is no checker, when the clip could not be
    // read, or when the judgement outlasts its deadline, though it still lands.
    method VerdictFor(clip: Clip) returns (answer: Option<Verdict>)
      requires Valid()
      modifies this
      ensures Valid() && old(judged) <= judged
      ensures answer.Some? ==> WasJudged(judged, KeyOf(clip), answer.value)
      ensures old(Cached(KeyOf(clip))).Some? ==> answer == old(Cached(KeyOf(clip)))
      ensures old(Cached(KeyOf(clip))).None? && answer.Some? ==> available && Judgement(clip, answer.value) in judged
    {
      answer := Cached(KeyOf(clip));
      if answer.Some? || !available {
        return;
      }
      Meanwhile();
      var readable: bool := *;
      var late: bool := *;
      if readable {
        var verdict: Verdict := *;
        Land(clip, verdict);
        answer := if late then None else Some(verdict);
      }
    }

    // The same off the event loop, through the source: one judgement under way serves all
    // the pieces of a file that ask meanwhile.
    method VerdictRemoteAsync(clip: Clip) returns (answer: Option<Verdict>)
      requires Valid() && ArrivesInPart(clip)
      modifies this
      ensures Valid() && old(judged) <= judged
      ensures answer.Some? ==> WasJudged(judged, KeyOf(clip), answer.value)
      ensures old(Cached(KeyOf(clip))).Some? ==> answer == old(Cached(KeyOf(clip)))
      ensures old(Cached(KeyOf(clip))).None? && answer.Some? ==>
        available && exists j :: j in judged && KeyOf(j.clip) == KeyOf(clip) && j.verdict == answer.value && ArrivesInPart(j.clip)
    {
      answer := Cached(KeyOf(clip));
      if answer.Some? || !available {
        return;
      }
      if KeyOf(clip) !in inflight {
        inflight := inflight[KeyOf(clip) := clip];
      }
      var begun := inflight[KeyOf(clip)];
      Meanwhile();
      var readable: bool := *;
      var late: bool := *;
      if !late {
        inflight := inflight - {KeyOf(clip)};
      }
      if readable {
        var verdict: Verdict := *;
        Land(begun, verdict);
        assert Judgement(begun, verdict) in judged;
        answer := if late then None else Some(verdict);
      }
    }
  }

  class Flow {
    const clip: Clip
    var status: nat
    var mark: Mark
    var passage: Passage
    var body: seq<byte>

    constructor (clip: Clip, body: seq<byte>)
      ensures this.clip == clip && Now() == Arriving(clip, body)
    {
      this.clip := clip;
      this.status := clip.status;
      this.mark := Unmarked;
      this.passage := Held;
      this.body := body;
    }

    function Now(): Response
      reads this
    {
      Response(status, mark, passage, body)
    }

    method RefuseVideo(beforeBody: bool)
      modifies this
      ensures Now() == if beforeBody then RefusedBeforeBody(old(Now())) else RefusedHeld()
    {
      status := 403;
      mark := Blocked;
      if beforeBody {
        passage := Dropped;
        return;
      }
      passage := Held;
      body := [];
    }

    method SettleBeforeBody(verdict: Option<Verdict>)
      modifies this
      ensures Now() == SettledBeforeBody(clip.level, verdict, old(Now()))
    {
      if verdict.None? {
        if IsStrict(clip.level) {
          RefuseVideo(true);
          return;
        }
        mark := Unchecked;
        passage := Through;
        return;
      }
      if Hides(clip.level, verdict.value) {
        RefuseVideo(true);
        return;
      }
      mark := CheckedAs(verdict.value.severity);
      passage := Through;
    }

    method VideoSettle(verdict: Option<Verdict>)
      modifies this
      ensures Now() == SettledHeld(clip.level, verdict, old(Now()))
    {
      if verdict.None? {
        if IsStrict(clip.level) {
          RefuseVideo(false);
        } else {
          mark := Unchecked;
        }
        return;
      }
      if Hides(clip.level, verdict.value) {
        RefuseVideo(false);
        return;
      }
      mark := CheckedAs(verdict.value.severity);
    }

    method ResponseHeaders(checker: Checker) returns (cached: Option<Verdict>, sampled: Option<Verdict>)
      requires checker.Valid()
      modifies this, checker
      ensures checker.Valid() && old(checker.judged) <= checker.judged
      ensures cached == old(checker.Cached(KeyOf(clip)))
      ensures sampled.Some? ==> WasJudged(checker.judged, KeyOf(clip), sampled.value)
      ensures Now() == AtHeaders(clip, checker.available, cached, sampled, old(Now()))
    {
      cached, sampled := checker.Cached(KeyOf(clip)), None;
      if clip.uid.None? {
        passage := Through;
        return;
      }
      if clip.bypass {
        passage := Through;
        return;
      }
      if clip.playlist {
        return;
      }
      match Decide(clip, checker.available, cached) {
        case Stream => passage := Through;
        case Refuse => RefuseVideo(true);
        case Sample =>
          sampled := checker.VerdictRemoteAsync(clip);
          SettleBeforeBody(sampled);
        case Hold =>
      }
    }

    // The video path over a held body, synchronously, as the tools take it.
    method FilterVideo(checker: Checker) returns (cached: Option<Verdict>, judged: Option<Verdict>)
      requires checker.Valid()
      modifies this, checker
      ensures checker.Valid() && old(checker.judged) <= checker.judged
      ensures cached == old(checker.Cached(KeyOf(clip)))
      ensures judged.Some? ==> WasJudged(checker.judged, KeyOf(clip), judged.value)
      ensures Now() == Filtered(clip, checker.available, cached, judged, old(Now()))
    {
      cached, judged := checker.Cached(KeyOf(clip)), None;
      if clip.playlist {
        if PlaylistRefused(clip) {
          RefuseVideo(false);
        }
        return;
      }
      var decision := Decide(clip, checker.available, cached);
      if decision == Stream {
        return;
      }
      if decision == Refuse {
        RefuseVideo(false);
        return;
      }
      judged := checker.VerdictFor(clip);
      VideoSettle(judged);
    }

    // The same in the response hook, waiting off the event loop.
    method FilterVideoAsync(checker: Checker) returns (cached: Option<Verdict>, judged: Option<Verdict>)
      requires checker.Valid()
      modifies this, checker
      ensures checker.Valid() && old(checker.judged) <= checker.judged
      ensures cached == old(checker.Cached(KeyOf(clip)))
      ensures judged.Some? ==> WasJudged(checker.judged, KeyOf(clip), judged.value)
      ensures Now() == Filtered(clip, checker.available, cached, judged, old(Now()))
    {
      cached, judged := checker.Cached(KeyOf(clip)), None;
      if clip.playlist {
        if PlaylistRefused(clip) {
          RefuseVideo(false);
        }
        return;
      }
      var decision := Decide(clip, checker.available, cached);
      if decision == Stream {
        return;
      }
      if decision == Refuse {
        RefuseVideo(false);
        return;
      }
      if decision == Sample {
        judged := checker.VerdictRemoteAsync(clip);
      } else {
        judged := checker.VerdictFor(clip);
      }
      VideoSettle(judged);
    }

    method RespondTo(checker: Checker) returns (cached: Option<Verdict>, judged: Option<Verdict>)
      requires checker.Valid()
      modifies this, checker
      ensures checker.Valid() && old(checker.judged) <= checker.judged
      ensures cached == old(checker.Cached(KeyOf(clip)))
      ensures judged.Some? ==> WasJudged(checker.judged, KeyOf(clip), judged.value)
      ensures Now() == AtResponse(clip, checker.available, cached, judged, old(Now()))
    {
      cached, judged := checker.Cached(KeyOf(clip)), None;
      if clip.uid.None? {
        return;
      }
      if passage != Held {
        return;
      }
      cached, judged := FilterVideoAsync(checker);
    }

    // A clip from its headers to its end, with anything at all happening to the cache
    // in between. Byte for byte it is what came or nothing, and at the strict levels a
    // clip that came through was judged, under its own address and size, to be one this
    // level shows.
    method Serve(checker: Checker) returns (looked: Reads)
      requires checker.Valid() && Now() == Arriving(clip, body)
      modifies this, checker
      ensures checker.Valid() && old(checker.judged) <= checker.judged
      ensures Now() == Lifecycle(clip, checker.available, looked, old(body))
      ensures Received(Now()) == old(body) || Received(Now()) == []
      ensures clip.uid.Some? && !clip.bypass && !clip.playlist && IsStrict(clip.level) && Received(Now()) != [] ==>
                clip.level != HideAll && exists v :: WasJudged(checker.judged, KeyOf(clip), v) && !Hides(clip.level, v)
    {
      ghost var sent := body;
      var cachedFirst, sampled := ResponseHeaders(checker);
      checker.Meanwhile();
      var cachedThen, judged := RespondTo(checker);
      looked := Reads(cachedFirst, sampled, cachedThen, judged);
      if clip.uid.Some? {
        DeliveredExactlyWhenItMayPass(clip, checker.available, looked, sent);
        RulingOf(clip, checker.available, looked);
      }
    }
  }
}
