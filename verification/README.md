# KosherOS: verified models of its protocols

KosherOS is a filtered desktop: a proxy that judges what reaches an account, a search
page in front of a metasearch engine, and a release machinery that numbers every merge.
This project models the parts of it where a mistake is hard to see in review, and proves
what they promise. `dafny verify dfyconfig.toml` checks all of it.

- **Numbering releases** (`Versions`, `TagChain`, `ReserveRuns`, `PublishReleases`).
  Several CI runs, each with its own stale clone, count a version from the history and
  claim it by pushing a tag, which the remote refuses if the name is taken. A history is
  a list of commits, each asking for a minor step or not; the remote is a map from
  versions to commits; runs interleave as they like. The race always leaves the tags a
  sequential walk would. `publish` then finishes whatever earlier runs left unreleased.
- **The search cache** (`SearchCache`, `SingleFlight`, `SearchSteps`, `SearchGuarantees`).
  Threads share an ordered cache with expiry and a table of requests in flight. Each region
  under the lock is one step of a state machine over any number of calls, any interleaving
  and every error path.
- **The two-part page** (`Chunked`). The bytes sent for a page in two chunks, and the
  reader of section 7.1 of RFC 9112.
- **The suite scheduler** (`Sorting`, `Scheduler`). Greedy longest-first packing against
  every other split of the same suites, and shards worked out apart that cover the
  selection once.
- **The injection point** (`Walks`, `Markup`, `Injection`). The scanner that finds where
  a script tag may go, as a walk over a page driven by what is seen at each position.
- **Clips** (`Video`). The two response hooks of a clip and the verdict cache every clip
  shares, with any history of that cache while a hook waits and between the hooks.
- **Feeds** (`FeedPruning`). The three depth-bounded walks over a feed's JSON.
- **The judge's limit** (`JudgeLimit`). A counter a page token in a bounded table that
  forgets the token longest unheard.
- **The daily budget** (`CalmBudget`). Seconds per site and day, kept in memory, written
  out now and then, over restarts and crashes.
- **The feed that ends** (`FeedCap`, `FeedNames`). Counting posts rather than elements over
  arbitrary page changes, and going quiet; and what two unlucky post names do to it.
- **The archive writer** (`Cpio`). The `newc` writer and the reader of cpio(5).

`Numerals` holds the decimal and hexadecimal digits the others read and write, `Sorting`
Python's `sorted` and its order of lists, and `Options` the one option type.

Where the source changes state, the model is a class or a method with loops, proved
against a function; what is promised is then proved of the function, for all inputs or
over all runs. Git, the release hub, the registry, the network and the clocks are stores
and arguments; a `:= *` is a choice the outside world makes.

Where the code does less than its own text says, the code is followed:

- A search hit is under a minute from being *stored*. Since its fetch a minute or more may
  have passed (`SearchGuarantees.HitCanBeOlderThanAMinute`), exactly when its owner let
  time pass between fetching and storing (`HitIsOldExactly`, `StoredLateExactly`); while
  every owner stores at once, every hit is fresh (`PromptOwnersServeFreshAnswers`).
- A failed `reserve` can have created its tag (`ReserveRuns.LostAnswerLeavesTag`), over
  every run exactly when a push took a free name, its answer was lost, and the run's next
  fetch failed (`ReserveRuns.FailsWithTagExactly`).
- A repeated `publish` can still tag an image, past the 500 releases it lists: 501 releases
  and the run that leads there are `PublishReleases.RepeatCanTagAnImage`.
  `PublishReleases.SettledRepeat` says exactly when it changes nothing.
- A page may make up to 239 judge calls in some minute, never 240
  (`JudgeLimit.AtMostInAMinute`, `JudgeLimit.BoundIsTight`).
- A post named `__proto__` is counted again on every pass, and one named
  `hasOwnProperty` makes that pass and every later one throw
  (`FeedNames.ProtoIsCountedTwice`, `FeedNames.AskStopsTheScript`). From the page and the
  count before a pass, `FeedNames.ListRepeatsExactly` and `FeedNames.PassThrowsExactly` say
  when; where no document shows such a post, it never happens (`NoProtoNoRepeat`,
  `NoAskNoThrow`).
- A clip that arrives as the first piece of a file is held and judged by that piece, and
  the verdict is remembered for the whole file (`Video.FirstPieceStandsForTheFile`);
  `Video.HeldIsWholeExactly` says which headers mean the judgement saw the file.
- An archive of a tree with a top-level entry named `TRAILER!!!` ends there for a reader;
  `Cpio.ArchiveReadsBack` is an equivalence.

## Model

| member | source | states |
|---|---|---|
| `Numerals.DecimalRoundTrip` | scripts/version.py:73-74 | a number written in decimal reads back as itself |
| `Numerals.HexRoundTrip` | search-app/kosher_search/server.py:327-330 | a chunk size written in hexadecimal reads back as itself |
| `Numerals.Hex8RoundTrip` | scripts/brand-iso.py:178-182 | a header field below 2^32 is exactly eight digits and reads back as itself |
| `Versions.ParseFmt` | scripts/version.py:61-74 | a formatted plain version parses to the same three numbers |
| `Versions.ParseText` | scripts/version.py:61-74 | the text of any version, of the old -pre series too, parses to that version |
| `Versions.TagNamesDistinct` | scripts/version.py:61-74 | two versions, plain or of the old series, have one tag name exactly when they are one version, so tags can be keyed by version |
| `Versions.KindOfAny` | scripts/version.py:77-91 | one message that asks for a minor step decides, wherever it stands; the step is never major |
| `Versions.NextVersionParses` | scripts/version.py:94-109 | the text that follows any version, plain or -pre, is the text of a strictly later plain one and parses to it; a major step is refused on exactly the plain ones |
| `TagChain.KindSinceReadsMessages` | scripts/version.py:140-155 | the step of a range depends only on whether a commit in it asks for a minor step; blank messages never matter |
| `TagChain.Nearest` | scripts/version.py:126-137 | the nearest tagged commit at or before a commit: none lies between |
| `TagChain.VersionsAscend` | scripts/publish-releases.py:157-194 | in a chain of tags later commits carry strictly later versions |
| `TagChain.StepAbsorbs` | scripts/version.py:94-109 | stepping past a patch release to a feature lands where the feature alone would |
| `TagChain.CountFromOlder` | scripts/publish-releases.py:157-194 | a version counted from an older tag is taken by a tag in between, or is the one counted from the nearer tag |
| `TagChain.StaleCount` | scripts/publish-releases.py:169-170 | what a stale view counts is a taken version of a tag further on, or exactly the complete view's answer |
| `TagChain.FreshCountIsAhead` | scripts/publish-releases.py:184-190 | with a complete view, a taken version is on a later commit |
| `TagChain.InsertKeepsChain` | scripts/publish-releases.py:171-175 | the complete view's tag keeps the chain, put before, between or after the others |
| `TagChain.InsertBefore` | scripts/publish-releases.py:184-187 | the tagged commit after the new one still follows from its new neighbour |
| `ReserveRuns.LandedPush` | scripts/publish-releases.py:168-175 | one landed push, from any stale view, keeps the remote's tags a chain from the base |
| `ReserveRuns.RecountAdvances` | scripts/publish-releases.py:188-190 | counting again strictly advances the nearest reachable tag, which is before this commit |
| `ReserveRuns.PushKeepsRun` | scripts/publish-releases.py:171-175 | a push keeps what each run knows true |
| `ReserveRuns.FetchKeepsRun` | scripts/publish-releases.py:176-192 | a fetch, working or not, keeps what each run knows true, in every branch after it |
| `ReserveRuns.PlayKeepsInv` | scripts/publish-releases.py:157-194 | the invariant holds after every interleaving of starts, pushes and fetches |
| `ReserveRuns.WalkReaches` | scripts/version.py:158-170 | the walk that tags one commit at a time with a complete view reaches the tags of a chain, at every prefix |
| `ReserveRuns.RaceLeavesSequentialChain` | scripts/publish-releases.py:157-194 | however runs interleave and however stale their views, the remote holds exactly the sequential walk's tags, one version a commit and one commit a version, ascending |
| `ReserveRuns.TryFailsWithTag` | scripts/publish-releases.py:171-182 | one try exits with an error and has made its tag exactly when the answer was lost, the fetch failed and the name was free |
| `ReserveRuns.FailsWithTagExactly` | scripts/publish-releases.py:168-182 | over every run: a run has failed and left its tag exactly when a push of it took a free name with its answer lost and its next fetch failed |
| `ReserveRuns.HowRunsEnd` | scripts/publish-releases.py:174-194 | a tagged run has its tag on its commit; a contained one is inside a tagged commit and made none; a failed one made a tag exactly when a push took a free name unanswered and the next fetch failed; recounts are bounded by the commits since the base |
| `ReserveRuns.LostAnswerLeavesTag` | scripts/publish-releases.py:171-182 | a run that exits with an error can have made its tag: the concrete case |
| `PublishReleases.OthersPush` | scripts/publish-releases.py:157-194 | any number of other runs keep the remote's tags a chain and take no tag away |
| `PublishReleases.PushTag` | scripts/publish-releases.py:171-175 | an accepted push leaves the tag on this commit in clone and remote; a refused one leaves the clone alone; the chain is kept |
| `PublishReleases.LookAgain` | scripts/publish-releases.py:176-192 | what the tag found after a refused push means: this commit, a later one, an earlier one, or an error |
| `PublishReleases.Recounting` | scripts/publish-releases.py:188-190 | a loop that goes round has fetched and has a strictly nearer tag to count from |
| `PublishReleases.Reserve` | scripts/publish-releases.py:157-194 | the whole loop: it ends; a returned tag is on this commit, None means a later tagged commit contains it, and a commit already spoken for is left alone |
| `PublishReleases.Hub.Create` | scripts/publish-releases.py:214-235 | creating a release never makes a second one for a tag, and may work while reporting an error |
| `PublishReleases.Listed` | scripts/publish-releases.py:104-108 | the listing shows true releases, and all of them up to its limit |
| `PublishReleases.CreateRelease` | scripts/publish-releases.py:214-235 | after three attempts with a doubling wait: made exactly when the release exists, never twice, and the time waited |
| `PublishReleases.Finish` | scripts/publish-releases.py:238-260 | the image is tagged and signed if it can be, one found tagged is not signed again, and with releases on the release exists afterwards; the answer says whether this run made it |
| `PublishReleases.SortedHolds` | scripts/publish-releases.py:281-285 | the waiting tags are gone through in strictly ascending version order, each once |
| `PublishReleases.FinishWaiting` | scripts/publish-releases.py:286-289 | every waiting tag is released afterwards and `made` lists exactly those that were not, in order |
| `PublishReleases.PublishOwn` | scripts/publish-releases.py:269-277 | this commit's own version is reserved and finished, and nothing outside its history touched |
| `PublishReleases.FetchTags` | scripts/publish-releases.py:94-101 | the fetch of the tags: everything the remote has, or nothing new |
| `PublishReleases.PublishOthers` | scripts/publish-releases.py:278-293 | every plain version tag the clone knows in this commit's history has exactly one release afterwards, the new ones in version order |
| `PublishReleases.Publish` | scripts/publish-releases.py:263-293 | every tag the clone knows in this commit's history (every one of the remote's when its last fetch worked) has exactly one release, none outside it is touched, and releases and images are exactly those of AfterPublish |
| `PublishReleases.SettledRepeat` | scripts/publish-releases.py:263-293 | once every known tag has its release a repeat makes none, and tags no image exactly when none is left to tag |
| `PublishReleases.PublishAgain` | scripts/publish-releases.py:263-293 | such a repeat on a quiet network pushes nothing, makes nothing and changes no image, under that condition and no other |
| `PublishReleases.PublishTwice` | scripts/publish-releases.py:263-293 | the two in a row: nothing left to image within the listing's limit, else the condition above |
| `PublishReleases.RepeatCanTagAnImage` | scripts/publish-releases.py:104-108 | 501 tagged commits: the first publish releases all, pushes the oldest off the list, and the repeat tags its image |
| `Sorting.SortKeeps` | scripts/pr-test.py:1017-1021 | sorting keeps every element as often as it was there, in order |
| `Scheduler.MeasuredTimesArePositive` | scripts/pr-test.py:999-1003 | every suite takes time, listed or not |
| `Scheduler.NamesAreOrdered` | scripts/pr-test.py:1021 | names, and lists of names, are in a total order, each by its first difference |
| `Scheduler.LeastLoaded` | scripts/pr-test.py:1018 | the first of the least loads |
| `Scheduler.PlaceOn` | scripts/pr-test.py:1018-1020 | one suite onto the first least loaded bin, in place |
| `Scheduler.PlaceAll` | scripts/pr-test.py:1017-1020 | every suite in turn, as the specification packs them |
| `Scheduler.GroupsFor` | scripts/pr-test.py:1012-1021 | the loop over bins and loads makes the groups of the specification |
| `Scheduler.GroupsHoldAll` | scripts/pr-test.py:1012-1021 | every suite is in the groups exactly as often as it was selected |
| `Scheduler.BinsFill` | scripts/pr-test.py:1015-1020 | the bins fill from the first, so none is empty with a suite for each |
| `Scheduler.GroupsAreBins` | scripts/pr-test.py:1012-1021 | exactly min(n, number of suites) groups, none empty, each the suites of one bin with its load and in name order |
| `Scheduler.GroupsAreEven` | scripts/pr-test.py:1012-1021 | two groups never differ by more than one suite of the fuller |
| `Scheduler.LongSuitesFit` | scripts/pr-test.py:1017-1020 | with suites all above a third of the bound the last still fits under it |
| `Scheduler.ShortSuitesFit` | scripts/pr-test.py:1017-1020 | a short suite goes on a machine no fuller than the average |
| `Scheduler.PackWithinBound` | scripts/pr-test.py:1017-1020 | longest-first packing: 3m times any load is at most (4m - 1) times what any other split needs |
| `Scheduler.GroupsWithinBound` | scripts/pr-test.py:1012-1021 | the same of the groups, against every other split into n groups of the same suites |
| `Scheduler.ParseShardReads` | scripts/pr-test.py:1033-1044 | for every text: suites:K/N is (K, N) exactly when K and N are numerals, leading zeros allowed, and 1 <= K <= N; the fixed names are read as such; anything else is refused |
| `Scheduler.RankedHeaviestFirst` | scripts/pr-test.py:1055 | the groups are counted heaviest first, two of one weight by their names |
| `Scheduler.ShardGroups` | scripts/pr-test.py:1047-1056 | a machine on its own works out the K-th group of the specification, or none |
| `Scheduler.ShardsCoverOnce` | scripts/pr-test.py:1047-1056 | shards 1/N to N/N, worked out apart, run every selected suite exactly as often as selected |
| `SearchCache.Backend.Lookup` | search-app/kosher_search/server.py:183-195 | hit, wait or own, with the cache and table as the lock region leaves them |
| `SearchCache.Backend.Store` | search-app/kosher_search/server.py:202-206 | the insertion and the eviction loop |
| `SearchCache.Backend.Forget` | search-app/kosher_search/server.py:212-214 | the pending entry goes |
| `SearchSteps.StoreKeeps` | search-app/kosher_search/server.py:203-206 | a store into a full cache drops exactly the first, and keeps the cache ordered by use |
| `SearchSteps.HitKeepsInv` | search-app/kosher_search/server.py:185-190 | a hit moves its answer to the end and hands out a copy |
| `SearchSteps.RegisterKeepsInv` | search-app/kosher_search/server.py:191-195 | a miss on a key nobody fetches makes this call its owner |
| `SearchSteps.WriteKeepsInv` | search-app/kosher_search/server.py:190-208 | a caller changing its own copy changes nothing others share |
| `SearchSteps.ApplyKeepsInv` | search-app/kosher_search/server.py:180-214 | every step of any call, errors included, keeps the invariant |
| `SearchSteps.PlayKeepsInv` | search-app/kosher_search/server.py:180-214 | every run of any number of calls keeps it |
| `SearchGuarantees.OneFetchPerKey` | search-app/kosher_search/server.py:180-214 | at most one call at a time fetches a key |
| `SearchGuarantees.PendingWhileOwnerLives` | search-app/kosher_search/server.py:191-214 | a key is pending exactly while some call works on it, however that ends |
| `SearchGuarantees.ReturnedWasFetchedForKey` | search-app/kosher_search/server.py:185-208 | what a call returns is what was fetched for its own key: by the owner of the very future it waited on, or by itself; a hit is non-empty and stored under a minute before |
| `SearchGuarantees.WakesFromItsFuture` | search-app/kosher_search/server.py:196-198 | a waiter that returns has the answer of the future it waited on |
| `SearchGuarantees.NoWaiterIsStranded` | search-app/kosher_search/server.py:196-214 | a future a waiter waits on is set, or its owner is still on its way to set it, however that ends |
| `SearchGuarantees.CacheIsByUse` | search-app/kosher_search/server.py:183-206 | at most 32 answers, ordered by last use, unchanged since the engine gave them, and none for a key whose owner has yet to store |
| `SearchGuarantees.EvictsLeastRecentlyUsed` | search-app/kosher_search/server.py:204-206 | eviction removes the answer whose last use is oldest |
| `SearchGuarantees.HitCanBeOlderThanAMinute` | search-app/kosher_search/server.py:200-206 | the minute counts from storing: a run whose hit was fetched 69 seconds before |
| `SearchGuarantees.HitIsOldExactly` | search-app/kosher_search/server.py:184-190 | a remembered answer can be served a minute or more after its fetch exactly when it was stored after the second it was fetched in |
| `SearchGuarantees.StoredLateExactly` | search-app/kosher_search/server.py:200-206 | the same of an owner about to store: exactly when its fetch is no longer of this second |
| `SearchGuarantees.PromptOwnersServeFreshAnswers` | search-app/kosher_search/server.py:180-214 | in every run whose owners store in the second of their fetch, every hit was fetched under a minute before |
| `Chunked.Connection.Chunk` | search-app/kosher_search/server.py:327-330 | one chunk on the wire |
| `Chunked.Connection.PageInTwo` | search-app/kosher_search/server.py:299-325 | the page as two chunks and the end, the apology in place of results that raised |
| `Chunked.ReadSizeOf` | search-app/kosher_search/server.py:329 | a size line is read back whole, whatever follows |
| `Chunked.ReadWritten` | search-app/kosher_search/server.py:327-330 | non-empty chunks of any bytes read back in order with what follows the body intact |
| `Chunked.EmptyChunkEndsBody` | search-app/kosher_search/server.py:327-330 | an empty chunk would end the body early |
| `Chunked.PageReadsBack` | search-app/kosher_search/server.py:299-325 | the page reads back as head, results and tail in order with nothing left over |
| `Walks.FindPoint` | mitm/kosher_filter.py:2652-2676 | the loop over `pos` and `found` computes the point of the walk |
| `Walks.WalkIsStuck` | mitm/kosher_filter.py:2658-2669 | there is no point exactly when a visited comment or raw element never ends |
| `Walks.WalkCollects` | mitm/kosher_filter.py:2671-2672 | exactly the end tags at visited positions are found |
| `Walks.PointIsInMarkup` | mitm/kosher_filter.py:2641-2676 | the first </head> in markup, else </body>, else </html>, else the end |
| `Walks.PointMovesBehind` | mitm/kosher_filter.py:2641-2676 | an element passed over whole, put at the point, moves the point right behind itself |
| `Walks.TwoTagsBehind` | mitm/kosher_filter.py:1703-1708 | a second one stands behind the first, before the same end tag |
| `Markup.FindInjectionPoint` | mitm/kosher_filter.py:2641-2676 | the loop with the scanner's own patterns |
| `Markup.InjectionPointIsInMarkup` | mitm/kosher_filter.py:2634-2676 | the offset is a markup position the scan visits, never inside a comment or raw text |
| `Markup.SkipSame` | mitm/kosher_filter.py:2636-2673 | what the scan does before a tag does not depend on what follows it |
| `Markup.ScriptTagIsOneElement` | mitm/kosher_filter.py:2663-2670 | a script tag with no "<" in its attributes is one raw element, whatever follows |
| `Injection.RescanGoesAfterTag` | mitm/kosher_filter.py:1703-1708 | rescanning the page with the tag in gives the same offset plus the tag's length |
| `Injection.BothScriptsBeforeSameTag` | mitm/kosher_filter.py:2293-2297 | page script and calm script stand before the same end tag, the first first, and taking them out gives the page back |
| `Video.StricterHidesMore` | kosherd/src/kosherd/vision.py:566-585 | a stricter level hides whatever a milder one does |
| `Video.WithoutFragment` | kosherd/src/kosherd/videocheck.py:82 | the address up to its fragment |
| `Video.Checker.VerdictFor` | kosherd/src/kosherd/videocheck.py:379-455 | a verdict is the cached one or a fresh judgement of this very clip, held piece or not, which the record keeps; none without a checker, unreadable or late |
| `Video.Checker.VerdictRemoteAsync` | kosherd/src/kosherd/videocheck.py:392-420 | the same through the source, one judgement under way serving every piece that asks: a fresh answer was sampled through the source for this key |
| `Video.HeldIsWholeExactly` | mitm/kosher_filter.py:1912-1930 | a judgement over a held body saw the whole file exactly when the last byte is the file's, which the headers tell when they name the size |
| `Video.FirstPieceStandsForTheFile` | mitm/kosher_filter.py:1907-1930 | bytes 0-740 of five million are held and judged alone, and a verdict this level shows lets the rest of the file through |
| `Video.CachedVerdictsSawTheFile` | kosherd/src/kosherd/videocheck.py:333-377 | while no held piece was judged, every remembered verdict was reached over the whole file or over samples through it |
| `Video.Flow.RefuseVideo` | mitm/kosher_filter.py:1979-1997 | refused before the body (dropped as it arrives) or over a held one |
| `Video.Flow.SettleBeforeBody` | mitm/kosher_filter.py:1965-1977 | how a verdict settles a clip not yet begun |
| `Video.Flow.VideoSettle` | mitm/kosher_filter.py:1999-2014 | how a verdict settles a held clip |
| `Video.Flow.ResponseHeaders` | mitm/kosher_filter.py:1226-1252 | the headers hook for a clip or playlist, with anything happening to the cache while it waits |
| `Video.Flow.FilterVideo` | mitm/kosher_filter.py:2027-2048 | the video path over a held body, synchronously |
| `Video.Flow.FilterVideoAsync` | mitm/kosher_filter.py:2050-2071 | the same in the response hook, with its shared judgement: both compute the same answer from the same reads |
| `Video.Flow.RespondTo` | mitm/kosher_filter.py:1271-1290 | the response hook leaves a passed or dropped body alone |
| `Video.Flow.Serve` | mitm/kosher_filter.py:1226-1290 | both hooks around any history of the shared cache: byte for byte what came or nothing, and at the strict levels only with a bypass or a judgement of this very key that the level accepts |
| `Video.DeliveredExactlyWhenItMayPass` | mitm/kosher_filter.py:1891-1930 | a clip arrives whole exactly when bypass, level, site and first verdict found allow it, and a refusal says so |
| `Video.NoUnjudgedByte` | mitm/kosher_filter.py:1271-1290 | at the strict levels no byte without a bypass or an accepted verdict; at "all" only with a bypass |
| `Video.MarksAreTrue` | mitm/kosher_filter.py:1965-2014 | the mark on a delivered clip names the verdict that let it through, or that there was none and the level is the mildest |
| `Video.StricterDeliversLess` | mitm/kosher_filter.py:1891-1930 | with the same reads, what a stricter level delivers a milder one does |
| `Video.OnePathOneAnswer` | mitm/kosher_filter.py:2027-2071 | the path that decides all over the held body and the two hooks give the browser the same response |
| `FeedPruning.PruneEntries` | mitm/kosher_filter.py:719-730 | a dict keeps all its keys, in order |
| `FeedPruning.KeptIsNth` | mitm/kosher_filter.py:725-727 | a kept entry stands in the result at the number of kept entries before it, itself pruned |
| `FeedPruning.KeptInOrder` | mitm/kosher_filter.py:809-824 | kept entries keep their order |
| `FeedPruning.FateIsFound` | mitm/kosher_filter.py:719-730 | every value that stays is found at its new path, itself pruned, dicts with all their keys |
| `FeedPruning.FatesDiffer` | mitm/kosher_filter.py:719-730 | no two values end in one place |
| `FeedPruning.NothingIsAdded` | mitm/kosher_filter.py:719-730 | whatever is in the pruned feed was in the feed, at the path given |
| `FeedPruning.TakenOutExactly` | mitm/kosher_filter.py:797-828 | a value is gone exactly when it is or lies in a list entry, at list depth 24 or less, that is to be dropped |
| `FeedPruning.UnchangedExactlyWhenClean` | mitm/kosher_filter.py:719-730 | pruning changes a feed exactly when there is an entry to drop within reach |
| `FeedPruning.PrunedIsClean` | mitm/kosher_filter.py:719-730 | nothing to drop is left, when pruning never makes an entry one to drop |
| `FeedPruning.MentionsShrink` | mitm/kosher_filter.py:679-690 | pruning takes no Shorts shape into a value |
| `FeedPruning.NoShortsLeft` | mitm/kosher_filter.py:719-730 | no list within depth 24 keeps an entry with a Shorts shape within 12 levels, and a second pass changes nothing |
| `FeedPruning.OnlyPreviewsGo` | mitm/kosher_filter.py:701-716 | exactly the values under a hover player's key within depth 24 are gone; every other value is at its own path |
| `FeedPruning.NoPreviewsLeft` | mitm/kosher_filter.py:701-716 | no dict within depth 24 has a hover player's key |
| `FeedPruning.UnchangedExactlyWithoutPreviews` | mitm/kosher_filter.py:701-716 | the walk changes a feed exactly when it has one |
| `FeedPruning.PrunePreviews` | mitm/kosher_filter.py:714-715 | lists keep their length |
| `FeedPruning.PreviewsGoOnce` | mitm/kosher_filter.py:701-716 | a second pass changes nothing |
| `FeedPruning.Refuses` | mitm/kosher_filter.py:811-822 | an entry is refused exactly when a field names channels none of which is approved, unless a field before that raises |
| `FeedPruning.PruneList` | mitm/kosher_filter.py:809-824 | the loop that builds the kept list: it raises exactly when an entry it reaches does, else keeps the others, pruned, in place |
| `FeedPruning.PruneNode` | mitm/kosher_filter.py:797-828 | the whole walk raises exactly when it reaches an entry whose shape raises, else it is the pruning that drops the refused entries |
| `FeedPruning.PruneFeed` | mitm/kosher_filter.py:797-828 | the same with the approved names folded once at the top |
| `FeedPruning.OnlyOthersVideosGo` | mitm/kosher_filter.py:797-828 | a value is gone exactly when a list entry on its way has a field naming channels none of which is approved |
| `JudgeLimit.Limiter.Allowed` | mitm/kosher_filter.py:1575-1588 | the counter popped, renewed after a minute, appended, the oldest evicted, and the answer by the count before |
| `JudgeLimit.RecordedIsTable` | mitm/kosher_filter.py:1581-1587 | no token twice, never more than 1024 counters, the caller last with its window |
| `JudgeLimit.AtMostInAWindow` | mitm/kosher_filter.py:1582-1588 | a counting window lets through at most 120 calls, exactly its count below that |
| `JudgeLimit.AtMostInAMinute` | mitm/kosher_filter.py:1575-1588 | any half-open minute lets through at most 239 calls of one token |
| `JudgeLimit.BoundIsTight` | mitm/kosher_filter.py:1575-1588 | some minute lets through 239 |
| `JudgeLimit.SteadyPageIsNeverRefused` | mitm/kosher_filter.py:1576-1578 | a page with at most 120 calls in any minute is never refused |
| `JudgeLimit.StillStands` | mitm/kosher_filter.py:1585-1587 | another token's call leaves a counter in the table while fewer than 1024 others have called since it |
| `JudgeLimit.CompanyChangesNothing` | mitm/kosher_filter.py:1575-1588 | while fewer than 1024 others call between its calls, a token is let exactly what its own calls alone decide |
| `JudgeLimit.PageIsLimited` | mitm/kosher_filter.py:1575-1588 | over any run of all pages such a token gets at most 239 calls in any minute |
| `CalmBudget.Budget.Store` | mitm/kosher_filter.py:2140-2156 | the store, read from the file once with other days dropped |
| `CalmBudget.Budget.EntryFor` | mitm/kosher_filter.py:2158-2166 | today's entry, begun at zero on a new day |
| `CalmBudget.Budget.Remaining` | mitm/kosher_filter.py:2168-2171 | what is left of today |
| `CalmBudget.Budget.Credit` | mitm/kosher_filter.py:2173-2180 | a heartbeat added up to the cap, then a flush, and what is left |
| `CalmBudget.Budget.Flush` | mitm/kosher_filter.py:2182-2200 | today's entries written, unless there is nothing or it is too soon |
| `CalmBudget.Budget.Beat` | mitm/kosher_filter.py:2221-2232 | the clamped seconds credited and the answer to the page, over exactly when nothing is left |
| `CalmBudget.StepKeepsInv` | mitm/kosher_filter.py:2140-2200 | heartbeats, page loads, restarts, crashes, failed writes and time passing keep memory and file true to the heartbeats |
| `CalmBudget.TimeIsCounted` | mitm/kosher_filter.py:2173-2180 | after any run the time spent is min(60M + 120, the day's clamped heartbeats), and what is left is 60M less their sum |
| `CalmBudget.NeverRises` | mitm/kosher_filter.py:2131-2138 | within a day what is left never rises over heartbeats, page loads and clean restarts |
| `CalmBudget.CrashLosesLittle` | mitm/kosher_filter.py:2182-2200 | with writes that work a crash loses only heartbeats credited under 30 seconds after the last write |
| `FeedCap.Named` | mitm/kosher_calm.js:251-261 | every item gets a name, a nameless one from the script, and one that has a name keeps it |
| `FeedCap.CountedIsSeen` | mitm/kosher_calm.js:310-313 | counting keeps the list without repeats, the lookup its inverse and the limit |
| `FeedCap.WalkDone` | mitm/kosher_calm.js:308-324 | a walk leaves the items it passed marked and shown exactly when counted, and finds the first past the end |
| `FeedCap.CompletePass` | mitm/kosher_calm.js:303-333 | after a pass an item is visible exactly when its post is counted, and the page is full exactly when the list has reached the limit |
| `FeedCap.BrokenPass` | mitm/kosher_calm.js:303-325 | a pass that throws leaves the page's mark alone, and so does every one after it |
| `FeedCap.PlacedSettles` | mitm/kosher_calm.js:326-332 | the end card, once placed, is found in place again |
| `FeedCap.SecondPassIsQuiet` | mitm/kosher_calm.js:303-333 | a second pass over an unchanged page changes no children |
| `FeedCap.SecondPassChangesNothing` | mitm/kosher_calm.js:303-333 | and nothing at all, unless an item is named __proto__ |
| `FeedCap.MarkedHonest` | mitm/kosher_calm.js:466-485 | marking what the observer sees marks counted posts only |
| `FeedCap.StepKeepsInv` | mitm/kosher_calm.js:303-490 | page changes, the observer, the timer and navigation keep the invariant |
| `FeedCap.PlayKeepsInv` | mitm/kosher_calm.js:303-490 | so does every run of them |
| `FeedCap.NotDrawnPastTheEnd` | mitm/kosher_calm.js:264-270 | while a page is full, an item for a post not counted is never visible, between passes either |
| `FeedCap.EveryRunEndsTheFeed` | mitm/kosher_calm.js:303-490 | over every run from a fresh page: no post counted twice (but that name), none past the limit, full means the limit is reached, and nothing uncounted is drawn while full |
| `FeedCap.CountsOnlyGrow` | mitm/kosher_calm.js:240-248 | no address ever forgets a counted post, over navigation and back |
| `FeedCap.RepliesAreHidden` | mitm/kosher_calm.js:391-414 | on a post's page an item is hidden exactly when one before it shows the post the address names; with none yet, or where comments stay, nothing changes |
| `FeedCap.Calm.KeyOf` | mitm/kosher_calm.js:251-261 | the name of an item, given to it if it has none |
| `FeedCap.Calm.AddSheet` | mitm/kosher_calm.js:274-291 | the sheet is added once, as an element only where a constructed one is refused |
| `FeedCap.Calm.SetFull` | mitm/kosher_calm.js:293-301 | the page's mark |
| `FeedCap.Calm.Visit` | mitm/kosher_calm.js:308-324 | one item of a pass |
| `FeedCap.Calm.LookOver` | mitm/kosher_calm.js:308-324 | the loop of a pass, which ends where a lookup throws |
| `FeedCap.Calm.PlaceCard` | mitm/kosher_calm.js:326-332 | the end card before the first item past the end, moved only if it is not there |
| `FeedCap.Calm.CapFeed` | mitm/kosher_calm.js:303-333 | the pass, and whether it changed the page's children |
| `FeedCap.Calm.CleanSingle` | mitm/kosher_calm.js:387-415 | the items of a post's own page, hidden or shown, and the end card taken away |
| `FeedCap.Calm.Apply` | mitm/kosher_calm.js:417-424 | nothing on a login page, no cap and the replies hidden on a single post, a pass on a feed |
| `FeedCap.Calm.CheckURL` | mitm/kosher_calm.js:440-448 | navigation to another address: the card and the mark go, then the script is applied anew; the same address changes nothing |
| `FeedCap.Calm.PopState` | mitm/kosher_calm.js:459-460 | going back, or to a fragment, forgets the last address first |
| `FeedCap.Calm.MarkCounted` | mitm/kosher_calm.js:466-485 | the observer's first look at added elements |
| `FeedCap.Calm.Settle` | mitm/kosher_calm.js:426-432 | once a page stops changing there are at most two more passes |
| `FeedNames.WalkTallies` | mitm/kosher_calm.js:308-314 | a pass counts the names of the page as it was, in order |
| `FeedNames.TallyIs` | mitm/kosher_calm.js:310-313 | how long the list is and what it knows after any names, and that it breaks exactly when hasOwnProperty is reached with room |
| `FeedNames.PassThrowsExactly` | mitm/kosher_calm.js:310-314 | from the page and the count before: a pass throws exactly when the count was broken and there is an item, or an item named hasOwnProperty is reached with room in the list |
| `FeedNames.ListRepeatsExactly` | mitm/kosher_calm.js:310-313 | from the same: the list repeats after a pass exactly when it did before, or it has __proto__ and one more is reached with room before anything throws, or two are |
| `FeedNames.NoProtoNoRepeat` | mitm/kosher_calm.js:303-490 | over every run in which no document shows a post named __proto__, no list repeats |
| `FeedNames.NoAskNoThrow` | mitm/kosher_calm.js:303-490 | over every run in which none shows one named hasOwnProperty, no pass throws |
| `FeedNames.ProtoIsCountedTwice` | mitm/kosher_calm.js:310-313 | two items named __proto__ are counted as two |
| `FeedNames.AskStopsTheScript` | mitm/kosher_calm.js:310-314 | an item named hasOwnProperty stops this pass and the next, and the page is not full |
| `Cpio.Writer.Write` | scripts/brand-iso.py:178-188 | one entry: header, name, padding, data, padding, and the next inode number |
| `Cpio.CpioNewc` | scripts/brand-iso.py:166-196 | the two loops and the trailer write the archive of the listing |
| `Cpio.RecordReadBack` | scripts/brand-iso.py:175-188 | an entry reads back whole, whatever follows it |
| `Cpio.EntriesAlign` | scripts/brand-iso.py:186-188 | an entry's data start on a four-byte boundary and its length is a multiple of four |
| `Cpio.HeadersAlign` | scripts/brand-iso.py:184-188 | every header and data block of the archive starts on a four-byte boundary |
| `Cpio.WrittenReadsBack` | scripts/brand-iso.py:166-196 | reading gives exactly the entries written with nothing left over if and only if none bears the trailer's name |
| `Cpio.ArchiveReadsBack` | scripts/brand-iso.py:166-196 | the same for the archive of a tree |
| `Cpio.UnpacksToTheTree` | scripts/brand-iso.py:190-196 | the records turn back into the directories and files of the tree, in order |
| `Cpio.ListingIsTheWalk` | scripts/brand-iso.py:190-193 | every directory and file found is written exactly once |
| `Cpio.ParentsComeFirst` | scripts/brand-iso.py:169-173 | each parent comes before its children |
| `Cpio.DirectoriesComeFirst` | scripts/brand-iso.py:169-173 | every directory comes before every file |

## Left out

- Merge topologies other than a line, tags pushed by hand (a major version) and annotated tags. The legacy `-pre` form may be the base tag.
- Digits and letters beyond ASCII in version patterns and shard names, base tags spelled in a short form such as v0.7, and commit messages that hold the log's separator character.
- The roundup of releases, release notes and the "Latest" badge: nothing is claimed of them.
- `RESERVE_ATTEMPTS` is an argument of the model; the loop is shown to end without it.
- PublishReleases.Publish: other runs may push tags at any time but are taken to make no release and tag no image of another version meanwhile, and the tags it answers for are the clone's, which are the remote's when its last fetch worked.
- PublishReleases.Finish: the two signatures are one step that works or fails; an image left unsigned by a failed run stays so, as the code leaves it.
- PublishReleases.Listed: the newest releases are those made last.
- SearchCache: the engine's own request and its timeouts are one step that answers or raises at any time.
- Chunked: works on bytes. The encoding of text, lone surrogates in it, and the wording of head, note, style, apology and tail are not modelled; of these only that the constants are not empty is used.
- Scheduler: holds for any table of positive times, the measured one among them.
- Markup: conformance to the HTML standard. The scanner's own patterns are the model, written as small matchers.
- Injection: the attributes hold no "<": they are fixed names, signed tokens, numbers, a nonce of a restricted alphabet and escaped JSON.
- Video: pictures, pages and YouTube in the two hooks, the referrer header, the activity log and the fetching of ranges. Policy and checker availability stay as they are for a flow, cache keys are compared by address and size (no hash collisions), and the vision model's verdicts are arbitrary.
- FeedPruning.PruneFeed: a second pass may decide differently, because pruning can reach into a renderer's own runs; no idempotence is claimed. The folding of channel names is an argument. Numbers are reals, so infinities in JSON are not modelled.
- JudgeLimit: signing and checking of the token.
- CalmBudget: a limit changed within the day, a clock set back over midnight, malformed heartbeats and files (the seconds are a number; those that are not finite clamp to the ends), and which site a page belongs to.
- FeedCap: the site's own style changes, inert links, links whose query holds a line break, and the moment between the site's change of an element and the pass that follows. The site is taken not to make an end card of its own, nor to mark elements itself.
- FeedCap.Calm.Apply: the strip lists (`stripAll`, and the `single` list of `cleanSingle`) hide parts of the page that are not feed items; that hiding is not modelled.
- FeedCap.NotDrawnPastTheEnd: an element the site gives another post may show it until the next pass, so it is excepted; the model marks such an element as redrawn.
- Cpio: symbolic links and the permission bits of the tree, which the writer does not record either; names longer and files larger than 32-bit fields hold are excluded.
- The admin application, labels, block pages, list fetching, boot and wizard tests, and the policy cache: interface, wording or plumbing that would add only easy members.
