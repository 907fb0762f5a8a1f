# Verified model of the media follow-up and cloud transfer evidence chain

The repository follows TV series, ingests share links from Telegram channels, restores files into a cloud drive and,
when a series is complete, moves it from an "ongoing" to a "completed" folder. What may be moved, restored, recorded or
granted is decided by code that is written to fail closed. This project models that code in Dafny and proves what its
decisions mean.

The layers, bottom up.  In each, the first modules hold the operations and what holds of them; those after the
semicolon state the same operations once more in raw terms (rows, replies, fields), without the functions the operations
are written with.

- **Episode keys** (`EpisodeKeys`, over `PyText`). `S01E02` keys down to the digits: reading, writing, ordering, and
  the two-character slice `key[1:3]` that three callers read as "the season".
- **Filenames** (`EpisodeMatcher`). The two rules that read a tokenised name, and where they disagree.
- **Physical scan** (`CloudListing`, `BreadthFirst`, `PhysicalScan`; `HonestProvider`). A bounded, cached, breadth-first
  walk over an untrusted provider that may be cyclic, endless or lying. The provider is an arbitrary function of
  directory and page. `HonestProvider` describes providers by the replies they give.
- **Promotion gate** (`Promotion`; `PromotionRows`, `PromotionEndToEnd`). From tables and scan result to
  `PROMOTION_READY`, and from that verdict back to table rows and to what is really in the cloud.
- **File selection** (`Ranking`, `FileSelection`, `SelectionOrder`; `SelectionRequest`, `SelectionQuality`,
  `SelectionReport`). Deduplication, best file per episode, four selection modes, and the independent final check.
- **Inventory** (`Reconciliation`, `CloudInventory`; `InventoryRows`). The pop-and-re-add loop of the planner, the write
  boundary, and planner and executor over one table.
- **Durable outbox** (`Outbox`, `OutboxQueue`, `OutboxDelivery`, `OutboxProtocol`, `OutboxCallers`; `OutboxSteps`). The
  tables, one delivery call, any number of calls, every interleaving of any number of deliverers with saves, and the two
  deliverers that the program starts.
- **Administrators** (`SafeJson`, `AdminService`; `AdminEffects`). The admin table, its audit log, and who may act.
- **Season backfill** (`SeasonInference`, `SeasonBackfill`; `SeasonRows`), **collected reconciliation**
  (`CollectedReconcile`; `CollectedRows`) and **radar gaps** (`Radar`).

Objects the source updates in place are classes here (`Scanner`, `InventoryTable`, `ResourceStorage`, `AdminService`,
`Database`, `WatchTable`); their methods are proved equal to functions on the state, and the theorems are about those
functions. Loops are loops. Concurrency is a state machine over its steps.

Some promises of the source are false of its code. Each of these has a lemma with the failing input and an exact
condition:

| promise | holds exactly when | failing input |
|---|---|---|
| normalising a key twice is normalising it once | the season context is below 1000, or the value names its own season (`CanonicalIdempotent`) | `CanonicalNotIdempotent` |
| the list of canonical keys is sorted by number and does not depend on the order of the values | no two values stand for different keys of seasons from 1000 on, as is the case in every context below 1000 (`CanonicalKeysAscending`) | `WideSeasonsTie` |
| `int(key[1:3])` is the season | the season is below 100 (`SliceOfFormatted`) | every season from 100 on; hence `WideSeasonsUnseen`, `WideSeasonsNeverSelected`, `WideSeasonsNeverStored` |
| the name matchers agree | the first token has no zero and the season context is not 0 (`SoleKeyMatchesIff`) | `ZeroSeasonDisagrees` |
| an episode is observed iff one distinct copy is listed | the season is below 10, or from 100 on, where nothing is accepted (`ObservedMeansSoleIff`) | `SandwichObserved`, for every season from 10 to 99 |
| SENT means the current edit was ingested | every mark finds its row not enqueued again since the fetch, or the newer version ingested by another deliverer (`CurrentIffHarmless`); of the two deliverers the program starts, only the retry loop can break it (`CallersCurrentIff`) | `LostEdit`, a run of those two, and `StaysLost`: the edit is never delivered |
| a deliverable row is delivered eventually | fewer than `limit` failing rows are queued before it (`SentEventuallyIff`) | any larger number of failing rows |
| the collected readback agrees on a faithful store | nothing is added to a row of a season of four or more digits (`ReadbackIff`) | `WideSeasonFails` |
| early, middle and trailing gaps are ordered | no number below 1 beside an early run, none above the newest episode beside a trailing run (`OrderedIff`) | `EpisodeZeroSpoils` |

Two more are promises of doc comments that the code does not keep; the model follows the code:

| promise | holds exactly when | failing input |
|---|---|---|
| omitting the physical listing yields `INVENTORY_INCOMPLETE` (app/follow/completion_promotion_service.py:110-113) | the chain of tests reaches the inventory and finds a gap there; without one it ends at `SCAN_UNVERIFIED` (`OmittedListing`), and READY is never reached (`NeverReadyUnlisted`) | `OmittedIsUnverified` |
| the collected array is never replaced as a whole (migration_tools/reconcile_collected.py:3-5) | in a successful run an entry stays as it is iff nothing is added to its row or it is written canonically already (`EntryStaysIff`); canonical keys are never lost (`GainsExactly`) | `JunkIsDropped`, for example a note (`NoteIsJunk`) |

## Model

| member | source | states |
|---|---|---|
| EpisodeKeys.KeyOf | app/follow/episode_keys.py:52-76 | every key has a positive season and an episode from 1 to 9999; a season of four or more digits can only come from the context |
| EpisodeKeys.KeyIff | app/follow/episode_keys.py:52-76 | a value is read as a key iff it is a number or a text that, stripped and without blanks, spells the key in full with one to three and one to four digits, or as a bare episode of the season in context, both positive; flags and missing values never are |
| EpisodeKeys.BareNumberOnly | app/follow/episode_keys.py:69-76 | a number is read iff it is from 1 to 9999, under the season of its context |
| EpisodeKeys.FormatInjective | app/follow/episode_keys.py:76 | two keys are the same text iff season and episode agree, for all integers |
| EpisodeKeys.ParseFormatted | app/follow/episode_keys.py:8-8 | reading inverts writing exactly for seasons up to 999 and episodes up to 9999 |
| EpisodeKeys.CanonicalFormatted | app/follow/episode_keys.py:52-76 | a written key normalises to itself in every season context, or to nothing beyond three season digits or four episode digits |
| EpisodeKeys.CanonicalIdempotent | app/follow/episode_keys.py:52-76 | for every value and context: normalising again gives the same key iff the context is below 1000 or the value is a full key, and nothing otherwise |
| EpisodeKeys.CanonicalNotIdempotent | app/follow/episode_keys.py:69-76 | every bare episode under a season context from 1000 on is written and then not read back |
| EpisodeKeys.BareNumber | app/follow/episode_keys.py:69-76 | a bare number below 10000 takes the season of its context, with a missing season and season 0 read as 1 |
| EpisodeKeys.BareEpisode | app/follow/episode_keys.py:69-76 | so does a number written with its E |
| EpisodeKeys.SliceOfFormatted | app/transfer/file_selection.py:264-264 | `int(key[1:3])` is always defined and below 100; it is the season iff the season is below 100, and the season without its last digit from 100 to 999 |
| EpisodeKeys.EpisodeNumberOfFormatted | app/follow/episode_keys.py:96-100 | the episode number of a written key is its episode, and nothing from season 1000 on |
| EpisodeKeys.CanonicalKeysAscending | app/follow/episode_keys.py:79-93 | in every context: each canonical key once; in strictly increasing (season, episode) order, and the only order `sorted` may give whatever order it meets the set in, iff no two values stand for different keys of seasons from 1000 on |
| EpisodeKeys.KeysInOrder | app/follow/episode_keys.py:79-93 | the list runs by season and then by episode number, keys of seasons from 1000 on last |
| EpisodeKeys.CanonicalKeysOrderInsensitive | app/follow/episode_keys.py:79-93 | in every context the set of keys, and under that condition the list itself, depends only on which values occur |
| EpisodeKeys.WideSeasonsTie | app/follow/episode_keys.py:89-93 | in every context from 1000 on: two listings of the same two bare episodes whose key lists differ, since both keys share one sort key |
| EpisodeMatcher.TokenKeyIsCanonical | app/transfer/episode_matcher.py:28-34 | the key of a full token is the canonical key of its numbers, with season 0 read as season 1 |
| EpisodeMatcher.ExtractVideoEpisodeKeys | app/transfer/episode_matcher.py:17-40 | computes the set of keys of all full tokens, or of the short ones when no full token yields a key and a season is known |
| EpisodeMatcher.ExtractedIff | app/transfer/episode_matcher.py:17-40 | a key is found iff the name is a regular video and some full token names it, or, where no full token has an episode from 1 on, some short form does under a known season; season 0 is read as 1 |
| EpisodeMatcher.SoleKeyIsSingleton | app/transfer/episode_matcher.py:17-40 | "exactly one key" in terms of that set, as the callers test it |
| EpisodeMatcher.MatchIsExtracted | app/transfer/episode_matcher.py:50-101 | a MATCH for a regular target implies that the extractor finds the target |
| EpisodeMatcher.SoleKeyMatchesIff | app/transfer/episode_matcher.py:50-101 | a sole extracted key is matched iff the first token has no zero and a short form is not read under season 0 |
| EpisodeMatcher.DiagnosedAs | app/transfer/episode_matcher.py:60-101 | which names are matched, reviewed and rejected, and for which reason |
| EpisodeMatcher.ZeroSeasonDisagrees | app/transfer/episode_matcher.py:28-34 | S00E05 is extracted as season 1 and matched only as season 0 |
| BreadthFirst.Skip | app/follow/physical_cloud_inventory.py:206-209 | dropping a directory already visited keeps the search invariant |
| BreadthFirst.Visit | app/follow/physical_cloud_inventory.py:206-251 | listing a new directory and queueing its folders keeps it |
| BreadthFirst.PoppedAtDistance | app/follow/physical_cloud_inventory.py:206-211 | a directory is first reached at its distance from the root |
| BreadthFirst.Finished | app/follow/physical_cloud_inventory.py:206-299 | with an empty queue the visited directories are exactly the reachable ones, each at its distance |
| CloudListing.EndsBeyond | app/follow/physical_cloud_inventory.py:287-295 | a listing that ends cannot end before a page that announces another |
| CloudListing.ChildrenOfEnded | app/follow/physical_cloud_inventory.py:229-252 | the children of a directory that ends are the folders of its whole listing |
| CloudListing.TraversedIsWholesome | app/follow/physical_cloud_inventory.py:193-367 | what a verified traversal saw implies every condition a wholesome provider must meet |
| CloudListing.FilesArePresent | app/follow/physical_cloud_inventory.py:253-282 | the recorded keys are exactly the episodes present in reachable directories whose season slice is wanted |
| PhysicalScan.RecordItem | app/follow/physical_cloud_inventory.py:253-282 | records exactly the videos with one key and a wanted season slice |
| PhysicalScan.CollectItems | app/follow/physical_cloud_inventory.py:229-286 | a page passes iff every named folder has an id and room below; then folders, records and season labels are all taken, and otherwise the page holds the item that is blamed |
| PhysicalScan.ListDirectory | app/follow/physical_cloud_inventory.py:215-295 | a directory is accepted iff it ends conclusively, can be traversed and fits the remaining pages and items; otherwise some page gives just the cause and the status reported; reads at most the page budget and terminates on every provider |
| PhysicalScan.VisitDirectory | app/follow/physical_cloud_inventory.py:207-251 | listing one more directory keeps the queue, the visited set and the page and item accounts exact, and never fails on a wholesome provider with short listings; its proof shows the depth test on a popped directory dead |
| PhysicalScan.Turn | app/follow/physical_cloud_inventory.py:206-298 | one turn keeps: visited plus queued at most 1 + items read, pages at most the limit times directories visited; each turn uses up an item or a queue entry |
| PhysicalScan.Search | app/follow/physical_cloud_inventory.py:206-299 | the loop terminates for every provider after popping at most 1 + max_items entries, skipped ones included, lists no directory twice, and never fails on a wholesome provider with short listings |
| PhysicalScan.Traverse | app/follow/physical_cloud_inventory.py:193-343 | VERIFIED implies the exact traversal of everything reachable, and no season root twice; wholesome and short implies VERIFIED |
| PhysicalScan.Scanner.constructor | app/follow/physical_cloud_inventory.py:82-102 | keeps each limit as given or raises it to one, depth and lifetime to zero, with an empty cache |
| PhysicalScan.Scanner.Scan | app/follow/physical_cloud_inventory.py:166-190 | answers from the cache exactly within the lifetime and unless forced, and every answer, cached or not, is faithful to the provider it was taken from; a watermark over its files exists iff VERIFIED, and status and error fit |
| PhysicalScan.VerifiedIffWholesome | app/follow/physical_cloud_inventory.py:193-367 | where listings are at most max_pages long: VERIFIED iff the provider is wholesome, so the cumulative page budget never trips early |
| PhysicalScan.VerifiedKeysExact | app/follow/physical_cloud_inventory.py:344-347 | a verified season's keys are exactly the episodes present with that season slice |
| PhysicalScan.WideSeasonsUnseen | app/follow/physical_cloud_inventory.py:259-262 | a season of three digits is verified with no keys at all |
| PhysicalScan.WantedAre | app/follow/physical_cloud_inventory.py:174-174 | the seasons scanned for are the positive ones given |
| HonestProvider.TruthIsRead | app/follow/physical_cloud_inventory.py:123-147 | page p of n that says so truthfully, by a flag, by a page count, by item counts or by being a short last page, is read as followed by another iff p + 1 < n, and closes the directory iff it is the last |
| HonestProvider.NoProofIsNone | app/follow/physical_cloud_inventory.py:123-147 | a reply is read as unproven iff it carries no flag and its page or item counts are absent or unreadable |
| HonestProvider.ServedIsVerified | app/follow/physical_cloud_inventory.py:193-367 | a finite tree of named folders within the limits whose replies are truthful, each directory in a way of its own, is VERIFIED with a watermark; its files are exactly the videos with one key and a wanted slice in the concatenated pages, and each season has exactly their keys |
| HonestProvider.InconclusiveFails | app/follow/physical_cloud_inventory.py:287-309 | one reply that is an error, no page, or a full page without readable proof, behind truthful pages of any reachable directory, and the scan is not VERIFIED |
| Promotion.ActiveTransferCount | app/follow/completion_promotion_service.py:57-92 | exactly the number of active jobs plus the number of active tasks of the series and season; zero iff it is idle |
| PromotionRows.TaskByRows | app/follow/completion_promotion_service.py:78-91 | a task counts iff it runs, or waits without being under review, is no promotion, and its payload, or its resource where the payload has no value or 0, names the series and season |
| PromotionRows.QuietIsIdle | app/follow/completion_promotion_service.py:57-92 | no transfer is active iff no such task, and no job of a resource of the series and season that is not over, exists |
| Promotion.EpisodeCountsExact | app/follow/completion_promotion_service.py:129-139 | a season has a count iff some entry with positive number and count names it, and the last such entry gives it |
| Promotion.AssembleEvidence | app/follow/completion_promotion_service.py:146-192 | exactly the watchlist and TMDB seasons, each once, ascending, each with its own evidence; the summed activity is zero iff every season is idle |
| Promotion.BuildDryRun | app/follow/completion_promotion_service.py:95-211 | the decision is the gate's over exactly that evidence, whose verdict `PromotionRows.VerdictByRows` gives |
| Promotion.ReadyIff | app/follow/promotion.py:97-146 | PROMOTION_READY iff roots, status, scan, watermark and destination are favourable, nothing is active, and every season has all its episodes in all three listings |
| Promotion.VerdictExplained | app/follow/promotion.py:97-146 | each of the ten verdicts in terms of the tables: roots, status and known counts, activity, single missing episodes per listing, scan, destination; no verdict rests on a count alone |
| PromotionRows.VerdictByRows | app/follow/completion_promotion_service.py:119-211 | each of the ten verdicts said of table rows: a season is asked about if a watchlist row or TMDB names it, its episodes are those of the last positive TMDB entry, collected if a value of its last watchlist row reads as the episode, in stock if an inventory row of that season has it (no season and 0 meaning 1), listed if a text of the listing reads as it |
| PromotionRows.ReadyByRows | app/follow/completion_promotion_service.py:119-211 | READY iff nothing stands in the way and every announced episode of every season asked about has such a watchlist value, inventory row and listed text |
| PromotionRows.HeldForStatus | app/follow/promotion.py:110-132 | whatever evidence is given: held for its status iff the series, or some season with a status of its own, is not ended |
| PromotionRows.MissingIsLargest | app/follow/promotion.py:98-108 | the missing count is the largest shortfall of the three listings, and 0 for a ready series |
| Promotion.OmittedListing | app/follow/completion_promotion_service.py:110-113 | without a listing and a scan status: INVENTORY_INCOMPLETE iff the chain reaches the inventory and finds a gap, SCAN_UNVERIFIED iff it reaches it and finds none, and never CLOUD_INCOMPLETE, DESTINATION_CONFLICT or READY |
| Promotion.OmittedIsUnverified | app/follow/completion_promotion_service.py:110-113 | a complete series of one episode is SCAN_UNVERIFIED, not INVENTORY_INCOMPLETE, when its listing is omitted |
| Promotion.NeverReadyUnlisted | app/follow/completion_promotion_service.py:110-113 | without a listing no series is ready, whatever scan status is claimed |
| Promotion.CompletePasses | app/follow/promotion.py:113-127 | a season without gaps passes the count tests, by injectivity of keys |
| Promotion.CompleteIsReady | app/follow/promotion.py:97-146 | hence per-season inclusion implies the summed counts |
| Promotion.CountsAloneHideGaps | app/follow/promotion.py:98-101 | equal summed counts with a gap: one season's surplus hides another's missing episode from the counts, and the key test catches it |
| PromotionEndToEnd.TextsReadBack | app/follow/completion_promotion_service.py:160-164 | the gate reads the scan's keys back unchanged |
| PromotionEndToEnd.PhysicalIffPresent | app/follow/completion_promotion_service.py:160-164 | an episode counts as physical iff its season was scanned, has at most two digits, and the episode is present in the cloud |
| PromotionEndToEnd.ReadyEndToEnd | app/follow/completion_promotion_service.py:129-211 | READY iff the scan is verified, nothing else stands in the way, and every season that a row or TMDB names has a positive count and all its episodes in its last watchlist row, in an inventory row and present in the cloud |
| PromotionEndToEnd.SomeSeason | app/follow/completion_promotion_service.py:119-143 | there is at least one season to answer for |
| PromotionEndToEnd.PhysicalDryRun | app/follow/completion_promotion_service.py:273-303 | scan and dry run together: READY iff verified and all of that holds of the provider now, or at the time of a cached scan within its lifetime |
| Ranking.PickBest | app/transfer/file_selection.py:248-271 | gives up iff some item is unusable, and otherwise holds the best item of every key |
| Ranking.BestPerKeyIsBest | app/transfer/file_selection.py:267-269 | under a strict total rank, one pass ends with an item per key that outranks every other of the key |
| Ranking.BestPerKeyOrderInsensitive | app/transfer/file_selection.py:267-269 | and the result depends only on which items occur |
| FileSelection.Deduplicate | app/transfer/file_selection.py:94-116 | computes the deduplicated listing, or the conflict |
| FileSelection.RefusedIffClash | app/transfer/file_selection.py:109-114 | the conflict is raised iff one remote file appears under two names, in whatever order |
| FileSelection.DedupRepresents | app/transfer/file_selection.py:94-116 | one record per remote file, every video represented |
| SelectionReport.FirstRecords | app/transfer/file_selection.py:94-116 | what is kept is the first record of every video with a name, in listing order; one file is one id, or one name up to letter case where there is none |
| FileSelection.DedupIsSet | app/transfer/file_selection.py:94-116 | where records of a file agree on its size, exactly the videos of the listing remain |
| FileSelection.RanksDistinctFiles | app/transfer/file_selection.py:119-127 | no two deduplicated files have the same quality rank, and ranks order them strictly and totally |
| SelectionQuality.SingleIsTop | app/transfer/file_selection.py:119-131 | a single episode: no other file that hits the target has a higher resolution, or with equal resolution a higher source, then dynamic range, codec, size, folded name, id |
| SelectionQuality.MissingAreTop | app/transfer/file_selection.py:267-295 | the same of every file selected for a missing episode, among those that show just this episode |
| SelectionQuality.WholeAreTop | app/transfer/file_selection.py:296-315 | the same of the map of a whole share, which holds just the episodes that some identified file of the season shows |
| FileSelection.SelectFiles | app/transfer/file_selection.py:172-359 | the loops compute the selection function in all four modes and all refusals |
| SelectionRequest.ModeByArguments | app/transfer/file_selection.py:55-75 | the mode is the one named, or follows from whether several episode keys, one, expected names or nothing but blanks are given |
| SelectionRequest.TargetByArguments | app/transfer/file_selection.py:138-143 | the target is the one named, or the only episode key |
| SelectionRequest.TargetIsSpelled | app/transfer/episode_matcher.py:43-47 | a target is read iff it spells S, one to three digits, separators, E, one to four digits, and as those numbers |
| SelectionRequest.RefusedIff | app/transfer/file_selection.py:172-205 | every refusal iff its reason holds and no earlier one does |
| SelectionRequest.CollectionChosenIff | app/transfer/file_selection.py:316-339 | a collection is decided iff something is asked for and every name and id asked for is listed; names expected count only where nothing is selected |
| SelectionRequest.CollectionExact | app/transfer/file_selection.py:316-339 | it then holds exactly the files asked for by name or id, and otherwise nothing |
| SelectionReport.SingleReport | app/transfer/file_selection.py:219-239 | whether one or several files hit, and the key and id reported |
| SelectionReport.IdsReported | app/transfer/file_selection.py:192-205 | the ids of the share and those of the matches, mode by mode |
| FileSelection.EpisodeMapExact | app/transfer/file_selection.py:248-269 | an unambiguous share's map holds exactly the episodes some file shows, each with its best file, which has a remote id |
| FileSelection.SharedNamesNever | app/transfer/file_selection.py:281-288 | the duplicate_names branch is dead |
| FileSelection.MissingIsOneToOne | app/transfer/file_selection.py:291-295 | requested keys and selected ids correspond one to one in request order; each file shows exactly its episode and is outranked by none |
| FileSelection.MissingGuardAgrees | app/transfer/file_selection.py:390-419 | the guard passes a MISSING_EPISODES request iff the selector decided MISSING_EPISODES |
| FileSelection.MissingChosenIff | app/transfer/file_selection.py:241-295 | that decision iff all requested keys are readable and distinct, every file is usable, and each key is shown by some file; a mismatch iff only the last condition fails; review otherwise |
| SelectionReport.MissingDecided | app/transfer/file_selection.py:241-295 | review, mismatch or decision, said of the values given and of the names listed: all values read as different episodes, every file is no range, has an id and shows one episode of the season, and every episode asked for is shown |
| SelectionReport.MissingInOrder | app/transfer/file_selection.py:291-295 | the i-th file selected shows just the episode that the i-th value reads as, and is what that episode is mapped to |
| FileSelection.WideSeasonsNeverSelected | app/transfer/file_selection.py:264-266 | under a three-digit season a share with any video always ends in review |
| FileSelection.SingleIsBest | app/transfer/file_selection.py:219-239 | a single episode gets the best of all matching files, or a mismatch iff none matches |
| FileSelection.SingleGuardAgrees | app/transfer/file_selection.py:367-389 | the guard passes iff a file was chosen and has a remote id |
| FileSelection.WholeMapIsBest | app/transfer/file_selection.py:296-315 | a whole share maps exactly the episodes that some identified file of the season shows, each to the best such file |
| FileSelection.WholeGuardAgrees | app/transfer/file_selection.py:420-425 | the guard passes a whole share iff some video has a remote id |
| FileSelection.CollectionGuardAgrees | app/transfer/file_selection.py:426-440 | the guard passes a collection iff it was decided and some selected file has a remote id |
| FileSelection.GuardAgrees | app/transfer/file_selection.py:362-440 | over every listing and request: the final check accepts iff the selection is safe in its mode |
| SelectionReport.GuardPassesIff | app/transfer/file_selection.py:362-440 | for every selection whatsoever, mode by mode: one id, and it is a match; one file with an id of the share per requested key, no two alike; some id, and all of the share |
| SelectionOrder.SelectOrderInsensitive | app/transfer/file_selection.py:94-131 | any order and repetition of the same records leads to the same refusal, or to the same choice and key-to-id map |
| SelectionOrder.SelectByKept | app/transfer/file_selection.py:94-131 | whatever the sizes: listings for which deduplication keeps the same records have the same outcome |
| SelectionOrder.SizesMatter | app/transfer/file_selection.py:115-126 | without agreeing sizes the order does matter: for all sizes, two listings of the same three records choose different files for the episode iff the third file ranks between the two records of the first |
| Reconciliation.TallyItems | app/transfer/cloud_inventory_service.py:389-442 | the loop equals the tally of the accepted items; ignored are the named non-videos, unparsed all the rest |
| InventoryRows.EntriesFromItems | app/transfer/cloud_inventory_service.py:389-431 | the candidates are exactly the named videos with one key whose slice is the season, with title, name, id and path as given |
| InventoryRows.IgnoredAre | app/transfer/cloud_inventory_service.py:396-398 | what is counted as ignored are the named items that are no videos |
| Reconciliation.CountedByEpisode | app/transfer/cloud_inventory_service.py:412-442 | the loop invariant: a candidate is present iff an odd number of distinct signatures was seen, it is the latest one, and the reported keys are those of every second copy |
| Reconciliation.ObservedExactly | app/transfer/cloud_inventory_service.py:412-452 | every listing, season and number of copies: ambiguity is reported iff at least two signatures were listed; observed iff their number is odd and the last copy's key was never reported |
| Reconciliation.SoleSignatureObserved | app/transfer/cloud_inventory_service.py:444-452 | observed iff exactly one signature, when all keys belong to the season |
| Reconciliation.NarrowSeason | app/transfer/cloud_inventory_service.py:408-410 | below season 10 the slice decides the season; from 100 on nothing is accepted |
| Reconciliation.SandwichObserved | app/transfer/cloud_inventory_service.py:408-442 | for every season from 10 to 99 three conflicting copies are observed as one |
| Reconciliation.ObservedMeansSoleIff | app/transfer/cloud_inventory_service.py:389-452 | the one-signature rule holds over all listings iff the season is below 10 or from 100 on |
| CloudInventory.InventoryTable.FindIdentityRows | app/transfer/cloud_inventory_service.py:190-210 | finds the positions of exactly the rows of the identity |
| CloudInventory.AtMostOneMatch | app/transfer/cloud_inventory_service.py:190-210 | in a table without duplicates the query finds the one row or none |
| CloudInventory.InventoryTable.UpsertVerifiedTransfer | app/transfer/cloud_inventory_service.py:213-318 | all refusals and the write, as one function of the table and the request |
| InventoryRows.UpsertWrites | app/transfer/cloud_inventory_service.py:237-318 | INSERTED iff no row of the identity existed, UNCHANGED iff it already had these values: the stripped title and the stripped cleaned title, each the id where blank, season, episode and file name, and the path if one is given; afterwards the one row of the identity has them, keeping its path if none is given |
| InventoryRows.UpsertRefuses | app/transfer/cloud_inventory_service.py:237-257 | every refusal iff its reason holds and no earlier one does, with the table as it was |
| CloudInventory.PlannedResolves | app/transfer/cloud_inventory_service.py:237-273 | the write boundary neither refuses nor alters a planned entry |
| CloudInventory.StoreStep | app/transfer/cloud_inventory_service.py:274-318 | one write does what the planner predicts, keeps the table free of duplicates, touches no other row, and leaves the entry stored |
| CloudInventory.ObservedEntries | app/transfer/cloud_inventory_service.py:449-452 | the observed list holds exactly the surviving candidates, sorted, one per episode |
| InventoryRows.PlannedInOrder | app/transfer/cloud_inventory_service.py:449-452 | they run by season and then by episode |
| CloudInventory.InventoryTable.RowsByEpisode | app/transfer/cloud_inventory_service.py:453-455 | the planner's dictionary holds the last row of every episode |
| CloudInventory.InventoryTable.BuildReconciliationPlan | app/transfer/cloud_inventory_service.py:359-469 | refuses non-positive identities, and otherwise computes the plan of the table and the listing |
| CloudInventory.ListedByVerdict | app/transfer/cloud_inventory_service.py:453-468 | the three lists part the observed entries by what applying each will do |
| CloudInventory.InventoryTable.ApplyReconciliationPlan | app/transfer/cloud_inventory_service.py:472-495 | applies the entries in order and stops at the first ambiguous identity |
| CloudInventory.ApplyAsPredicted | app/transfer/cloud_inventory_service.py:472-495 | from a table without duplicates every write succeeds, with the outcome predicted from the table before the run, and other rows stay |
| CloudInventory.StatusesMatchLists | app/transfer/cloud_inventory_service.py:453-495 | INSERTED, UPDATED and UNCHANGED are reported exactly for to_insert, to_update and unchanged |
| CloudInventory.PlanAndApplyConverge | app/transfer/cloud_inventory_service.py:359-495 | planning the same listing again finds everything unchanged and nothing to insert or update |
| CloudInventory.ApplyRaisesIff | app/transfer/cloud_inventory_service.py:206-209 | on a table of any kind, duplicates included: applying raises iff the table holds two rows of an observed identity, and rows of other identities stay |
| CloudInventory.InventoryTable.UpdateRelPathsAfterPromotion | app/transfer/cloud_inventory_service.py:321-356 | every row of the series gets its final path, no other row and no other field changes, and the counts add up to the rows of the series |
| InventoryRows.PrefixParts | app/transfer/cloud_inventory_service.py:336-338 | the folder is the destination or else the series folder, below the completed root, blank parts and slashes at the ends left out |
| InventoryRows.LayeredIff | app/transfer/cloud_inventory_service.py:339-345 | season folders are used unless seasons are given and no two positive ones among them differ |
| InventoryRows.PathParts | app/transfer/cloud_inventory_service.py:346-348 | folder, season folder and file name joined by slashes, blank parts left out |
| InventoryRows.StripSlashesExact | app/transfer/cloud_inventory_service.py:336-338 | slashes are taken off both ends, and nothing else |
| CloudInventory.PathsCollideIff | app/transfer/cloud_inventory_service.py:337-350 | two rows end at the same path iff they have the same file name and, where seasons have folders, the same season |
| CloudInventory.PromotedTwice | app/transfer/cloud_inventory_service.py:346-354 | a second run changes nothing, and identities stay |
| CloudInventory.WideSeasonsNeverStored | app/transfer/cloud_inventory_service.py:254-257 | no request for a three-digit season is ever written |
| Outbox.ResourceStorage.SaveAndEnqueue | app/monitor/resource_pipeline.py:118-181 | stores the message, and enqueues iff its hashed content is new or changed |
| Outbox.SaveKeeps | app/monitor/resource_pipeline.py:118-181 | one row per message, queuing the content last saved; an unchanged save alters no row, a changed one makes its row pending afresh and touches no other |
| Outbox.SavedPost | app/monitor/resource_pipeline.py:118-181 | the message has the content and the rest of the post, others keep theirs; it counts as changed unless just this content was stored |
| Outbox.ResourceStorage.GetPending | app/monitor/resource_pipeline.py:183-189 | pending rows, which are all but the SENT ones, with the payloads they queue, by strictly increasing id, at most limit of them, and a pending row that is not listed comes behind a full list |
| Outbox.FirstDueAgree | app/monitor/resource_pipeline.py:183-189 | these conditions determine the list |
| Outbox.ResourceStorage.MarkSent | app/monitor/resource_pipeline.py:191-196 | sets the one row to SENT |
| Outbox.ResourceStorage.MarkRetry | app/monitor/resource_pipeline.py:198-203 | sets the one row to RETRY_WAIT, counts the attempt and keeps the first 1000 characters of the error |
| Outbox.DeliverOutboxPending | app/monitor/resource_pipeline.py:317-330 | tries each fetched row once and reports the number accepted |
| Outbox.DeliverRows | app/monitor/resource_pipeline.py:317-330 | row by row: accepted rows become SENT, rejected ones stay pending, all others are untouched |
| OutboxDelivery.CallRows | app/monitor/resource_pipeline.py:317-330 | the same for one call on the first limit pending rows |
| OutboxDelivery.CallPending | app/monitor/resource_pipeline.py:317-330 | the pending list after a call: rejected rows of the window, then the rest |
| OutboxDelivery.CallMoves | app/monitor/resource_pipeline.py:317-330 | with a succeeding handler a call moves, and reports, exactly min(limit, n) rows |
| OutboxDelivery.CallSends | app/monitor/resource_pipeline.py:317-330 | a pending row is SENT after a call iff the call tries it and the handler accepts its payload |
| OutboxDelivery.CallReports | app/monitor/resource_pipeline.py:317-330 | the number reported is that of the rows of the window which the handler accepts |
| OutboxDelivery.DrainedAfter | app/monitor/resource_pipeline.py:317-349 | n pending rows are drained by ceil(n / limit) calls and by no fewer |
| OutboxQueue.DeliveredIff | app/monitor/resource_pipeline.py:183-189 | on the pending list: a row ever leaves iff it is accepted and fewer than limit rejected rows are ahead of it |
| OutboxDelivery.SentEventuallyIff | app/monitor/resource_pipeline.py:183-203 | the same on the table: limit failing rows starve everything behind them, since retries keep their place |
| OutboxProtocol.StepKeeps | app/monitor/resource_pipeline.py:118-203 | every step of every deliverer and every save keeps the invariant |
| OutboxSteps.SaveExact | app/monitor/resource_pipeline.py:118-181 | saving stores the post; unless it was stored with just this content, one row, the one of its message or a new one at the end, holds it afresh, and no other row changes |
| OutboxSteps.FetchExact | app/monitor/resource_pipeline.py:183-189 | a deliverer without items gets the first due rows with their present payloads; nothing else changes |
| OutboxSteps.IngestExact | app/monitor/resource_pipeline.py:322-323 | the handler answers for the first item held, and what it accepts is the version that was fetched |
| OutboxSteps.MarkExact | app/monitor/resource_pipeline.py:191-203 | only the row of the first item held changes, to SENT if that item was accepted, to RETRY_WAIT with one more attempt if it was tried; the deliverer goes on to the next |
| OutboxSteps.StopExact | app/monitor/resource_pipeline.py:317-330 | a call that stops drops its items and changes no row |
| OutboxProtocol.RunSafe | app/monitor/resource_pipeline.py:279-349 | over every interleaving: one row per message, queued hash equals stored hash, and a SENT row had some version of its message accepted |
| OutboxProtocol.LeavesOnlyIngested | app/monitor/resource_pipeline.py:324-329 | a row leaves the pending set only by a mark after an accepted version of it |
| OutboxProtocol.MarkSentExact | app/monitor/resource_pipeline.py:191-196 | after a mark the current version was ingested iff no save overtook the mark or another deliverer had ingested it |
| OutboxProtocol.TimelyIsCurrent | app/monitor/resource_pipeline.py:279-349 | for any number of deliverers: if no mark is overtaken by a save, then throughout the run SENT means the current version was ingested |
| OutboxProtocol.CurrentIffHarmless | app/monitor/resource_pipeline.py:279-349 | over every run of any number of deliverers: SENT means current throughout iff every mark finds its row not enqueued again since the fetch, or the newer version already ingested |
| OutboxCallers.CallersCurrentIff | app/monitor/resource_pipeline.py:302-309 | for the worker and the retry loop the program starts: the worker is never overtaken, so SENT means current throughout iff every mark of the loop is harmless, and always while the loop marks nothing |
| OutboxCallers.LostEdit | app/monitor/resource_pipeline.py:302-349 | a run of the worker and the loop, each save at once followed by the worker's fetch, that ends in an overtaken mark: the edit is SENT and was never ingested if the worker's own attempt at it failed, and nothing is lost if it succeeded |
| OutboxProtocol.StaysLost | app/monitor/resource_pipeline.py:183-203 | and no continuation ingests it unless the message is edited again |
| OutboxProtocol.CallIsRun | app/monitor/resource_pipeline.py:317-330 | an undisturbed delivery call is one particular run of the protocol |
| SafeJson.SafeIsClean | app/security/admin_service.py:33-44 | nothing that is logged names a secret at any depth |
| SafeJson.CleanIsKept | app/security/admin_service.py:33-44 | a value is logged unaltered iff it names no secret and holds nothing opaque |
| SafeJson.SafeTwice | app/security/admin_service.py:33-44 | sanitising is idempotent |
| SafeJson.SecretIff | app/security/admin_service.py:33-44 | a field name is secret iff one of the seven words occurs in it, whatever its letter case |
| SafeJson.FieldKept | app/security/admin_service.py:33-44 | every field that is not secret is kept, with its sanitised value |
| SafeJson.FieldWasThere | app/security/admin_service.py:33-44 | and every field of the result is one of those |
| SafeJson.ItemsKept | app/security/admin_service.py:33-44 | lists keep all their items, sanitised, in order |
| SafeJson.ScalarsKept | app/security/admin_service.py:42-44 | numbers, texts, flags and null stay as they are, other objects become their text |
| AdminService.SnapshotSafe | app/security/admin_service.py:107-140 | snapshots are logged in full |
| AdminService.AdminService.ResolvePrincipal | app/security/admin_service.py:56-81 | who a user acts as, with and without a store, stamping last_seen of stored administrators only |
| AdminEffects.ActsAs | app/security/admin_service.py:56-81 | OWNER iff the configured id, or an enabled owner row while the store answers; ADMIN iff an enabled admin row; nobody otherwise |
| AdminEffects.ResolvingStamps | app/security/admin_service.py:56-81 | last_seen is set on the row of the user who acts by it, and nothing else changes |
| AdminService.AdminService.RequireOwner | app/security/admin_service.py:100-104 | accepts exactly those who resolve to OWNER, the configured owner in an outage included |
| AdminService.AdminService.RecordAudit | app/security/admin_service.py:121-143 | appends one sanitised entry; without a target this is the logging step of the runs below |
| AdminService.AdminService.AddAdmin | app/security/admin_service.py:195-244 | performs the operation as specified, refusals included |
| AdminService.AdminService.RemoveAdmin | app/security/admin_service.py:247-267 | the same |
| AdminService.AdminService.SetAdminEnabled | app/security/admin_service.py:270-290 | the same |
| AdminEffects.DoneIff | app/security/admin_service.py:195-290 | an operation is done iff the actor is an acting owner, the store answers, and the target is neither the configured owner nor an owner row, and stored unless it is added |
| AdminEffects.RefusedIff | app/security/admin_service.py:195-290 | every refusal iff its reason holds and no earlier one does |
| AdminEffects.EnabledAsAsked | app/security/admin_service.py:270-290 | after a done SetEnabled(on) the row has enabled == on and every other field as before |
| AdminEffects.RemovedIsGone | app/security/admin_service.py:247-267 | after a done Remove the id is not in the table |
| AdminEffects.AddedAsGiven | app/security/admin_service.py:195-244 | after a done Add a new row has the names and the note given, role ADMIN, enabled, its creator the actor; a stored row changes only in the fields given and in last_seen |
| AdminEffects.OthersKept | app/security/admin_service.py:195-290 | every other row, and after a refusal every row, is as it was but for the actor's stamp |
| AdminEffects.EntryNames | app/security/admin_service.py:107-143 | the entry names actor, action and target |
| AdminEffects.SnapshotShows | app/security/admin_service.py:107-118 | a snapshot shows every field of the row under its name |
| AdminService.PerformEffect | app/security/admin_service.py:195-290 | an operation that is done is logged once, with the true state before and after, and changes nobody else; otherwise nothing changes |
| AdminService.ReplayRebuilds | app/security/admin_service.py:195-290 | over every run: replaying the log per target gives each administrator's present snapshot, and consecutive entries chain |
| AdminService.LogIsClean | app/security/admin_service.py:121-143 | over every run: no entry names a secret |
| AdminService.FallbackIsOwner | app/security/admin_service.py:56-81 | the configured id is OWNER in every state and outage |
| AdminService.OwnersNeverChange | app/security/admin_service.py:195-290 | over every run: owner rows and the configured owner keep their snapshot, are never a target, and nobody becomes an owner |
| AdminService.AuthorityFixed | app/security/admin_service.py:56-104 | over every run: exactly the same users may act as owner |
| AdminService.ReAddingNeverEnables | app/security/admin_service.py:223-233 | over every run: a disabled administrator stays disabled until enabled, or removed |
| SeasonInference.StrictReadsWritten | app/season_inference.py:14-38 | the strict reader inverts writing for all positive seasons and episodes, without a digit limit |
| SeasonInference.Normalized | app/season_inference.py:41-50 | exactly the positive numbers of the values |
| SeasonInference.OnlyIsSingleton | app/season_inference.py:77-90 | a source contradicts a season iff it names exactly one season, and another one |
| SeasonInference.InferSeason | app/season_inference.py:53-97 | SAFE_INFER with the key's season iff no source names exactly one other season |
| SeasonRows.ParsedIff | app/season_inference.py:14-38 | a key is read iff it spells S, digits, E, digits with positive numbers of any length |
| SeasonRows.KeyOfTask | app/season_audit.py:55-59 | the key of a task is its own, else the first of its keys, else the one of its resource |
| SeasonBackfill.Database.AuditMissingSeasons | app/season_audit.py:46-75 | one record per task that lacks a season in its payload or its resource |
| SeasonRows.SafeIff | app/season_audit.py:46-75 | a task is recorded iff its payload or its resource lacks a season, and a season is safe for it iff its key spells that season and no payload, resource, watchlist rows of its series and title, or candidate rows of its series and episode name just one other |
| SeasonRows.RecordNames | app/season_audit.py:62-75 | a record names its task, the resource and the status of the task |
| SeasonBackfill.Database.ApplySafeBackfill | app/season_backfill.py:54-88 | applies the records in order; each counter is exactly the number of seasons filled in its table |
| SeasonBackfill.BackfillGrows | app/season_backfill.py:54-88 | only null seasons are filled, with positive values, and every safe executable record is filled |
| SeasonRows.FilledAsInferred | app/season_backfill.py:62-86 | a season that was filled in is one that the record of a queued or waiting task inferred for just that row |
| SeasonRows.NoneLeftMissing | app/season_backfill.py:62-86 | and no row of such a record lacks a season afterwards |
| SeasonBackfill.NoneNewlySafe | app/season_inference.py:70-97 | after filling, a task is safe only if it was safe before, with the same season |
| SeasonBackfill.OnePassSuffices | app/season_backfill.py:54-88 | auditing and applying a second time, in any order, changes nothing |
| SeasonBackfill.OtherTasksUntouched | app/season_backfill.py:66-69 | tasks that are not executable keep their payload |
| CollectedReconcile.LegacyParts | migration_tools/reconcile_collected.py:79-90 | every legacy episode is exactly one of collected, candidate and for review |
| CollectedReconcile.WatchTable.Partition | migration_tools/reconcile_collected.py:79-90 | the loop computes candidates and review list |
| CollectedReconcile.WatchTable.CollectCurrent | migration_tools/reconcile_collected.py:73-77 | the union of the rows of every identity |
| CollectedReconcile.ReadBack | migration_tools/reconcile_collected.py:138-141 | reading back loses exactly the keys of seasons from 1000 on |
| CollectedReconcile.ReadbackIff | migration_tools/reconcile_collected.py:139-142 | a readback fails iff something is added to a row of a season of four or more digits |
| CollectedReconcile.WideSeasonFails | migration_tools/reconcile_collected.py:139-142 | one confirmed legacy episode of any such season is enough |
| CollectedReconcile.GainsExactly | migration_tools/reconcile_collected.py:94-102 | the canonical keys of a row afterwards are those it had and exactly the legacy episodes that the inventory confirms and no row of its identity had; no canonical key is lost |
| CollectedRows.RowGains | migration_tools/reconcile_collected.py:73-102 | the same of stored values: a row reads as an episode afterwards iff it did before, or a legacy value and an inventory row of its series and season name it and no row of that series and season read as it |
| CollectedRows.RowWritten | migration_tools/reconcile_collected.py:103-105 | a row is left as it was, or written anew with canonical keys only, by season and then by episode, none twice |
| CollectedRows.ReviewExact | migration_tools/reconcile_collected.py:79-90 | for review is exactly what a legacy value names and neither a row nor the inventory has |
| CollectedReconcile.EntryStaysIff | migration_tools/reconcile_collected.py:3-5 | a stored entry survives a successful run iff nothing is added to its row or it is written canonically already |
| CollectedReconcile.JunkIsDropped | migration_tools/reconcile_collected.py:3-5 | one confirmed episode replaces the array of a row holding only an entry that reads as no key |
| CollectedReconcile.ConfirmedIsCollected | migration_tools/reconcile_collected.py:79-102 | every confirmed legacy episode of a followed identity is collected afterwards |
| CollectedReconcile.SecondRunAddsNothing | migration_tools/reconcile_collected.py:49-145 | a second run leaves the table exactly as it is |
| CollectedReconcile.WatchTable.Reconcile | migration_tools/reconcile_collected.py:49-149 | dry runs and failed readbacks change nothing; a run fails iff a readback does; otherwise the table is the reconciled one |
| Radar.PartitionAired | app/follow/enhanced_radar_service.py:216-258 | the aired episodes and those airing today, each in listing order; without a listing the whole range and none today |
| Radar.AiredIff | app/follow/enhanced_radar_service.py:216-258 | an episode has aired iff some entry gives it with a date up to today, or, without a listing, it is in the range |
| Radar.AiringIff | app/follow/enhanced_radar_service.py:216-258 | and airs today iff some entry dates it today |
| Radar.ClassifyMissing | app/follow/enhanced_radar_service.py:260-302 | trailing is the maximal missing run ending at the newest aired episode, early the maximal one from 1 outside it, mid the rest |
| Radar.TiersPart | app/follow/enhanced_radar_service.py:260-302 | the tiers part the missing episodes |
| Radar.OrderedIff | app/follow/enhanced_radar_service.py:260-302 | early below mid below trailing, for exactly the inputs without the two spoiling numbers |
| Radar.RegularIsOrdered | app/follow/enhanced_radar_service.py:260-302 | always so for missing episodes among the aired ones, numbered from 1 |
| Radar.ScanSeason | app/follow/enhanced_radar_service.py:139-178 | an episode is reported, in one tier, iff an entry dates it up to today, it is not in the library and neither it nor 0, for the whole season, is ignored |
| Radar.SpoiledByNumber | app/follow/enhanced_radar_service.py:167-178 | in a season the order is spoiled only by an aired episode numbered below 1 |
| Radar.EpisodeZeroSpoils | app/follow/enhanced_radar_service.py:167-178 | with 0, 1, 2, 3 aired and 2 in the library, the report is early 1, middle 0, trailing 3, and so out of order |

## Left out

- Telegram bot, calendar, FrameHDR, TMDB and Telegram clients, HTTP routes, the ingest, scout and follow workers: input,
  output and presentation.
- `promotion_readback_decision`, `prefilter_watchlists`, `enqueue_ready_promotions`,
  canary and final preflight, destination names: flat case tables or plumbing around what is modelled.
- Regular expressions over names: a name is a record of what they find in it (tokens, flags, rank attributes); two names
  are equal texts iff their records are equal. `season_identity` is the `seasonLabel` of that record.
- Unicode: digits, case folding and white space are those of ASCII.
- The content hash, the watermark digest: each stands for the content it is taken of, that is, they are taken to be
  injective; the watermark's file list is not sorted.
- EpisodeKeys.WideSeasonsTie: a set yields its items in an unspecified order; where that shows, the model takes the order
  of first appearance. `CanonicalKeysAscending` speaks of every order.
- PhysicalScan.Traverse: the provider is one function for the length of a scan (each page is asked for at most once);
  child paths, sizes by name, the count of unparsed videos and the non-critical layout conflicts are not recorded; sleeps
  and timeouts are outcomes of a page call.
- FileSelection.SelectFiles: the listing counts, rejected files and the sorted key listing of WHOLE_SHARE are diagnostics
  and not part of the result.
- Promotion.BuildDryRun: evidence identifiers, file names expected per season and the provider's configuration row are
  not part of the decision modelled.
- CloudInventory.InventoryTable.UpsertVerifiedTransfer: row ids and update times are not modelled (a table is its rows in
  the order of their ids), nor are failing flushes; the title cleaner is an arbitrary function.
- CloudInventory.InventoryTable.BuildReconciliationPlan: the reasons and file names of unparsed and ambiguous items are
  not recorded, only their number and keys.
- Outbox.ResourceStorage.SaveAndEnqueue: times and the migration of rows written before the hash column existed are left
  out; the store starts empty, so every message has its row.
- OutboxProtocol.RunSafe: the handler's effect is the set of versions it accepted; what the ingest does with them is not
  part of this model.
- SafeJson.SafeIsClean: dictionary keys are texts; two keys with the same text are not merged.
- AdminService.AdminService.AddAdmin: an outage is one that lasts for the whole operation; creation times are left out.
  Changes to the admin table outside this service are not modelled.
- SeasonInference.InferSeason: the wording of the evidence list and the values of a conflict are left out.
- SeasonBackfill.Database.AuditMissingSeasons: only transfer tasks; records of standalone resources and ingest jobs carry
  no task status and are ignored by the backfill. A watchlist or candidate index is a search over the rows.
- CollectedReconcile.WatchTable.Reconcile: titles, the order of report entries and the count of applied episodes are left
  out; rows are those the query returns.
- Radar.ClassifyMissing: the middle tier is a set, its sorting is left out; so is the list of seasons over all series.
