/** The promotion gate: `evaluate_promotion` (app/follow/promotion.py) and the evidence that `build_dry_run`
    (app/follow/completion_promotion_service.py) assembles for it. */
module Promotion {
  import opened PyText
  import opened EpisodeKeys
  import opened CloudListing
  import opened PhysicalScan

  // ---------- evaluate_promotion ----------

  const ENDED: set<string> := {"ended", "canceled", "cancelled"}

  predicate IsEnded(status: Option<string>) {
    status.Some? && Lower(Strip(status.value)) in ENDED
  }

  datatype SeasonEvidence = SeasonEvidence(
    season: int,
    status: Option<string>,
    total: int,
    collectedCount: int,
    inventoryCount: int,
    cloudCount: int,
    expectedKeys: set<Key>,
    collectedKeys: set<Key>,
    inventoryKeys: set<Key>,
    cloudKeys: set<Key>
  )

  datatype Verdict =
    | PromotionReady
    | NeedsReview
    | SeriesNotReady
    | SeriesNotEnded
    | ActiveTransfer
    | ContentIncomplete
    | InventoryIncomplete
    | ScanUnverified
    | CloudIncomplete
    | DestinationConflict

  /** Everything the gate looks at besides the seasons. */
  datatype Circumstances = Circumstances(
    status: Option<string>,
    ongoingRoot: Option<string>,
    completedRoot: Option<string>,
    activeCount: int,
    destinationConflict: bool,
    scanStatus: Option<ScanStatus>,
    watermark: Option<Watermark>,
    watermarkNeeded: bool
  )

  datatype Decision = Decision(verdict: Verdict, total: nat, collected: nat, inventory: nat, cloud: nat, missing: nat,
                               active: nat)

  function AtLeastZero(n: int): nat {
    if n < 0 then 0 else n
  }

  function Max(a: int, b: int): int {
    if a < b then b else a
  }

  function SumCounts(seasons: seq<SeasonEvidence>, f: SeasonEvidence -> int): nat {
    if seasons == [] then 0 else SumCounts(seasons[..|seasons| - 1], f) + AtLeastZero(f(seasons[|seasons| - 1]))
  }

  /** `item.get("series_status") or series_status`. */
  function OwnStatus(item: SeasonEvidence, series: Option<string>): Option<string> {
    if item.status.None? || item.status.value == "" then series else item.status
  }

  predicate NonEmpty(root: Option<string>) {
    root.Some? && root.value != ""
  }

  function TotalField(s: SeasonEvidence): int { s.total }

  function CollectedField(s: SeasonEvidence): int { s.collectedCount }

  function InventoryField(s: SeasonEvidence): int { s.inventoryCount }

  function CloudField(s: SeasonEvidence): int { s.cloudCount }

  function CollectedOf(s: SeasonEvidence): set<Key> { s.collectedKeys }

  function InventoryOf(s: SeasonEvidence): set<Key> { s.inventoryKeys }

  function CloudOf(s: SeasonEvidence): set<Key> { s.cloudKeys }

  /** A listing falls short: by its summed count, or by a missing key in some season. */
  predicate Short(seasons: seq<SeasonEvidence>, count: SeasonEvidence -> int, keys: SeasonEvidence -> set<Key>) {
    || SumCounts(seasons, count) < SumCounts(seasons, TotalField)
    || exists s :: s in seasons && !(s.expectedKeys <= keys(s))
  }

  /** The first test that fails decides. */
  function Chain(rootMissing: bool, notEnded: bool, several: bool, busy: bool, uncollected: bool, unlisted: bool,
                 unverified: bool, absent: bool, conflict: bool): Verdict
  {
    if rootMissing then NeedsReview
    else if notEnded then if several then SeriesNotReady else SeriesNotEnded
    else if busy then ActiveTransfer
    else if uncollected then ContentIncomplete
    else if unlisted then InventoryIncomplete
    else if unverified then ScanUnverified
    else if absent then CloudIncomplete
    else if conflict then DestinationConflict
    else PromotionReady
  }

  function Evaluate(seasons: seq<SeasonEvidence>, c: Circumstances): Decision {
    var total := SumCounts(seasons, TotalField);
    var collected := SumCounts(seasons, CollectedField);
    var inventory := SumCounts(seasons, InventoryField);
    var cloud := SumCounts(seasons, CloudField);
    var missing := AtLeastZero(Max(total - collected, Max(total - inventory, total - cloud)));
    var active := AtLeastZero(c.activeCount);
    var scanStatus := if c.scanStatus.Some? then c.scanStatus.value else Verified;
    var verdict := Chain(
      !NonEmpty(c.ongoingRoot) || !NonEmpty(c.completedRoot),
      (exists s :: s in seasons && !IsEnded(OwnStatus(s, c.status))) || !IsEnded(c.status),
      |seasons| > 1,
      active != 0,
      Short(seasons, CollectedField, CollectedOf),
      Short(seasons, InventoryField, InventoryOf),
      scanStatus != Verified || (c.watermarkNeeded && c.watermark.None?),
      Short(seasons, CloudField, CloudOf),
      c.destinationConflict);
    Decision(verdict, total, collected, inventory, cloud, missing, active)
  }

  lemma {:induction false} SumCountsMonotone(seasons: seq<SeasonEvidence>, f: SeasonEvidence -> int,
                                             g: SeasonEvidence -> int)
    requires forall s | s in seasons :: f(s) <= g(s)
    ensures SumCounts(seasons, f) <= SumCounts(seasons, g)
  {
    if seasons != [] {
      var front := seasons[..|seasons| - 1];
      assert forall s | s in front :: s in seasons;
      SumCountsMonotone(front, f, g);
      assert seasons[|seasons| - 1] in seasons;
    }
  }

  // ---------- active transfers ----------

  datatype TaskStatus = Queued | Running | RetryWait | Inactive

  datatype TransferTask = TransferTask(
    status: TaskStatus,
    underReview: bool,            // preflight classification NEEDS_REVIEW or REJECTED
    isPromotion: bool,
    tmdbId: Field,
    season: Field,
    resourceId: Option<int>
  )

  datatype TransferJob = TransferJob(resourceId: int, status: TaskStatus)

  datatype Resource = Resource(tmdbId: Option<int>, season: Option<int>)

  datatype TransferTables = TransferTables(tasks: seq<TransferTask>, jobs: seq<TransferJob>,
                                           resources: map<int, Resource>)

  /** `int(payload_value or resource_value)`; None where Python raises. */
  function FirstTruthy(field: Field, fallback: Option<int>): Option<int> {
    match field
    case Unreadable => None
    case Number(n) => if n != 0 then Some(n) else fallback
    case Absent => fallback
  }

  function ResourceOf(tables: TransferTables, id: Option<int>): Option<Resource> {
    if id.Some? && id.value in tables.resources then Some(tables.resources[id.value]) else None
  }

  /** The task occupies an executor for this series and season. */
  predicate TaskActive(tables: TransferTables, task: TransferTask, tmdbId: int, season: int) {
    var resource := ResourceOf(tables, task.resourceId);
    && (task.status == Running || ((task.status == Queued || task.status == RetryWait) && !task.underReview))
    && !task.isPromotion
    && FirstTruthy(task.tmdbId, if resource.Some? then resource.value.tmdbId else None) == Some(tmdbId)
    && FirstTruthy(task.season, if resource.Some? then resource.value.season else None) == Some(season)
  }

  predicate JobActive(tables: TransferTables, job: TransferJob, tmdbId: int, season: int) {
    && job.status != Inactive
    && job.resourceId in tables.resources
    && tables.resources[job.resourceId] == Resource(Some(tmdbId), Some(season))
  }

  ghost predicate Idle(tables: TransferTables, tmdbId: int, season: int) {
    && (forall task | task in tables.tasks :: !TaskActive(tables, task, tmdbId, season))
    && (forall job | job in tables.jobs :: !JobActive(tables, job, tmdbId, season))
  }

  /** The jobs, and the tasks, among the first n that are active for the series and season. */
  function ActiveJobs(tables: TransferTables, tmdbId: int, season: int, n: nat): set<nat> {
    set j: nat | j < n && j < |tables.jobs| && JobActive(tables, tables.jobs[j], tmdbId, season)
  }

  function ActiveTasks(tables: TransferTables, tmdbId: int, season: int, n: nat): set<nat> {
    set j: nat | j < n && j < |tables.tasks| && TaskActive(tables, tables.tasks[j], tmdbId, season)
  }

  lemma OneMoreJob(tables: TransferTables, tmdbId: int, season: int, i: nat)
    requires i < |tables.jobs|
    ensures |ActiveJobs(tables, tmdbId, season, i + 1)| ==
            |ActiveJobs(tables, tmdbId, season, i)| +
            if JobActive(tables, tables.jobs[i], tmdbId, season) then 1 else 0
  {
    var more := if JobActive(tables, tables.jobs[i], tmdbId, season) then {i} else {};
    assert ActiveJobs(tables, tmdbId, season, i + 1) == ActiveJobs(tables, tmdbId, season, i) + more;
  }

  lemma OneMoreTask(tables: TransferTables, tmdbId: int, season: int, i: nat)
    requires i < |tables.tasks|
    ensures |ActiveTasks(tables, tmdbId, season, i + 1)| ==
            |ActiveTasks(tables, tmdbId, season, i)| +
            if TaskActive(tables, tables.tasks[i], tmdbId, season) then 1 else 0
  {
    var more := if TaskActive(tables, tables.tasks[i], tmdbId, season) then {i} else {};
    assert ActiveTasks(tables, tmdbId, season, i + 1) == ActiveTasks(tables, tmdbId, season, i) + more;
  }

  lemma IdleIffNone(tables: TransferTables, tmdbId: int, season: int)
    ensures Idle(tables, tmdbId, season) <==>
            |ActiveJobs(tables, tmdbId, season, |tables.jobs|)| == 0 &&
            |ActiveTasks(tables, tmdbId, season, |tables.tasks|)| == 0
  {
    var jobs := ActiveJobs(tables, tmdbId, season, |tables.jobs|);
    var tasks := ActiveTasks(tables, tmdbId, season, |tables.tasks|);
    if Idle(tables, tmdbId, season) {
      assert jobs == {} && tasks == {};
    }
    if |jobs| + |tasks| == 0 {
      forall task | task in tables.tasks
        ensures !TaskActive(tables, task, tmdbId, season)
      {
        var j: nat :| j < |tables.tasks| && tables.tasks[j] == task;
        assert j !in tasks;
      }
      forall job | job in tables.jobs
        ensures !JobActive(tables, job, tmdbId, season)
      {
        var j: nat :| j < |tables.jobs| && tables.jobs[j] == job;
        assert j !in jobs;
      }
    }
  }

  method ActiveTransferCount(tables: TransferTables, tmdbId: int, season: int) returns (count: nat)
    ensures count ==
            |ActiveJobs(tables, tmdbId, season, |tables.jobs|)| + |ActiveTasks(tables, tmdbId, season, |tables.tasks|)|
    ensures count == 0 <==> Idle(tables, tmdbId, season)
  {
    count := 0;
    for i := 0 to |tables.jobs|
      invariant count == |ActiveJobs(tables, tmdbId, season, i)|
    {
      OneMoreJob(tables, tmdbId, season, i);
      if JobActive(tables, tables.jobs[i], tmdbId, season) {
        count := count + 1;
      }
    }
    for i := 0 to |tables.tasks|
      invariant count == |ActiveJobs(tables, tmdbId, season, |tables.jobs|)| + |ActiveTasks(tables, tmdbId, season, i)|
    {
      OneMoreTask(tables, tmdbId, season, i);
      var task := tables.tasks[i];
      if task.status == Inactive || (task.status != Running && task.underReview) || task.isPromotion {
        continue;
      }
      var resource := ResourceOf(tables, task.resourceId);
      var taskTmdb := FirstTruthy(task.tmdbId, if resource.Some? then resource.value.tmdbId else None);
      var taskSeason := FirstTruthy(task.season, if resource.Some? then resource.value.season else None);
      if taskTmdb == Some(tmdbId) && taskSeason == Some(season) {
        count := count + 1;
      }
    }
    IdleIffNone(tables, tmdbId, season);
  }

  // ---------- build_dry_run: the evidence per season ----------

  datatype WatchRow = WatchRow(season: Option<int>, collected: seq<Raw>)
  datatype InventoryRow = InventoryRow(season: Option<int>, episode: Option<int>)
  datatype TmdbSeason = UnreadableSeason | TmdbSeason(number: int, episodes: int)

  datatype Dossier = Dossier(
    tmdbId: int,
    rows: seq<WatchRow>,                        // never empty: falls back to the row asked about
    inventory: seq<InventoryRow>,
    tmdbSeasons: seq<TmdbSeason>,
    status: Option<string>,
    cloudKeys: Option<map<int, set<string>>>,
    tables: TransferTables
  )

  /** `tmdb_episode_counts`: positive entries only, the last one of a number wins. */
  function EpisodeCounts(seasons: seq<TmdbSeason>): (m: map<int, int>)
    ensures forall s | s in m :: s > 0 && m[s] > 0
  {
    if seasons == [] then map[] else
      var last, m := seasons[|seasons| - 1], EpisodeCounts(seasons[..|seasons| - 1]);
      if Counts(last) then m[last.number := last.episodes] else m
  }

  predicate Counts(season: TmdbSeason) {
    season.TmdbSeason? && season.number > 0 && season.episodes > 0
  }

  /** The last entry of its number that counts. */
  predicate LastOfNumber(seasons: seq<TmdbSeason>, i: nat) {
    && i < |seasons| && Counts(seasons[i])
    && forall j | i < j < |seasons| && Counts(seasons[j]) :: seasons[j].number != seasons[i].number
  }

  /** The counts are exactly those of the last positive entries of each number. */
  lemma {:induction false} EpisodeCountsExact(seasons: seq<TmdbSeason>, number: int, episodes: int)
    ensures (number in EpisodeCounts(seasons) && EpisodeCounts(seasons)[number] == episodes) <==>
            exists i: nat :: LastOfNumber(seasons, i) && seasons[i].number == number && seasons[i].episodes == episodes
  {
    if seasons != [] {
      var n := |seasons| - 1;
      EpisodeCountsExact(seasons[..n], number, episodes);
      forall i: nat | i < n
        ensures LastOfNumber(seasons, i) <==>
                LastOfNumber(seasons[..n], i) && !(Counts(seasons[n]) && seasons[n].number == seasons[i].number)
      {
        assert forall j | 0 <= j < n :: seasons[..n][j] == seasons[j];
      }
      assert LastOfNumber(seasons, n) <==> Counts(seasons[n]);
    }
  }

  /** `{int(row.season or 1): row for row in rows}`. */
  function RowsBySeason(rows: seq<WatchRow>): map<int, WatchRow> {
    if rows == [] then map[] else
      RowsBySeason(rows[..|rows| - 1])[EffectiveSeason(rows[|rows| - 1].season) := rows[|rows| - 1]]
  }

  function SeasonsOf(d: Dossier): set<int> {
    RowsBySeason(d.rows).Keys + EpisodeCounts(d.tmdbSeasons).Keys
  }

  function TotalOf(d: Dossier, season: int): nat {
    if season in EpisodeCounts(d.tmdbSeasons) then EpisodeCounts(d.tmdbSeasons)[season] else 0
  }

  function ExpectedKeys(season: int, total: nat): set<Key> {
    set e | 1 <= e <= total :: Key(season, e)
  }

  function CollectedKeys(d: Dossier, season: int): set<Key> {
    if season in RowsBySeason(d.rows) then KeySet(Some(season), RowsBySeason(d.rows)[season].collected) else {}
  }

  function InventoryKeys(d: Dossier, season: int): set<Key> {
    set i | && 0 <= i < |d.inventory|
            && EffectiveSeason(d.inventory[i].season) == season && d.inventory[i].episode.Some? ::
      Key(season, d.inventory[i].episode.value)
  }

  function TextKeys(season: int, texts: set<string>): set<Key> {
    set text | text in texts && KeyOf(Some(season), TextValue(text)).Some? :: KeyOf(Some(season), TextValue(text)).value
  }

  function PhysicalKeys(d: Dossier, season: int): set<Key> {
    if d.cloudKeys.Some? && season in d.cloudKeys.value then TextKeys(season, d.cloudKeys.value[season]) else {}
  }

  function EvidenceOf(d: Dossier, season: int): SeasonEvidence {
    var total := TotalOf(d, season);
    var collected, inventory, physical := CollectedKeys(d, season), InventoryKeys(d, season), PhysicalKeys(d, season);
    SeasonEvidence(season, if total > 0 then d.status else Some("UNKNOWN"), total,
                   |collected|, |inventory|, |physical|, ExpectedKeys(season, total), collected, inventory, physical)
  }

  /** `cloud_scan_status or ("VERIFIED" if keys given else "SCAN_UNVERIFIED")`; any unverified status behaves alike. */
  function PassedStatus(d: Dossier, scanStatus: Option<ScanStatus>): ScanStatus {
    if scanStatus.Some? then scanStatus.value else if d.cloudKeys.Some? then Verified else ApiError
  }

  /** The evidence of each of the given seasons, in ascending order. */
  ghost predicate Assembled(keys: set<int>, evidence: int -> SeasonEvidence, seasons: seq<SeasonEvidence>) {
    && (forall i, j | 0 <= i < j < |seasons| :: seasons[i].season < seasons[j].season)
    && (forall s :: s in seasons <==> s.season in keys && s == evidence(s.season))
  }

  lemma {:induction false} SmallestFrom(s: set<int>, x: int)
    requires x in s
    ensures exists m :: m in s && forall y | y in s :: m <= y
    decreases |s|
  {
    if y :| y in s && y < x {
      SmallestFrom(s - {x}, y);
      var m :| m in s - {x} && forall z | z in s - {x} :: m <= z;
      forall z | z in s
        ensures m <= z
      {
        assert m <= y;
        if z != x {
          assert z in s - {x};
        }
      }
    }
  }

  lemma SmallestExists(s: set<int>)
    ensures s == {} || exists m :: m in s && forall y | y in s :: m <= y
  {
    if forall x :: x !in s {
      assert s == {};
    } else {
      var x :| x in s;
      SmallestFrom(s, x);
    }
  }

  method Lowest(seasons: set<int>) returns (season: int)
    requires seasons != {}
    ensures season in seasons && forall s | s in seasons :: season <= s
  {
    SmallestExists(seasons);
    season :| season in seasons && forall s | s in seasons :: season <= s;
  }

  /** `sorted(seasons)`. */
  method Sorted(seasons: set<int>) returns (order: seq<int>)
    ensures forall i, j | 0 <= i < j < |order| :: order[i] < order[j]
    ensures forall s :: s in order <==> s in seasons
  {
    var remaining := seasons;
    order := [];
    while remaining != {}
      invariant remaining <= seasons
      invariant forall i, j | 0 <= i < j < |order| :: order[i] < order[j]
      invariant forall i, s | 0 <= i < |order| && s in remaining :: order[i] < s
      invariant forall s :: s in order <==> s in seasons && s !in remaining
      decreases |remaining|
    {
      var next := Lowest(remaining);
      order := order + [next];
      remaining := remaining - {next};
    }
  }

  /** The loop over `sorted(set(rows_by_season) | set(tmdb_episode_counts))`. */
  method AssembleEvidence(keys: set<int>, evidence: int -> SeasonEvidence, tables: TransferTables, tmdbId: int)
      returns (seasons: seq<SeasonEvidence>, activeTotal: nat)
    requires forall s | s in keys :: evidence(s).season == s
    ensures Assembled(keys, evidence, seasons)
    ensures activeTotal == 0 <==> forall s | s in keys :: Idle(tables, tmdbId, s)
  {
    var order := Sorted(keys);
    seasons, activeTotal := [], 0;
    for i := 0 to |order|
      invariant |seasons| == i && forall j | 0 <= j < i :: seasons[j] == evidence(order[j])
      invariant activeTotal == 0 <==> forall j | 0 <= j < i :: Idle(tables, tmdbId, order[j])
    {
      var active := ActiveTransferCount(tables, tmdbId, order[i]);
      activeTotal := activeTotal + active;
      seasons := seasons + [evidence(order[i])];
    }
    AssembledInOrder(keys, evidence, order, seasons);
    assert (forall j | 0 <= j < |order| :: Idle(tables, tmdbId, order[j])) <==>
           (forall s | s in keys :: Idle(tables, tmdbId, s));
  }

  lemma AssembledInOrder(keys: set<int>, evidence: int -> SeasonEvidence, order: seq<int>, seasons: seq<SeasonEvidence>)
    requires forall s | s in keys :: evidence(s).season == s
    requires forall i, j | 0 <= i < j < |order| :: order[i] < order[j]
    requires forall s :: s in order <==> s in keys
    requires |seasons| == |order| && forall j | 0 <= j < |order| :: seasons[j] == evidence(order[j])
    ensures Assembled(keys, evidence, seasons)
  {
    assert forall j | 0 <= j < |order| :: order[j] in order;
    forall s: SeasonEvidence | s.season in keys && s == evidence(s.season)
      ensures s in seasons
    {
      var j :| 0 <= j < |order| && order[j] == s.season;
      assert seasons[j] == s;
    }
  }

  function EvidenceRule(d: Dossier): int -> SeasonEvidence {
    (season: int) => EvidenceOf(d, season)
  }

  /** What `build_dry_run` hands to the gate. */
  function Passed(d: Dossier, c: Circumstances, active: nat): Circumstances {
    c.(status := d.status, activeCount := active, scanStatus := Some(PassedStatus(d, c.scanStatus)))
  }

  method BuildDryRun(d: Dossier, c: Circumstances)
      returns (decision: Decision, seasons: seq<SeasonEvidence>, active: nat)
    ensures Assembled(SeasonsOf(d), EvidenceRule(d), seasons)
    ensures active == 0 <==> forall s | s in SeasonsOf(d) :: Idle(d.tables, d.tmdbId, s)
    ensures decision == Evaluate(seasons, Passed(d, c, active))
  {
    var tmdbCounts := EpisodeCounts(d.tmdbSeasons);
    var rows := RowsBySeason(d.rows);
    seasons, active := AssembleEvidence(rows.Keys + tmdbCounts.Keys, EvidenceRule(d), d.tables, d.tmdbId);
    decision := Evaluate(seasons, Passed(d, c, active));
  }

  // ---------- what a verdict of the gate means ----------

  lemma SubsetCount(a: set<Key>, b: set<Key>)
    requires a <= b
    ensures |a| <= |b|
  {
    assert b == a + (b - a);
  }

  lemma {:induction false} ExpectedCount(season: int, total: nat)
    ensures |ExpectedKeys(season, total)| == total
  {
    if total == 0 {
      assert ExpectedKeys(season, 0) == {};
    } else {
      ExpectedCount(season, total - 1);
      assert ExpectedKeys(season, total) == ExpectedKeys(season, total - 1) + {Key(season, total)};
    }
  }

  /** Every episode of the season is collected, in the inventory and in the physical listing. */
  ghost predicate SeasonComplete(d: Dossier, season: int) {
    && TotalOf(d, season) > 0
    && forall e | 1 <= e <= TotalOf(d, season) ::
         Key(season, e) in CollectedKeys(d, season) && Key(season, e) in InventoryKeys(d, season) &&
         Key(season, e) in PhysicalKeys(d, season)
  }

  /** No gap in one listing of the season's keys. */
  predicate Covers(s: SeasonEvidence, keys: set<Key>) {
    s.expectedKeys <= keys
  }

  lemma CompleteIsCovered(d: Dossier, season: int)
    ensures SeasonComplete(d, season) <==>
            var s := EvidenceOf(d, season);
            s.total > 0 && Covers(s, s.collectedKeys) && Covers(s, s.inventoryKeys) && Covers(s, s.cloudKeys)
  {
    var s := EvidenceOf(d, season);
    forall e | 1 <= e <= TotalOf(d, season)
      ensures Key(season, e) in s.expectedKeys
    {
    }
  }

  lemma UnknownNotEnded()
    ensures !IsEnded(Some("UNKNOWN"))
  {
    assert Strip("UNKNOWN") == "UNKNOWN";
    assert |Lower("UNKNOWN")| == 7 && Lower("UNKNOWN")[0] == 'u';
  }

  /** The season statuses pass exactly when every season has TMDB episodes, given that the series has ended. */
  lemma SeasonStatuses(d: Dossier, season: int)
    requires IsEnded(d.status)
    ensures IsEnded(OwnStatus(EvidenceOf(d, season), d.status)) <==> TotalOf(d, season) > 0
  {
    UnknownNotEnded();
  }

  /** The circumstances in which nothing but the seasons can hold the promotion back. */
  predicate Favourable(d: Dossier, c: Circumstances) {
    && NonEmpty(c.ongoingRoot) && NonEmpty(c.completedRoot)
    && IsEnded(d.status)
    && PassedStatus(d, c.scanStatus) == Verified && (c.watermarkNeeded ==> c.watermark.Some?)
    && !c.destinationConflict
  }

  /** The gate, without its redundancies: PROMOTION_READY exactly when the circumstances are favourable, no transfer of
      any season is active, and every season of the watchlist or of TMDB is complete in all three listings. */
  lemma ReadyIff(d: Dossier, c: Circumstances, seasons: seq<SeasonEvidence>, active: nat)
    requires Assembled(SeasonsOf(d), EvidenceRule(d), seasons)
    ensures Evaluate(seasons, Passed(d, c, active)).verdict == PromotionReady <==>
            Favourable(d, c) && active == 0 && forall s | s in SeasonsOf(d) :: SeasonComplete(d, s)
  {
    ReadyIsComplete(d, c, seasons, active);
    if Favourable(d, c) && active == 0 && forall s | s in SeasonsOf(d) :: SeasonComplete(d, s) {
      CompleteIsReady(d, c, seasons, active);
    }
  }

  lemma ReadyIsComplete(d: Dossier, c: Circumstances, seasons: seq<SeasonEvidence>, active: nat)
    requires Assembled(SeasonsOf(d), EvidenceRule(d), seasons)
    ensures Evaluate(seasons, Passed(d, c, active)).verdict == PromotionReady ==>
            Favourable(d, c) && active == 0 && forall s | s in SeasonsOf(d) :: SeasonComplete(d, s)
  {
    if Evaluate(seasons, Passed(d, c, active)).verdict == PromotionReady {
      forall s | s in SeasonsOf(d)
        ensures SeasonComplete(d, s)
      {
        var e := EvidenceOf(d, s);
        assert e in seasons;
        SeasonStatuses(d, s);
        CompleteIsCovered(d, s);
      }
    }
  }

  /** The tests of one season that the gate puts. */
  predicate SeasonPasses(s: SeasonEvidence, status: Option<string>) {
    && IsEnded(OwnStatus(s, status))
    && Covers(s, s.collectedKeys) && Covers(s, s.inventoryKeys) && Covers(s, s.cloudKeys)
    && s.total <= s.collectedCount && s.total <= s.inventoryCount && s.total <= s.cloudCount
  }

  lemma GateOpens(seasons: seq<SeasonEvidence>, c: Circumstances)
    requires NonEmpty(c.ongoingRoot) && NonEmpty(c.completedRoot) && IsEnded(c.status) && c.activeCount <= 0
    requires c.scanStatus == Some(Verified) && (c.watermarkNeeded ==> c.watermark.Some?) && !c.destinationConflict
    requires forall s | s in seasons :: SeasonPasses(s, c.status)
    ensures Evaluate(seasons, c).verdict == PromotionReady
  {
    SumCountsMonotone(seasons, TotalField, CollectedField);
    SumCountsMonotone(seasons, TotalField, InventoryField);
    SumCountsMonotone(seasons, TotalField, CloudField);
  }

  /** A season without gaps passes the count tests too, since distinct episodes have distinct keys. */
  lemma CompletePasses(d: Dossier, season: int)
    requires IsEnded(d.status) && SeasonComplete(d, season)
    ensures SeasonPasses(EvidenceOf(d, season), d.status)
  {
    SeasonStatuses(d, season);
    CompleteIsCovered(d, season);
    var s := EvidenceOf(d, season);
    ExpectedCount(season, s.total);
    SubsetCount(s.expectedKeys, s.collectedKeys);
    SubsetCount(s.expectedKeys, s.inventoryKeys);
    SubsetCount(s.expectedKeys, s.cloudKeys);
  }

  /** Hence no gap in any season implies the summed count tests over all seasons. */
  lemma CompleteIsReady(d: Dossier, c: Circumstances, seasons: seq<SeasonEvidence>, active: nat)
    requires Assembled(SeasonsOf(d), EvidenceRule(d), seasons)
    requires Favourable(d, c) && active == 0 && forall s | s in SeasonsOf(d) :: SeasonComplete(d, s)
    ensures Evaluate(seasons, Passed(d, c, active)).verdict == PromotionReady
  {
    forall s | s in seasons
      ensures SeasonPasses(s, d.status)
    {
      assert s == EvidenceRule(d)(s.season);
      CompletePasses(d, s.season);
    }
    GateOpens(seasons, Passed(d, c, active));
  }

  // ---------- every verdict, said of the tables ----------

  /** Some expected episode of some season is missing from a listing. */
  ghost predicate Gap(d: Dossier, keys: int -> set<Key>) {
    exists s, e :: s in SeasonsOf(d) && 1 <= e <= TotalOf(d, s) && Key(s, e) !in keys(s)
  }

  function CollectedListing(d: Dossier): int -> set<Key> {
    (s: int) => CollectedKeys(d, s)
  }

  function InventoryListing(d: Dossier): int -> set<Key> {
    (s: int) => InventoryKeys(d, s)
  }

  function PhysicalListing(d: Dossier): int -> set<Key> {
    (s: int) => PhysicalKeys(d, s)
  }

  /** The chain of `evaluate_promotion` without a single count. */
  ghost function Explained(d: Dossier, c: Circumstances, active: nat): Verdict {
    Chain(
      !NonEmpty(c.ongoingRoot) || !NonEmpty(c.completedRoot),
      !IsEnded(d.status) || exists s :: s in SeasonsOf(d) && TotalOf(d, s) == 0,
      exists s, t :: s in SeasonsOf(d) && t in SeasonsOf(d) && s < t,
      active != 0,
      Gap(d, CollectedListing(d)),
      Gap(d, InventoryListing(d)),
      PassedStatus(d, c.scanStatus) != Verified || (c.watermarkNeeded && c.watermark.None?),
      Gap(d, PhysicalListing(d)),
      c.destinationConflict)
  }

  lemma GapIsSeasonGap(d: Dossier, seasons: seq<SeasonEvidence>, listing: int -> set<Key>,
                       keys: SeasonEvidence -> set<Key>)
    requires Assembled(SeasonsOf(d), EvidenceRule(d), seasons)
    requires forall s | s in SeasonsOf(d) :: keys(EvidenceOf(d, s)) == listing(s)
    ensures (exists s :: s in seasons && !(s.expectedKeys <= keys(s))) <==> Gap(d, listing)
  {
    if s :| s in seasons && !(s.expectedKeys <= keys(s)) {
      assert s == EvidenceOf(d, s.season);
      var k :| k in s.expectedKeys && k !in keys(s);
      assert Key(s.season, k.episode) == k;
    }
    if s, e :| s in SeasonsOf(d) && 1 <= e <= TotalOf(d, s) && Key(s, e) !in listing(s) {
      assert Key(s, e) in EvidenceOf(d, s).expectedKeys;
      assert EvidenceOf(d, s) in seasons;
    }
  }

  /** Without a gap the summed counts suffice, so the count tests never decide anything by themselves. */
  lemma NoGapNoShortage(d: Dossier, seasons: seq<SeasonEvidence>, count: SeasonEvidence -> int,
                        keys: SeasonEvidence -> set<Key>)
    requires Assembled(SeasonsOf(d), EvidenceRule(d), seasons)
    requires forall s | s in seasons :: count(s) == |keys(s)| && s.expectedKeys <= keys(s)
    ensures SumCounts(seasons, TotalField) <= SumCounts(seasons, count)
  {
    forall s | s in seasons
      ensures TotalField(s) <= count(s)
    {
      assert s == EvidenceOf(d, s.season);
      ExpectedCount(s.season, s.total);
      SubsetCount(s.expectedKeys, keys(s));
    }
    SumCountsMonotone(seasons, TotalField, count);
  }

  /** One test of the chain: counts and keys together find exactly the gaps. */
  lemma TestIsGap(d: Dossier, seasons: seq<SeasonEvidence>, count: SeasonEvidence -> int,
                  keys: SeasonEvidence -> set<Key>, listing: int -> set<Key>)
    requires Assembled(SeasonsOf(d), EvidenceRule(d), seasons)
    requires forall s | s in SeasonsOf(d) ::
               keys(EvidenceOf(d, s)) == listing(s) && count(EvidenceOf(d, s)) == |listing(s)|
    ensures Short(seasons, count, keys) <==> Gap(d, listing)
  {
    GapIsSeasonGap(d, seasons, listing, keys);
    if !Gap(d, listing) {
      forall s | s in seasons
        ensures count(s) == |keys(s)| && s.expectedKeys <= keys(s)
      {
        assert s == EvidenceOf(d, s.season);
      }
      NoGapNoShortage(d, seasons, count, keys);
    }
  }

  /** The season test of the chain, and whether the series counts as having several seasons. */
  lemma SeasonTests(d: Dossier, seasons: seq<SeasonEvidence>)
    requires Assembled(SeasonsOf(d), EvidenceRule(d), seasons)
    ensures (exists s :: s in seasons && !IsEnded(OwnStatus(s, d.status))) || !IsEnded(d.status) <==>
            !IsEnded(d.status) || exists s :: s in SeasonsOf(d) && TotalOf(d, s) == 0
    ensures |seasons| > 1 <==> exists s, t :: s in SeasonsOf(d) && t in SeasonsOf(d) && s < t
  {
    if IsEnded(d.status) {
      if s :| s in seasons && !IsEnded(OwnStatus(s, d.status)) {
        SeasonStatuses(d, s.season);
      }
      if s :| s in SeasonsOf(d) && TotalOf(d, s) == 0 {
        SeasonStatuses(d, s);
        assert EvidenceOf(d, s) in seasons;
      }
    }
    if |seasons| > 1 {
      assert seasons[0] in seasons && seasons[1] in seasons;
    }
    if s, t :| s in SeasonsOf(d) && t in SeasonsOf(d) && s < t {
      assert EvidenceOf(d, s) in seasons && EvidenceOf(d, t) in seasons;
    }
  }

  lemma CollectedTest(d: Dossier, seasons: seq<SeasonEvidence>)
    requires Assembled(SeasonsOf(d), EvidenceRule(d), seasons)
    ensures Short(seasons, CollectedField, CollectedOf) <==> Gap(d, CollectedListing(d))
  {
    TestIsGap(d, seasons, CollectedField, CollectedOf, CollectedListing(d));
  }

  lemma InventoryTest(d: Dossier, seasons: seq<SeasonEvidence>)
    requires Assembled(SeasonsOf(d), EvidenceRule(d), seasons)
    ensures Short(seasons, InventoryField, InventoryOf) <==> Gap(d, InventoryListing(d))
  {
    TestIsGap(d, seasons, InventoryField, InventoryOf, InventoryListing(d));
  }

  lemma CloudTest(d: Dossier, seasons: seq<SeasonEvidence>)
    requires Assembled(SeasonsOf(d), EvidenceRule(d), seasons)
    ensures Short(seasons, CloudField, CloudOf) <==> Gap(d, PhysicalListing(d))
  {
    TestIsGap(d, seasons, CloudField, CloudOf, PhysicalListing(d));
  }

  /** Every verdict of the gate in terms of the tables: which of the ten it is follows from roots, status, activity,
      scan and destination, and from single missing episodes; no verdict ever rests on a count alone. */
  lemma VerdictExplained(d: Dossier, c: Circumstances, seasons: seq<SeasonEvidence>, active: nat)
    requires Assembled(SeasonsOf(d), EvidenceRule(d), seasons)
    ensures Evaluate(seasons, Passed(d, c, active)).verdict == Explained(d, c, active)
  {
    SeasonTests(d, seasons);
    CollectedTest(d, seasons);
    InventoryTest(d, seasons);
    CloudTest(d, seasons);
  }

  // ---------- without a physical listing ----------

  /** The chain gets as far as the inventory. */
  ghost predicate ReachesInventory(d: Dossier, c: Circumstances, active: nat) {
    && NonEmpty(c.ongoingRoot) && NonEmpty(c.completedRoot)
    && IsEnded(d.status) && (forall s | s in SeasonsOf(d) :: TotalOf(d, s) > 0)
    && active == 0 && !Gap(d, CollectedListing(d))
  }

  lemma ReachesIff(d: Dossier, c: Circumstances, active: nat)
    ensures ReachesInventory(d, c, active) <==>
            Explained(d, c, active) !in {NeedsReview, SeriesNotReady, SeriesNotEnded, ActiveTransfer, ContentIncomplete}
  {
    assert (forall s | s in SeasonsOf(d) :: TotalOf(d, s) > 0) <==>
           !exists s :: s in SeasonsOf(d) && TotalOf(d, s) == 0;
  }

  /** When neither a listing nor a scan status is given, the chain ends at the scan at the latest: the verdict is
      INVENTORY_INCOMPLETE exactly when the chain reaches the inventory and finds a gap there, and SCAN_UNVERIFIED, not
      INVENTORY_INCOMPLETE, exactly when it reaches the inventory and finds none. */
  lemma OmittedListing(d: Dossier, c: Circumstances, seasons: seq<SeasonEvidence>, active: nat)
    requires Assembled(SeasonsOf(d), EvidenceRule(d), seasons)
    requires d.cloudKeys == None && c.scanStatus == None
    ensures var verdict := Evaluate(seasons, Passed(d, c, active)).verdict;
            && (verdict == InventoryIncomplete <==> ReachesInventory(d, c, active) && Gap(d, InventoryListing(d)))
            && (verdict == ScanUnverified <==> ReachesInventory(d, c, active) && !Gap(d, InventoryListing(d)))
            && verdict !in {CloudIncomplete, DestinationConflict, PromotionReady}
  {
    VerdictExplained(d, c, seasons, active);
    ReachesIff(d, c, active);
  }

  /** Whatever status is claimed for the scan, no series is ready without a listing. */
  lemma NeverReadyUnlisted(d: Dossier, c: Circumstances, seasons: seq<SeasonEvidence>, active: nat)
    requires Assembled(SeasonsOf(d), EvidenceRule(d), seasons)
    requires d.cloudKeys == None && d.rows != []
    ensures Evaluate(seasons, Passed(d, c, active)).verdict != PromotionReady
  {
    ReadyIff(d, c, seasons, active);
    var s := EffectiveSeason(d.rows[|d.rows| - 1].season);
    assert s in SeasonsOf(d);
    assert Key(s, 1) !in PhysicalKeys(d, s);
  }

  /** A series of one episode, collected and in the inventory. */
  function OneEpisode(tmdbId: int): Dossier {
    Dossier(tmdbId, [WatchRow(Some(1), [IntValue(1)])], [InventoryRow(Some(1), Some(1))], [TmdbSeason(1, 1)],
            Some("ended"), None, TransferTables([], [], map[]))
  }

  lemma EndedText()
    ensures IsEnded(Some("ended"))
  {
    assert Strip("ended") == "ended";
    assert Lower("ended") == "ended";
  }

  lemma OneEpisodeSeason(tmdbId: int, s: int)
    ensures s in SeasonsOf(OneEpisode(tmdbId)) <==> s == 1
    ensures TotalOf(OneEpisode(tmdbId), 1) == 1
    ensures Key(1, 1) in CollectedKeys(OneEpisode(tmdbId), 1) && Key(1, 1) in InventoryKeys(OneEpisode(tmdbId), 1)
  {
    var d := OneEpisode(tmdbId);
    assert d.rows[..0] == [] && d.tmdbSeasons[..0] == [];
    assert RowsBySeason(d.rows) == map[1 := d.rows[0]];
    assert EpisodeCounts(d.tmdbSeasons) == map[1 := 1];
    BareNumber(Some(1), 1);
    assert d.rows[0].collected[0] == IntValue(1);
    assert d.inventory[0] == InventoryRow(Some(1), Some(1));
  }

  lemma OneEpisodeReaches(tmdbId: int, c: Circumstances)
    requires NonEmpty(c.ongoingRoot) && NonEmpty(c.completedRoot)
    ensures ReachesInventory(OneEpisode(tmdbId), c, 0)
    ensures !Gap(OneEpisode(tmdbId), InventoryListing(OneEpisode(tmdbId)))
  {
    EndedText();
    forall s | s in SeasonsOf(OneEpisode(tmdbId))
      ensures s == 1
    {
      OneEpisodeSeason(tmdbId, s);
    }
    OneEpisodeSeason(tmdbId, 1);
  }

  /** It is SCAN_UNVERIFIED, not INVENTORY_INCOMPLETE, when its listing is omitted. */
  lemma OmittedIsUnverified(tmdbId: int, c: Circumstances, seasons: seq<SeasonEvidence>)
    requires NonEmpty(c.ongoingRoot) && NonEmpty(c.completedRoot) && c.scanStatus == None
    requires Assembled(SeasonsOf(OneEpisode(tmdbId)), EvidenceRule(OneEpisode(tmdbId)), seasons)
    ensures Evaluate(seasons, Passed(OneEpisode(tmdbId), c, 0)).verdict == ScanUnverified
  {
    OneEpisodeReaches(tmdbId, c);
    OmittedListing(OneEpisode(tmdbId), c, seasons, 0);
  }

  lemma SumOfTwo(a: SeasonEvidence, b: SeasonEvidence, f: SeasonEvidence -> int)
    ensures SumCounts([a, b], f) == AtLeastZero(f(a)) + AtLeastZero(f(b))
  {
    assert [a, b][..1] == [a];
    assert [a][..0] == [];
    assert SumCounts([a], f) == SumCounts([], f) + AtLeastZero(f(a));
  }

  /** The key tests are what does the work: the summed counts alone let the surplus of one season hide the gap of
      another.  Season 1 has two episodes, one of them missing; season 2 has one, with an extra key. */
  lemma CountsAloneHideGaps(status: Option<string>, c: Circumstances)
    requires IsEnded(status) && c.status == status && c.activeCount == 0 && NonEmpty(c.ongoingRoot) &&
             NonEmpty(c.completedRoot)
    ensures exists seasons: seq<SeasonEvidence> ::
              && SumCounts(seasons, TotalField) == SumCounts(seasons, CollectedField) == 3
              && Evaluate(seasons, c).verdict == ContentIncomplete
  {
    var one := SeasonEvidence(1, status, 2, 1, 2, 2, {Key(1, 1), Key(1, 2)}, {Key(1, 1)}, {Key(1, 1), Key(1, 2)},
                              {Key(1, 1), Key(1, 2)});
    var two := SeasonEvidence(2, status, 1, 2, 1, 1, {Key(2, 1)}, {Key(2, 1), Key(2, 9)}, {Key(2, 1)}, {Key(2, 1)});
    var seasons := [one, two];
    SumOfTwo(one, two, TotalField);
    SumOfTwo(one, two, CollectedField);
    assert one in seasons && Key(1, 2) in one.expectedKeys && Key(1, 2) !in one.collectedKeys;
    assert forall s | s in seasons :: IsEnded(OwnStatus(s, c.status));
  }
}
