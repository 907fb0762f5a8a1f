/** The promotion gate said of table rows: no key set, no count and no order of tests in between
    (app/follow/completion_promotion_service.py, app/follow/promotion.py). */
module PromotionRows {
  import opened PyText
  import opened EpisodeKeys
  import opened CloudListing
  import opened Promotion

  /** The season is asked about: a watchlist row names it, or TMDB lists it with episodes. */
  ghost predicate Asked(d: Dossier, s: int) {
    || (exists i :: 0 <= i < |d.rows| && Names(d.rows[i].season, s))
    || (exists i :: 0 <= i < |d.tmdbSeasons| && d.tmdbSeasons[i].TmdbSeason? && d.tmdbSeasons[i].number == s > 0 &&
                    d.tmdbSeasons[i].episodes > 0)
  }

  /** TMDB's last positive word on the season is n episodes. */
  ghost predicate Announced(d: Dossier, s: int, n: int) {
    exists i: nat :: LastOfNumber(d.tmdbSeasons, i) && d.tmdbSeasons[i].number == s && d.tmdbSeasons[i].episodes == n
  }

  ghost predicate LastRowOf(rows: seq<WatchRow>, s: int, i: nat) {
    i < |rows| && Names(rows[i].season, s) && forall j | i < j < |rows| :: !Names(rows[j].season, s)
  }

  /** The last watchlist row of the season holds a value that reads as the episode. */
  ghost predicate RowCollects(d: Dossier, s: int, e: int) {
    exists i: nat, j: nat ::
      LastRowOf(d.rows, s, i) && j < |d.rows[i].collected| && KeyOf(Some(s), d.rows[i].collected[j]) == Some(Key(s, e))
  }

  /** Some inventory row of the season holds the episode. */
  ghost predicate RowStocks(d: Dossier, s: int, e: int) {
    exists i :: 0 <= i < |d.inventory| && Names(d.inventory[i].season, s) && d.inventory[i].episode == Some(e)
  }

  /** The listing of the season holds a text that reads as the episode. */
  ghost predicate ListingShows(d: Dossier, s: int, e: int) {
    d.cloudKeys.Some? && s in d.cloudKeys.value &&
    exists text :: text in d.cloudKeys.value[s] && KeyOf(Some(s), TextValue(text)) == Some(Key(s, e))
  }

  // ---------- rows and key sets ----------

  lemma {:induction false} RowsBySeasonLast(rows: seq<WatchRow>, s: int)
    ensures s in RowsBySeason(rows) <==> exists i :: 0 <= i < |rows| && Names(rows[i].season, s)
    ensures s in RowsBySeason(rows) ==> exists i: nat :: LastRowOf(rows, s, i) && rows[i] == RowsBySeason(rows)[s]
  {
    if rows != [] {
      var n := |rows| - 1;
      RowsBySeasonLast(rows[..n], s);
      NamesEffective(rows[n].season, s);
      if Names(rows[n].season, s) {
        assert LastRowOf(rows, s, n);
      } else if s in RowsBySeason(rows[..n]) {
        var i: nat :| LastRowOf(rows[..n], s, i) && rows[..n][i] == RowsBySeason(rows[..n])[s];
        assert forall j | i < j < n :: rows[..n][j] == rows[j];
        assert LastRowOf(rows, s, i);
      }
      assert forall i | 0 <= i < n :: rows[..n][i] == rows[i];
    }
  }

  lemma LastRowUnique(rows: seq<WatchRow>, s: int, i: nat, j: nat)
    requires LastRowOf(rows, s, i) && LastRowOf(rows, s, j)
    ensures i == j
  {
  }

  lemma CollectsAt(d: Dossier, s: int, e: int, i: nat)
    requires LastRowOf(d.rows, s, i)
    ensures RowCollects(d, s, e) <==> Key(s, e) in KeySet(Some(s), d.rows[i].collected)
  {
    forall k: nat | LastRowOf(d.rows, s, k)
      ensures k == i
    {
      LastRowUnique(d.rows, s, i, k);
    }
  }

  lemma CollectedRows(d: Dossier, s: int, e: int)
    ensures Key(s, e) in CollectedKeys(d, s) <==> RowCollects(d, s, e)
  {
    RowsBySeasonLast(d.rows, s);
    if s in RowsBySeason(d.rows) {
      var i: nat :| LastRowOf(d.rows, s, i) && d.rows[i] == RowsBySeason(d.rows)[s];
      CollectsAt(d, s, e, i);
    }
  }

  lemma InventoryRows(d: Dossier, s: int, e: int)
    ensures Key(s, e) in InventoryKeys(d, s) <==> RowStocks(d, s, e)
  {
    forall i | 0 <= i < |d.inventory|
      ensures Names(d.inventory[i].season, s) <==> EffectiveSeason(d.inventory[i].season) == s
    {
      NamesEffective(d.inventory[i].season, s);
    }
  }

  lemma ListingRows(d: Dossier, s: int, e: int)
    ensures Key(s, e) in PhysicalKeys(d, s) <==> ListingShows(d, s, e)
  {
  }

  lemma AskedSeasons(d: Dossier, s: int)
    ensures s in SeasonsOf(d) <==> Asked(d, s)
  {
    RowsBySeasonLast(d.rows, s);
    LastExists(d.tmdbSeasons, s);
  }

  /** A number that counts at all has a last entry that counts. */
  lemma {:induction false} LastExists(seasons: seq<TmdbSeason>, s: int)
    ensures s in EpisodeCounts(seasons) <==>
            exists i :: 0 <= i < |seasons| && seasons[i].TmdbSeason? && seasons[i].number == s > 0 &&
                        seasons[i].episodes > 0
  {
    if seasons != [] {
      var n := |seasons| - 1;
      LastExists(seasons[..n], s);
      assert forall i | 0 <= i < n :: seasons[..n][i] == seasons[i];
    }
  }

  lemma AnnouncedTotal(d: Dossier, s: int, n: int)
    ensures Announced(d, s, n) <==> n > 0 && TotalOf(d, s) == n
  {
    EpisodeCountsExact(d.tmdbSeasons, s, n);
  }

  // ---------- the tests of the gate ----------

  predicate Rootless(c: Circumstances) {
    c.ongoingRoot == None || c.ongoingRoot == Some("") || c.completedRoot == None || c.completedRoot == Some("")
  }

  predicate Finished(status: Option<string>) {
    status.Some? && Lower(Strip(status.value)) in {"ended", "canceled", "cancelled"}
  }

  /** TMDB announces some number of episodes. */
  ghost predicate Known(d: Dossier, s: int) {
    exists n :: Announced(d, s, n)
  }

  /** The series goes on, or a season asked about has no episodes at TMDB. */
  ghost predicate Unfinished(d: Dossier) {
    !Finished(d.status) || exists s :: Asked(d, s) && !Known(d, s)
  }

  ghost predicate SeveralSeasons(d: Dossier) {
    exists s, t :: Asked(d, s) && Asked(d, t) && s != t
  }

  /** An announced episode that no watchlist row, no inventory row, or no listing has. */
  ghost predicate Uncollected(d: Dossier) {
    exists s, n, e :: Announced(d, s, n) && 1 <= e <= n && !RowCollects(d, s, e)
  }

  ghost predicate Unstocked(d: Dossier) {
    exists s, n, e :: Announced(d, s, n) && 1 <= e <= n && !RowStocks(d, s, e)
  }

  ghost predicate Unseen(d: Dossier) {
    exists s, n, e :: Announced(d, s, n) && 1 <= e <= n && !ListingShows(d, s, e)
  }

  predicate Unscanned(d: Dossier, c: Circumstances) {
    || (c.scanStatus.Some? && c.scanStatus != Some(Verified))
    || (c.scanStatus.None? && d.cloudKeys.None?)
    || (c.watermarkNeeded && c.watermark.None?)
  }

  lemma AnnouncedIsAsked(d: Dossier, s: int, n: int)
    requires Announced(d, s, n)
    ensures n > 0 && TotalOf(d, s) == n && s in SeasonsOf(d)
  {
    AnnouncedTotal(d, s, n);
  }

  lemma UncollectedIsGap(d: Dossier)
    ensures Uncollected(d) <==> Gap(d, CollectedListing(d))
  {
    if s, n, e :| Announced(d, s, n) && 1 <= e <= n && !RowCollects(d, s, e) {
      AnnouncedIsAsked(d, s, n);
      CollectedRows(d, s, e);
      assert Key(s, e) !in CollectedListing(d)(s);
    }
    if s, e :| s in SeasonsOf(d) && 1 <= e <= TotalOf(d, s) && Key(s, e) !in CollectedListing(d)(s) {
      AnnouncedTotal(d, s, TotalOf(d, s));
      CollectedRows(d, s, e);
    }
  }

  lemma UnstockedIsGap(d: Dossier)
    ensures Unstocked(d) <==> Gap(d, InventoryListing(d))
  {
    if s, n, e :| Announced(d, s, n) && 1 <= e <= n && !RowStocks(d, s, e) {
      AnnouncedIsAsked(d, s, n);
      InventoryRows(d, s, e);
      assert Key(s, e) !in InventoryListing(d)(s);
    }
    if s, e :| s in SeasonsOf(d) && 1 <= e <= TotalOf(d, s) && Key(s, e) !in InventoryListing(d)(s) {
      AnnouncedTotal(d, s, TotalOf(d, s));
      InventoryRows(d, s, e);
    }
  }

  lemma UnseenIsGap(d: Dossier)
    ensures Unseen(d) <==> Gap(d, PhysicalListing(d))
  {
    if s, n, e :| Announced(d, s, n) && 1 <= e <= n && !ListingShows(d, s, e) {
      AnnouncedIsAsked(d, s, n);
      ListingRows(d, s, e);
      assert Key(s, e) !in PhysicalListing(d)(s);
    }
    if s, e :| s in SeasonsOf(d) && 1 <= e <= TotalOf(d, s) && Key(s, e) !in PhysicalListing(d)(s) {
      AnnouncedTotal(d, s, TotalOf(d, s));
      ListingRows(d, s, e);
    }
  }

  lemma UnfinishedTest(d: Dossier)
    ensures Unfinished(d) <==> !IsEnded(d.status) || exists s :: s in SeasonsOf(d) && TotalOf(d, s) == 0
    ensures SeveralSeasons(d) <==> exists s, t :: s in SeasonsOf(d) && t in SeasonsOf(d) && s < t
  {
    forall s
      ensures s in SeasonsOf(d) <==> Asked(d, s)
      ensures TotalOf(d, s) == 0 <==> !Known(d, s)
    {
      AskedSeasons(d, s);
      forall n
        ensures Announced(d, s, n) <==> n > 0 && TotalOf(d, s) == n
      {
        AnnouncedTotal(d, s, n);
      }
      assert TotalOf(d, s) > 0 ==> Announced(d, s, TotalOf(d, s));
    }
  }

  /** Which of the ten verdicts it is, said of the nine tests. */
  predicate Decided(rootless: bool, unfinished: bool, several: bool, busy: bool, uncollected: bool, unstocked: bool,
                    unscanned: bool, unseen: bool, conflict: bool, verdict: Verdict)
  {
    var held := rootless || unfinished || busy;
    match verdict
    case NeedsReview => rootless
    case SeriesNotReady => !rootless && unfinished && several
    case SeriesNotEnded => !rootless && unfinished && !several
    case ActiveTransfer => !rootless && !unfinished && busy
    case ContentIncomplete => !held && uncollected
    case InventoryIncomplete => !held && !uncollected && unstocked
    case ScanUnverified => !held && !uncollected && !unstocked && unscanned
    case CloudIncomplete => !held && !uncollected && !unstocked && !unscanned && unseen
    case DestinationConflict => !held && !uncollected && !unstocked && !unscanned && !unseen && conflict
    case PromotionReady => !held && !uncollected && !unstocked && !unscanned && !unseen && !conflict
  }

  lemma ChainDecides(rootless: bool, unfinished: bool, several: bool, busy: bool, uncollected: bool, unstocked: bool,
                     unscanned: bool, unseen: bool, conflict: bool, verdict: Verdict)
    ensures Chain(rootless, unfinished, several, busy, uncollected, unstocked, unscanned, unseen, conflict) == verdict
            <==>
            Decided(rootless, unfinished, several, busy, uncollected, unstocked, unscanned, unseen, conflict, verdict)
  {
  }

  /** The verdict, for every dossier, said of table rows alone. */
  ghost predicate RightVerdict(d: Dossier, c: Circumstances, active: nat, verdict: Verdict) {
    Decided(Rootless(c), Unfinished(d), SeveralSeasons(d), active != 0, Uncollected(d), Unstocked(d), Unscanned(d, c),
            Unseen(d), c.destinationConflict, verdict)
  }

  lemma VerdictByRows(d: Dossier, c: Circumstances, seasons: seq<SeasonEvidence>, active: nat)
    requires Assembled(SeasonsOf(d), EvidenceRule(d), seasons)
    ensures forall verdict ::
              Evaluate(seasons, Passed(d, c, active)).verdict == verdict <==> RightVerdict(d, c, active, verdict)
  {
    VerdictExplained(d, c, seasons, active);
    ExplainedByRows(d, c, active);
  }

  lemma ExplainedByRows(d: Dossier, c: Circumstances, active: nat)
    ensures forall verdict :: Explained(d, c, active) == verdict <==> RightVerdict(d, c, active, verdict)
  {
    UnfinishedTest(d);
    UncollectedIsGap(d);
    UnstockedIsGap(d);
    UnseenIsGap(d);
    forall verdict
      ensures Explained(d, c, active) == verdict <==> RightVerdict(d, c, active, verdict)
    {
      ChainDecides(Rootless(c), Unfinished(d), SeveralSeasons(d), active != 0, Uncollected(d), Unstocked(d),
                   Unscanned(d, c), Unseen(d), c.destinationConflict, verdict);
    }
  }

  /** Every season asked about is announced with some number of episodes, each of them collected, in stock and listed by
      a row of its own. */
  ghost predicate AllThere(d: Dossier) {
    && (forall s | Asked(d, s) :: Known(d, s))
    && (forall s, n, e | Announced(d, s, n) && 1 <= e <= n :: There(d, s, e))
  }

  ghost predicate There(d: Dossier, s: int, e: int) {
    RowCollects(d, s, e) && RowStocks(d, s, e) && ListingShows(d, s, e)
  }

  lemma AllThereTests(d: Dossier)
    requires Finished(d.status)
    ensures AllThere(d) <==> !Unfinished(d) && !Uncollected(d) && !Unstocked(d) && !Unseen(d)
  {
    if s, n, e :| Announced(d, s, n) && 1 <= e <= n && !There(d, s, e) {
      assert !RowCollects(d, s, e) || !RowStocks(d, s, e) || !ListingShows(d, s, e);
    }
    if s, n, e :| Announced(d, s, n) && 1 <= e <= n && !RowCollects(d, s, e) {
      assert !There(d, s, e);
    }
    if s, n, e :| Announced(d, s, n) && 1 <= e <= n && !RowStocks(d, s, e) {
      assert !There(d, s, e);
    }
    if s, n, e :| Announced(d, s, n) && 1 <= e <= n && !ListingShows(d, s, e) {
      assert !There(d, s, e);
    }
  }

  /** Ready, in one sentence: nothing stands in the way, and every episode of every season is there. */
  lemma ReadyByRows(d: Dossier, c: Circumstances, seasons: seq<SeasonEvidence>, active: nat)
    requires Assembled(SeasonsOf(d), EvidenceRule(d), seasons)
    ensures Evaluate(seasons, Passed(d, c, active)).verdict == PromotionReady <==>
            !Rootless(c) && Finished(d.status) && active == 0 && !Unscanned(d, c) && !c.destinationConflict &&
            AllThere(d)
  {
    VerdictByRows(d, c, seasons, active);
    assert Evaluate(seasons, Passed(d, c, active)).verdict == PromotionReady <==>
           RightVerdict(d, c, active, PromotionReady);
    if Finished(d.status) {
      AllThereTests(d);
    }
  }

  /** Whatever evidence is put to the gate: a series is held for its status iff its own, or that of some season which
      has one, is not among the ended ones. */
  lemma HeldForStatus(seasons: seq<SeasonEvidence>, c: Circumstances)
    ensures Evaluate(seasons, c).verdict in {SeriesNotReady, SeriesNotEnded} <==>
            !Rootless(c) &&
            (!Finished(c.status) ||
             exists s :: s in seasons && s.status != None && s.status != Some("") && !Finished(s.status))
  {
    assert forall s: SeasonEvidence | s.status == None || s.status == Some("") :: OwnStatus(s, c.status) == c.status;
  }

  /** What is reported as missing is the largest shortfall of the three listings, and nothing if none falls short; a
      ready series misses nothing. */
  lemma MissingIsLargest(seasons: seq<SeasonEvidence>, c: Circumstances)
    ensures var r := Evaluate(seasons, c);
            && r.total <= r.missing + r.collected && r.total <= r.missing + r.inventory
            && r.total <= r.missing + r.cloud
            && (r.missing == 0 || r.total == r.missing + r.collected || r.total == r.missing + r.inventory ||
                r.total == r.missing + r.cloud)
            && (r.verdict == PromotionReady ==> r.missing == 0 && r.active == 0)
            && (r.verdict == ActiveTransfer ==> r.active == c.activeCount > 0)
  {
  }

  // ---------- transfers in progress ----------

  /** A payload field, or the resource's where the payload has none or 0, holds the number. */
  predicate Refers(field: Field, fallback: Option<int>, n: int) {
    if field.Absent? || field == Number(0) then fallback == Some(n) else field == Number(n)
  }

  /** The task is about this series and season: by its payload, or by its resource, if that is known. */
  predicate About(tables: TransferTables, task: TransferTask, tmdbId: int, season: int) {
    if task.resourceId.Some? && task.resourceId.value in tables.resources then
      var resource := tables.resources[task.resourceId.value];
      Refers(task.tmdbId, resource.tmdbId, tmdbId) && Refers(task.season, resource.season, season)
    else
      task.tmdbId == Number(tmdbId) && task.season == Number(season) && tmdbId != 0 && season != 0
  }

  /** It runs, or waits without being under review; promotions do not count. */
  predicate Underway(task: TransferTask) {
    !task.isPromotion && task.status != Inactive && (task.underReview ==> task.status == Running)
  }

  /** Nothing of the season is being transferred. */
  ghost predicate Quiet(tables: TransferTables, tmdbId: int, season: int) {
    && (forall task | task in tables.tasks :: !(Underway(task) && About(tables, task, tmdbId, season)))
    && (forall job | job in tables.jobs && job.resourceId in tables.resources && job.status != Inactive ::
          tables.resources[job.resourceId].tmdbId != Some(tmdbId) ||
          tables.resources[job.resourceId].season != Some(season))
  }

  lemma TaskByRows(tables: TransferTables, task: TransferTask, tmdbId: int, season: int)
    ensures TaskActive(tables, task, tmdbId, season) <==> Underway(task) && About(tables, task, tmdbId, season)
  {
  }

  lemma QuietIsIdle(tables: TransferTables, tmdbId: int, season: int)
    ensures Quiet(tables, tmdbId, season) <==> Idle(tables, tmdbId, season)
  {
    forall task | task in tables.tasks
      ensures TaskActive(tables, task, tmdbId, season) <==> Underway(task) && About(tables, task, tmdbId, season)
    {
      TaskByRows(tables, task, tmdbId, season);
    }
  }
}
