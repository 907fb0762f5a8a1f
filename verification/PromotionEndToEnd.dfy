/** From the cloud to the verdict: `build_physical_dry_run` feeds a scan result to `build_dry_run`
    (app/follow/completion_promotion_service.py). */
module PromotionEndToEnd {
  import opened PyText
  import opened EpisodeKeys
  import opened CloudListing
  import opened PhysicalScan
  import opened Promotion
  import opened PromotionRows

  function TextsOf(keys: set<Key>): set<string> {
    set k | k in keys :: k.Text()
  }

  /** `scan.cloud_episode_keys_by_season`, written out. */
  function ScanTexts(r: ScanResult): map<int, set<string>> {
    map s: int | 0 <= s && s in r.keysBySeason :: TextsOf(r.keysBySeason[s])
  }

  predicate FedBy(d: Dossier, c: Circumstances, r: ScanResult) {
    && d.cloudKeys == Some(ScanTexts(r))
    && c.scanStatus == Some(r.status) && c.watermark == r.watermark && c.watermarkNeeded
  }

  /** Keys whose numbers fit their digits survive being written out and read back under any season. */
  lemma TextsReadBack(season: int, keys: set<Key>)
    requires forall k | k in keys :: 1 <= k.season < 1000 && 1 <= k.episode < 10000
    ensures TextKeys(season, TextsOf(keys)) == keys
  {
    forall k | k in keys
      ensures KeyOf(Some(season), TextValue(k.Text())) == Some(k) && k.Text() in TextsOf(keys)
    {
      CanonicalFormatted(Some(season), k.season, k.episode);
    }
    forall k | k in TextKeys(season, TextsOf(keys))
      ensures k in keys
    {
      var text :| text in TextsOf(keys) && KeyOf(Some(season), TextValue(text)) == Some(k);
      var k0 :| k0 in keys && k0.Text() == text;
    }
    forall k | k in keys
      ensures k in TextKeys(season, TextsOf(keys))
    {
      assert k.Text() in TextsOf(keys);
    }
  }

  lemma PresentInRange(l: Listing, limits: Limits, root: string, key: Key)
    requires Present(l, limits, root, key)
    ensures 1 <= key.season < 1000 && 1 <= key.episode < 10000
  {
  }

  lemma ScannedInRange(l: Listing, limits: Limits, id: Identity, r: ScanResult, season: nat)
    requires Faithful(l, limits, id, r) && r.status == Verified && season in id.2
    ensures season in r.keysBySeason
    ensures forall k | k in r.keysBySeason[season] :: 1 <= k.season < 1000 && 1 <= k.episode < 10000
  {
    VerifiedKeysExact(l, limits, id, r, season, Key(1, 1));
    forall k | k in r.keysBySeason[season]
      ensures 1 <= k.season < 1000 && 1 <= k.episode < 10000
    {
      VerifiedKeysExact(l, limits, id, r, season, k);
      PresentInRange(l, limits, id.1, k);
    }
  }

  /** What the gate counts as physically present under a verified scan is physically present, in a season that was
      asked for and has at most two digits; and conversely. */
  lemma PhysicalIffPresent(l: Listing, limits: Limits, id: Identity, r: ScanResult, d: Dossier, season: int,
                           episode: int)
    requires Faithful(l, limits, id, r) && r.status == Verified
    requires d.cloudKeys == Some(ScanTexts(r)) && season >= 1
    ensures Key(season, episode) in PhysicalKeys(d, season) <==>
            season in id.2 && season < 100 && Present(l, limits, id.1, Key(season, episode))
  {
    assert r.keysBySeason.Keys == id.2;
    if season in id.2 {
      ScannedInRange(l, limits, id, r, season);
      TextsReadBack(season, r.keysBySeason[season]);
      assert PhysicalKeys(d, season) == r.keysBySeason[season];
      VerifiedKeysExact(l, limits, id, r, season, Key(season, episode));
      SliceOfFormatted(Key(season, episode));
    }
  }

  /** The season is complete in the cloud itself, and every episode of it has its rows. */
  ghost predicate ReallyComplete(l: Listing, limits: Limits, id: Identity, d: Dossier, season: int) {
    && season in id.2 && season < 100
    && exists n :: Announced(d, season, n) && forall e | 1 <= e <= n :: Everywhere(l, limits, id, d, season, e)
  }

  ghost predicate Everywhere(l: Listing, limits: Limits, id: Identity, d: Dossier, season: int, e: int) {
    RowCollects(d, season, e) && RowStocks(d, season, e) && Present(l, limits, id.1, Key(season, e))
  }

  /** The three listings of the gate hold the episode. */
  predicate InKeys(d: Dossier, season: int, e: int) {
    Key(season, e) in CollectedKeys(d, season) && Key(season, e) in InventoryKeys(d, season) &&
    Key(season, e) in PhysicalKeys(d, season)
  }

  lemma EpisodeIffReally(l: Listing, limits: Limits, id: Identity, r: ScanResult, d: Dossier, season: int, e: int)
    requires Faithful(l, limits, id, r) && r.status == Verified
    requires d.cloudKeys == Some(ScanTexts(r)) && season >= 1
    ensures InKeys(d, season, e) <==> season in id.2 && season < 100 && Everywhere(l, limits, id, d, season, e)
  {
    PhysicalIffPresent(l, limits, id, r, d, season, e);
    CollectedRows(d, season, e);
    InventoryRows(d, season, e);
  }

  lemma CompleteInKeys(d: Dossier, season: int)
    ensures SeasonComplete(d, season) <==>
            exists n :: Announced(d, season, n) && forall e | 1 <= e <= n :: InKeys(d, season, e)
  {
    var n := TotalOf(d, season);
    forall m
      ensures Announced(d, season, m) <==> m > 0 && n == m
    {
      AnnouncedTotal(d, season, m);
    }
    if SeasonComplete(d, season) {
      assert Announced(d, season, n) && forall e | 1 <= e <= n :: InKeys(d, season, e);
    }
    if m :| Announced(d, season, m) && forall e | 1 <= e <= m :: InKeys(d, season, e) {
      forall e | 1 <= e <= n
        ensures Key(season, e) in CollectedKeys(d, season) && Key(season, e) in InventoryKeys(d, season) &&
                Key(season, e) in PhysicalKeys(d, season)
      {
        assert InKeys(d, season, e);
      }
    }
  }

  lemma AnnouncedPositive(d: Dossier, season: int, n: int)
    requires Announced(d, season, n)
    ensures season >= 1 && n >= 1
  {
  }

  lemma CompleteIffReally(l: Listing, limits: Limits, id: Identity, r: ScanResult, d: Dossier, season: int)
    requires Faithful(l, limits, id, r) && r.status == Verified
    requires d.cloudKeys == Some(ScanTexts(r))
    ensures SeasonComplete(d, season) <==> ReallyComplete(l, limits, id, d, season)
  {
    CompleteInKeys(d, season);
    if season >= 1 {
      forall e
        ensures InKeys(d, season, e) <==> season in id.2 && season < 100 && Everywhere(l, limits, id, d, season, e)
      {
        EpisodeIffReally(l, limits, id, r, d, season, e);
      }
    }
    SameComplete(l, limits, id, d, season);
  }

  lemma SameComplete(l: Listing, limits: Limits, id: Identity, d: Dossier, season: int)
    requires season >= 1 ==> forall e ::
               InKeys(d, season, e) <==> season in id.2 && season < 100 && Everywhere(l, limits, id, d, season, e)
    ensures (exists n :: Announced(d, season, n) && forall e | 1 <= e <= n :: InKeys(d, season, e)) <==>
            ReallyComplete(l, limits, id, d, season)
  {
    if n :| Announced(d, season, n) && forall e | 1 <= e <= n :: InKeys(d, season, e) {
      AnnouncedPositive(d, season, n);
      assert InKeys(d, season, 1);
      assert forall e | 1 <= e <= n :: Everywhere(l, limits, id, d, season, e);
    }
    if ReallyComplete(l, limits, id, d, season) {
      var n :| Announced(d, season, n) && forall e | 1 <= e <= n :: Everywhere(l, limits, id, d, season, e);
      AnnouncedPositive(d, season, n);
      assert forall e | 1 <= e <= n :: InKeys(d, season, e);
    }
  }

  /** End to end: a dossier fed by a scan is ready for promotion exactly when the scan is verified, nothing else stands
      in the way, and every season of the watchlist or of TMDB has a known number of episodes, all of them collected, in
      the inventory and actually present in the cloud tree.  In particular a series with a three-digit season, or with a
      TMDB season that the scan was not asked for, is never ready. */
  lemma ReadyEndToEnd(l: Listing, limits: Limits, id: Identity, r: ScanResult, d: Dossier, c: Circumstances,
                      seasons: seq<SeasonEvidence>, active: nat)
    requires Faithful(l, limits, id, r) && FedBy(d, c, r)
    requires Assembled(SeasonsOf(d), EvidenceRule(d), seasons)
    ensures Evaluate(seasons, Passed(d, c, active)).verdict == PromotionReady <==>
            && r.status == Verified && Finished(d.status) && !Rootless(c) && !c.destinationConflict && active == 0
            && forall s | Asked(d, s) :: ReallyComplete(l, limits, id, d, s)
  {
    ReadyIff(d, c, seasons, active);
    FavourableFed(r, d, c);
    if r.status == Verified {
      SeasonsReally(l, limits, id, r, d);
    }
  }

  lemma FavourableFed(r: ScanResult, d: Dossier, c: Circumstances)
    requires FedBy(d, c, r) && (r.watermark.Some? <==> r.status == Verified)
    ensures Favourable(d, c) <==> r.status == Verified && Finished(d.status) && !Rootless(c) && !c.destinationConflict
  {
  }

  lemma SeasonsReally(l: Listing, limits: Limits, id: Identity, r: ScanResult, d: Dossier)
    requires Faithful(l, limits, id, r) && r.status == Verified && d.cloudKeys == Some(ScanTexts(r))
    ensures (forall s | s in SeasonsOf(d) :: SeasonComplete(d, s)) <==>
            (forall s | Asked(d, s) :: ReallyComplete(l, limits, id, d, s))
  {
    forall s
      ensures s in SeasonsOf(d) <==> Asked(d, s)
      ensures SeasonComplete(d, s) <==> ReallyComplete(l, limits, id, d, s)
    {
      AskedSeasons(d, s);
      CompleteIffReally(l, limits, id, r, d, s);
    }
  }

  /** There is always at least one season to answer for. */
  lemma SomeSeason(d: Dossier)
    requires d.rows != []
    ensures SeasonsOf(d) != {}
  {
    assert EffectiveSeason(d.rows[|d.rows| - 1].season) in SeasonsOf(d);
  }

  /** The dossier of the run, with the keys of its scan. */
  function Fed(d: Dossier, r: ScanResult): Dossier {
    d.(cloudKeys := Some(ScanTexts(r)))
  }

  function FedCircumstances(c: Circumstances, r: ScanResult): Circumstances {
    c.(scanStatus := Some(r.status), watermark := r.watermark, watermarkNeeded := true)
  }

  /** Everything that must hold for the series to be ready, said of the cloud and the rows of the tables alone. */
  ghost predicate ReadyFor(l: Listing, limits: Limits, id: Identity, d: Dossier, c: Circumstances) {
    && Finished(d.status) && !Rootless(c) && !c.destinationConflict
    && (forall s | Asked(d, s) :: Quiet(d.tables, d.tmdbId, s))
    && (forall s | Asked(d, s) :: ReallyComplete(l, limits, id, d, s))
  }

  /** Completeness in the cloud does not depend on what was fed. */
  lemma FedSame(l: Listing, limits: Limits, id: Identity, d: Dossier, r: ScanResult, s: int)
    ensures Asked(Fed(d, r), s) <==> Asked(d, s)
    ensures ReallyComplete(l, limits, id, Fed(d, r), s) <==> ReallyComplete(l, limits, id, d, s)
  {
    var f := Fed(d, r);
    forall n
      ensures Announced(f, s, n) <==> Announced(d, s, n)
    {
    }
    forall e
      ensures Everywhere(l, limits, id, f, s, e) <==> Everywhere(l, limits, id, d, s, e)
    {
    }
  }

  lemma VerdictOfRun(l: Listing, limits: Limits, id: Identity, r: ScanResult, d: Dossier, c: Circumstances,
                     seasons: seq<SeasonEvidence>, active: nat)
    requires Faithful(l, limits, id, r)
    requires Assembled(SeasonsOf(Fed(d, r)), EvidenceRule(Fed(d, r)), seasons)
    requires active == 0 <==> forall s | s in SeasonsOf(d) :: Idle(d.tables, d.tmdbId, s)
    ensures Evaluate(seasons, Passed(Fed(d, r), FedCircumstances(c, r), active)).verdict == PromotionReady <==>
            r.status == Verified && ReadyFor(l, limits, id, d, c)
  {
    ReadyEndToEnd(l, limits, id, r, Fed(d, r), FedCircumstances(c, r), seasons, active);
    forall s
      ensures (Asked(Fed(d, r), s) <==> Asked(d, s)) && (s in SeasonsOf(d) <==> Asked(d, s))
      ensures ReallyComplete(l, limits, id, Fed(d, r), s) <==> ReallyComplete(l, limits, id, d, s)
      ensures Quiet(d.tables, d.tmdbId, s) <==> Idle(d.tables, d.tmdbId, s)
    {
      FedSame(l, limits, id, d, r, s);
      AskedSeasons(d, s);
      QuietIsIdle(d.tables, d.tmdbId, s);
    }
  }

  /** The whole run: a scan, or its cached result, and the dry run over it.  `source` is the provider the evidence was
      taken from: the present one, or the one at the time of the cached scan. */
  method PhysicalDryRun(scanner: Scanner, l: Listing, seriesRoot: string, d: Dossier, c: Circumstances, now: real)
      returns (verdict: Verdict, scan: ScanResult, ghost source: Listing)
    requires scanner.Valid() && d.rows != []
    modifies scanner
    ensures scanner.Valid()
    ensures var id := (d.tmdbId, Strip(seriesRoot), WantedSeasons(RowSeasons(d.rows)));
            && (verdict == PromotionReady <==> scan.status == Verified && ReadyFor(source, scanner.limits, id, d, c))
            && (!scan.fromCache ==> source == l)
            && (scan.fromCache ==> id in old(scanner.source) && source == old(scanner.source[id]) &&
                                   now - old(scanner.cache[id].0) <= scanner.cacheTtl)
  {
    ghost var id := (d.tmdbId, Strip(seriesRoot), WantedSeasons(RowSeasons(d.rows)));
    scan := scanner.Scan(l, d.tmdbId, seriesRoot, RowSeasons(d.rows), false, now);
    source := if scan.fromCache then old(scanner.source[id]) else l;
    var decision, seasons, active := BuildDryRun(Fed(d, scan), FedCircumstances(c, scan));
    verdict := decision.verdict;
    VerdictOfRun(source, scanner.limits, id, scan, d, c, seasons, active);
  }

  /** `[int(item.season or 1) for item in seasons]`. */
  function RowSeasons(rows: seq<WatchRow>): seq<int> {
    seq(|rows|, i requires 0 <= i < |rows| => EffectiveSeason(rows[i].season))
  }
}
