/** When a missing season is safe to infer, and what is filled in, said of table rows
    (app/season_audit.py, app/season_inference.py, app/season_backfill.py). */
module SeasonRows {
  import opened PyText
  import opened Gathering
  import opened EpisodeKeys
  import opened SeasonInference
  import opened SeasonBackfill

  // ---------- the strict key ----------

  /** A text `S<digits>E<digits>`, in either letter case, with white space around it. */
  predicate SpellsStrictly(text: string, s: string, e: string) {
    AllDigits(s) && AllDigits(e) && Upper(Strip(text)) == "S" + s + "E" + e
  }

  lemma SpelledIsParsed(text: string, s: string, e: string)
    requires SpellsStrictly(text, s, e)
    ensures ParseEpisodeKey(text) == if Value(s) >= 1 && Value(e) >= 1 then Some((Value(s), Value(e))) else None
  {
    var t := Upper(Strip(text));
    assert t[1..] == s + "E" + e;
    FullSplits(s, e);
  }

  lemma ParsedIsSpelled(text: string) returns (s: string, e: string)
    requires ParseEpisodeKey(text).Some?
    ensures SpellsStrictly(text, s, e) && ParseEpisodeKey(text) == Some((Value(s), Value(e)))
  {
    var t := Upper(Strip(text));
    var i := IndexOfE(t[1..]);
    s, e := t[1..][..i], t[1..][i + 1..];
    CutAtE(t[1..], i);
    assert t == "S" + t[1..];
  }

  /** A key is parsed exactly when it spells out a positive season and a positive episode, of any length. */
  lemma ParsedIff(text: string, season: nat, episode: nat)
    ensures ParseEpisodeKey(text) == Some((season, episode)) <==>
            season >= 1 && episode >= 1 &&
            exists s, e :: SpellsStrictly(text, s, e) && Value(s) == season && Value(e) == episode
  {
    if ParseEpisodeKey(text) == Some((season, episode)) {
      var s, e := ParsedIsSpelled(text);
      SpelledIsParsed(text, s, e);
    }
    if s, e :| SpellsStrictly(text, s, e) && Value(s) == season && Value(e) == episode {
      SpelledIsParsed(text, s, e);
    }
  }

  // ---------- the evidence ----------

  /** The key of a task: its own, else the first of its keys, else the resource's. */
  lemma KeyOfTask(task: Task, resource: Option<Resource>)
    ensures task.payload.episodeKey != "" ==> TaskKey(task, resource) == task.payload.episodeKey
    ensures task.payload.episodeKey == "" && task.payload.episodeKeys != [] && task.payload.episodeKeys[0] != "" ==>
              TaskKey(task, resource) == task.payload.episodeKeys[0]
    ensures task.payload.episodeKey == "" && (task.payload.episodeKeys == [] || task.payload.episodeKeys[0] == "") ==>
              TaskKey(task, resource) == if resource.Some? then resource.value.episodeKey else ""
  {
  }

  /** The watchlist rows of the same series and title, the positive ones among them, all name m. */
  ghost predicate WatchlistSays(t: Tables, resource: Resource, m: int) {
    && resource.tmdbId.Some? && resource.tmdbId.value != 0 && resource.title != ""
    && (exists i :: 0 <= i < |t.watchlist| && SameSeries(t.watchlist[i], resource) && t.watchlist[i].season == m)
    && (forall i | 0 <= i < |t.watchlist| && SameSeries(t.watchlist[i], resource) && t.watchlist[i].season > 0 ::
          t.watchlist[i].season == m)
  }

  predicate SameSeries(row: WatchRow, resource: Resource) {
    Some(row.tmdbId) == resource.tmdbId && row.title == resource.title
  }

  /** The candidate rows of the same series and episode key, the positive ones among them, all name m. */
  ghost predicate CandidatesSay(t: Tables, resource: Resource, key: string, m: int) {
    && resource.tmdbId.Some? && resource.tmdbId.value != 0 && key != ""
    && (exists i :: 0 <= i < |t.candidates| && SameEpisode(t.candidates[i], resource, key) &&
                    t.candidates[i].season == m)
    && (forall i | 0 <= i < |t.candidates| && SameEpisode(t.candidates[i], resource, key) ::
          t.candidates[i].season > 0 ==> t.candidates[i].season == m)
  }

  predicate SameEpisode(row: CandidateRow, resource: Resource, key: string) {
    Some(row.tmdbId) == resource.tmdbId && row.episodeKey == key
  }

  /** Some source names just one season, and another one. */
  ghost predicate Disputed(t: Tables, task: Task, season: int) {
    var resource := ResourceOf(t, task);
    || (task.payload.season.Number? && task.payload.season.n > 0 && task.payload.season.n != season)
    || (resource.Some? && resource.value.season.Some? && resource.value.season.value > 0 &&
        resource.value.season.value != season)
    || (resource.Some? && exists m :: m > 0 && m != season && WatchlistSays(t, resource.value, m))
    || (resource.Some? && exists m :: m > 0 && m != season &&
                                      CandidatesSay(t, resource.value, TaskKey(task, resource), m))
  }

  /** The positive numbers among the values are all m. */
  predicate NoneBut(values: seq<Field>, m: int) {
    forall i | 0 <= i < |values| && values[i].Number? && values[i].n > 0 :: values[i].n == m
  }

  predicate PicksNoneBut<R>(rows: seq<R>, pick: R -> Option<Field>, m: int) {
    forall i | 0 <= i < |rows| && pick(rows[i]).Some? && pick(rows[i]).value.Number? && pick(rows[i]).value.n > 0 ::
      pick(rows[i]).value.n == m
  }

  /** A list of numbers contradicts a season when its positive ones are all the same other number. */
  lemma NumbersContradict(values: seq<Field>, season: int)
    ensures Contradicts(values, season) <==>
            exists m :: m > 0 && m != season && Number(m) in values && NoneBut(values, m)
  {
    if Contradicts(values, season) {
      var i :| 0 <= i < |values| && IsOnly(values, i) && values[i].n != season;
      assert Number(values[i].n) in values;
    }
    if m :| m > 0 && m != season && Number(m) in values && NoneBut(values, m) {
      var i :| 0 <= i < |values| && values[i] == Number(m);
      assert IsOnly(values, i);
    }
  }

  lemma OneNumber(f: Field, season: int)
    ensures Contradicts([f], season) <==> f.Number? && f.n > 0 && f.n != season
  {
    assert f.Number? && f.n > 0 ==> IsOnly([f], 0);
  }

  /** What `Gather` keeps of the rows that match, as fields, names m iff the rows do. */
  lemma MatchingSeasons<R>(rows: seq<R>, pick: R -> Option<Field>, m: int, values: seq<Field>)
    requires values == Gather(rows, pick)
    requires forall i | 0 <= i < |rows| && pick(rows[i]).Some? :: pick(rows[i]).value.Number?
    ensures Number(m) in values <==> exists i :: 0 <= i < |rows| && pick(rows[i]) == Some(Number(m))
    ensures NoneBut(values, m) <==> PicksNoneBut(rows, pick, m)
  {
    GatherIn(rows, pick, Number(m));
    forall i | 0 <= i < |values|
      ensures exists j :: 0 <= j < |rows| && pick(rows[j]) == Some(values[i])
    {
      GatherIn(rows, pick, values[i]);
      assert values[i] in values;
    }
    forall j | 0 <= j < |rows| && pick(rows[j]).Some?
      ensures pick(rows[j]).value in values
    {
      GatherIn(rows, pick, pick(rows[j]).value);
    }
  }

  lemma WatchlistContradicts(t: Tables, resource: Resource, season: int)
    ensures Contradicts(WatchSeasons(t, Some(resource)), season) <==>
            exists m :: m > 0 && m != season && WatchlistSays(t, resource, m)
  {
    var values := WatchSeasons(t, Some(resource));
    NumbersContradict(values, season);
    if resource.tmdbId.Some? && resource.tmdbId.value != 0 && resource.title != "" {
      forall m
        ensures Number(m) in values && NoneBut(values, m) <==> WatchlistSays(t, resource, m)
      {
        MatchingSeasons(t.watchlist, WatchRule(resource.tmdbId.value, resource.title), m, values);
      }
    }
  }

  lemma CandidatesContradict(t: Tables, resource: Resource, key: string, season: int)
    ensures Contradicts(CandidateSeasons(t, Some(resource), key), season) <==>
            exists m :: m > 0 && m != season && CandidatesSay(t, resource, key, m)
  {
    var values := CandidateSeasons(t, Some(resource), key);
    NumbersContradict(values, season);
    if resource.tmdbId.Some? && resource.tmdbId.value != 0 && key != "" {
      forall m
        ensures Number(m) in values && NoneBut(values, m) <==> CandidatesSay(t, resource, key, m)
      {
        MatchingSeasons(t.candidates, CandidateRule(resource.tmdbId.value, key), m, values);
      }
    }
  }

  lemma SourcesContradict(t: Tables, task: Task, season: int)
    ensures var resource := ResourceOf(t, task);
            var sources := SourcesOf(t, task, resource);
            Disputed(t, task, season) <==>
            Contradicts(sources.resource, season) || Contradicts(sources.payload, season) ||
            Contradicts(sources.watchlist, season) || Contradicts(sources.candidate, season)
  {
    var resource := ResourceOf(t, task);
    OneNumber(task.payload.season, season);
    if resource.Some? {
      if resource.value.season.Some? {
        OneNumber(Number(resource.value.season.value), season);
      }
      WatchlistContradicts(t, resource.value, season);
      CandidatesContradict(t, resource.value, TaskKey(task, resource), season);
    }
  }

  /** A task is recorded iff its payload or its resource lacks a season, and its season is safe to infer iff its key
      spells one that no source disputes. */
  lemma SafeIff(t: Tables, id: int, season: nat)
    ensures RecordAt(t, id).Some? <==>
            id in t.tasks &&
            (t.tasks[id].payload.season == Absent || ResourceOf(t, t.tasks[id]).None? ||
             ResourceOf(t, t.tasks[id]).value.season.None?)
    ensures RecordAt(t, id).Some? ==>
              var task := t.tasks[id];
              RecordAt(t, id).value.inferred == Some(season) <==>
              !Disputed(t, task, season) &&
              exists episode: nat :: ParseEpisodeKey(TaskKey(task, ResourceOf(t, task))) == Some((season, episode))
  {
    if id in t.tasks {
      SourcesContradict(t, t.tasks[id], season);
    }
  }

  /** A record names its task, the task's resource, and the task's status. */
  lemma RecordNames(t: Tables, id: int)
    requires RecordAt(t, id).Some?
    ensures var r := RecordAt(t, id).value;
            r.taskId == Some(id) && r.resourceId == t.tasks[id].resourceId && r.status == Some(t.tasks[id].status)
  {
  }

  // ---------- what is filled in ----------

  /** The task of the record still waits to be run. */
  predicate Waits(r: Record) {
    r.status == Some("QUEUED") || r.status == Some("RETRY_WAIT")
  }

  /** Some record of a waiting task infers the season for the resource, or for the task. */
  ghost predicate InferredFor(records: seq<Record>, resourceId: Option<int>, taskId: Option<int>, season: int) {
    exists r :: r in records && Waits(r) && r.inferred == Some(season) && season >= 1 &&
                ((resourceId.Some? && r.resourceId == resourceId) || (taskId.Some? && r.taskId == taskId))
  }

  /** The resource is as it was, or has a season that a record inferred for it. */
  ghost predicate ResourceFilled(t: Tables, records: seq<Record>, after: Tables, id: int)
    requires id in t.resources
  {
    && id in after.resources
    && (after.resources[id] == t.resources[id] ||
        (after.resources[id].season.Some? &&
         InferredFor(records, Some(id), None, after.resources[id].season.value)))
  }

  ghost predicate TaskFilled(t: Tables, records: seq<Record>, after: Tables, id: int)
    requires id in t.tasks
  {
    && id in after.tasks
    && (after.tasks[id] == t.tasks[id] ||
        (after.tasks[id].payload.season.Number? &&
         InferredFor(records, None, Some(id), after.tasks[id].payload.season.n)))
  }

  /** A season that was filled in is one that a record inferred for just that row. */
  lemma {:induction false} FilledAsInferred(t: Tables, records: seq<Record>, id: int)
    ensures id in t.resources ==> ResourceFilled(t, records, Backfill(t, records), id)
    ensures id in t.tasks ==> TaskFilled(t, records, Backfill(t, records), id)
  {
    if records != [] {
      var front, last := records[..|records| - 1], records[|records| - 1];
      FilledAsInferred(t, front, id);
      assert records == front + [last];
      InferredMore(front, last, Some(id), None);
      InferredMore(front, last, None, Some(id));
    }
  }

  /** And wherever a record of a waiting task infers a season, no season is missing afterwards. */
  lemma NoneLeftMissing(t: Tables, records: seq<Record>, r: Record)
    requires r in records && Waits(r) && r.inferred.Some? && r.inferred.value >= 1
    ensures var after := Backfill(t, records);
            && (r.resourceId.Some? && r.resourceId.value in t.resources ==>
                  r.resourceId.value in after.resources && after.resources[r.resourceId.value].season.Some?)
            && (r.taskId.Some? && r.taskId.value in t.tasks ==>
                  r.taskId.value in after.tasks && after.tasks[r.taskId.value].payload.season != Absent)
  {
    BackfillGrows(t, records);
  }

  lemma InferredMore(front: seq<Record>, last: Record, resourceId: Option<int>, taskId: Option<int>)
    ensures forall season ::
              InferredFor(front, resourceId, taskId, season) ==> InferredFor(front + [last], resourceId, taskId, season)
    ensures Waits(last) && last.inferred.Some? && last.inferred.value >= 1 &&
            ((resourceId.Some? && last.resourceId == resourceId) || (taskId.Some? && last.taskId == taskId)) ==>
              InferredFor(front + [last], resourceId, taskId, last.inferred.value)
  {
    assert last in front + [last];
    forall season | InferredFor(front, resourceId, taskId, season)
      ensures InferredFor(front + [last], resourceId, taskId, season)
    {
      var r :| r in front && Waits(r) && r.inferred == Some(season) && season >= 1 &&
               ((resourceId.Some? && r.resourceId == resourceId) || (taskId.Some? && r.taskId == taskId));
      assert r in front + [last];
    }
  }
}
