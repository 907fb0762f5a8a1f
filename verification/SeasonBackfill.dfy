/** The audit of transfer tasks without a season and the backfill of what it can infer
    (app/season_audit.py and app/season_backfill.py). */
module SeasonBackfill {
  import opened PyText
  import opened Gathering
  import opened SeasonInference

  /** A missing text is the empty one; both count as "no value". */
  datatype Resource = Resource(tmdbId: Option<int>, title: string, episodeKey: string, season: Option<int>)

  datatype Payload = Payload(episodeKey: string, episodeKeys: seq<string>, season: Field)

  datatype Task = Task(resourceId: Option<int>, status: string, payload: Payload)

  datatype WatchRow = WatchRow(tmdbId: int, title: string, season: int)
  datatype CandidateRow = CandidateRow(tmdbId: int, episodeKey: string, season: int)

  datatype Tables = Tables(
    resources: map<int, Resource>,
    tasks: map<int, Task>,
    watchlist: seq<WatchRow>,
    candidates: seq<CandidateRow>
  )

  // ---------- audit_missing_seasons, the transfer tasks ----------

  /** One audit record: what it refers to, and the inferred season if its confidence is SAFE_INFER. */
  datatype Record = Record(taskId: Option<int>, resourceId: Option<int>, status: Option<string>, inferred: Option<int>)

  function ResourceOf(t: Tables, task: Task): Option<Resource> {
    if task.resourceId.Some? && task.resourceId.value in t.resources then Some(t.resources[task.resourceId.value])
    else None
  }

  function TaskKey(task: Task, resource: Option<Resource>): string {
    if task.payload.episodeKey != "" then task.payload.episodeKey
    else if task.payload.episodeKeys != [] && task.payload.episodeKeys[0] != "" then task.payload.episodeKeys[0]
    else if resource.Some? then resource.value.episodeKey else ""
  }

  function WatchRule(tmdbId: int, title: string): WatchRow -> Option<Field> {
    (row: WatchRow) => if row.tmdbId == tmdbId && row.title == title then Some(Number(row.season)) else None
  }

  function CandidateRule(tmdbId: int, key: string): CandidateRow -> Option<Field> {
    (row: CandidateRow) => if row.tmdbId == tmdbId && row.episodeKey == key then Some(Number(row.season)) else None
  }

  function WatchSeasons(t: Tables, resource: Option<Resource>): seq<Field> {
    if resource.None? || resource.value.tmdbId.None? || resource.value.tmdbId.value == 0 ||
       resource.value.title == "" then []
    else
      var tmdbId, title := resource.value.tmdbId.value, resource.value.title;
      Gather(t.watchlist, WatchRule(tmdbId, title))
  }

  function CandidateSeasons(t: Tables, resource: Option<Resource>, key: string): seq<Field> {
    if resource.None? || resource.value.tmdbId.None? || resource.value.tmdbId.value == 0 || key == "" then []
    else
      var tmdbId := resource.value.tmdbId.value;
      Gather(t.candidates, CandidateRule(tmdbId, key))
  }

  function SourcesOf(t: Tables, task: Task, resource: Option<Resource>): Sources {
    Sources(if resource.Some? && resource.value.season.Some? then [Number(resource.value.season.value)] else [],
            if task.payload.season == Absent then [] else [task.payload.season],
            WatchSeasons(t, resource),
            CandidateSeasons(t, resource, TaskKey(task, resource)))
  }

  predicate Complete(task: Task, resource: Option<Resource>) {
    task.payload.season != Absent && resource.Some? && resource.value.season.Some?
  }

  function InferFor(t: Tables, task: Task): Option<int> {
    Infer(TaskKey(task, ResourceOf(t, task)), SourcesOf(t, task, ResourceOf(t, task)))
  }

  /** The audit record of a task, if it gets one. */
  function RecordAt(t: Tables, id: int): Option<Record> {
    if id !in t.tasks || Complete(t.tasks[id], ResourceOf(t, t.tasks[id])) then None
    else Some(Record(Some(id), t.tasks[id].resourceId, Some(t.tasks[id].status), InferFor(t, t.tasks[id])))
  }

  function RecordOf(t: Tables): int -> Option<Record> {
    (id: int) => RecordAt(t, id)
  }

  /** The records of the tasks, in whatever order the query returns them. */
  function Audit(t: Tables, order: seq<int>): seq<Record> {
    Gather(order, RecordOf(t))
  }

  // ---------- apply_safe_backfill ----------

  predicate Executable(r: Record) {
    r.inferred.Some? && (r.status == Some("QUEUED") || r.status == Some("RETRY_WAIT"))
  }

  function FillResource(t: Tables, id: Option<int>, season: int): Tables {
    if id.Some? && id.value in t.resources && t.resources[id.value].season.None? then
      t.(resources := t.resources[id.value := t.resources[id.value].(season := Some(season))])
    else t
  }

  function FillTask(t: Tables, id: Option<int>, season: int): Tables {
    if id.Some? && id.value in t.tasks && t.tasks[id.value].payload.season == Absent then
      var task := t.tasks[id.value];
      t.(tasks := t.tasks[id.value := task.(payload := task.payload.(season := Number(season)))])
    else t
  }

  function ApplyRecord(t: Tables, r: Record): Tables {
    if !Executable(r) || r.inferred.value < 1 then t
    else FillTask(FillResource(t, r.resourceId, r.inferred.value), r.taskId, r.inferred.value)
  }

  function Backfill(t: Tables, records: seq<Record>): Tables {
    if records == [] then t else ApplyRecord(Backfill(t, records[..|records| - 1]), records[|records| - 1])
  }

  /** How many resources and how many task payloads lack a season. */
  function Lacking(t: Tables): (nat, nat) {
    (|set id | id in t.resources && t.resources[id].season.None?|,
     |set id | id in t.tasks && t.tasks[id].payload.season == Absent|)
  }

  lemma FillResourceLacks(t: Tables, id: int, season: int)
    requires id in t.resources && t.resources[id].season.None?
    ensures Lacking(FillResource(t, Some(id), season)) == (Lacking(t).0 - 1, Lacking(t).1)
  {
    var s := FillResource(t, Some(id), season);
    var open := set x | x in t.resources && t.resources[x].season.None?;
    assert (set x | x in s.resources && s.resources[x].season.None?) == open - {id};
  }

  lemma FillTaskLacks(t: Tables, id: int, season: int)
    requires id in t.tasks && t.tasks[id].payload.season == Absent
    ensures Lacking(FillTask(t, Some(id), season)) == (Lacking(t).0, Lacking(t).1 - 1)
  {
    var s := FillTask(t, Some(id), season);
    var open := set x | x in t.tasks && t.tasks[x].payload.season == Absent;
    assert (set x | x in s.tasks && s.tasks[x].payload.season == Absent) == open - {id};
  }

  class Database {
    var resources: map<int, Resource>
    var tasks: map<int, Task>
    const watchlist: seq<WatchRow>
    const candidates: seq<CandidateRow>

    ghost function Contents(): Tables
      reads this
    {
      Tables(resources, tasks, watchlist, candidates)
    }

    constructor (t: Tables)
      ensures Contents() == t
    {
      resources, tasks, watchlist, candidates := t.resources, t.tasks, t.watchlist, t.candidates;
    }

    method AuditMissingSeasons(order: seq<int>) returns (records: seq<Record>)
      ensures records == Audit(Contents(), order)
    {
      records := [];
      var t := Tables(resources, tasks, watchlist, candidates);
      for i := 0 to |order|
        invariant records == Audit(t, order[..i])
      {
        GatherStep(order, i, RecordOf(t));
        assert records + [] == records;
        if order[i] !in tasks {
          continue;
        }
        var task := tasks[order[i]];
        var resource := ResourceOf(t, task);
        if task.payload.season != Absent && resource.Some? && resource.value.season.Some? {
          continue;
        }
        var key := TaskKey(task, resource);
        var inferred := InferSeason(key, SourcesOf(t, task, resource));
        records := records + [Record(Some(order[i]), task.resourceId, Some(task.status), inferred)];
      }
      assert order[..|order|] == order;
    }

    method ApplySafeBackfill(records: seq<Record>) returns (resourcesFilled: nat, payloadsFilled: nat)
      modifies this
      ensures Contents() == Backfill(old(Contents()), records)
      ensures Lacking(Contents()).0 == Lacking(old(Contents())).0 - resourcesFilled
      ensures Lacking(Contents()).1 == Lacking(old(Contents())).1 - payloadsFilled
      ensures resourcesFilled + payloadsFilled == 0 ==> Contents() == old(Contents())
    {
      resourcesFilled, payloadsFilled := 0, 0;
      for i := 0 to |records|
        invariant Contents() == Backfill(old(Contents()), records[..i])
        invariant Lacking(Contents()).0 == Lacking(old(Contents())).0 - resourcesFilled
        invariant Lacking(Contents()).1 == Lacking(old(Contents())).1 - payloadsFilled
        invariant resourcesFilled + payloadsFilled == 0 ==> Contents() == old(Contents())
      {
        var r := records[i];
        assert records[..i + 1][..i] == records[..i];
        if r.inferred.None? || (r.status != Some("QUEUED") && r.status != Some("RETRY_WAIT")) || r.inferred.value < 1 {
          continue;
        }
        var season := r.inferred.value;
        if r.resourceId.Some? && r.resourceId.value in resources && resources[r.resourceId.value].season.None? {
          FillResourceLacks(Contents(), r.resourceId.value, season);
          var resource := resources[r.resourceId.value];
          resources := resources[r.resourceId.value := resource.(season := Some(season))];
          resourcesFilled := resourcesFilled + 1;
        }
        if r.taskId.Some? && r.taskId.value in tasks && tasks[r.taskId.value].payload.season == Absent {
          FillTaskLacks(Contents(), r.taskId.value, season);
          var task := tasks[r.taskId.value];
          tasks := tasks[r.taskId.value := task.(payload := task.payload.(season := Number(season)))];
          payloadsFilled := payloadsFilled + 1;
        }
      }
      assert records[..|records|] == records;
    }
  }

  // ---------- only nulls are filled ----------

  predicate ResourceGrows(a: Resource, b: Resource) {
    b == a || (a.season.None? && b.season.Some? && b.season.value >= 1 && b == a.(season := b.season))
  }

  predicate TaskGrows(a: Task, b: Task) {
    b == a || (a.payload.season == Absent && b.payload.season.Number? && b.payload.season.n >= 1 &&
               b == a.(payload := a.payload.(season := b.payload.season)))
  }

  /** From a to b only null seasons were filled. */
  ghost predicate Grows(a: Tables, b: Tables) {
    && b.watchlist == a.watchlist && b.candidates == a.candidates
    && b.resources.Keys == a.resources.Keys && b.tasks.Keys == a.tasks.Keys
    && (forall id | id in a.resources :: ResourceGrows(a.resources[id], b.resources[id]))
    && (forall id | id in a.tasks :: TaskGrows(a.tasks[id], b.tasks[id]))
  }

  lemma GrowsAt(a: Tables, b: Tables, id: int)
    requires Grows(a, b)
    ensures id in a.resources <==> id in b.resources
    ensures id in a.tasks <==> id in b.tasks
    ensures id in a.resources ==> ResourceGrows(a.resources[id], b.resources[id])
    ensures id in a.tasks ==> TaskGrows(a.tasks[id], b.tasks[id])
  {
    assert id in a.resources.Keys <==> id in b.resources.Keys;
    assert id in a.tasks.Keys <==> id in b.tasks.Keys;
  }

  lemma GrowsTransitive(a: Tables, b: Tables, c: Tables)
    requires Grows(a, b) && Grows(b, c)
    ensures Grows(a, c)
  {
    forall id | id in a.resources
      ensures ResourceGrows(a.resources[id], c.resources[id])
    {
      assert ResourceGrows(a.resources[id], b.resources[id]) && ResourceGrows(b.resources[id], c.resources[id]);
    }
    forall id | id in a.tasks
      ensures TaskGrows(a.tasks[id], c.tasks[id])
    {
      assert TaskGrows(a.tasks[id], b.tasks[id]) && TaskGrows(b.tasks[id], c.tasks[id]);
    }
  }

  /** No row, filled or not, is left with the season the record wants to fill. */
  predicate Filled(t: Tables, r: Record) {
    && (r.resourceId.Some? && r.resourceId.value in t.resources ==> t.resources[r.resourceId.value].season.Some?)
    && (r.taskId.Some? && r.taskId.value in t.tasks ==> t.tasks[r.taskId.value].payload.season != Absent)
  }

  lemma ApplyRecordGrows(t: Tables, r: Record)
    ensures Grows(t, ApplyRecord(t, r))
    ensures Executable(r) && r.inferred.value >= 1 ==> Filled(ApplyRecord(t, r), r)
    ensures Filled(t, r) || !Executable(r) ==> ApplyRecord(t, r) == t
  {
  }

  lemma FilledStays(a: Tables, b: Tables, r: Record)
    requires Grows(a, b) && Filled(a, r)
    ensures Filled(b, r)
  {
    if r.resourceId.Some? {
      GrowsAt(a, b, r.resourceId.value);
    }
    if r.taskId.Some? {
      GrowsAt(a, b, r.taskId.value);
    }
  }

  lemma {:induction false} BackfillGrows(t: Tables, records: seq<Record>)
    ensures Grows(t, Backfill(t, records))
    ensures forall r | r in records && Executable(r) && r.inferred.value >= 1 :: Filled(Backfill(t, records), r)
  {
    if records != [] {
      var front, last := records[..|records| - 1], records[|records| - 1];
      var before := Backfill(t, front);
      BackfillGrows(t, front);
      ApplyRecordGrows(before, last);
      GrowsTransitive(t, before, ApplyRecord(before, last));
      forall r | r in records && Executable(r) && r.inferred.value >= 1
        ensures Filled(ApplyRecord(before, last), r)
      {
        if r != last {
          assert r in front;
          FilledStays(before, ApplyRecord(before, last), r);
        }
      }
    }
  }

  lemma {:induction false} NothingToFill(t: Tables, records: seq<Record>)
    requires forall r | r in records :: Filled(t, r) || !Executable(r)
    ensures Backfill(t, records) == t
  {
    if records != [] {
      NothingToFill(t, records[..|records| - 1]);
      ApplyRecordGrows(t, records[|records| - 1]);
    }
  }

  // ---------- filling only adds evidence ----------

  lemma SourcesGrow(a: Tables, b: Tables, id: int)
    requires Grows(a, b) && id in a.tasks
    ensures var ra, rb := ResourceOf(a, a.tasks[id]), ResourceOf(b, b.tasks[id]);
            && TaskKey(a.tasks[id], ra) == TaskKey(b.tasks[id], rb)
            && (Complete(a.tasks[id], ra) ==> Complete(b.tasks[id], rb))
            && var sa, sb := SourcesOf(a, a.tasks[id], ra), SourcesOf(b, b.tasks[id], rb);
               && sa.watchlist == sb.watchlist && sa.candidate == sb.candidate
               && (sa.resource == sb.resource || sa.resource == [])
               && (sa.payload == sb.payload || sa.payload == [])
  {
    GrowsAt(a, b, id);
    var task := a.tasks[id];
    if task.resourceId.Some? {
      GrowsAt(a, b, task.resourceId.value);
    }
  }

  /** A task that gets a record after filling got one before, with the same season if the later one is safe: no task
      newly becomes SAFE_INFER. */
  lemma NoneNewlySafe(a: Tables, b: Tables, id: int)
    requires Grows(a, b) && RecordOf(b)(id).Some?
    ensures RecordOf(a)(id).Some?
    ensures var ra, rb := RecordOf(a)(id).value, RecordOf(b)(id).value;
            && ra.taskId == rb.taskId && ra.resourceId == rb.resourceId && ra.status == rb.status
            && (rb.inferred.Some? ==> ra.inferred == rb.inferred)
  {
    SourcesGrow(a, b, id);
    assert TaskGrows(a.tasks[id], b.tasks[id]);
  }

  /** The records of a second audit find nothing left to fill. */
  lemma SecondAuditFilled(t: Tables, order: seq<int>, again: seq<int>)
    requires forall id | id in t.tasks :: id in order
    ensures var s := Backfill(t, Audit(t, order));
            forall r | r in Audit(s, again) :: Filled(s, r) || !Executable(r)
  {
    var records := Audit(t, order);
    var s := Backfill(t, records);
    BackfillGrows(t, records);
    forall r | r in Audit(s, again)
      ensures Filled(s, r) || !Executable(r)
    {
      GatherIn(again, RecordOf(s), r);
      var i :| 0 <= i < |again| && RecordOf(s)(again[i]) == Some(r);
      if Executable(r) {
        NoneNewlySafe(t, s, again[i]);
        var first := RecordOf(t)(again[i]).value;
        var j :| 0 <= j < |order| && order[j] == again[i];
        GatherIn(order, RecordOf(t), first);
        assert first in records && Filled(s, first);
      }
    }
  }

  /** One pass is enough: auditing and applying again, in any order, changes nothing. */
  lemma OnePassSuffices(t: Tables, order: seq<int>, again: seq<int>)
    requires forall id | id in t.tasks :: id in order
    ensures var s := Backfill(t, Audit(t, order));
            Grows(t, s) && Backfill(s, Audit(s, again)) == s
  {
    var s := Backfill(t, Audit(t, order));
    BackfillGrows(t, Audit(t, order));
    SecondAuditFilled(t, order, again);
    NothingToFill(s, Audit(s, again));
  }

  /** Tasks in any other status keep their payload. */
  lemma {:induction false} OtherTasksUntouched(t: Tables, order: seq<int>, id: int)
    requires id in t.tasks && t.tasks[id].status != "QUEUED" && t.tasks[id].status != "RETRY_WAIT"
    ensures var s := Backfill(t, Audit(t, order)); id in s.tasks && s.tasks[id] == t.tasks[id]
  {
    forall r | r in Audit(t, order) && r.taskId == Some(id)
      ensures !Executable(r)
    {
      GatherIn(order, RecordOf(t), r);
    }
    KeepsTask(t, Audit(t, order), id);
  }

  lemma {:induction false} KeepsTask(t: Tables, records: seq<Record>, id: int)
    requires id in t.tasks && forall r | r in records && r.taskId == Some(id) :: !Executable(r)
    ensures id in Backfill(t, records).tasks && Backfill(t, records).tasks[id] == t.tasks[id]
  {
    if records != [] {
      var front, last := records[..|records| - 1], records[|records| - 1];
      KeepsTask(t, front, id);
      assert last in records;
    }
  }
}
