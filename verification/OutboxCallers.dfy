/** The outbox protocol as the program runs it: one `resource_worker` and one `outbox_retry_loop`
    (app/monitor/resource_pipeline.py, app/monitor/telegram_gateway.py). */
module OutboxCallers {
  import opened PyText
  import opened Gathering
  import opened Outbox
  import opened OutboxProtocol

  const LOOP := 0
  const WORKER := 1

  /** The runs of `resource_worker` and `outbox_retry_loop`: the worker is the only one that saves, it awaits its own
      delivery call before it saves again, and the two fetch 10 and 50 rows. */
  ghost predicate ByCallers(steps: seq<Step>) {
    forall n: nat | n < |steps| :: CallerStep(Run(steps[..n]), steps[n])
  }

  predicate CallerStep(s: World, step: Step) {
    match step
    case Saves(_) => WorkerOf(s, WORKER).items == []
    case Fetches(w, limit) => (w == WORKER && limit == 10) || (w == LOOP && limit == 50)
    case _ => step.w == WORKER || step.w == LOOP
  }

  /** Every save is at once followed by the worker's own fetch. */
  predicate FetchedAtOnce(steps: seq<Step>) {
    forall n | 0 <= n < |steps| && steps[n].Saves? :: n + 1 < |steps| && steps[n + 1] == Fetches(WORKER, 10)
  }

  /** All the worker holds is as it was when fetched. */
  predicate WorkerFresh(s: World) {
    forall f | f in WorkerOf(s, WORKER).items :: f.id < |s.epochs| && f.epoch == s.epochs[f.id]
  }

  lemma FreshStep(s: World, step: Step)
    requires Inv(s) && WorkerFresh(s) && CallerStep(s, step)
    ensures WorkerFresh(Do(s, step))
  {
    match step
    case Fetches(w, limit) =>
      forall f | f in Gather(Window(s.store.outbox, limit), FlightOf(s))
        ensures f.id < |s.epochs| && f.epoch == s.epochs[f.id]
      {
        FetchedOk(s, limit, f);
      }
    case _ =>
  }

  lemma {:induction false} FreshRun(steps: seq<Step>)
    requires ByCallers(steps)
    ensures WorkerFresh(Run(steps))
  {
    if steps != [] {
      var front := steps[..|steps| - 1];
      assert forall n: nat | n < |front| :: front[..n] == steps[..n] && front[n] == steps[n];
      FreshRun(front);
      RunKeeps(front);
      FreshStep(Run(front), steps[|steps| - 1]);
    }
  }

  /** Among the program's own two deliverers only the retry loop can do harm: the worker's marks are never overtaken, so
      SENT means current exactly as long as every mark of the loop is harmless, and always while the loop is silent. */
  lemma CallersCurrentIff(steps: seq<Step>)
    requires ByCallers(steps)
    ensures AlwaysCurrent(steps) <==>
            forall n: nat | n < |steps| && steps[n] == MarksSent(LOOP) :: Harmless(Run(steps[..n]), steps[n])
    ensures MarksSent(LOOP) !in steps ==> AlwaysCurrent(steps)
  {
    CurrentIffHarmless(steps);
    forall n: nat | n < |steps| && steps[n] != MarksSent(LOOP)
      ensures Harmless(Run(steps[..n]), steps[n])
    {
      assert CallerStep(Run(steps[..n]), steps[n]);
      var front := steps[..n];
      assert forall k: nat | k < n :: front[..k] == steps[..k] && front[k] == steps[k];
      FreshRun(front);
    }
  }

  // ---------- an edit that overtakes a mark ----------

  lemma FetchesTheOnlyRow(s: World, limit: nat)
    requires |s.store.outbox| == |s.epochs| == 1 && Due(s.store.outbox[0]) && limit > 0
    ensures Gather(Window(s.store.outbox, limit), FlightOf(s)) == [Flight(0, s.store.outbox[0].payload, s.epochs[0])]
  {
    var outbox := s.store.outbox;
    var zero: seq<nat> := [0];
    assert outbox[..0] == [];
    assert PendingIds(outbox) == zero;
    assert Window(outbox, limit) == zero;
    GatherAll(zero, FlightOf(s));
  }

  lemma Extend(front: seq<Step>, last: Step)
    ensures Run(front + [last]) == Do(Run(front), last)
    ensures ByCallers(front + [last]) <==> ByCallers(front) && CallerStep(Run(front), last)
  {
    var steps := front + [last];
    assert forall n: nat | n <= |front| :: front[..n] == steps[..n];
    assert front[..|front|] == front;
    assert forall n: nat | n < |front| :: front[n] == steps[n];
    assert steps[|front|] == last;
  }

  function RowWorld(post: Post, row: OutboxRow, epoch: nat, versions: set<Version>, worker: Worker,
                    loop: Worker): World {
    World(Store(map[post.ref := Message(post.content, post.rest)], [row]),
          map[WORKER := worker, LOOP := loop], [epoch], versions)
  }

  lemma WorkerFetches(post: Post, row: OutboxRow, epoch: nat, versions: set<Version>, loop: Worker)
    requires Due(row)
    ensures Do(RowWorld(post, row, epoch, versions, IDLE, loop), Fetches(WORKER, 10)) ==
            RowWorld(post, row, epoch, versions, Worker([Flight(0, row.payload, epoch)], Todo), loop)
  {
    FetchesTheOnlyRow(RowWorld(post, row, epoch, versions, IDLE, loop), 10);
  }

  lemma Edits(first: Post, row: OutboxRow, epoch: nat, versions: set<Version>, loop: Worker, second: Post)
    requires row.ref == first.ref == second.ref && first.content != second.content
    ensures Do(RowWorld(first, row, epoch, versions, IDLE, loop), Saves(second)) ==
            RowWorld(second, Fresh(second), epoch + 1, versions, IDLE, loop)
    ensures CallerStep(RowWorld(first, row, epoch, versions, IDLE, loop), Saves(second))
  {
  }

  function Mark(w: nat, ok: bool, error: string): Step {
    if ok then MarksSent(w) else MarksRetry(w, error)
  }

  function Marked(row: OutboxRow, ok: bool, error: string): OutboxRow {
    if ok then row.(status := Sent)
    else row.(status := RetryWait, attempts := row.attempts + 1, lastError := Some(Clip(error)))
  }

  lemma WorkerIngests(post: Post, row: OutboxRow, epoch: nat, versions: set<Version>, f: Flight, loop: Worker, ok: bool)
    ensures Do(RowWorld(post, row, epoch, versions, Worker([f], Todo), loop), Ingests(WORKER, ok)) ==
            RowWorld(post, row, epoch, if ok then versions + {Landed(f)} else versions,
                     Worker([f], if ok then Accepted else Failed), loop)
  {
  }

  lemma WorkerMarks(post: Post, row: OutboxRow, epoch: nat, versions: set<Version>, f: Flight, loop: Worker, ok: bool,
                    error: string)
    requires f.id == 0
    ensures var s := RowWorld(post, row, epoch, versions, Worker([f], if ok then Accepted else Failed), loop);
            Do(s, Mark(WORKER, ok, error)) == RowWorld(post, Marked(row, ok, error), epoch, versions, IDLE, loop)
  {
    var s := RowWorld(post, row, epoch, versions, Worker([f], if ok then Accepted else Failed), loop);
    assert Advance(WorkerOf(s, WORKER)) == IDLE;
    assert [row][0 := Marked(row, ok, error)] == [Marked(row, ok, error)];
  }

  /** The worker and the loop both hold a post; the worker has it accepted and marks it. */
  function BothHold(first: Post): seq<Step> {
    [Saves(first), Fetches(WORKER, 10), Fetches(LOOP, 50), Ingests(WORKER, true), MarksSent(WORKER)]
  }

  lemma BothFetch(first: Post)
    ensures var steps := [Saves(first)] + [Fetches(WORKER, 10)] + [Fetches(LOOP, 50)];
            && ByCallers(steps)
            && Run(steps) == RowWorld(first, Fresh(first), 0, {}, Worker([Flight(0, first, 0)], Todo),
                                      Worker([Flight(0, first, 0)], Todo))
  {
    var p1 := [Saves(first)];
    var held := Worker([Flight(0, first, 0)], Todo);
    Extend([], Saves(first));
    assert [] + p1 == p1;
    assert Run(p1) ==
           World(Store(map[first.ref := Message(first.content, first.rest)], [Fresh(first)]), map[], [0], {});
    FetchesTheOnlyRow(Run(p1), 10);
    Extend(p1, Fetches(WORKER, 10));
    FetchesTheOnlyRow(Run(p1 + [Fetches(WORKER, 10)]), 50);
    Extend(p1 + [Fetches(WORKER, 10)], Fetches(LOOP, 50));
    assert map[WORKER := held][LOOP := held] == map[WORKER := held, LOOP := held];
  }

  lemma AfterBothHold(first: Post)
    ensures ByCallers(BothHold(first))
    ensures Run(BothHold(first)) == RowWorld(first, Marked(Fresh(first), true, ""), 0, {Version(0, 0, first)}, IDLE,
                                             Worker([Flight(0, first, 0)], Todo))
  {
    var p3 := [Saves(first)] + [Fetches(WORKER, 10)] + [Fetches(LOOP, 50)];
    var f := Flight(0, first, 0);
    BothFetch(first);
    ThenTries(p3, first, Fresh(first), 0, {}, f, Worker([f], Todo), true, "");
    assert BothHold(first) == p3 + [Ingests(WORKER, true), MarksSent(WORKER)];
    assert {} + {Landed(f)} == {Version(0, 0, first)};
  }

  lemma ThenTries(steps: seq<Step>, post: Post, row: OutboxRow, epoch: nat, versions: set<Version>, f: Flight,
                  loop: Worker, ok: bool, error: string)
    requires ByCallers(steps) && f.id == 0
    requires Run(steps) == RowWorld(post, row, epoch, versions, Worker([f], Todo), loop)
    ensures var more := steps + [Ingests(WORKER, ok), Mark(WORKER, ok, error)];
            && ByCallers(more)
            && Run(more) == RowWorld(post, Marked(row, ok, error), epoch,
                                     if ok then versions + {Landed(f)} else versions, IDLE, loop)
  {
    var ingest, mark := Ingests(WORKER, ok), Mark(WORKER, ok, error);
    Extend(steps, ingest);
    Extend(steps + [ingest], mark);
    assert steps + [ingest] + [mark] == steps + [ingest, mark];
    WorkerIngests(post, row, epoch, versions, f, loop, ok);
    WorkerMarks(post, row, epoch, if ok then versions + {Landed(f)} else versions, f, loop, ok, error);
  }

  /** Then an edit is saved and tried by the worker. */
  function Edited(first: Post, second: Post, ok: bool, error: string): seq<Step> {
    BothHold(first) + [Saves(second)] + [Fetches(WORKER, 10)] + [Ingests(WORKER, ok), Mark(WORKER, ok, error)]
  }

  lemma AfterEdit(first: Post, second: Post)
    requires first.ref == second.ref && first.content != second.content
    ensures var steps := BothHold(first) + [Saves(second)];
            && ByCallers(steps)
            && Run(steps) == RowWorld(second, Fresh(second), 1, {Version(0, 0, first)}, IDLE,
                                      Worker([Flight(0, first, 0)], Todo))
  {
    AfterBothHold(first);
    Extend(BothHold(first), Saves(second));
    Edits(first, Marked(Fresh(first), true, ""), 0, {Version(0, 0, first)}, Worker([Flight(0, first, 0)], Todo),
          second);
  }

  lemma AfterRefetch(first: Post, second: Post)
    requires first.ref == second.ref && first.content != second.content
    ensures var steps := BothHold(first) + [Saves(second)] + [Fetches(WORKER, 10)];
            && ByCallers(steps)
            && Run(steps) == RowWorld(second, Fresh(second), 1, {Version(0, 0, first)},
                                      Worker([Flight(0, second, 1)], Todo), Worker([Flight(0, first, 0)], Todo))
  {
    AfterEdit(first, second);
    Extend(BothHold(first) + [Saves(second)], Fetches(WORKER, 10));
    WorkerFetches(second, Fresh(second), 1, {Version(0, 0, first)}, Worker([Flight(0, first, 0)], Todo));
  }

  lemma AfterEdited(first: Post, second: Post, ok: bool, error: string)
    requires first.ref == second.ref && first.content != second.content
    ensures var one, two := Version(0, 0, first), Version(0, 1, second);
            && ByCallers(Edited(first, second, ok, error))
            && Run(Edited(first, second, ok, error)) ==
               RowWorld(second, Marked(Fresh(second), ok, error), 1, if ok then {one} + {two} else {one}, IDLE,
                        Worker([Flight(0, first, 0)], Todo))
  {
    AfterRefetch(first, second);
    ThenTries(BothHold(first) + [Saves(second)] + [Fetches(WORKER, 10)], second, Fresh(second), 1,
              {Version(0, 0, first)}, Flight(0, second, 1), Worker([Flight(0, first, 0)], Todo), ok, error);
  }

  /** At last the loop, too, has the first version accepted, and marks the row. */
  lemma LoopMarks(s: World, second: Post, row: OutboxRow, versions: set<Version>, first: Post)
    requires s == RowWorld(second, row, 1, versions, IDLE, Worker([Flight(0, first, 0)], Todo))
    ensures var t := Do(s, Ingests(LOOP, true));
            && CanMark(t, LOOP) && !NotOvertaken(t, LOOP)
            && Do(t, MarksSent(LOOP)) ==
               RowWorld(second, row.(status := Sent), 1, versions + {Version(0, 0, first)}, IDLE, IDLE)
  {
    var t := Do(s, Ingests(LOOP, true));
    var f := Flight(0, first, 0);
    assert t == RowWorld(second, row, 1, versions + {Landed(f)}, IDLE, Worker([f], Accepted));
    assert Advance(WorkerOf(t, LOOP)) == IDLE;
    assert [row][0 := row.(status := Sent)] == [row.(status := Sent)];
  }

  lemma AfterLoop(first: Post, second: Post, ok: bool, error: string)
    requires first.ref == second.ref && first.content != second.content
    ensures var p10 := Edited(first, second, ok, error) + [Ingests(LOOP, true)];
            var s, t := Run(p10), Run(p10 + [MarksSent(LOOP)]);
            && ByCallers(p10 + [MarksSent(LOOP)])
            && CanMark(s, LOOP) && !NotOvertaken(s, LOOP)
            && t.store.outbox == [Fresh(second).(status := Sent, attempts := if ok then 0 else 1,
                                                 lastError := if ok then None else Some(Clip(error)))]
            && (if ok then SentCurrent(t) else Lost(t, 0))
  {
    var p9 := Edited(first, second, ok, error);
    var one, two := {Version(0, 0, first)}, {Version(0, 1, second)};
    AfterEdited(first, second, ok, error);
    Extend(p9, Ingests(LOOP, true));
    Extend(p9 + [Ingests(LOOP, true)], MarksSent(LOOP));
    LoopMarks(Run(p9), second, Marked(Fresh(second), ok, error), if ok then one + two else one, first);
  }

  /** An edit is saved, and tried by the worker, while the loop still ingests its predecessor. */
  function OvertakenRun(first: Post, second: Post, ok: bool, error: string): seq<Step> {
    [Saves(first), Fetches(WORKER, 10), Fetches(LOOP, 50), Ingests(WORKER, true), MarksSent(WORKER),
     Saves(second), Fetches(WORKER, 10), Ingests(WORKER, ok), Mark(WORKER, ok, error),
     Ingests(LOOP, true), MarksSent(LOOP)]
  }

  lemma OvertakenRunParts(first: Post, second: Post, ok: bool, error: string)
    ensures var p10 := Edited(first, second, ok, error) + [Ingests(LOOP, true)];
            var steps := OvertakenRun(first, second, ok, error);
            steps == p10 + [MarksSent(LOOP)] && steps[..10] == p10 && FetchedAtOnce(steps)
  {
    var p10 := Edited(first, second, ok, error) + [Ingests(LOOP, true)];
    assert OvertakenRun(first, second, ok, error)[..10] == p10;
  }

  /** The two callers can make this run, and its last step is a mark overtaken by the edit.  If the worker's own attempt
      at the edit failed, the edit is lost; if it succeeded, the overtaken mark does no harm. */
  lemma LostEdit(first: Post, second: Post, ok: bool, error: string)
    requires first.ref == second.ref && first.content != second.content
    ensures var steps := OvertakenRun(first, second, ok, error);
            && ByCallers(steps) && FetchedAtOnce(steps)
            && CanMark(Run(steps[..10]), LOOP) && !NotOvertaken(Run(steps[..10]), LOOP)
            && Run(steps).store.outbox == [Fresh(second).(status := Sent, attempts := if ok then 0 else 1,
                                                          lastError := if ok then None else Some(Clip(error)))]
            && (if ok then SentCurrent(Run(steps)) else Lost(Run(steps), 0))
  {
    AfterLoop(first, second, ok, error);
    OvertakenRunParts(first, second, ok, error);
  }
}
