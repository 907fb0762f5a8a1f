/** The outbox under concurrency: `resource_worker` and `outbox_retry_loop` deliver at the same time, each awaiting its
    handler between fetch and mark, while posts keep being saved (app/monitor/resource_pipeline.py).  Every run is a
    sequence of atomic steps of any number of deliverers. */
module OutboxProtocol {
  import opened PyText
  import opened Gathering
  import opened Outbox

  /** Where a deliverer stands with the first of its items. */
  datatype Phase = Todo | Accepted | Failed

  /** An item as fetched; `epoch` counts the enqueueing saves its row had seen by then. */
  datatype Flight = Flight(id: nat, post: Post, epoch: nat)

  datatype Worker = Worker(items: seq<Flight>, phase: Phase)

  /** What a successful ingest delivered. */
  datatype Version = Version(id: nat, epoch: nat, post: Post)

  /** The database and the deliverers, with two history variables: how often each row was enqueued again, and which
      versions the handler has accepted. */
  datatype World = World(store: Store, workers: map<nat, Worker>, epochs: seq<nat>, ingested: set<Version>)

  const IDLE := Worker([], Todo)
  const START := World(EMPTY, map[], [], {})

  datatype Step =
    | Saves(post: Post)
    | Fetches(w: nat, limit: nat)
    | Ingests(w: nat, ok: bool)             // the handler returns, or raises
    | MarksSent(w: nat)
    | MarksRetry(w: nat, error: string)     // after a failed ingest, or when mark_sent itself raised
    | Stops(w: nat)                         // the call is cancelled or mark_retry raised: its items are dropped

  function WorkerOf(s: World, w: nat): Worker {
    if w in s.workers then s.workers[w] else IDLE
  }

  function Advance(worker: Worker): Worker {
    if worker.items == [] then IDLE else Worker(worker.items[1..], Todo)
  }

  function FlightOf(s: World): nat -> Option<Flight> {
    (id: nat) =>
      if id < |s.store.outbox| && id < |s.epochs| then Some(Flight(id, s.store.outbox[id].payload, s.epochs[id]))
      else None
  }

  function Bumped(s: World, post: Post): seq<nat> {
    var id := RowOf(s.store.outbox, post.ref);
    if id.None? then s.epochs + [0]
    else if id.value < |s.epochs| then s.epochs[id.value := s.epochs[id.value] + 1]
    else s.epochs
  }

  function Landed(f: Flight): Version {
    Version(f.id, f.epoch, f.post)
  }

  /** One step; a step that is not possible changes nothing. */
  function Do(s: World, step: Step): World {
    match step
    case Saves(post) =>
      s.(store := Save(s.store, post), epochs := if Changed(s.store, post) then Bumped(s, post) else s.epochs)
    case Fetches(w, limit) =>
      if WorkerOf(s, w).items != [] then s
      else s.(workers := s.workers[w := Worker(Gather(Window(s.store.outbox, limit), FlightOf(s)), Todo)])
    case Ingests(w, ok) =>
      var worker := WorkerOf(s, w);
      if worker.items == [] || worker.phase != Todo then s
      else if ok then
        s.(workers := s.workers[w := worker.(phase := Accepted)], ingested := s.ingested + {Landed(worker.items[0])})
      else s.(workers := s.workers[w := worker.(phase := Failed)])
    case MarksSent(w) =>
      if !CanMark(s, w) then s
      else s.(store := s.store.(outbox := WithSent(s.store.outbox, Head(s, w).id)),
              workers := s.workers[w := Advance(WorkerOf(s, w))])
    case MarksRetry(w, error) =>
      var worker := WorkerOf(s, w);
      if worker.items == [] || worker.phase == Todo then s
      else s.(store := s.store.(outbox := WithRetry(s.store.outbox, worker.items[0].id, error)),
              workers := s.workers[w := Advance(worker)])
    case Stops(w) =>
      s.(workers := s.workers[w := IDLE])
  }

  predicate CanMark(s: World, w: nat) {
    WorkerOf(s, w).items != [] && WorkerOf(s, w).phase == Accepted
  }

  function Head(s: World, w: nat): Flight
    requires WorkerOf(s, w).items != []
  {
    WorkerOf(s, w).items[0]
  }

  function RunFrom(s: World, steps: seq<Step>): World {
    if steps == [] then s else Do(RunFrom(s, steps[..|steps| - 1]), steps[|steps| - 1])
  }

  function Run(steps: seq<Step>): World {
    RunFrom(START, steps)
  }

  // ---------- the invariant ----------

  /** A version of a row: its message, and the queued payload itself if nothing was enqueued since. */
  predicate VersionOf(s: World, v: Version) {
    && v.id < |s.store.outbox| && v.id < |s.epochs|
    && v.post.ref == s.store.outbox[v.id].ref
    && v.epoch <= s.epochs[v.id]
    && (v.epoch == s.epochs[v.id] ==> v.post == s.store.outbox[v.id].payload)
  }

  ghost predicate WorkerOk(s: World, worker: Worker) {
    && (forall f | f in worker.items :: VersionOf(s, Landed(f)))
    && (worker.phase == Accepted ==> worker.items != [] && Landed(worker.items[0]) in s.ingested)
  }

  predicate SomeIngested(s: World, id: nat) {
    exists v :: v in s.ingested && v.id == id
  }

  ghost predicate SentIngested(s: World) {
    forall i: nat | i < |s.store.outbox| && s.store.outbox[i].status == Sent :: SomeIngested(s, i)
  }

  ghost predicate Inv(s: World) {
    && Consistent(s.store)
    && |s.epochs| == |s.store.outbox|
    && (forall w | w in s.workers :: WorkerOk(s, s.workers[w]))
    && (forall v | v in s.ingested :: VersionOf(s, v))
    && SentIngested(s)
  }

  /** How the table may move under the versions in flight. */
  ghost predicate Evolves(s: World, t: World) {
    && |s.store.outbox| == |s.epochs| <= |t.store.outbox| == |t.epochs|
    && s.ingested <= t.ingested
    && forall i | 0 <= i < |s.epochs| :: RowEvolves(s, t, i)
  }

  predicate RowEvolves(s: World, t: World, i: nat)
    requires i < |s.store.outbox| && i < |t.store.outbox| && i < |s.epochs| && i < |t.epochs|
  {
    && t.store.outbox[i].ref == s.store.outbox[i].ref
    && ((t.store.outbox[i].payload == s.store.outbox[i].payload && t.epochs[i] == s.epochs[i]) ||
        t.epochs[i] > s.epochs[i])
  }

  lemma VersionStays(s: World, t: World, v: Version)
    requires Evolves(s, t) && VersionOf(s, v)
    ensures VersionOf(t, v)
  {
    assert RowEvolves(s, t, v.id);
  }

  lemma WorkerStays(s: World, t: World, worker: Worker)
    requires Evolves(s, t) && WorkerOk(s, worker)
    ensures WorkerOk(t, worker)
  {
    forall f | f in worker.items
      ensures VersionOf(t, Landed(f))
    {
      VersionStays(s, t, Landed(f));
    }
  }

  /** What every step must establish beyond the evolution of the table. */
  lemma InvFrom(s: World, t: World, w: nat)
    requires Inv(s) && Evolves(s, t) && Consistent(t.store)
    requires forall x | x in t.workers && x != w :: x in s.workers && t.workers[x] == s.workers[x]
    requires w in t.workers ==> WorkerOk(t, t.workers[w])
    requires forall v | v in t.ingested && v !in s.ingested :: VersionOf(t, v)
    requires SentIngested(t)
    ensures Inv(t)
  {
    forall x | x in t.workers
      ensures WorkerOk(t, t.workers[x])
    {
      if x != w {
        WorkerStays(s, t, t.workers[x]);
      }
    }
    forall v | v in t.ingested
      ensures VersionOf(t, v)
    {
      if v in s.ingested {
        VersionStays(s, t, v);
      }
    }
  }

  // ---------- the table moves as allowed ----------

  lemma {:induction false} SameRefs(a: seq<OutboxRow>, b: seq<OutboxRow>, ref: Ref)
    requires |a| == |b| && forall i | 0 <= i < |a| :: a[i].ref == b[i].ref
    ensures RowOf(a, ref) == RowOf(b, ref)
  {
    if a != [] {
      SameRefs(a[..|a| - 1], b[..|b| - 1], ref);
    }
  }

  /** Changing statuses does not disturb the store. */
  lemma MarkKeeps(s: Store, outbox: seq<OutboxRow>)
    requires Consistent(s) && |outbox| == |s.outbox|
    requires forall i | 0 <= i < |outbox| ::
               outbox[i].ref == s.outbox[i].ref && outbox[i].payload == s.outbox[i].payload
    ensures Consistent(s.(outbox := outbox))
  {
    var t := s.(outbox := outbox);
    forall i | 0 <= i < |outbox|
      ensures Queued(t, i)
    {
      assert Queued(s, i);
    }
    forall ref | ref in t.messages
      ensures RowOf(t.outbox, ref).Some?
    {
      SameRefs(s.outbox, outbox, ref);
    }
  }

  lemma SaveEvolves(s: World, post: Post)
    requires Inv(s)
    ensures Evolves(s, Do(s, Saves(post))) && Consistent(Do(s, Saves(post)).store)
    ensures var t := Do(s, Saves(post)).store.outbox;
            forall i | 0 <= i < |t| && t[i].status == Sent :: i < |s.store.outbox| && s.store.outbox[i].status == Sent
  {
    SaveKeeps(s.store, post);
  }

  lemma InvSave(s: World, post: Post)
    requires Inv(s)
    ensures Inv(Do(s, Saves(post)))
  {
    var t := Do(s, Saves(post));
    SaveEvolves(s, post);
    forall i: nat | i < |t.store.outbox| && t.store.outbox[i].status == Sent
      ensures SomeIngested(t, i)
    {
      assert SomeIngested(s, i);
    }
    forall x | x in t.workers
      ensures WorkerOk(t, t.workers[x])
    {
      WorkerStays(s, t, t.workers[x]);
    }
    InvFrom(s, t, 0);
  }

  lemma FetchedOk(s: World, limit: nat, f: Flight)
    requires Inv(s) && f in Gather(Window(s.store.outbox, limit), FlightOf(s))
    ensures VersionOf(s, Landed(f)) && f.epoch == s.epochs[f.id] && Due(s.store.outbox[f.id])
  {
    GatherIn(Window(s.store.outbox, limit), FlightOf(s), f);
    var i :| 0 <= i < |Window(s.store.outbox, limit)| && FlightOf(s)(Window(s.store.outbox, limit)[i]) == Some(f);
    WindowDue(s.store.outbox, limit);
    assert DueAt(s.store.outbox, f.id);
    assert Queued(s.store, f.id);
  }

  lemma InvFetch(s: World, w: nat, limit: nat)
    requires Inv(s)
    ensures Inv(Do(s, Fetches(w, limit)))
  {
    var t := Do(s, Fetches(w, limit));
    if WorkerOf(s, w).items == [] {
      forall f | f in t.workers[w].items
        ensures VersionOf(t, Landed(f))
      {
        FetchedOk(s, limit, f);
      }
      SentStays(s, t);
      InvFrom(s, t, w);
    }
  }

  lemma SentStays(s: World, t: World)
    requires SentIngested(s) && t.store.outbox == s.store.outbox && s.ingested <= t.ingested
    ensures SentIngested(t)
  {
    forall i: nat | i < |t.store.outbox| && t.store.outbox[i].status == Sent
      ensures SomeIngested(t, i)
    {
      assert SomeIngested(s, i);
    }
  }

  lemma InvIngest(s: World, w: nat, ok: bool)
    requires Inv(s)
    ensures Inv(Do(s, Ingests(w, ok)))
  {
    var t := Do(s, Ingests(w, ok));
    var worker := WorkerOf(s, w);
    if worker.items != [] && worker.phase == Todo {
      assert WorkerOk(s, worker);
      assert VersionOf(s, Landed(worker.items[0]));
      assert worker.items == t.workers[w].items;
      SentStays(s, t);
      InvFrom(s, t, w);
    }
  }

  lemma AdvanceOk(s: World, worker: Worker)
    requires WorkerOk(s, worker)
    ensures WorkerOk(s, Advance(worker))
  {
  }

  lemma InvSent(s: World, w: nat)
    requires Inv(s)
    ensures Inv(Do(s, MarksSent(w)))
  {
    var t := Do(s, MarksSent(w));
    if CanMark(s, w) {
      var f := Head(s, w);
      assert WorkerOk(s, WorkerOf(s, w));
      assert VersionOf(s, Landed(f));
      MarkKeeps(s.store, t.store.outbox);
      AdvanceOk(s, WorkerOf(s, w));
      WorkerStays(s, t, Advance(WorkerOf(s, w)));
      forall i: nat | i < |t.store.outbox| && t.store.outbox[i].status == Sent
        ensures SomeIngested(t, i)
      {
        if i == f.id {
          assert Landed(f) in t.ingested;
        } else {
          assert SomeIngested(s, i);
        }
      }
      InvFrom(s, t, w);
    }
  }

  lemma InvRetry(s: World, w: nat, error: string)
    requires Inv(s)
    ensures Inv(Do(s, MarksRetry(w, error)))
  {
    var t := Do(s, MarksRetry(w, error));
    var worker := WorkerOf(s, w);
    if worker.items != [] && worker.phase != Todo {
      assert WorkerOk(s, worker);
      assert VersionOf(s, Landed(worker.items[0]));
      MarkKeeps(s.store, t.store.outbox);
      AdvanceOk(s, worker);
      WorkerStays(s, t, Advance(worker));
      forall i: nat | i < |t.store.outbox| && t.store.outbox[i].status == Sent
        ensures SomeIngested(t, i)
      {
        assert SomeIngested(s, i);
      }
      InvFrom(s, t, w);
    }
  }

  lemma InvStop(s: World, w: nat)
    requires Inv(s)
    ensures Inv(Do(s, Stops(w)))
  {
    var t := Do(s, Stops(w));
    SentStays(s, t);
    InvFrom(s, t, w);
  }

  /** Every step of every deliverer, in every order, keeps the invariant. */
  lemma StepKeeps(s: World, step: Step)
    requires Inv(s)
    ensures Inv(Do(s, step))
  {
    match step
    case Saves(post) => InvSave(s, post);
    case Fetches(w, limit) => InvFetch(s, w, limit);
    case Ingests(w, ok) => InvIngest(s, w, ok);
    case MarksSent(w) => InvSent(s, w);
    case MarksRetry(w, error) => InvRetry(s, w, error);
    case Stops(w) => InvStop(s, w);
  }

  lemma {:induction false} RunKeeps(steps: seq<Step>)
    ensures Inv(Run(steps))
  {
    if steps != [] {
      RunKeeps(steps[..|steps| - 1]);
      StepKeeps(Run(steps[..|steps| - 1]), steps[|steps| - 1]);
    }
  }

  /** Safety over every run: each message has one row, the row queues the content last saved for the message, and a
      SENT row had some version of its own message accepted. */
  lemma RunSafe(steps: seq<Step>)
    ensures var s := Run(steps).store;
            && (forall i, j | 0 <= i < j < |s.outbox| :: s.outbox[i].ref != s.outbox[j].ref)
            && (forall ref | ref in s.messages :: exists i :: 0 <= i < |s.outbox| && s.outbox[i].ref == ref)
            && (forall i | 0 <= i < |s.outbox| :: s.outbox[i].ref in s.messages &&
                                                  s.outbox[i].payload.content == s.messages[s.outbox[i].ref].hash)
    ensures var s := Run(steps);
            forall i: nat | i < |s.store.outbox| && s.store.outbox[i].status == Sent ::
              exists v :: v in s.ingested && v.post.ref == s.store.outbox[i].ref
  {
    RunKeeps(steps);
    var s := Run(steps);
    forall i: nat | i < |s.store.outbox|
      ensures Queued(s.store, i)
      ensures s.store.outbox[i].status == Sent ==> exists v :: v in s.ingested && v.post.ref == s.store.outbox[i].ref
    {
      if s.store.outbox[i].status == Sent {
        assert SomeIngested(s, i);
        var v :| v in s.ingested && v.id == i;
        assert VersionOf(s, v);
      }
    }
    forall ref | ref in s.store.messages
      ensures exists i :: 0 <= i < |s.store.outbox| && s.store.outbox[i].ref == ref
    {
      assert s.store.outbox[RowOf(s.store.outbox, ref).value].ref == ref;
    }
  }

  /** A row leaves the pending set only when the deliverer that marks it has had a version of it accepted. */
  lemma LeavesOnlyIngested(s: World, step: Step, i: nat)
    requires Inv(s) && i < |s.store.outbox| && Due(s.store.outbox[i])
    requires var t := Do(s, step); i < |t.store.outbox| && !Due(t.store.outbox[i])
    ensures step.MarksSent? && CanMark(s, step.w) && Head(s, step.w).id == i
    ensures Landed(Head(s, step.w)) in s.ingested && Head(s, step.w).post.ref == s.store.outbox[i].ref
  {
    match step
    case Saves(post) => SaveEvolves(s, post);
    case MarksSent(w) =>
      assert WorkerOk(s, WorkerOf(s, w));
      assert VersionOf(s, Landed(Head(s, w)));
    case _ =>
  }

  // ---------- SENT means the current version was ingested, unless a save overtook the mark ----------

  predicate CurrentIngested(s: World, i: nat) {
    i < |s.store.outbox| && i < |s.epochs| && Version(i, s.epochs[i], s.store.outbox[i].payload) in s.ingested
  }

  ghost predicate SentCurrent(s: World) {
    forall i: nat | i < |s.store.outbox| && s.store.outbox[i].status == Sent :: CurrentIngested(s, i)
  }

  /** No enqueueing save of the row fell between the fetch of the head item and now. */
  predicate NotOvertaken(s: World, w: nat)
    requires WorkerOf(s, w).items != []
  {
    var f := Head(s, w);
    f.id < |s.epochs| && f.epoch == s.epochs[f.id]
  }

  /** The exact effect of a mark: the row is SENT with its current version ingested iff no save overtook the mark, or
      another deliverer has ingested the newer version in the meantime. */
  lemma MarkSentExact(s: World, w: nat)
    requires Inv(s) && CanMark(s, w)
    ensures var t, i := Do(s, MarksSent(w)), Head(s, w).id;
            && i < |t.store.outbox| && t.store.outbox[i].status == Sent
            && (CurrentIngested(t, i) <==> NotOvertaken(s, w) || CurrentIngested(s, i))
            && (forall j | 0 <= j < |t.store.outbox| && j != i :: t.store.outbox[j] == s.store.outbox[j])
  {
    assert WorkerOk(s, WorkerOf(s, w));
    assert VersionOf(s, Landed(Head(s, w)));
  }

  /** A mark, where the step is one, leaves its row with its current version ingested. */
  predicate Harmless(s: World, step: Step) {
    step.MarksSent? && CanMark(s, step.w) ==> NotOvertaken(s, step.w) || CurrentIngested(s, Head(s, step.w).id)
  }

  lemma HarmlessStep(s: World, step: Step)
    requires Inv(s) && SentCurrent(s)
    ensures SentCurrent(Do(s, step)) <==> Harmless(s, step)
  {
    if step.MarksSent? && CanMark(s, step.w) {
      MarkSentExact(s, step.w);
      MarkLeavesOthers(s, step.w);
    } else {
      OtherStepsKeep(s, step);
    }
  }

  lemma MarkLeavesOthers(s: World, w: nat)
    requires Inv(s) && SentCurrent(s) && CanMark(s, w)
    ensures var t, i := Do(s, MarksSent(w)), Head(s, w).id; CurrentIngested(t, i) ==> SentCurrent(t)
  {
    var t, id := Do(s, MarksSent(w)), Head(s, w).id;
    MarkSentExact(s, w);
    forall i: nat | i < |t.store.outbox| && i != id && t.store.outbox[i].status == Sent
      ensures CurrentIngested(t, i)
    {
      assert CurrentIngested(s, i);
    }
  }

  lemma OtherStepsKeep(s: World, step: Step)
    requires Inv(s) && SentCurrent(s) && !(step.MarksSent? && CanMark(s, step.w))
    ensures SentCurrent(Do(s, step))
  {
    var t := Do(s, step);
    forall i: nat | i < |t.store.outbox| && t.store.outbox[i].status == Sent
      ensures CurrentIngested(t, i)
    {
      match step
      case Saves(post) =>
        SaveEvolves(s, post);
        assert CurrentIngested(s, i);
        SentUntouched(s, post, i);
      case _ =>
        assert CurrentIngested(s, i);
    }
  }

  /** A row that is SENT after a save was not enqueued again by it. */
  lemma SentUntouched(s: World, post: Post, i: nat)
    requires Inv(s) && i < |s.store.outbox|
    requires var t := Do(s, Saves(post)); i < |t.store.outbox| && t.store.outbox[i].status == Sent
    ensures var t := Do(s, Saves(post)); t.store.outbox[i] == s.store.outbox[i] && t.epochs[i] == s.epochs[i]
  {
    SaveKeeps(s.store, post);
  }

  ghost predicate AlwaysCurrent(steps: seq<Step>) {
    forall n: nat | n <= |steps| :: SentCurrent(Run(steps[..n]))
  }

  ghost predicate AlwaysHarmless(steps: seq<Step>) {
    forall n: nat | n < |steps| :: Harmless(Run(steps[..n]), steps[n])
  }

  lemma AlwaysCurrentStep(front: seq<Step>, last: Step)
    ensures AlwaysCurrent(front + [last]) <==> AlwaysCurrent(front) && SentCurrent(Run(front + [last]))
  {
    var steps := front + [last];
    assert steps[..|steps|] == steps;
    assert forall n: nat | n <= |front| :: front[..n] == steps[..n];
  }

  lemma AlwaysHarmlessStep(front: seq<Step>, last: Step)
    ensures AlwaysHarmless(front + [last]) <==> AlwaysHarmless(front) && Harmless(Run(front), last)
  {
    var steps := front + [last];
    assert forall n: nat | n <= |front| :: front[..n] == steps[..n];
    assert front[..|front|] == front;
    assert forall n: nat | n < |front| :: front[n] == steps[n];
    assert steps[|front|] == last;
  }

  /** Throughout a run of any number of deliverers SENT means that the current version was ingested, if and only if
      every mark finds its row not enqueued again since the fetch, or the newer version ingested by another
      deliverer. */
  lemma {:induction false} CurrentIffHarmless(steps: seq<Step>)
    ensures AlwaysCurrent(steps) <==> AlwaysHarmless(steps)
  {
    if steps == [] {
      assert SentCurrent(Run([]));
    } else {
      var front, last := steps[..|steps| - 1], steps[|steps| - 1];
      assert steps == front + [last];
      CurrentIffHarmless(front);
      AlwaysCurrentStep(front, last);
      AlwaysHarmlessStep(front, last);
      if AlwaysCurrent(front) {
        RunKeeps(front);
        assert front[..|front|] == front;
        assert SentCurrent(Run(front));
        HarmlessStep(Run(front), last);
      }
    }
  }

  /** Every mark of the run is made before its row is enqueued again. */
  ghost predicate Timely(steps: seq<Step>) {
    forall n: nat | n < |steps| && steps[n].MarksSent? && CanMark(Run(steps[..n]), steps[n].w) ::
      NotOvertaken(Run(steps[..n]), steps[n].w)
  }

  lemma TimelyIsCurrent(steps: seq<Step>)
    requires Timely(steps)
    ensures AlwaysCurrent(steps)
  {
    CurrentIffHarmless(steps);
  }

  // ---------- an overtaken edit is lost for good ----------

  /** The row is SENT, its current version was never ingested, and no deliverer holds it. */
  ghost predicate Lost(s: World, i: nat) {
    && i < |s.store.outbox| && i < |s.epochs|
    && s.store.outbox[i].status == Sent
    && !CurrentIngested(s, i)
    && forall w, f | w in s.workers && f in s.workers[w].items :: f.id != i
  }

  /** Whatever the deliverers do from then on, the version is never ingested, unless the message is edited again. */
  lemma {:induction false} StaysLost(s: World, steps: seq<Step>, i: nat)
    requires Inv(s) && Lost(s, i)
    requires forall k | 0 <= k < |steps| :: steps[k].Saves? && steps[k].post.ref == s.store.outbox[i].ref ==>
                                            steps[k].post.content == s.store.outbox[i].payload.content
    ensures var t := RunFrom(s, steps);
            Inv(t) && Lost(t, i) && t.store.outbox[i].payload == s.store.outbox[i].payload &&
            t.store.outbox[i].ref == s.store.outbox[i].ref
  {
    if steps != [] {
      var front := steps[..|steps| - 1];
      StaysLost(s, front, i);
      StepKeeps(RunFrom(s, front), steps[|steps| - 1]);
      LostStep(RunFrom(s, front), steps[|steps| - 1], i);
    }
  }

  lemma LostStep(s: World, step: Step, i: nat)
    requires Inv(s) && Lost(s, i)
    requires step.Saves? && step.post.ref == s.store.outbox[i].ref ==>
             step.post.content == s.store.outbox[i].payload.content
    ensures var t := Do(s, step);
            Lost(t, i) && t.store.outbox[i].payload == s.store.outbox[i].payload &&
              t.store.outbox[i].ref == s.store.outbox[i].ref
  {
    match step
    case Saves(post) =>
      SaveKeeps(s.store, post);
      assert Queued(s.store, i);
    case Fetches(w, limit) =>
      if WorkerOf(s, w).items == [] {
        forall f | f in Gather(Window(s.store.outbox, limit), FlightOf(s))
          ensures f.id != i
        {
          FetchedOk(s, limit, f);
        }
      }
    case _ =>
  }

  // ---------- an undisturbed delivery call is one particular run ----------

  /** Ingest and mark each item in turn. */
  function TrySteps(w: nat, items: seq<Item>, handler: Handler): seq<Step> {
    if items == [] then [] else
      var error := handler(items[|items| - 1].1);
      TrySteps(w, items[..|items| - 1], handler) +
      [Ingests(w, error == None), if error.None? then MarksSent(w) else MarksRetry(w, error.value)]
  }

  lemma TwoMore(s: World, steps: seq<Step>, a: Step, b: Step)
    ensures RunFrom(s, steps + [a, b]) == Do(Do(RunFrom(s, steps), a), b)
  {
    assert (steps + [a, b])[..|steps| + 1] == steps + [a];
    assert (steps + [a])[..|steps|] == steps;
  }

  ghost predicate SameItems(flights: seq<Flight>, items: seq<Item>) {
    |flights| == |items| && forall k | 0 <= k < |items| :: items[k] == (flights[k].id, flights[k].post)
  }

  /** The deliverer after it tried the first j of its items. */
  ghost predicate TriedUpTo(s: World, t: World, w: nat, flights: seq<Flight>, items: seq<Item>, handler: Handler,
                            j: nat) {
    && j <= |items| == |flights|
    && t.store == s.store.(outbox := Deliver(s.store.outbox, items[..j], handler))
    && WorkerOf(t, w) == Worker(flights[j..], Todo)
  }

  lemma TryOne(s: World, t: World, w: nat, flights: seq<Flight>, items: seq<Item>, handler: Handler, j: nat)
    requires SameItems(flights, items) && j < |items|
    requires TriedUpTo(s, t, w, flights, items, handler, j)
    ensures var error := handler(items[j].1);
            var mark := if error.None? then MarksSent(w) else MarksRetry(w, error.value);
            TriedUpTo(s, Do(Do(t, Ingests(w, error == None)), mark), w, flights, items, handler, j + 1)
  {
    assert items[..j + 1][..j] == items[..j];
    assert flights[j..][1..] == flights[j + 1..];
  }

  lemma {:induction false} TryRun(s: World, w: nat, flights: seq<Flight>, items: seq<Item>, handler: Handler, j: nat)
    requires SameItems(flights, items) && j <= |items|
    requires WorkerOf(s, w) == Worker(flights, Todo)
    ensures TriedUpTo(s, RunFrom(s, TrySteps(w, items[..j], handler)), w, flights, items, handler, j)
  {
    if j > 0 {
      TryRun(s, w, flights, items, handler, j - 1);
      assert items[..j][..j - 1] == items[..j - 1];
      var error := handler(items[j - 1].1);
      var mark := if error.None? then MarksSent(w) else MarksRetry(w, error.value);
      TwoMore(s, TrySteps(w, items[..j - 1], handler), Ingests(w, error == None), mark);
      TryOne(s, RunFrom(s, TrySteps(w, items[..j - 1], handler)), w, flights, items, handler, j - 1);
    }
  }

  /** Without interleaving, the steps of one deliverer do exactly what `deliver_outbox_pending` does as one call. */
  lemma CallIsRun(s: World, w: nat, limit: nat, handler: Handler)
    requires Inv(s) && WorkerOf(s, w).items == []
    ensures var steps := TrySteps(w, Items(s.store.outbox, limit), handler);
            var t := RunFrom(Do(s, Fetches(w, limit)), steps);
            t.store == s.store.(outbox := Call(s.store.outbox, limit, handler)) && WorkerOf(t, w).items == []
  {
    var ids := Window(s.store.outbox, limit);
    var items, flights := Items(s.store.outbox, limit), Gather(ids, FlightOf(s));
    PendingAscending(s.store.outbox);
    GatherAll(ids, Fetched(s.store.outbox));
    GatherAll(ids, FlightOf(s));
    TryRun(Do(s, Fetches(w, limit)), w, flights, items, handler, |items|);
    assert items[..|items|] == items;
  }
}
