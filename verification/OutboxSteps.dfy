/** What each atomic step of the outbox protocol does, said of rows, items and accepted versions
    (app/monitor/resource_pipeline.py). */
module OutboxSteps {
  import opened PyText
  import opened Gathering
  import opened Outbox
  import opened OutboxProtocol

  /** Every deliverer but w holds what it held. */
  ghost predicate OthersKeep(s: World, t: World, w: nat) {
    forall v: nat | v != w :: WorkerOf(t, v) == WorkerOf(s, v)
  }

  /** Every row but row i, and all that is stored besides rows, is as it was. */
  ghost predicate OnlyRow(s: World, t: World, i: nat) {
    && t.store.messages == s.store.messages && t.epochs == s.epochs && t.ingested == s.ingested
    && i < |t.store.outbox| == |s.store.outbox|
    && forall j | 0 <= j < |s.store.outbox| && j != i :: t.store.outbox[j] == s.store.outbox[j]
  }

  /** The post is stored with just this content. */
  predicate Stored(s: World, post: Post) {
    post.ref in s.store.messages && s.store.messages[post.ref].hash == post.content
  }

  /** Row i holds the post afresh, as the next version of the row of its message, or as a new row at the end. */
  ghost predicate QueuedAt(s: World, t: World, post: Post, i: nat) {
    var before, after := s.store.outbox, t.store.outbox;
    && i < |after| == |t.epochs| && |before| == |s.epochs|
    && after[i] == OutboxRow(post.ref, post, Pending, 0, None)
    && (forall j | 0 <= j < |before| && j != i :: j < |after| && after[j] == before[j] && t.epochs[j] == s.epochs[j])
    && if i < |before| then |after| == |before| && before[i].ref == post.ref && t.epochs[i] == s.epochs[i] + 1
       else i == |before| && |after| == i + 1 && t.epochs[i] == 0 && forall j | 0 <= j < i :: before[j].ref != post.ref
  }

  /** Saving stores the post.  Unless it was stored with the same content, one row holds it afresh afterwards. */
  lemma SaveExact(s: World, post: Post)
    requires Inv(s)
    ensures var t := Do(s, Saves(post));
            && t.workers == s.workers && t.ingested == s.ingested
            && t.store.messages == s.store.messages[post.ref := Message(post.content, post.rest)]
            && if Stored(s, post) then t.store.outbox == s.store.outbox && t.epochs == s.epochs
               else exists i :: QueuedAt(s, t, post, i)
  {
    var t, id := Do(s, Saves(post)), RowOf(s.store.outbox, post.ref);
    if !Stored(s, post) {
      assert QueuedAt(s, t, post, if id.Some? then id.value else |s.store.outbox|);
    }
  }

  /** A deliverer in the middle of its items fetches nothing.  One that holds none gets the first due rows with their
      payloads, and with the number of enqueueing saves each has seen. */
  lemma FetchExact(s: World, w: nat, limit: nat)
    requires Inv(s)
    ensures var t := Do(s, Fetches(w, limit));
            var held := WorkerOf(t, w);
            && t.store == s.store && t.epochs == s.epochs && t.ingested == s.ingested && OthersKeep(s, t, w)
            && if WorkerOf(s, w).items != [] then held == WorkerOf(s, w)
               else
                 && held.phase == Todo && SameItems(held.items, Items(s.store.outbox, limit))
                 && FirstDue(s.store.outbox, limit, Items(s.store.outbox, limit))
                 && forall f | f in held.items :: f.id < |s.epochs| && f.epoch == s.epochs[f.id]
  {
    if WorkerOf(s, w).items == [] {
      var ids := Window(s.store.outbox, limit);
      ItemsAreFirst(s.store.outbox, limit);
      PendingAscending(s.store.outbox);
      GatherAll(ids, Fetched(s.store.outbox));
      GatherAll(ids, FlightOf(s));
      forall f | f in Gather(ids, FlightOf(s))
        ensures f.id < |s.epochs| && f.epoch == s.epochs[f.id]
      {
        FetchedOk(s, limit, f);
      }
    }
  }

  /** The handler answers for the first item held, once, and what it accepts is the version that was fetched. */
  lemma IngestExact(s: World, w: nat, ok: bool, v: Version)
    ensures var t, held := Do(s, Ingests(w, ok)), WorkerOf(s, w);
            && t.store == s.store && t.epochs == s.epochs && OthersKeep(s, t, w)
            && if held.items == [] || held.phase != Todo then t == s
               else
                 var f := held.items[0];
                 && WorkerOf(t, w) == Worker(held.items, if ok then Accepted else Failed)
                 && (v in t.ingested <==> v in s.ingested || (ok && v == Version(f.id, f.epoch, f.post)))
  {
  }

  /** The row of the first item held becomes SENT, if that item was accepted, or waits for a retry, if it was tried at
      all; the deliverer goes on to the next item, and nothing else changes. */
  lemma MarkExact(s: World, w: nat, error: Option<string>)
    requires Inv(s)
    ensures var t := Do(s, if error.None? then MarksSent(w) else MarksRetry(w, error.value));
            var held := WorkerOf(s, w);
            if held.items == [] || held.phase == Todo || (error.None? && held.phase != Accepted) then t == s
            else
              var i := held.items[0].id;
              && OnlyRow(s, t, i) && OthersKeep(s, t, w) && WorkerOf(t, w) == Worker(held.items[1..], Todo)
              && MarkedAs(s.store.outbox[i], t.store.outbox[i], error)
  {
    if WorkerOf(s, w).items != [] {
      assert WorkerOk(s, WorkerOf(s, w));
      assert VersionOf(s, Landed(WorkerOf(s, w).items[0]));
    }
  }

  predicate MarkedAs(before: OutboxRow, after: OutboxRow, error: Option<string>) {
    && after.ref == before.ref && after.payload == before.payload
    && match error
       case None => after.status == Sent && after.attempts == before.attempts && after.lastError == before.lastError
       case Some(e) =>
         after.status == RetryWait && after.attempts == before.attempts + 1 &&
         after.lastError == Some(if |e| <= 1000 then e else e[..1000])
  }

  /** A call that stops drops its items, and the rows stay due: the next fetch gets them again. */
  lemma StopExact(s: World, w: nat)
    ensures var t := Do(s, Stops(w));
            && t.store == s.store && t.epochs == s.epochs && t.ingested == s.ingested && OthersKeep(s, t, w)
            && WorkerOf(t, w).items == []
  {
  }
}
