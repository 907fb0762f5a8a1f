/** The message store with its durable outbox, and one delivery call over it (app/monitor/resource_pipeline.py). */
module Outbox {
  import opened PyText
  import opened Gathering

  /** Everything `_content_hash` covers, defaults applied.  The hash stands for this value. */
  datatype Content = Content(
    text: string,
    caption: string,
    urls: seq<string>,
    buttonUrls: seq<string>,
    entities: seq<string>,
    sourceType: string,
    isForward: bool
  )

  /** Channel and message number. */
  type Ref = (string, int)

  /** A serialised post: what the hash covers, and the rest (titles, dates, other metadata). */
  datatype Post = Post(ref: Ref, content: Content, rest: string)

  datatype Status = Pending | Retry | RetryWait | Sent

  datatype Message = Message(hash: Content, rest: string)

  /** A row of `resource_outbox`.  Row ids are positions: rows are only ever appended or updated in place. */
  datatype OutboxRow = OutboxRow(ref: Ref, payload: Post, status: Status, attempts: nat, lastError: Option<string>)

  datatype Store = Store(messages: map<Ref, Message>, outbox: seq<OutboxRow>)

  const EMPTY := Store(map[], [])

  // ---------- save_and_enqueue ----------

  /** The position of the row of a message, by the UNIQUE constraint. */
  function RowOf(outbox: seq<OutboxRow>, ref: Ref): (id: Option<nat>)
    ensures id.Some? ==> id.value < |outbox| && outbox[id.value].ref == ref
    ensures id.None? ==> forall i | 0 <= i < |outbox| :: outbox[i].ref != ref
  {
    if outbox == [] then None
    else if outbox[|outbox| - 1].ref == ref then Some(|outbox| - 1)
    else RowOf(outbox[..|outbox| - 1], ref)
  }

  function Fresh(post: Post): OutboxRow {
    OutboxRow(post.ref, post, Pending, 0, None)
  }

  /** INSERT ... ON CONFLICT DO UPDATE. */
  function Enqueue(outbox: seq<OutboxRow>, post: Post): seq<OutboxRow> {
    var id := RowOf(outbox, post.ref);
    if id.None? then outbox + [Fresh(post)] else outbox[id.value := Fresh(post)]
  }

  predicate Changed(s: Store, post: Post) {
    post.ref !in s.messages || s.messages[post.ref].hash != post.content
  }

  function Save(s: Store, post: Post): Store {
    Store(s.messages[post.ref := Message(post.content, post.rest)],
          if Changed(s, post) then Enqueue(s.outbox, post) else s.outbox)
  }

  // ---------- get_pending, mark_sent, mark_retry ----------

  /** `status IN ('PENDING', 'RETRY', 'RETRY_WAIT')`. */
  predicate Due(row: OutboxRow) {
    row.status in {Pending, Retry, RetryWait}
  }

  /** The ids of all pending rows, in order. */
  function PendingIds(outbox: seq<OutboxRow>): seq<nat> {
    if outbox == [] then [] else
      PendingIds(outbox[..|outbox| - 1]) + (if Due(outbox[|outbox| - 1]) then [|outbox| - 1] else [])
  }

  /** `ORDER BY id LIMIT ?`. */
  function Window(outbox: seq<OutboxRow>, limit: nat): seq<nat> {
    var ids := PendingIds(outbox);
    if limit < |ids| then ids[..limit] else ids
  }

  function WithSent(outbox: seq<OutboxRow>, id: nat): seq<OutboxRow> {
    if id < |outbox| then outbox[id := outbox[id].(status := Sent)] else outbox
  }

  function WithRetry(outbox: seq<OutboxRow>, id: nat, error: string): seq<OutboxRow> {
    if id < |outbox| then
      var row := outbox[id];
      outbox[id := row.(status := RetryWait, attempts := row.attempts + 1, lastError := Some(Clip(error)))]
    else outbox
  }

  /** `error[:1000]`. */
  function Clip(error: string): string {
    if |error| > 1000 then error[..1000] else error
  }

  type Item = (nat, Post)

  function Fetched(outbox: seq<OutboxRow>): nat -> Option<Item> {
    (id: nat) => if id < |outbox| then Some((id, outbox[id].payload)) else None
  }

  /** The result of `get_pending`. */
  function Items(outbox: seq<OutboxRow>, limit: nat): seq<Item> {
    Gather(Window(outbox, limit), Fetched(outbox))
  }

  // ---------- what get_pending returns ----------

  /** The row exists and is pending. */
  predicate DueAt(outbox: seq<OutboxRow>, id: nat) {
    id < |outbox| && Due(outbox[id])
  }

  lemma {:induction false} PendingIn(outbox: seq<OutboxRow>, id: nat)
    ensures id in PendingIds(outbox) <==> DueAt(outbox, id)
  {
    if outbox != [] {
      PendingIn(outbox[..|outbox| - 1], id);
    }
  }

  /** Strictly increasing ids below n. */
  ghost predicate Increasing(ids: seq<nat>, n: nat) {
    && (forall k | 0 <= k < |ids| :: ids[k] < n)
    && (forall j, k | 0 <= j < k < |ids| :: ids[j] < ids[k])
  }

  lemma {:induction false} PendingAscending(outbox: seq<OutboxRow>)
    ensures Increasing(PendingIds(outbox), |outbox|)
  {
    if outbox != [] {
      var n := |outbox| - 1;
      PendingAscending(outbox[..n]);
      IncreasingStep(PendingIds(outbox[..n]), n);
    }
  }

  lemma IncreasingStep(ids: seq<nat>, n: nat)
    requires Increasing(ids, n)
    ensures Increasing(ids + [n], n + 1) && Increasing(ids + [], n + 1)
  {
  }

  lemma WindowDue(outbox: seq<OutboxRow>, limit: nat)
    ensures forall id: nat | id in Window(outbox, limit) :: DueAt(outbox, id)
  {
    forall id: nat | id in Window(outbox, limit)
      ensures DueAt(outbox, id)
    {
      PendingIn(outbox, id);
    }
  }

  /** The items are what their caller expects: pending rows with the payload they queue, by increasing id, at most
      `limit` of them, and no pending row is passed over: one that is not listed comes behind a full list. */
  ghost predicate FirstDue(outbox: seq<OutboxRow>, limit: nat, items: seq<Item>) {
    && |items| <= limit
    && (forall j, k | 0 <= j < k < |items| :: items[j].0 < items[k].0)
    && (forall k | 0 <= k < |items| :: DueAt(outbox, items[k].0) && items[k].1 == outbox[items[k].0].payload)
    && (forall id: nat | DueAt(outbox, id) :: Listed(items, id) || Behind(items, limit, id))
  }

  predicate Listed(items: seq<Item>, id: nat) {
    exists k :: 0 <= k < |items| && items[k].0 == id
  }

  predicate Behind(items: seq<Item>, limit: nat, id: nat) {
    |items| == limit && forall k | 0 <= k < |items| :: items[k].0 < id
  }

  lemma ItemsAreFirst(outbox: seq<OutboxRow>, limit: nat)
    ensures FirstDue(outbox, limit, Items(outbox, limit))
  {
    var ids, window, items := PendingIds(outbox), Window(outbox, limit), Items(outbox, limit);
    PendingAscending(outbox);
    WindowDue(outbox, limit);
    GatherAll(window, Fetched(outbox));
    forall k | 0 <= k < |items|
      ensures DueAt(outbox, items[k].0) && items[k].1 == outbox[items[k].0].payload
    {
      assert window[k] in window;
    }
    forall id: nat | DueAt(outbox, id)
      ensures Listed(items, id) || Behind(items, limit, id)
    {
      PendingIn(outbox, id);
      var k :| 0 <= k < |ids| && ids[k] == id;
      if k < |window| {
        assert items[k].0 == id;
      }
    }
  }

  /** That fixes the list. */
  lemma FirstDueAgree(outbox: seq<OutboxRow>, limit: nat, a: seq<Item>, b: seq<Item>)
    requires FirstDue(outbox, limit, a) && FirstDue(outbox, limit, b)
    ensures a == b
  {
    forall k | 0 <= k < |a| && k < |b|
      ensures a[k] == b[k]
    {
      SamePrefix(outbox, limit, a, b, k);
    }
    if |a| < |b| {
      Reaches(outbox, limit, a, b, |a|);
    } else if |b| < |a| {
      Reaches(outbox, limit, b, a, |b|);
    }
  }

  lemma Reaches(outbox: seq<OutboxRow>, limit: nat, a: seq<Item>, b: seq<Item>, n: nat)
    requires FirstDue(outbox, limit, a) && FirstDue(outbox, limit, b) && n < |b|
    requires forall k | 0 <= k < |a| && k < |b| :: a[k] == b[k]
    ensures n < |a|
  {
    assert DueAt(outbox, b[n].0);
  }

  lemma {:induction false} SamePrefix(outbox: seq<OutboxRow>, limit: nat, a: seq<Item>, b: seq<Item>, k: nat)
    requires FirstDue(outbox, limit, a) && FirstDue(outbox, limit, b) && k < |a| && k < |b|
    ensures forall i | 0 <= i <= k :: a[i] == b[i]
  {
    if k > 0 {
      SamePrefix(outbox, limit, a, b, k - 1);
    }
    NotBefore(outbox, limit, a, b, k);
    NotBefore(outbox, limit, b, a, k);
  }

  lemma NotBefore(outbox: seq<OutboxRow>, limit: nat, a: seq<Item>, b: seq<Item>, k: nat)
    requires FirstDue(outbox, limit, a) && FirstDue(outbox, limit, b) && k < |a| && k < |b|
    requires forall i | 0 <= i < k :: a[i] == b[i]
    ensures a[k].0 <= b[k].0
  {
    assert DueAt(outbox, b[k].0);
  }

  // ---------- what saving keeps ----------

  /** Every saved message has exactly one outbox row, and that row queues the content last saved. */
  ghost predicate Consistent(s: Store) {
    && (forall i, j | 0 <= i < j < |s.outbox| :: s.outbox[i].ref != s.outbox[j].ref)
    && (forall i | 0 <= i < |s.outbox| :: Queued(s, i))
    && (forall ref | ref in s.messages :: RowOf(s.outbox, ref).Some?)
  }

  ghost predicate Queued(s: Store, i: nat)
    requires i < |s.outbox|
  {
    var row := s.outbox[i];
    row.payload.ref == row.ref && row.ref in s.messages && row.payload.content == s.messages[row.ref].hash
  }

  lemma {:induction false} RowOfAt(outbox: seq<OutboxRow>, i: nat)
    requires i < |outbox| && forall j, k | 0 <= j < k < |outbox| :: outbox[j].ref != outbox[k].ref
    ensures RowOf(outbox, outbox[i].ref) == Some(i)
  {
    if i < |outbox| - 1 {
      RowOfAt(outbox[..|outbox| - 1], i);
    }
  }

  /** Saving keeps the store consistent.  It reports a change exactly when the hashed content differs from what was
      saved last; then the row of the message is pending with the new payload and no attempts, and otherwise no row
      changes at all.  Rows of other messages never change, and no row moves. */
  lemma SaveKeeps(s: Store, post: Post)
    requires Consistent(s)
    ensures Consistent(Save(s, post))
    ensures var after := Save(s, post).outbox;
            && |after| >= |s.outbox|
            && (forall i | 0 <= i < |s.outbox| :: after[i].ref == s.outbox[i].ref)
            && (forall i | 0 <= i < |s.outbox| && after[i] != s.outbox[i] :: after[i].ref == post.ref)
            && (!Changed(s, post) ==> after == s.outbox)
            && (Changed(s, post) ==> RowOf(after, post.ref).Some? && after[RowOf(after, post.ref).value] == Fresh(post))
  {
    var t := Save(s, post);
    if Changed(s, post) {
      EnqueueShape(s.outbox, post);
    }
    SaveQueues(s, post);
    forall ref | ref in t.messages
      ensures RowOf(t.outbox, ref).Some?
    {
      if ref in s.messages {
        assert t.outbox[RowOf(s.outbox, ref).value].ref == ref;
      }
    }
  }

  /** What saving leaves of the post itself, and when it counts as changed. */
  lemma SavedPost(s: Store, post: Post)
    ensures var t := Save(s, post);
            && post.ref in t.messages && t.messages[post.ref] == Message(post.content, post.rest)
            && (forall ref | ref != post.ref :: (ref in t.messages <==> ref in s.messages) &&
                                                (ref in s.messages ==> t.messages[ref] == s.messages[ref]))
            && (Changed(s, post) <==> !(post.ref in s.messages && s.messages[post.ref].hash == post.content))
    ensures Fresh(post) == OutboxRow(post.ref, post, Pending, 0, None)
  {
  }

  lemma EnqueueShape(outbox: seq<OutboxRow>, post: Post)
    requires forall j, k | 0 <= j < k < |outbox| :: outbox[j].ref != outbox[k].ref
    ensures var after := Enqueue(outbox, post);
            && |after| >= |outbox|
            && (forall j, k | 0 <= j < k < |after| :: after[j].ref != after[k].ref)
            && (forall i | 0 <= i < |outbox| :: after[i].ref == outbox[i].ref)
            && (forall i | 0 <= i < |outbox| && after[i] != outbox[i] :: after[i].ref == post.ref)
            && RowOf(after, post.ref).Some? && after[RowOf(after, post.ref).value] == Fresh(post)
  {
    var after := Enqueue(outbox, post);
    var id := RowOf(outbox, post.ref);
    RowOfAt(after, if id.None? then |outbox| else id.value);
  }

  lemma SaveQueues(s: Store, post: Post)
    requires Consistent(s)
    ensures forall i | 0 <= i < |Save(s, post).outbox| :: Queued(Save(s, post), i)
  {
    var t := Save(s, post);
    forall i | 0 <= i < |t.outbox|
      ensures Queued(t, i)
    {
      if i < |s.outbox| {
        assert Queued(s, i);
        RowOfAt(s.outbox, i);
      }
    }
  }

  // ---------- the storage object ----------

  class ResourceStorage {
    var messages: map<Ref, Message>
    var outbox: seq<OutboxRow>

    ghost function Contents(): Store
      reads this
    {
      Store(messages, outbox)
    }

    ghost predicate Valid()
      reads this
    {
      Consistent(Contents())
    }

    constructor ()
      ensures Valid() && Contents() == EMPTY
    {
      messages, outbox := map[], [];
    }

    method SaveAndEnqueue(post: Post) returns (changed: bool)
      requires Valid()
      modifies this
      ensures Valid()
      ensures Contents() == Save(old(Contents()), post) && changed == Changed(old(Contents()), post)
    {
      SaveKeeps(Contents(), post);
      changed := post.ref !in messages || messages[post.ref].hash != post.content;
      messages := messages[post.ref := Message(post.content, post.rest)];
      if !changed {
        return;
      }
      var id := RowOf(outbox, post.ref);
      if id.None? {
        outbox := outbox + [Fresh(post)];
      } else {
        outbox := outbox[id.value := Fresh(post)];
      }
    }

    method GetPending(limit: nat) returns (items: seq<Item>)
      ensures FirstDue(outbox, limit, items) && items == Items(outbox, limit)
      ensures forall k | 0 <= k < |items| :: items[k].0 < |outbox| && outbox[items[k].0].status != Sent
      ensures forall id: nat | id < |outbox| && outbox[id].status != Sent ::
                Listed(items, id) || Behind(items, limit, id)
    {
      ItemsAreFirst(outbox, limit);
      WindowDue(outbox, limit);
      var rows := Window(outbox, limit);
      items := [];
      for k := 0 to |rows|
        invariant items == Gather(rows[..k], Fetched(outbox))
      {
        assert DueAt(outbox, rows[k]);
        GatherStep(rows, k, Fetched(outbox));
        items := items + [(rows[k], outbox[rows[k]].payload)];
      }
      assert rows[..|rows|] == rows;
    }

    method MarkSent(id: nat)
      modifies this`outbox
      ensures outbox == WithSent(old(outbox), id)
    {
      if id < |outbox| {
        outbox := outbox[id := outbox[id].(status := Sent)];
      }
    }

    method MarkRetry(id: nat, error: string)
      modifies this`outbox
      ensures outbox == WithRetry(old(outbox), id, error)
      ensures id < |outbox| ==>
                && outbox[id].status == RetryWait && outbox[id].attempts == old(outbox)[id].attempts + 1
                && outbox[id].lastError == Some(if |error| <= 1000 then error else error[..1000])
    {
      if id < |outbox| {
        var row := outbox[id];
        outbox := outbox[id := row.(status := RetryWait, attempts := row.attempts + 1, lastError := Some(Clip(error)))];
      }
    }
  }

  // ---------- deliver_outbox_pending, undisturbed ----------

  /** What the ingest handler does with a post: None when it returns, or the text of its exception. */
  type Handler = Post -> Option<string>

  function Try(outbox: seq<OutboxRow>, item: Item, handler: Handler): seq<OutboxRow> {
    if handler(item.1).None? then WithSent(outbox, item.0) else WithRetry(outbox, item.0, handler(item.1).value)
  }

  function Deliver(outbox: seq<OutboxRow>, items: seq<Item>, handler: Handler): seq<OutboxRow> {
    if items == [] then outbox
    else Try(Deliver(outbox, items[..|items| - 1], handler), items[|items| - 1], handler)
  }

  function IfAccepted(handler: Handler): Item -> Option<nat> {
    (item: Item) => if handler(item.1).None? then Some(item.0) else None
  }

  method DeliverOutboxPending(storage: ResourceStorage, handler: Handler, limit: nat) returns (delivered: nat)
    modifies storage
    ensures storage.messages == old(storage.messages)
    ensures storage.outbox == Deliver(old(storage.outbox), Items(old(storage.outbox), limit), handler)
    ensures delivered == |Gather(Items(old(storage.outbox), limit), IfAccepted(handler))|
  {
    delivered := 0;
    var items := storage.GetPending(limit);
    for i := 0 to |items|
      invariant storage.messages == old(storage.messages)
      invariant storage.outbox == Deliver(old(storage.outbox), items[..i], handler)
      invariant delivered == |Gather(items[..i], IfAccepted(handler))|
    {
      GatherStep(items, i, IfAccepted(handler));
      assert items[..i + 1][..i] == items[..i];
      var error := handler(items[i].1);
      if error.None? {
        storage.MarkSent(items[i].0);
        delivered := delivered + 1;
      } else {
        storage.MarkRetry(items[i].0, error.value);
      }
    }
    assert items[..|items|] == items;
  }

  /** What one call makes of a row it tries. */
  function Tried(row: OutboxRow, handler: Handler): OutboxRow {
    var error := handler(row.payload);
    if error.None? then row.(status := Sent)
    else row.(status := RetryWait, attempts := row.attempts + 1, lastError := Some(Clip(error.value)))
  }

  function Call(outbox: seq<OutboxRow>, limit: nat, handler: Handler): seq<OutboxRow> {
    Deliver(outbox, Items(outbox, limit), handler)
  }

  lemma {:induction false} DeliverRows(outbox: seq<OutboxRow>, ids: seq<nat>, handler: Handler)
    requires forall k | 0 <= k < |ids| :: ids[k] < |outbox|
    requires forall j, k | 0 <= j < k < |ids| :: ids[j] != ids[k]
    ensures var after := Deliver(outbox, Gather(ids, Fetched(outbox)), handler);
            && |after| == |outbox|
            && forall i: nat | i < |outbox| :: after[i] == if i in ids then Tried(outbox[i], handler) else outbox[i]
  {
    if ids != [] {
      var front, last := ids[..|ids| - 1], ids[|ids| - 1];
      DeliverRows(outbox, front, handler);
      var items := Gather(front, Fetched(outbox));
      assert Gather(ids, Fetched(outbox)) == items + [(last, outbox[last].payload)];
      assert (items + [(last, outbox[last].payload)])[..|items|] == items;
      assert last !in front;
      assert ids == front + [last];
    }
  }
}
