/** Repeated delivery calls on the outbox table, undisturbed by saves: what leaves, what stays, what starves
    (app/monitor/resource_pipeline.py). */
module OutboxDelivery {
  import opened PyText
  import opened Gathering
  import opened OutboxQueue
  import opened Outbox

  /** The handler's answer to the payload a row queues. */
  function Accepts(outbox: seq<OutboxRow>, handler: Handler): nat -> bool {
    (id: nat) => id < |outbox| && handler(outbox[id].payload).None?
  }

  /** One call tries the first `limit` pending rows and touches no other: an accepted row becomes SENT, a rejected one
      stays pending with one more attempt and the error text.  No row changes its message or its payload. */
  lemma CallRows(outbox: seq<OutboxRow>, limit: nat, handler: Handler)
    ensures var after := Call(outbox, limit, handler);
            && |after| == |outbox|
            && forall i: nat | i < |outbox| ::
                 after[i] == if i in Window(outbox, limit) then Tried(outbox[i], handler) else outbox[i]
  {
    PendingAscending(outbox);
    DeliverRows(outbox, Window(outbox, limit), handler);
  }

  lemma KeepOne(front: seq<nat>, n: nat, due: bool, gone: nat -> bool)
    ensures Gather(front + (if due then [n] else []), IfRejected(gone)) ==
            Gather(front, IfRejected(gone)) + (if due && !gone(n) then [n] else [])
  {
    var one: seq<nat> := if due then [n] else [];
    GatherConcat(front, one, IfRejected(gone));
    if due {
      assert one[..0] == [];
    }
  }

  /** Dropping some rows from the pending ones drops their ids from the list. */
  lemma {:induction false} PendingWithout(before: seq<OutboxRow>, after: seq<OutboxRow>, gone: nat -> bool)
    requires |before| == |after|
    requires forall i: nat | i < |before| :: Due(after[i]) <==> Due(before[i]) && !gone(i)
    ensures PendingIds(after) == Gather(PendingIds(before), IfRejected(gone))
  {
    if before != [] {
      var n := |before| - 1;
      PendingWithout(before[..n], after[..n], gone);
      KeepOne(PendingIds(before[..n]), n, Due(before[n]), gone);
    }
  }

  /** Dropping the accepted rows of a window from a list leaves what is behind it alone. */
  lemma DropFromWindow(window: seq<nat>, later: seq<nat>, accepts: nat -> bool, gone: nat -> bool)
    requires forall id | id in later :: id !in window
    requires forall id: nat :: gone(id) <==> id in window && accepts(id)
    ensures Gather(window + later, IfRejected(gone)) == Rejected(window, accepts) + later
  {
    GatherConcat(window, later, IfRejected(gone));
    GatherAgree(window, IfRejected(gone), IfRejected(accepts));
    GatherEverything(later, IfRejected(gone));
  }

  lemma WindowSplits(outbox: seq<OutboxRow>, limit: nat) returns (later: seq<nat>)
    ensures PendingIds(outbox) == Window(outbox, limit) + later
    ensures forall id | id in later :: id !in Window(outbox, limit)
    ensures forall accepts: nat -> bool ::
              Pass(PendingIds(outbox), limit, accepts) == Rejected(Window(outbox, limit), accepts) + later
  {
    var ids := PendingIds(outbox);
    var k := if limit < |ids| then limit else |ids|;
    PendingAscending(outbox);
    later := ids[k..];
    assert ids[..k] == Window(outbox, limit);
  }

  /** The pending list after a call. */
  lemma CallPending(outbox: seq<OutboxRow>, limit: nat, handler: Handler)
    ensures PendingIds(Call(outbox, limit, handler)) == Pass(PendingIds(outbox), limit, Accepts(outbox, handler))
  {
    var accepts := Accepts(outbox, handler);
    var window := Window(outbox, limit);
    var gone := (id: nat) => id in window && accepts(id);
    CallRows(outbox, limit, handler);
    WindowDue(outbox, limit);
    PendingWithout(outbox, Call(outbox, limit, handler), gone);
    var later := WindowSplits(outbox, limit);
    DropFromWindow(window, later, accepts, gone);
  }

  function Calls(outbox: seq<OutboxRow>, limit: nat, handler: Handler, n: nat): seq<OutboxRow>
    decreases n
  {
    if n == 0 then outbox else Calls(Call(outbox, limit, handler), limit, handler, n - 1)
  }

  lemma PassAgrees(rows: seq<nat>, limit: nat, a: nat -> bool, b: nat -> bool)
    requires forall id | id in rows :: a(id) == b(id)
    ensures Pass(rows, limit, a) == Pass(rows, limit, b)
    ensures forall id | id in Pass(rows, limit, a) :: id in rows
  {
    var k := if limit < |rows| then limit else |rows|;
    GatherAgree(rows[..k], IfRejected(a), IfRejected(b));
    RejectedIn(rows[..k], a);
  }

  lemma {:induction false} PassesAgree(rows: seq<nat>, limit: nat, a: nat -> bool, b: nat -> bool, n: nat)
    requires forall id | id in rows :: a(id) == b(id)
    ensures Passes(rows, limit, a, n) == Passes(rows, limit, b, n)
    decreases n
  {
    if n > 0 {
      PassAgrees(rows, limit, a, b);
      PassesAgree(Pass(rows, limit, a), limit, a, b, n - 1);
    }
  }

  /** The handler's answers stay the same, since payloads do. */
  lemma CallAccepts(outbox: seq<OutboxRow>, limit: nat, handler: Handler)
    ensures |Call(outbox, limit, handler)| == |outbox|
    ensures forall id: nat :: Accepts(outbox, handler)(id) == Accepts(Call(outbox, limit, handler), handler)(id)
  {
    CallRows(outbox, limit, handler);
  }

  lemma PassesAfterCall(outbox: seq<OutboxRow>, limit: nat, handler: Handler, rows: seq<nat>, n: nat)
    ensures Passes(rows, limit, Accepts(Call(outbox, limit, handler), handler), n) ==
            Passes(rows, limit, Accepts(outbox, handler), n)
  {
    CallAccepts(outbox, limit, handler);
    PassesAgree(rows, limit, Accepts(Call(outbox, limit, handler), handler), Accepts(outbox, handler), n);
  }

  lemma AllAccepted(outbox: seq<OutboxRow>, handler: Handler)
    requires forall post :: handler(post) == None
    ensures forall id | id in PendingIds(outbox) :: Accepts(outbox, handler)(id)
  {
    forall id: nat | id in PendingIds(outbox)
      ensures Accepts(outbox, handler)(id)
    {
      PendingIn(outbox, id);
    }
  }

  /** The pending list after any number of calls. */
  lemma {:induction false} CallsPending(outbox: seq<OutboxRow>, limit: nat, handler: Handler, n: nat)
    ensures PendingIds(Calls(outbox, limit, handler, n)) ==
            Passes(PendingIds(outbox), limit, Accepts(outbox, handler), n)
    decreases n
  {
    if n > 0 {
      var after := OneCall(outbox, limit, handler, n);
      CallsPending(after, limit, handler, n - 1);
    }
  }

  lemma OneCall(outbox: seq<OutboxRow>, limit: nat, handler: Handler, n: nat) returns (after: seq<OutboxRow>)
    requires n > 0
    ensures Calls(outbox, limit, handler, n) == Calls(after, limit, handler, n - 1)
    ensures Passes(PendingIds(outbox), limit, Accepts(outbox, handler), n) ==
            Passes(PendingIds(after), limit, Accepts(after, handler), n - 1)
  {
    after := Call(outbox, limit, handler);
    CallPending(outbox, limit, handler);
    PassesAfterCall(outbox, limit, handler, PendingIds(after), n - 1);
  }

  /** Some number of calls gets the row out of the pending set. */
  ghost predicate EverSent(outbox: seq<OutboxRow>, limit: nat, handler: Handler, id: nat) {
    exists n: nat :: !DueAt(Calls(outbox, limit, handler, n), id)
  }

  lemma SentMeansLeft(outbox: seq<OutboxRow>, limit: nat, handler: Handler, id: nat)
    ensures EverSent(outbox, limit, handler, id) <==>
            EverLeaves(PendingIds(outbox), limit, Accepts(outbox, handler), id)
  {
    if EverSent(outbox, limit, handler, id) {
      var n: nat :| !DueAt(Calls(outbox, limit, handler, n), id);
      LeftWhen(outbox, limit, handler, id, n);
    }
    if EverLeaves(PendingIds(outbox), limit, Accepts(outbox, handler), id) {
      var n: nat :| id !in Passes(PendingIds(outbox), limit, Accepts(outbox, handler), n);
      LeftWhen(outbox, limit, handler, id, n);
    }
  }

  lemma LeftWhen(outbox: seq<OutboxRow>, limit: nat, handler: Handler, id: nat, n: nat)
    ensures DueAt(Calls(outbox, limit, handler, n), id) <==>
            id in Passes(PendingIds(outbox), limit, Accepts(outbox, handler), n)
  {
    CallsPending(outbox, limit, handler, n);
    PendingIn(Calls(outbox, limit, handler, n), id);
  }

  /** When a handler is fixed, the k-th pending row is ever delivered exactly if the handler accepts it and rejects
      fewer than `limit` of the rows queued before it: `limit` rows that keep failing starve everything behind them. */
  lemma SentEventuallyIff(outbox: seq<OutboxRow>, limit: nat, handler: Handler, k: nat)
    requires k < |PendingIds(outbox)|
    ensures var ids, accepts := PendingIds(outbox), Accepts(outbox, handler);
            EverSent(outbox, limit, handler, ids[k]) <==> accepts(ids[k]) && |Rejected(ids[..k], accepts)| < limit
  {
    var ids, accepts := PendingIds(outbox), Accepts(outbox, handler);
    PendingAscending(outbox);
    DeliveredIff(ids, k, limit, accepts);
    SentMeansLeft(outbox, limit, handler, ids[k]);
  }

  /** With a handler that always succeeds, n pending rows are all SENT after ceil(n / limit) calls and not before. */
  lemma DrainedAfter(outbox: seq<OutboxRow>, limit: nat, handler: Handler, calls: nat)
    requires limit >= 1 && forall post :: handler(post) == None
    ensures var n := |PendingIds(outbox)|;
            PendingIds(Calls(outbox, limit, handler, calls)) == [] <==> calls >= (n + limit - 1) / limit
  {
    assert Passes(PendingIds(outbox), limit, Accepts(outbox, handler), calls) == [] <==>
           calls >= (|PendingIds(outbox)| + limit - 1) / limit by {
      AllAccepted(outbox, handler);
      DrainedBy(PendingIds(outbox), limit, Accepts(outbox, handler), calls);
    }
    CallsPending(outbox, limit, handler, calls);
  }

  /** Each such call moves exactly min(limit, n) rows to SENT, and reports that number. */
  lemma CallMoves(outbox: seq<OutboxRow>, limit: nat, handler: Handler)
    requires forall post :: handler(post) == None
    ensures var n := |PendingIds(outbox)|;
            var k := if limit < n then limit else n;
            && PendingIds(Call(outbox, limit, handler)) == PendingIds(outbox)[k..]
            && |Gather(Items(outbox, limit), IfAccepted(handler))| == k
  {
    CallPending(outbox, limit, handler);
    AllAccepted(outbox, handler);
    PassAccepting(PendingIds(outbox), limit, Accepts(outbox, handler));
    CountsWindow(outbox, limit, handler);
  }

  lemma CountsWindow(outbox: seq<OutboxRow>, limit: nat, handler: Handler)
    requires forall post :: handler(post) == None
    ensures |Gather(Items(outbox, limit), IfAccepted(handler))| == |Window(outbox, limit)|
  {
    PendingAscending(outbox);
    GatherAll(Window(outbox, limit), Fetched(outbox));
    var items := Items(outbox, limit);
    forall i | 0 <= i < |items|
      ensures IfAccepted(handler)(items[i]).Some?
    {
      assert handler(items[i].1) == None;
    }
    GatherAll(items, IfAccepted(handler));
  }

  /** The places of a list of rows whose payload the handler accepts. */
  function AcceptedIn(outbox: seq<OutboxRow>, ids: seq<nat>, handler: Handler): set<int>
    requires forall k | 0 <= k < |ids| :: ids[k] < |outbox|
  {
    set k | 0 <= k < |ids| && handler(outbox[ids[k]].payload) == None
  }

  lemma AcceptedAre(outbox: seq<OutboxRow>, ids: seq<nat>, items: seq<Item>, handler: Handler)
    requires forall k | 0 <= k < |ids| :: ids[k] < |outbox|
    requires |items| == |ids| && forall k | 0 <= k < |ids| :: items[k] == (ids[k], outbox[ids[k]].payload)
    ensures Yielding(items, IfAccepted(handler)) == AcceptedIn(outbox, ids, handler)
  {
  }

  /** A call reports the number of rows it tried whose payload the handler accepted. */
  lemma CallReports(outbox: seq<OutboxRow>, limit: nat, handler: Handler)
    ensures var window := Window(outbox, limit);
            && (forall k | 0 <= k < |window| :: window[k] < |outbox|)
            && |Gather(Items(outbox, limit), IfAccepted(handler))| ==
               |AcceptedIn(outbox, window, handler)|
  {
    var window, items := Window(outbox, limit), Items(outbox, limit);
    PendingAscending(outbox);
    GatherAll(window, Fetched(outbox));
    GatherCount(items, IfAccepted(handler));
    AcceptedAre(outbox, window, items, handler);
  }

  /** Those are the rows that are SENT now and were pending before. */
  lemma CallSends(outbox: seq<OutboxRow>, limit: nat, handler: Handler, id: nat)
    requires id < |outbox| && Due(outbox[id])
    ensures var after := Call(outbox, limit, handler);
            && |after| == |outbox|
            && (after[id].status == Sent <==> id in Window(outbox, limit) && handler(outbox[id].payload) == None)
  {
    CallRows(outbox, limit, handler);
  }
}
