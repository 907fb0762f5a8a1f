/** How the list of pending rows moves from one delivery call to the next, when the handler's answer to each row is
    fixed and nothing is saved in between (app/monitor/resource_pipeline.py). */
module OutboxQueue {
  import opened PyText
  import opened Sorting
  import opened Gathering

  function IfRejected<T>(accepts: T -> bool): T -> Option<T> {
    (row: T) => if accepts(row) then None else Some(row)
  }

  /** The rows of a list that the handler rejects. */
  function Rejected<T>(rows: seq<T>, accepts: T -> bool): seq<T> {
    Gather(rows, IfRejected(accepts))
  }

  /** One call: the first `limit` rows are tried, the accepted ones leave. */
  function Pass<T>(rows: seq<T>, limit: nat, accepts: T -> bool): seq<T> {
    var k := if limit < |rows| then limit else |rows|;
    Rejected(rows[..k], accepts) + rows[k..]
  }

  function Passes<T>(rows: seq<T>, limit: nat, accepts: T -> bool, calls: nat): seq<T>
    decreases calls
  {
    if calls == 0 then rows else Passes(Pass(rows, limit, accepts), limit, accepts, calls - 1)
  }

  // ---------- what one call does to a row and to the rows ahead of it ----------

  lemma RejectedConcat<T>(a: seq<T>, b: seq<T>, accepts: T -> bool)
    ensures Rejected(a + b, accepts) == Rejected(a, accepts) + Rejected(b, accepts)
  {
    GatherConcat(a, b, IfRejected(accepts));
  }

  lemma RejectedIn<T>(rows: seq<T>, accepts: T -> bool)
    ensures forall x :: x in Rejected(rows, accepts) <==> x in rows && !accepts(x)
  {
    forall x
      ensures x in Rejected(rows, accepts) <==> x in rows && !accepts(x)
    {
      GatherIn(rows, IfRejected(accepts), x);
    }
  }

  lemma RejectedTwice<T>(rows: seq<T>, accepts: T -> bool)
    ensures Rejected(Rejected(rows, accepts), accepts) == Rejected(rows, accepts)
  {
    var left := Rejected(rows, accepts);
    forall i | 0 <= i < |left|
      ensures IfRejected(accepts)(left[i]) == Some(left[i])
    {
      GatherIn(rows, IfRejected(accepts), left[i]);
      assert left[i] in left;
    }
    GatherEverything(left, IfRejected(accepts));
  }

  /** A call changes nothing about which rejected rows a list holds. */
  lemma PassKeepsRejected<T>(rows: seq<T>, limit: nat, accepts: T -> bool)
    ensures Rejected(Pass(rows, limit, accepts), accepts) == Rejected(rows, accepts)
  {
    var k := if limit < |rows| then limit else |rows|;
    RejectedTwice(rows[..k], accepts);
    RejectedConcat(Rejected(rows[..k], accepts), rows[k..], accepts);
    RejectedConcat(rows[..k], rows[k..], accepts);
    assert rows[..k] + rows[k..] == rows;
  }

  /** While a row waits beyond the window, a call drops accepted rows ahead of it and nothing else. */
  lemma PassBeyond<T>(ahead: seq<T>, row: T, behind: seq<T>, limit: nat, accepts: T -> bool)
    requires limit <= |ahead|
    ensures Pass(ahead + [row] + behind, limit, accepts) == Pass(ahead, limit, accepts) + [row] + behind
    ensures |Pass(ahead, limit, accepts)| == |ahead| - limit + |Rejected(ahead[..limit], accepts)|
  {
    var rows := ahead + [row] + behind;
    assert rows[..limit] == ahead[..limit] && rows[limit..] == ahead[limit..] + [row] + behind;
  }

  /** Inside the window the handler's answer decides. */
  lemma PassWithin<T>(ahead: seq<T>, row: T, behind: seq<T>, limit: nat, accepts: T -> bool)
    requires |ahead| < limit && row !in ahead && row !in behind
    ensures row in Pass(ahead + [row] + behind, limit, accepts) <==> !accepts(row)
  {
    var rows := ahead + [row] + behind;
    var k := if limit < |rows| then limit else |rows|;
    RejectedIn(rows[..k], accepts);
    assert rows[..k][|ahead|] == row;
    assert forall x | x in rows[k..] :: x in behind;
  }

  lemma WindowHoldsAccepted<T>(ahead: seq<T>, limit: nat, accepts: T -> bool)
    requires limit <= |ahead|
    ensures |Rejected(ahead[..limit], accepts)| <= |Rejected(ahead, accepts)|
  {
    RejectedConcat(ahead[..limit], ahead[limit..], accepts);
    assert ahead[..limit] + ahead[limit..] == ahead;
  }

  // ---------- head-of-line starvation ----------

  lemma NewRowsNeverEnter<T>(rows: seq<T>, limit: nat, accepts: T -> bool, row: T)
    requires row !in rows
    ensures row !in Pass(rows, limit, accepts)
  {
    var k := if limit < |rows| then limit else |rows|;
    RejectedIn(rows[..k], accepts);
  }

  /** With fewer than `limit` rejected rows ahead, an accepted row leaves after finitely many calls. */
  lemma {:induction false} Leaves<T>(ahead: seq<T>, row: T, behind: seq<T>, limit: nat, accepts: T -> bool)
      returns (calls: nat)
    requires accepts(row) && row !in ahead && row !in behind
    requires |Rejected(ahead, accepts)| < limit
    ensures row !in Passes(ahead + [row] + behind, limit, accepts, calls)
    decreases |ahead|
  {
    if |ahead| < limit {
      PassWithin(ahead, row, behind, limit, accepts);
      calls := 1;
      assert Passes(ahead + [row] + behind, limit, accepts, 1) ==
             Passes(Pass(ahead + [row] + behind, limit, accepts), limit, accepts, 0);
    } else {
      PassBeyond(ahead, row, behind, limit, accepts);
      PassKeepsRejected(ahead, limit, accepts);
      WindowHoldsAccepted(ahead, limit, accepts);
      NewRowsNeverEnter(ahead, limit, accepts, row);
      calls := Leaves(Pass(ahead, limit, accepts), row, behind, limit, accepts);
      calls := calls + 1;
    }
  }

  /** With `limit` or more rejected rows ahead, a row is never even tried. */
  lemma {:induction false} Starves<T>(ahead: seq<T>, row: T, behind: seq<T>, limit: nat, accepts: T -> bool, calls: nat)
    requires |Rejected(ahead, accepts)| >= limit
    ensures row in Passes(ahead + [row] + behind, limit, accepts, calls)
    decreases calls
  {
    GatherIn(ahead, IfRejected(accepts), row);
    if calls == 0 {
      assert (ahead + [row] + behind)[|ahead|] == row;
    } else {
      PassBeyond(ahead, row, behind, limit, accepts);
      PassKeepsRejected(ahead, limit, accepts);
      Starves(Pass(ahead, limit, accepts), row, behind, limit, accepts, calls - 1);
    }
  }

  /** A rejected row stays for ever. */
  lemma {:induction false} RejectedStays<T>(rows: seq<T>, limit: nat, accepts: T -> bool, row: T, calls: nat)
    requires row in rows && !accepts(row)
    ensures row in Passes(rows, limit, accepts, calls)
    decreases calls
  {
    if calls > 0 {
      var k := if limit < |rows| then limit else |rows|;
      RejectedIn(rows[..k], accepts);
      assert rows == rows[..k] + rows[k..];
      RejectedStays(Pass(rows, limit, accepts), limit, accepts, row, calls - 1);
    }
  }

  ghost predicate EverLeaves<T(!new)>(rows: seq<T>, limit: nat, accepts: T -> bool, row: T) {
    exists calls: nat :: row !in Passes(rows, limit, accepts, calls)
  }

  /** Exactly when a pending row is ever delivered: the handler accepts it, and fewer than `limit` rows that the
      handler rejects were queued before it. */
  lemma DeliveredIff<T(!new)>(rows: seq<T>, i: nat, limit: nat, accepts: T -> bool)
    requires Distinct(rows) && i < |rows|
    ensures EverLeaves(rows, limit, accepts, rows[i]) <==>
            accepts(rows[i]) && |Rejected(rows[..i], accepts)| < limit
  {
    var ahead, row, behind := rows[..i], rows[i], rows[i + 1..];
    assert rows == ahead + [row] + behind;
    if accepts(row) && |Rejected(ahead, accepts)| < limit {
      var calls := Leaves(ahead, row, behind, limit, accepts);
    } else {
      forall calls: nat
        ensures row in Passes(rows, limit, accepts, calls)
      {
        if accepts(row) {
          Starves(ahead, row, behind, limit, accepts, calls);
        } else {
          RejectedStays(rows, limit, accepts, row, calls);
        }
      }
    }
  }

  // ---------- draining ----------

  /** A call whose handler accepts everything moves exactly min(limit, n) rows out. */
  lemma PassAccepting<T>(rows: seq<T>, limit: nat, accepts: T -> bool)
    requires forall x | x in rows :: accepts(x)
    ensures Pass(rows, limit, accepts) == rows[if limit < |rows| then limit else |rows|..]
  {
    var k := if limit < |rows| then limit else |rows|;
    GatherNothing(rows[..k], IfRejected(accepts));
  }

  /** calls * limit, counted call by call. */
  function Capacity(calls: nat, limit: nat): nat {
    if calls == 0 then 0 else Capacity(calls - 1, limit) + limit
  }

  lemma {:induction false} CapacityIsProduct(calls: nat, limit: nat)
    ensures Capacity(calls, limit) == calls * limit
  {
    if calls > 0 {
      CapacityIsProduct(calls - 1, limit);
    }
  }

  lemma {:induction false} LeftAfter<T>(rows: seq<T>, limit: nat, accepts: T -> bool, calls: nat)
    requires forall x | x in rows :: accepts(x)
    ensures |Passes(rows, limit, accepts, calls)| ==
            if Capacity(calls, limit) < |rows| then |rows| - Capacity(calls, limit) else 0
    decreases calls
  {
    if calls > 0 {
      PassAccepting(rows, limit, accepts);
      LeftAfter(Pass(rows, limit, accepts), limit, accepts, calls - 1);
    }
  }

  /** n pending rows are drained by ceil(n / limit) calls and by no fewer. */
  lemma DrainedBy<T>(rows: seq<T>, limit: nat, accepts: T -> bool, calls: nat)
    requires limit >= 1 && forall x | x in rows :: accepts(x)
    ensures Passes(rows, limit, accepts, calls) == [] <==> calls >= (|rows| + limit - 1) / limit
  {
    LeftAfter(rows, limit, accepts, calls);
    CapacityIsProduct(calls, limit);
    CeilingDivision(|rows|, limit, calls);
  }

  lemma CeilingDivision(n: nat, limit: nat, calls: nat)
    requires limit >= 1
    ensures calls >= (n + limit - 1) / limit <==> calls * limit >= n
  {
    var q := (n + limit - 1) / limit;
    assert q * limit <= n + limit - 1 < q * limit + limit;
    if calls >= q {
      assert calls * limit >= q * limit;
    } else {
      assert (calls + 1) * limit <= q * limit;
    }
  }
}
