/** Breadth-first search over any directed graph of named nodes: what the queue and the visited nodes keep at every
    step, and what they amount to at the end. */
module BreadthFirst {

  /** Whether the first node has an edge to the second. */
  type Graph = (string, string) -> bool

  datatype Entry = Entry(id: string, depth: nat)

  ghost predicate ReachIn(g: Graph, root: string, d: string, k: nat)
    decreases k
  {
    if k == 0 then d == root else exists p :: ReachIn(g, root, p, k - 1) && g(p, d)
  }

  ghost predicate Reachable(g: Graph, root: string, d: string) {
    exists k: nat :: ReachIn(g, root, d, k)
  }

  /** The length of a shortest path. */
  ghost predicate IsDistance(g: Graph, root: string, d: string, k: nat) {
    ReachIn(g, root, d, k) && forall j: nat | j < k :: !ReachIn(g, root, d, j)
  }

  ghost predicate Queued(queue: seq<Entry>, id: string, depth: nat) {
    exists i :: 0 <= i < |queue| && queue[i].id == id && queue[i].depth <= depth
  }

  /** Every child of a visited node is visited or waiting, at most one level further down. */
  ghost predicate Closed(g: Graph, queue: seq<Entry>, depthOf: map<string, nat>) {
    forall v, c | v in depthOf && g(v, c) ::
      (c in depthOf && depthOf[c] <= depthOf[v] + 1) || Queued(queue, c, depthOf[v] + 1)
  }

  /** The queue is ordered by depth and spans at most two levels. */
  ghost predicate Leveled(queue: seq<Entry>, level: nat) {
    && (forall i | 0 <= i < |queue| :: level <= queue[i].depth <= level + 1)
    && (forall i, j | 0 <= i < j < |queue| :: queue[i].depth <= queue[j].depth)
  }

  /** Depths are lengths of actual paths, and visited nodes are no deeper than the level reached. */
  ghost predicate Genuine(g: Graph, root: string, queue: seq<Entry>, depthOf: map<string, nat>, level: nat) {
    && (forall i | 0 <= i < |queue| :: ReachIn(g, root, queue[i].id, queue[i].depth))
    && (forall v | v in depthOf :: depthOf[v] <= level && ReachIn(g, root, v, depthOf[v]))
  }

  ghost predicate Rooted(root: string, queue: seq<Entry>, depthOf: map<string, nat>) {
    if root in depthOf then depthOf[root] == 0 else depthOf == map[] && queue == [Entry(root, 0)]
  }

  /** What every step of the search keeps. */
  ghost predicate Sound(g: Graph, root: string, queue: seq<Entry>, depthOf: map<string, nat>, level: nat) {
    && Rooted(root, queue, depthOf)
    && Leveled(queue, level)
    && Genuine(g, root, queue, depthOf, level)
    && Closed(g, queue, depthOf)
  }

  lemma Start(g: Graph, root: string)
    ensures Sound(g, root, [Entry(root, 0)], map[], 0)
  {
    assert ReachIn(g, root, root, 0);
  }

  lemma QueuedTail(queue: seq<Entry>, id: string, depth: nat)
    requires queue != [] && Queued(queue, id, depth)
    ensures Queued(queue[1..], id, depth) || (queue[0].id == id && queue[0].depth <= depth)
  {
    var i :| 0 <= i < |queue| && queue[i].id == id && queue[i].depth <= depth;
    if i > 0 {
      assert queue[1..][i - 1] == queue[i];
    }
  }

  lemma QueuedMore(queue: seq<Entry>, more: seq<Entry>, id: string, depth: nat)
    requires Queued(queue, id, depth) || Queued(more, id, depth)
    ensures Queued(queue + more, id, depth)
  {
    if Queued(queue, id, depth) {
      var i :| 0 <= i < |queue| && queue[i].id == id && queue[i].depth <= depth;
      assert (queue + more)[i] == queue[i];
    } else {
      var i :| 0 <= i < |more| && more[i].id == id && more[i].depth <= depth;
      assert (queue + more)[|queue| + i] == more[i];
    }
  }

  lemma ClosedTail(g: Graph, queue: seq<Entry>, depthOf: map<string, nat>, depthOf': map<string, nat>, v: string,
                   c: string)
    requires queue != [] && Closed(g, queue, depthOf) && v in depthOf && g(v, c)
    requires forall d | d in depthOf :: d in depthOf' && depthOf'[d] == depthOf[d]
    requires queue[0].id in depthOf' && depthOf'[queue[0].id] <= queue[0].depth
    ensures (c in depthOf' && depthOf'[c] <= depthOf[v] + 1) || Queued(queue[1..], c, depthOf[v] + 1)
  {
    if !(c in depthOf && depthOf[c] <= depthOf[v] + 1) {
      QueuedTail(queue, c, depthOf[v] + 1);
    }
  }

  /** Skipping a node that was visited before. */
  lemma Skip(g: Graph, root: string, queue: seq<Entry>, depthOf: map<string, nat>, level: nat)
    requires Sound(g, root, queue, depthOf, level) && queue != [] && queue[0].id in depthOf
    ensures Sound(g, root, queue[1..], depthOf, queue[0].depth)
  {
    assert Closed(g, queue[1..], depthOf) by {
      forall v, c | v in depthOf && g(v, c)
        ensures (c in depthOf && depthOf[c] <= depthOf[v] + 1) || Queued(queue[1..], c, depthOf[v] + 1)
      {
        ClosedTail(g, queue, depthOf, depthOf, v, c);
      }
    }
  }

  /** The waiting entries for the children of a node. */
  function EntriesOf(ids: seq<string>, depth: nat): (r: seq<Entry>)
    ensures |r| == |ids| && forall i | 0 <= i < |r| :: r[i] == Entry(ids[i], depth)
  {
    seq(|ids|, i requires 0 <= i < |ids| => Entry(ids[i], depth))
  }

  lemma VisitGenuine(g: Graph, root: string, queue: seq<Entry>, depthOf: map<string, nat>, level: nat, ids: seq<string>)
    requires Genuine(g, root, queue, depthOf, level) && queue != [] && level <= queue[0].depth
    requires forall c | c in ids :: g(queue[0].id, c)
    ensures Genuine(g, root, queue[1..] + EntriesOf(ids, queue[0].depth + 1), depthOf[queue[0].id := queue[0].depth],
                    queue[0].depth)
  {
    var dir, depth := queue[0].id, queue[0].depth;
    var queue' := queue[1..] + EntriesOf(ids, depth + 1);
    forall i | 0 <= i < |queue'|
      ensures ReachIn(g, root, queue'[i].id, queue'[i].depth)
    {
      if i >= |queue[1..]| {
        assert ids[i - |queue[1..]|] in ids;
        assert ReachIn(g, root, dir, depth) && g(dir, queue'[i].id);
      }
    }
  }

  lemma VisitClosed(g: Graph, queue: seq<Entry>, depthOf: map<string, nat>, ids: seq<string>)
    requires Closed(g, queue, depthOf) && queue != [] && queue[0].id !in depthOf
    requires forall c | g(queue[0].id, c) :: c in ids
    ensures Closed(g, queue[1..] + EntriesOf(ids, queue[0].depth + 1), depthOf[queue[0].id := queue[0].depth])
  {
    var dir, depth := queue[0].id, queue[0].depth;
    var added := EntriesOf(ids, depth + 1);
    var queue', depthOf' := queue[1..] + added, depthOf[dir := depth];
    forall v, c | v in depthOf' && g(v, c)
      ensures (c in depthOf' && depthOf'[c] <= depthOf'[v] + 1) || Queued(queue', c, depthOf'[v] + 1)
    {
      if v == dir {
        var i :| 0 <= i < |ids| && ids[i] == c;
        assert added[i] == Entry(c, depth + 1);
        QueuedMore(queue[1..], added, c, depth + 1);
      } else {
        ClosedTail(g, queue, depthOf, depthOf', v, c);
        if Queued(queue[1..], c, depthOf[v] + 1) {
          QueuedMore(queue[1..], added, c, depthOf[v] + 1);
        }
      }
    }
  }

  /** Visiting a new node whose children are `ids`. */
  lemma Visit(g: Graph, root: string, queue: seq<Entry>, depthOf: map<string, nat>, level: nat, ids: seq<string>)
    requires Sound(g, root, queue, depthOf, level) && queue != [] && queue[0].id !in depthOf
    requires forall c :: g(queue[0].id, c) <==> c in ids
    ensures Sound(g, root, queue[1..] + EntriesOf(ids, queue[0].depth + 1), depthOf[queue[0].id := queue[0].depth],
                  queue[0].depth)
  {
    VisitGenuine(g, root, queue, depthOf, level, ids);
    VisitClosed(g, queue, depthOf, ids);
  }

  /** Whatever is closer to the root than every waiting entry has been visited, no deeper than it is far. */
  lemma {:induction false} NearerVisited(g: Graph, root: string, queue: seq<Entry>, depthOf: map<string, nat>,
                                         bound: nat, d: string, j: nat)
    requires Closed(g, queue, depthOf) && root in depthOf && depthOf[root] == 0
    requires forall i | 0 <= i < |queue| :: bound <= queue[i].depth
    requires ReachIn(g, root, d, j) && (j < bound || queue == [])
    ensures d in depthOf && depthOf[d] <= j
    decreases j
  {
    if j > 0 {
      var p :| ReachIn(g, root, p, j - 1) && g(p, d);
      NearerVisited(g, root, queue, depthOf, bound, p, j - 1);
    }
  }

  /** A node is first reached along a shortest path. */
  lemma PoppedAtDistance(g: Graph, root: string, queue: seq<Entry>, depthOf: map<string, nat>, level: nat)
    requires Sound(g, root, queue, depthOf, level) && queue != [] && queue[0].id !in depthOf
    ensures IsDistance(g, root, queue[0].id, queue[0].depth)
  {
    forall j: nat | j < queue[0].depth
      ensures !ReachIn(g, root, queue[0].id, j)
    {
      if ReachIn(g, root, queue[0].id, j) {
        NearerVisited(g, root, queue, depthOf, queue[0].depth, queue[0].id, j);
      }
    }
  }

  /** When nothing is waiting, the visited nodes are the reachable ones, each at its distance. */
  lemma Finished(g: Graph, root: string, depthOf: map<string, nat>, level: nat)
    requires Sound(g, root, [], depthOf, level)
    ensures forall d :: d in depthOf <==> Reachable(g, root, d)
    ensures forall d, k | IsDistance(g, root, d, k) :: d in depthOf && depthOf[d] == k
  {
    forall d
      ensures d in depthOf <==> Reachable(g, root, d)
    {
      if Reachable(g, root, d) {
        var k: nat :| ReachIn(g, root, d, k);
        NearerVisited(g, root, [], depthOf, 0, d, k);
      }
    }
    forall d, k | IsDistance(g, root, d, k)
      ensures d in depthOf && depthOf[d] == k
    {
      NearerVisited(g, root, [], depthOf, 0, d, k);
    }
  }

  lemma VisitedReachable(g: Graph, root: string, queue: seq<Entry>, depthOf: map<string, nat>, level: nat)
    requires Sound(g, root, queue, depthOf, level)
    ensures forall d | d in depthOf :: Reachable(g, root, d)
  {
  }

  /** Only the root lies at depth 0, and it is visited first. */
  lemma RootIsFirst(g: Graph, root: string, queue: seq<Entry>, depthOf: map<string, nat>, level: nat)
    requires Sound(g, root, queue, depthOf, level) && queue != [] && queue[0].id !in depthOf
    ensures queue[0].depth == 0 <==> queue[0].id == root
    ensures queue[0].id == root <==> root !in depthOf
  {
    if queue[0].depth == 0 {
      assert ReachIn(g, root, queue[0].id, 0);
    }
  }
}
