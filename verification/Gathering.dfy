/** Comprehensions with a filter: `[g(x) for x in items if g(x) is not None]`. */
module Gathering {
  import opened PyText

  function Gather<T, U>(items: seq<T>, g: T -> Option<U>): seq<U> {
    if items == [] then [] else
      var last := g(items[|items| - 1]);
      Gather(items[..|items| - 1], g) + (if last.Some? then [last.value] else [])
  }

  lemma {:induction false} GatherIn<T, U>(items: seq<T>, g: T -> Option<U>, u: U)
    ensures u in Gather(items, g) <==> exists i :: 0 <= i < |items| && g(items[i]) == Some(u)
    ensures |Gather(items, g)| <= |items|
  {
    if items != [] {
      var front := items[..|items| - 1];
      GatherIn(front, g, u);
      assert forall i | 0 <= i < |front| :: items[i] == front[i];
    }
  }

  lemma {:induction false} GatherNothing<T, U>(items: seq<T>, g: T -> Option<U>)
    requires forall i | 0 <= i < |items| :: g(items[i]) == None
    ensures Gather(items, g) == []
  {
    if items != [] {
      GatherNothing(items[..|items| - 1], g);
    }
  }

  lemma {:induction false} GatherEverything<T>(items: seq<T>, g: T -> Option<T>)
    requires forall i | 0 <= i < |items| :: g(items[i]) == Some(items[i])
    ensures Gather(items, g) == items
  {
    if items != [] {
      GatherEverything(items[..|items| - 1], g);
    }
  }

  /** Where every item yields a value, nothing is filtered. */
  lemma {:induction false} GatherAll<T, U>(items: seq<T>, g: T -> Option<U>)
    requires forall i | 0 <= i < |items| :: g(items[i]).Some?
    ensures |Gather(items, g)| == |items|
    ensures forall i | 0 <= i < |items| :: Gather(items, g)[i] == g(items[i]).value
  {
    if items != [] {
      GatherAll(items[..|items| - 1], g);
    }
  }

  lemma {:induction false} GatherAgree<T, U>(items: seq<T>, g: T -> Option<U>, h: T -> Option<U>)
    requires forall i | 0 <= i < |items| :: g(items[i]) == h(items[i])
    ensures Gather(items, g) == Gather(items, h)
  {
    if items != [] {
      GatherAgree(items[..|items| - 1], g, h);
    }
  }

  lemma {:induction false} GatherConcat<T, U>(a: seq<T>, b: seq<T>, g: T -> Option<U>)
    ensures Gather(a + b, g) == Gather(a, g) + Gather(b, g)
  {
    if b == [] {
      assert a + b == a;
    } else {
      var front := b[..|b| - 1];
      GatherConcat(a, front, g);
      assert (a + b)[..|a + b| - 1] == a + front;
    }
  }

  /** Extending the items by one, which is what a loop over them does. */
  lemma GatherStep<T, U>(items: seq<T>, i: nat, g: T -> Option<U>)
    requires i < |items|
    ensures Gather(items[..i + 1], g) ==
            Gather(items[..i], g) + (if g(items[i]).Some? then [g(items[i]).value] else [])
  {
    assert items[..i + 1][..i] == items[..i];
  }

  /** What is gathered depends, up to order, only on which items occur. */
  lemma GatherSame<T(!new), U>(a: seq<T>, b: seq<T>, g: T -> Option<U>, u: U)
    requires forall x :: x in a <==> x in b
    ensures u in Gather(a, g) <==> u in Gather(b, g)
  {
    GatherIn(a, g, u);
    GatherIn(b, g, u);
    if i :| 0 <= i < |a| && g(a[i]) == Some(u) {
      assert a[i] in b;
    }
    if i :| 0 <= i < |b| && g(b[i]) == Some(u) {
      assert b[i] in a;
    }
  }

  /** Where a value is gathered. */
  function Yielding<T, U>(items: seq<T>, g: T -> Option<U>): set<int> {
    set i | 0 <= i < |items| && g(items[i]).Some?
  }

  /** How many values are gathered. */
  lemma {:induction false} GatherCount<T, U>(items: seq<T>, g: T -> Option<U>)
    ensures |Gather(items, g)| == |Yielding(items, g)|
  {
    if items != [] {
      var n := |items| - 1;
      var front := items[..n];
      GatherCount(front, g);
      assert Yielding(items, g) == Yielding(front, g) + if g(items[n]).Some? then {n} else {};
    }
  }
}
