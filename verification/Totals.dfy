/** Sums and concatenations over a list of named things. */
module Totals {
  import opened Sorting

  function SumOver(names: seq<string>, f: string -> nat): nat {
    if names == [] then 0 else SumOver(names[..|names| - 1], f) + f(names[|names| - 1])
  }

  function FlatOver<T>(names: seq<string>, f: string -> seq<T>): seq<T> {
    if names == [] then [] else FlatOver(names[..|names| - 1], f) + f(names[|names| - 1])
  }

  lemma {:induction false} FlatOverIn<T>(names: seq<string>, f: string -> seq<T>, t: T)
    ensures t in FlatOver(names, f) <==> exists d :: d in names && t in f(d)
  {
    if names != [] {
      var front, last := names[..|names| - 1], names[|names| - 1];
      FlatOverIn(front, f, t);
      assert names == front + [last];
      assert forall d :: d in names <==> d in front || d == last;
    }
  }

  lemma Extend<T>(names: seq<string>, d: string, f: string -> nat, g: string -> seq<T>)
    ensures SumOver(names + [d], f) == SumOver(names, f) + f(d)
    ensures FlatOver(names + [d], g) == FlatOver(names, g) + g(d)
  {
    assert (names + [d])[..|names|] == names;
  }

  function Without(names: seq<string>, i: nat): seq<string>
    requires i < |names|
  {
    names[..i] + names[i + 1..]
  }

  lemma {:induction false} SumWithout(names: seq<string>, i: nat, f: string -> nat)
    requires i < |names|
    ensures SumOver(names, f) == SumOver(Without(names, i), f) + f(names[i])
  {
    var front := names[..|names| - 1];
    if i == |names| - 1 {
      assert Without(names, i) == front;
    } else {
      SumWithout(front, i, f);
      assert Without(names, i)[..|names| - 2] == Without(front, i);
    }
  }

  lemma StaysWithout(names: seq<string>, i: nat, d: string)
    requires i < |names| && d in names && d != names[i]
    ensures d in Without(names, i)
  {
    var k :| 0 <= k < |names| && names[k] == d;
    assert Without(names, i)[if k < i then k else k - 1] == d;
  }

  /** Distinct names taken from a list add up to no more than the whole list. */
  lemma {:induction false} SumOfSome(some: seq<string>, names: seq<string>, f: string -> nat)
    requires Distinct(some) && forall d | d in some :: d in names
    ensures SumOver(some, f) <= SumOver(names, f)
  {
    if some != [] {
      var front, last := some[..|some| - 1], some[|some| - 1];
      assert last in some;
      var i :| 0 <= i < |names| && names[i] == last;
      forall d | d in front
        ensures d in Without(names, i)
      {
        var j :| 0 <= j < |front| && front[j] == d;
        assert some[j] == d && d in some;
        StaysWithout(names, i, d);
      }
      SumOfSome(front, Without(names, i), f);
      SumWithout(names, i, f);
    }
  }

  lemma {:induction false} SumAgree(names: seq<string>, f: string -> nat, g: string -> nat)
    requires forall d | d in names :: f(d) == g(d)
    ensures SumOver(names, f) == SumOver(names, g)
  {
    if names != [] {
      var front := names[..|names| - 1];
      assert names[|names| - 1] in names && forall d | d in front :: d in names;
      SumAgree(front, f, g);
    }
  }
}
