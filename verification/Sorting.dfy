/** `sorted(set(items), key=rank)` for a rank that is a pair of numbers. */
module Sorting {

  type Rank = (nat, nat)

  predicate RankLess(a: Rank, b: Rank) {
    a.0 < b.0 || (a.0 == b.0 && a.1 < b.1)
  }

  predicate Distinct<T(==)>(s: seq<T>) {
    forall i, j | 0 <= i < j < |s| :: s[i] != s[j]
  }

  ghost predicate Ascending(s: seq<string>, rank: string -> Rank) {
    forall i, j | 0 <= i < j < |s| :: RankLess(rank(s[i]), rank(s[j]))
  }

  ghost predicate NonDescending(s: seq<string>, rank: string -> Rank) {
    forall i, j | 0 <= i < j < |s| :: !RankLess(rank(s[j]), rank(s[i]))
  }

  function Insert(x: string, s: seq<string>, rank: string -> Rank): (r: seq<string>)
    requires x !in s && Distinct(s) && NonDescending(s, rank)
    ensures Distinct(r) && NonDescending(r, rank)
    ensures forall y :: y in r <==> y == x || y in s
  {
    if s == [] then [x]
    else if RankLess(rank(x), rank(s[0])) then [x] + s
    else
      var rest := Insert(x, s[1..], rank);
      assert forall i | 0 <= i < |rest| :: rest[i] in rest;
      assert forall y | y in s[1..] :: !RankLess(rank(y), rank(s[0])) && y != s[0];
      [s[0]] + rest
  }

  /** Items of equal rank keep the order of their first appearance. */
  function SortedSet(s: seq<string>, rank: string -> Rank): (r: seq<string>)
    ensures Distinct(r) && NonDescending(r, rank)
    ensures forall y :: y in r <==> y in s
  {
    if s == [] then [] else
      var last := s[|s| - 1];
      var rest := SortedSet(s[..|s| - 1], rank);
      assert s == s[..|s| - 1] + [last];
      if last in rest then rest else Insert(last, rest, rank)
  }

  ghost predicate TellsApart(s: seq<string>, rank: string -> Rank) {
    forall x, y | x in s && y in s && x != y :: rank(x) != rank(y)
  }

  /** The result is strictly increasing exactly where ranks tell the items apart. */
  lemma SortedSetAscending(s: seq<string>, rank: string -> Rank)
    ensures Ascending(SortedSet(s, rank), rank) <==> TellsApart(s, rank)
  {
    var r := SortedSet(s, rank);
    if TellsApart(s, rank) {
      forall i, j | 0 <= i < j < |r|
        ensures RankLess(rank(r[i]), rank(r[j]))
      {
        assert r[i] in r && r[j] in r;
      }
    }
    if Ascending(r, rank) {
      forall x, y | x in s && y in s && x != y
        ensures rank(x) != rank(y)
      {
        assert x in r && y in r;
      }
    }
  }

  /** What `sorted` may make of a set, whatever order it meets the items in. */
  ghost predicate Sorts(r: seq<string>, s: seq<string>, rank: string -> Rank) {
    Distinct(r) && NonDescending(r, rank) && forall y :: y in r <==> y in s
  }

  lemma TwoTied(a: string, b: string, rank: string -> Rank)
    requires a != b && rank(a) == rank(b)
    ensures SortedSet([a, b], rank) == [a, b]
  {
    assert [a, b][..1] == [a] && [a][..0] == [] && [a][1..] == [];
    assert SortedSet([a], rank) == [a];
    assert Insert(b, [a], rank) == [a] + Insert(b, [], rank);
  }

  /** Two tied items may change places. */
  lemma SwapTied(r: seq<string>, s: seq<string>, rank: string -> Rank, i: nat, j: nat) returns (other: seq<string>)
    requires Sorts(r, s, rank) && i < j < |r| && rank(r[i]) == rank(r[j])
    ensures Sorts(other, s, rank) && other != r
  {
    other := r[i := r[j]][j := r[i]];
    forall y
      ensures y in other <==> y in r
    {
      if k :| 0 <= k < |r| && r[k] == y {
        assert other[if k == i then j else if k == j then i else k] == y;
      }
    }
  }

  /** A set has only one sorted listing exactly where ranks tell its items apart. */
  lemma SortedOnceIff(s: seq<string>, rank: string -> Rank)
    ensures (forall r | Sorts(r, s, rank) :: r == SortedSet(s, rank)) <==> TellsApart(s, rank)
  {
    var one := SortedSet(s, rank);
    assert Sorts(one, s, rank);
    SortedSetAscending(s, rank);
    if TellsApart(s, rank) {
      forall r | Sorts(r, s, rank)
        ensures r == one
      {
        forall i, j | 0 <= i < j < |r|
          ensures RankLess(rank(r[i]), rank(r[j]))
        {
          assert r[i] in r && r[j] in r;
        }
        AscendingUnique(r, one, rank);
      }
    } else {
      var i, j :| 0 <= i < j < |one| && !RankLess(rank(one[i]), rank(one[j]));
      var other := SwapTied(one, s, rank, i, j);
    }
  }

  /** A strictly increasing listing of given items is unique. */
  lemma {:induction false} AscendingUnique(a: seq<string>, b: seq<string>, rank: string -> Rank)
    requires Ascending(a, rank) && Ascending(b, rank)
    requires forall x :: x in a <==> x in b
    ensures a == b
  {
    assert forall i | 0 <= i < |a| :: a[i] in b;
    assert forall i | 0 <= i < |b| :: b[i] in a;
    if a != [] {
      assert a[0] == b[0];
      forall x
        ensures x in a[1..] <==> x in b[1..]
      {
        assert x in a[1..] <==> x in a && x != a[0] by {
          assert forall i | 1 <= i < |a| :: a[i] != a[0];
        }
        assert x in b[1..] <==> x in b && x != b[0] by {
          assert forall i | 1 <= i < |b| :: b[i] != b[0];
        }
      }
      AscendingUnique(a[1..], b[1..], rank);
    }
  }
}
