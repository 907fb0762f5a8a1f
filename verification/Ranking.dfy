/** Choosing the best item, overall or per key, in one pass over a list. */
module Ranking {
  import opened PyText

  /** `better` orders the items of the list strictly and totally. */
  ghost predicate Ranks<F>(s: seq<F>, better: (F, F) -> bool) {
    && (forall x, y | x in s && y in s :: x == y || better(x, y) || better(y, x))
    && (forall x, y | x in s && y in s :: !(better(x, y) && better(y, x)))
    && (forall x, y, z | x in s && y in s && z in s && better(x, y) && better(y, z) :: better(x, z))
  }

  /** The item of the list with this key that no other one with the key outranks. */
  ghost predicate IsBest<F, K>(s: seq<F>, keyOf: F -> Option<K>, better: (F, F) -> bool, k: K, f: F) {
    f in s && keyOf(f) == Some(k) && forall g | g in s && keyOf(g) == Some(k) :: g == f || better(f, g)
  }

  /** `if previous is None or rank(item) > rank(previous): by_key[key] = item`, item after item. */
  function BestPerKey<F, K(==)>(s: seq<F>, keyOf: F -> Option<K>, better: (F, F) -> bool): map<K, F> {
    if s == [] then map[] else
      var last, m := s[|s| - 1], BestPerKey(s[..|s| - 1], keyOf, better);
      var k := keyOf(last);
      if k.None? || (k.value in m && !better(last, m[k.value])) then m else m[k.value := last]
  }

  /** What one turn of a loop over the items does. */
  lemma BestPerKeyStep<F, K>(s: seq<F>, i: nat, keyOf: F -> Option<K>, better: (F, F) -> bool)
    requires i < |s|
    ensures BestPerKey(s[..i + 1], keyOf, better) ==
            var m, k := BestPerKey(s[..i], keyOf, better), keyOf(s[i]);
            if k.None? || (k.value in m && !better(s[i], m[k.value])) then m else m[k.value := s[i]]
  {
    assert s[..i + 1][..i] == s[..i];
  }

  lemma {:induction false} BestPerKeyFrom<F, K>(s: seq<F>, keyOf: F -> Option<K>, better: (F, F) -> bool, k: K)
    ensures k in BestPerKey(s, keyOf, better) ==>
            BestPerKey(s, keyOf, better)[k] in s && keyOf(BestPerKey(s, keyOf, better)[k]) == Some(k)
    ensures k in BestPerKey(s, keyOf, better) <==> exists f :: f in s && keyOf(f) == Some(k)
  {
    if s != [] {
      var front, last := s[..|s| - 1], s[|s| - 1];
      BestPerKeyFrom(front, keyOf, better, k);
      assert s == front + [last];
    }
  }

  /** One pass finds the best item of every key. */
  lemma {:induction false} BestPerKeyIsBest<F, K>(s: seq<F>, keyOf: F -> Option<K>, better: (F, F) -> bool, k: K)
    requires Ranks(s, better) && k in BestPerKey(s, keyOf, better)
    ensures IsBest(s, keyOf, better, k, BestPerKey(s, keyOf, better)[k])
  {
    var front, last := s[..|s| - 1], s[|s| - 1];
    assert s == front + [last];
    var m, m0 := BestPerKey(s, keyOf, better), BestPerKey(front, keyOf, better);
    BestPerKeyFrom(s, keyOf, better, k);
    if k in m0 {
      assert Ranks(front, better);
      BestPerKeyIsBest(front, keyOf, better, k);
    } else {
      BestPerKeyFrom(front, keyOf, better, k);
    }
  }

  lemma BestIsUnique<F, K>(s: seq<F>, t: seq<F>, keyOf: F -> Option<K>, better: (F, F) -> bool, k: K, f: F, g: F)
    requires Ranks(s, better) && forall x | x in s || x in t :: x in s && x in t
    requires IsBest(s, keyOf, better, k, f) && IsBest(t, keyOf, better, k, g)
    ensures f == g
  {
  }

  /** The result depends only on which items occur. */
  lemma BestPerKeyOrderInsensitive<F(!new), K(!new)>(s: seq<F>, t: seq<F>, keyOf: F -> Option<K>,
                                                     better: (F, F) -> bool)
    requires Ranks(s, better) && forall x | x in s || x in t :: x in s && x in t
    ensures BestPerKey(s, keyOf, better) == BestPerKey(t, keyOf, better)
  {
    var a, b := BestPerKey(s, keyOf, better), BestPerKey(t, keyOf, better);
    assert Ranks(t, better);
    forall k
      ensures k in a <==> k in b
    {
      BestPerKeyFrom(s, keyOf, better, k);
      BestPerKeyFrom(t, keyOf, better, k);
    }
    forall k | k in a
      ensures a[k] == b[k]
    {
      BestPerKeyIsBest(s, keyOf, better, k);
      BestPerKeyIsBest(t, keyOf, better, k);
      BestIsUnique(s, t, keyOf, better, k, a[k], b[k]);
    }
    assert a == b;
  }

  /** The loop: gives up at the first unusable item, and otherwise keeps the best item of every key. */
  method PickBest<F, K(==)>(s: seq<F>, unusable: F -> bool, keyOf: F -> Option<K>, better: (F, F) -> bool)
      returns (r: Option<map<K, F>>)
    ensures r == if exists f :: f in s && unusable(f) then None else Some(BestPerKey(s, keyOf, better))
  {
    var best: map<K, F> := map[];
    for i := 0 to |s|
      invariant forall j | 0 <= j < i :: !unusable(s[j])
      invariant best == BestPerKey(s[..i], keyOf, better)
    {
      BestPerKeyStep(s, i, keyOf, better);
      if unusable(s[i]) {
        assert s[i] in s;
        return None;
      }
      var key := keyOf(s[i]);
      if key.Some? && (key.value !in best || better(s[i], best[key.value])) {
        best := best[key.value := s[i]];
      }
    }
    assert s[..|s|] == s;
    r := Some(best);
  }
}
