/**
 * Keeping one element per key: the "push it unless an entry with that id is
 * already there" pattern the bare-act grouping applies to acts and to each of
 * their four child lists, and the list it builds over a whole stream.
 */
module Dedup {

  /** Some element of `xs` has key `k`. */
  predicate HasKey<T>(xs: seq<T>, key: T -> int, k: int) {
    exists i :: 0 <= i < |xs| && key(xs[i]) == k
  }

  /** `xs` with `x` appended, unless an element with the key of `x` is already there. */
  function PushIfAbsent<T>(xs: seq<T>, key: T -> int, x: T): seq<T> {
    if HasKey(xs, key, key(x)) then xs else xs + [x]
  }

  /** The first element of `xs` for each key, in order of first occurrence:
      the result of applying PushIfAbsent to the elements of `xs` in turn. */
  function Distinct<T>(xs: seq<T>, key: T -> int): seq<T> {
    if xs == [] then [] else PushIfAbsent(Distinct(xs[..|xs| - 1], key), key, xs[|xs| - 1])
  }

  /** Position of the first element of `xs` whose key is `k`. */
  function FirstIndex<T>(xs: seq<T>, key: T -> int, k: int): (i: nat)
    requires HasKey(xs, key, k)
    ensures i < |xs| && key(xs[i]) == k
    ensures forall j :: 0 <= j < i ==> key(xs[j]) != k
  {
    if key(xs[0]) == k then 0
    else
      assert HasKey(xs[1..], key, k) by {
        var w :| 0 <= w < |xs| && key(xs[w]) == k;
        assert xs[1..][w - 1] == xs[w];
      }
      1 + FirstIndex(xs[1..], key, k)
  }

  /** Appending an element does not move the first occurrence of a key already present,
      and makes the new element the first occurrence of a key that was absent. */
  lemma FirstIndexSnoc<T>(xs: seq<T>, key: T -> int, x: T, k: int)
    requires HasKey(xs + [x], key, k)
    ensures HasKey(xs, key, k) ==> FirstIndex(xs + [x], key, k) == FirstIndex(xs, key, k)
    ensures !HasKey(xs, key, k) ==> FirstIndex(xs + [x], key, k) == |xs| && key(x) == k
  {
    var ys := xs + [x];
    var i := FirstIndex(ys, key, k);
    assert forall j :: 0 <= j < |xs| ==> ys[j] == xs[j];
    if HasKey(xs, key, k) {
      var i0 := FirstIndex(xs, key, k);
      assert ys[i0] == xs[i0];
    }
  }

  /** No two elements of the deduplicated list share a key. */
  lemma {:induction false} DistinctKeysUnique<T>(xs: seq<T>, key: T -> int)
    ensures forall i, j :: 0 <= i < j < |Distinct(xs, key)| ==> key(Distinct(xs, key)[i]) != key(Distinct(xs, key)[j])
  {
    if xs != [] {
      DistinctKeysUnique(xs[..|xs| - 1], key);
    }
  }

  /** The deduplicated list has exactly the keys of the input. */
  lemma {:induction false} DistinctSameKeys<T>(xs: seq<T>, key: T -> int, k: int)
    ensures HasKey(Distinct(xs, key), key, k) <==> HasKey(xs, key, k)
  {
    if xs != [] {
      var init, x := xs[..|xs| - 1], xs[|xs| - 1];
      assert xs == init + [x];
      DistinctSameKeys(init, key, k);
      DistinctSameKeys(init, key, key(x));
      var d := Distinct(init, key);
      if HasKey(d, key, k) {
        var w :| 0 <= w < |d| && key(d[w]) == k;
        assert Distinct(xs, key)[w] == d[w];
        var v :| 0 <= v < |init| && key(init[v]) == k;
        assert xs[v] == init[v];
      } else if key(x) == k {
        assert xs[|xs| - 1] == x;
        assert Distinct(xs, key) == d + [x];
        assert Distinct(xs, key)[|d|] == x;
      } else {
        assert forall v :: 0 <= v < |init| ==> xs[v] == init[v];
      }
    }
  }

  /** Every element of the deduplicated list is the first element of the input with its key. */
  lemma {:induction false} DistinctTakesFirst<T>(xs: seq<T>, key: T -> int)
    ensures forall i :: 0 <= i < |Distinct(xs, key)| ==>
      HasKey(xs, key, key(Distinct(xs, key)[i])) &&
      Distinct(xs, key)[i] == xs[FirstIndex(xs, key, key(Distinct(xs, key)[i]))]
  {
    if xs != [] {
      var init, x := xs[..|xs| - 1], xs[|xs| - 1];
      assert xs == init + [x];
      DistinctTakesFirst(init, key);
      var d, d' := Distinct(init, key), Distinct(xs, key);
      forall i | 0 <= i < |d'|
        ensures HasKey(xs, key, key(d'[i])) && d'[i] == xs[FirstIndex(xs, key, key(d'[i]))]
      {
        if i < |d| {
          assert d'[i] == d[i];
          var k := key(d[i]);
          var f := FirstIndex(init, key, k);
          assert xs[f] == init[f];
          FirstIndexSnoc(init, key, x, k);
        } else {
          assert d' == d + [x] && d'[i] == x;
          DistinctSameKeys(init, key, key(x));
          assert xs[|init|] == x;
          FirstIndexSnoc(init, key, x, key(x));
        }
      }
    }
  }

  /** Key `a` occurs in `xs`, key `b` occurs in `xs`, and `a` occurs first. */
  predicate OccursBefore<T>(xs: seq<T>, key: T -> int, a: int, b: int) {
    HasKey(xs, key, a) && HasKey(xs, key, b) && FirstIndex(xs, key, a) < FirstIndex(xs, key, b)
  }

  /** The deduplicated list keeps the order in which keys first occur in the input. */
  lemma {:induction false} DistinctKeepsFirstOrder<T>(xs: seq<T>, key: T -> int)
    ensures forall i, j :: 0 <= i < j < |Distinct(xs, key)| ==>
      OccursBefore(xs, key, key(Distinct(xs, key)[i]), key(Distinct(xs, key)[j]))
  {
    if xs != [] {
      var init, x := xs[..|xs| - 1], xs[|xs| - 1];
      assert xs == init + [x];
      DistinctKeepsFirstOrder(init, key);
      forall i, j | 0 <= i < j < |Distinct(xs, key)|
        ensures OccursBefore(xs, key, key(Distinct(xs, key)[i]), key(Distinct(xs, key)[j]))
      {
        FirstOrderStep(init, x, key, i, j);
      }
    }
  }

  /** One step of DistinctKeepsFirstOrder: appending `x` keeps the order of first occurrences. */
  lemma FirstOrderStep<T>(init: seq<T>, x: T, key: T -> int, i: nat, j: nat)
    requires forall i, j :: 0 <= i < j < |Distinct(init, key)| ==>
      OccursBefore(init, key, key(Distinct(init, key)[i]), key(Distinct(init, key)[j]))
    requires i < j < |Distinct(init + [x], key)|
    ensures OccursBefore(init + [x], key, key(Distinct(init + [x], key)[i]), key(Distinct(init + [x], key)[j]))
  {
    var xs := init + [x];
    assert xs[..|xs| - 1] == init;
    var d, d' := Distinct(init, key), Distinct(xs, key);
    assert d' == PushIfAbsent(d, key, x);
    assert d'[i] == d[i];
    var ki := key(d[i]);
    DistinctSameKeys(init, key, ki);
    assert HasKey(d, key, ki);
    FirstIndexSnoc(init, key, x, ki);
    if j < |d| {
      assert d'[j] == d[j];
      var kj := key(d[j]);
      DistinctSameKeys(init, key, kj);
      assert HasKey(d, key, kj);
      FirstIndexSnoc(init, key, x, kj);
    } else {
      assert d' == d + [x] && d'[j] == x;
      DistinctSameKeys(init, key, key(x));
      FirstIndexSnoc(init, key, x, key(x));
    }
  }

  /** Scans `xs` for an element with key `k` (the `some` test before each push). */
  method AnyHasKey<T>(xs: seq<T>, key: T -> int, k: int) returns (found: bool)
    ensures found <==> HasKey(xs, key, k)
  {
    var i := 0;
    while i < |xs|
      invariant 0 <= i <= |xs|
      invariant forall j :: 0 <= j < i ==> key(xs[j]) != k
    {
      if key(xs[i]) == k {
        return true;
      }
      i := i + 1;
    }
    return false;
  }
}
