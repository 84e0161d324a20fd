/**
 `random.shuffle`, as CPython implements it: for i from the last position
 down to 1, swap position i with a position j drawn uniformly from 0..i.
 The random draws are a parameter: `draw(i)` is the generator's raw output
 for step i and `draw(i) % (i + 1)` the chosen position. Everything proved
 here holds for every draw function, so it holds whatever the generator
 produces.
 */
module Shuffling {

  function Swap<T>(xs: seq<T>, i: nat, j: nat): (r: seq<T>)
    requires i < |xs| && j < |xs|
    ensures |r| == |xs| && multiset(r) == multiset(xs)
    ensures r[i] == xs[j] && r[j] == xs[i]
    ensures forall k :: 0 <= k < |xs| && k != i && k != j ==> r[k] == xs[k]
  {
    xs[i := xs[j]][j := xs[i]]
  }

  /** The loop of `random.shuffle` from position `i` down to 1. */
  function ShuffleDown<T>(xs: seq<T>, i: nat, draw: nat -> nat): (r: seq<T>)
    requires i < |xs|
    ensures |r| == |xs| && multiset(r) == multiset(xs)
    decreases i
  {
    if i == 0 then xs else ShuffleDown(Swap(xs, i, draw(i) % (i + 1)), i - 1, draw)
  }

  /** `random.shuffle(xs)`: some permutation of `xs`. */
  function Shuffle<T>(xs: seq<T>, draw: nat -> nat): (r: seq<T>)
    ensures |r| == |xs| && multiset(r) == multiset(xs)
  {
    if |xs| <= 1 then xs else ShuffleDown(xs, |xs| - 1, draw)
  }

  /** Shuffling neither adds nor loses an element. */
  lemma ShuffleSameElements<T>(xs: seq<T>, draw: nat -> nat)
    ensures forall x :: x in Shuffle(xs, draw) <==> x in xs
  {
    var r := Shuffle(xs, draw);
    forall x
      ensures x in r <==> x in xs
    {
      assert x in r <==> x in multiset(r);
      assert x in xs <==> x in multiset(xs);
    }
  }

  /** A relation that holds between the elements at every two distinct positions. */
  ghost predicate Pairwise<T>(xs: seq<T>, rel: (T, T) -> bool) {
    forall i, j :: 0 <= i < |xs| && 0 <= j < |xs| && i != j ==> rel(xs[i], xs[j])
  }

  lemma SwapKeepsPairwise<T>(xs: seq<T>, i: nat, j: nat, rel: (T, T) -> bool)
    requires i < |xs| && j < |xs|
    requires Pairwise(xs, rel)
    ensures Pairwise(Swap(xs, i, j), rel)
  {
    var r := Swap(xs, i, j);
    forall a, b | 0 <= a < |r| && 0 <= b < |r| && a != b
      ensures rel(r[a], r[b])
    {
      var a' := if a == i then j else if a == j then i else a;
      var b' := if b == i then j else if b == j then i else b;
      assert r[a] == xs[a'] && r[b] == xs[b'];
    }
  }

  lemma {:induction false} ShuffleDownKeepsPairwise<T>(xs: seq<T>, i: nat, draw: nat -> nat, rel: (T, T) -> bool)
    requires i < |xs|
    requires Pairwise(xs, rel)
    ensures Pairwise(ShuffleDown(xs, i, draw), rel)
    decreases i
  {
    if i > 0 {
      var j := draw(i) % (i + 1);
      var ys := Swap(xs, i, j);
      SwapKeepsPairwise(xs, i, j, rel);
      ShuffleDownKeepsPairwise(ys, i - 1, draw, rel);
      assert ShuffleDown(xs, i, draw) == ShuffleDown(ys, i - 1, draw);
    }
  }

  /** Shuffling keeps any property that every two distinct positions have. */
  lemma ShuffleKeepsPairwise<T>(xs: seq<T>, draw: nat -> nat, rel: (T, T) -> bool)
    requires Pairwise(xs, rel)
    ensures Pairwise(Shuffle(xs, draw), rel)
  {
    if |xs| > 1 {
      ShuffleDownKeepsPairwise(xs, |xs| - 1, draw, rel);
    }
  }
}
