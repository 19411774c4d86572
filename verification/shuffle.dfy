/** The in-place shuffle of Python's `random.Random.shuffle`: for each
    position i from the last one down to 1, swap it with a position j drawn
    from [0, i]. The generator is seeded with a constant, so the draws it
    makes while shuffling n items are a fixed function of n and i; that
    function is a parameter here, and the generator itself is not modelled. */
module Shuffling {

  /** `draw(n, i)`: the raw value the seeded generator supplies at the step
      for position i while shuffling n items; reduced into [0, i], which is
      the range `randbelow(i + 1)` yields. */
  type Draw = (nat, nat) -> nat

  function Swap<T>(xs: seq<T>, i: nat, j: nat): (r: seq<T>)
    requires i < |xs| && j < |xs|
    ensures |r| == |xs| && r[i] == xs[j] && r[j] == xs[i]
    ensures forall k :: 0 <= k < |xs| && k != i && k != j ==> r[k] == xs[k]
    ensures multiset(r) == multiset(xs)
  {
    xs[i := xs[j]][j := xs[i]]
  }

  /** The steps for positions i, i - 1, ..., 1, applied to `xs`. */
  function ShuffleSteps<T>(xs: seq<T>, i: nat, draw: Draw): (r: seq<T>)
    requires i < |xs|
    ensures |r| == |xs|
    ensures multiset(r) == multiset(xs)
    decreases i
  {
    if i == 0 then xs
    else ShuffleSteps(Swap(xs, i, draw(|xs|, i) % (i + 1)), i - 1, draw)
  }

  /** `random.Random(seed).shuffle(xs)`, returned as a new sequence. */
  function Shuffle<T>(xs: seq<T>, draw: Draw): (r: seq<T>)
    ensures |r| == |xs|
    ensures multiset(r) == multiset(xs)
  {
    if |xs| == 0 then xs else ShuffleSteps(xs, |xs| - 1, draw)
  }

  /** Every entry is a position of a sequence of length n. */
  predicate Positions(order: seq<int>, n: nat) {
    forall k :: 0 <= k < |order| ==> 0 <= order[k] < n
  }

  /** The entries of `xs` at the positions `order` lists. */
  function Pick<T>(xs: seq<T>, order: seq<int>): (r: seq<T>)
    requires Positions(order, |xs|)
    ensures |r| == |order|
    ensures forall k :: 0 <= k < |order| ==> r[k] == xs[order[k]]
  {
    seq(|order|, k requires 0 <= k < |order| => xs[order[k]])
  }

  function Identity(n: nat): (r: seq<int>)
    ensures |r| == n && Positions(r, n)
  {
    seq(n, k => k)
  }

  /** The reordering the seeded shuffle applies to any sequence of n items. */
  function Order(n: nat, draw: Draw): seq<int>
  {
    Shuffle(Identity(n), draw)
  }

  /** Swapping after picking is picking by the swapped positions. */
  lemma SwapPick<T>(xs: seq<T>, order: seq<int>, i: nat, j: nat)
    requires Positions(order, |xs|) && i < |order| && j < |order|
    ensures Positions(Swap(order, i, j), |xs|)
    ensures Swap(Pick(xs, order), i, j) == Pick(xs, Swap(order, i, j))
  {
  }

  lemma {:induction false} ShuffleStepsPick<T>(xs: seq<T>, order: seq<int>, i: nat, draw: Draw)
    requires Positions(order, |xs|) && i < |order|
    ensures Positions(ShuffleSteps(order, i, draw), |xs|)
    ensures ShuffleSteps(Pick(xs, order), i, draw) == Pick(xs, ShuffleSteps(order, i, draw))
    decreases i
  {
    if i > 0 {
      var picked := Pick(xs, order);
      var j := draw(|order|, i) % (i + 1);
      assert draw(|picked|, i) % (i + 1) == j;
      var swapped := Swap(order, i, j);
      SwapPick(xs, order, i, j);
      assert ShuffleSteps(picked, i, draw) == ShuffleSteps(Pick(xs, swapped), i - 1, draw);
      ShuffleStepsPick(xs, swapped, i - 1, draw);
      assert ShuffleSteps(order, i, draw) == ShuffleSteps(swapped, i - 1, draw);
    }
  }

  /** The shuffle moves items without looking at them: shuffling any
      sequence of n items applies the same reordering `Order(n, draw)`, so
      two inputs of equal length are rearranged identically. */
  lemma ShuffleIsOrder<T>(xs: seq<T>, draw: Draw)
    ensures Positions(Order(|xs|, draw), |xs|)
    ensures Shuffle(xs, draw) == Pick(xs, Order(|xs|, draw))
  {
    var id := Identity(|xs|);
    if |xs| == 0 {
      assert Order(0, draw) == [];
    } else {
      var picked := Pick(xs, id);
      assert picked == xs by {
        forall k | 0 <= k < |xs| ensures picked[k] == xs[k] {
          assert id[k] == k;
        }
      }
      var order := ShuffleSteps(id, |xs| - 1, draw);
      assert Order(|xs|, draw) == order;
      assert Shuffle(xs, draw) == ShuffleSteps(picked, |xs| - 1, draw);
      ShuffleStepsPick(xs, id, |xs| - 1, draw);
    }
  }

  /** The reordering is a permutation: each position 0..n-1 occurs exactly once. */
  lemma OrderIsPermutation(n: nat, draw: Draw)
    ensures |Order(n, draw)| == n
    ensures forall k :: 0 <= k < n ==> multiset(Order(n, draw))[k] == 1
  {
    var id := Identity(n);
    forall k | 0 <= k < n
      ensures multiset(id)[k] == 1
    {
      IdentityCount(n, k);
    }
  }

  lemma {:induction false} IdentityCount(n: nat, k: int)
    requires 0 <= k < n
    ensures multiset(Identity(n))[k] == 1
    decreases n
  {
    var id := Identity(n);
    assert id == Identity(n - 1) + [n - 1];
    if k < n - 1 {
      IdentityCount(n - 1, k);
    } else {
      assert k !in Identity(n - 1);
    }
  }
}
