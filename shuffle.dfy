/**
 * In-place Fisher-Yates shuffle. The calls to Math.random() are a
 * parameter: `random[k]` is the value the k-th call returns, a real in
 * [0, 1). Given those values the shuffle is deterministic, so its result
 * is a function of the input and of `random`.
 */
module FisherYates {

  /** Enough draws for an array of length n, each one in [0, 1). */
  predicate ValidDraws(random: seq<real>, n: nat)
  {
    |random| + 1 >= n && forall k :: 0 <= k < |random| ==> 0.0 <= random[k] < 1.0
  }

  lemma RealProductNonNegative(a: real, b: real)
    requires 0.0 <= a && 0.0 <= b
    ensures 0.0 <= a * b
  {
  }

  lemma RealProductPositive(a: real, b: real)
    requires 0.0 < a && 0.0 < b
    ensures 0.0 < a * b
  {
  }

  /** Math.floor(r * bound): an index in [0, bound) when r is in [0, 1). */
  function Pick(r: real, bound: nat): (i: int)
    ensures 0.0 <= r < 1.0 && bound >= 1 ==> 0 <= i < bound
  {
    var x := r * bound as real;
    assert 0.0 <= r < 1.0 && bound >= 1 ==> 0.0 <= x < bound as real by {
      if 0.0 <= r < 1.0 && bound >= 1 {
        RealProductNonNegative(r, bound as real);
        RealProductPositive(1.0 - r, bound as real);
        assert bound as real - x == (1.0 - r) * bound as real;
      }
    }
    x.Floor
  }

  /** The destructuring swap `[s[i], s[j]] = [s[j], s[i]]`. */
  function Swap<T>(s: seq<T>, i: nat, j: nat): (r: seq<T>)
    requires i < |s| && j < |s|
    ensures |r| == |s| && r[i] == s[j] && r[j] == s[i]
  {
    s[i := s[j]][j := s[i]]
  }

  /** A swap changes no entry other than the two it exchanges. */
  lemma SwapKeepsOthers<T>(s: seq<T>, i: nat, j: nat)
    requires i < |s| && j < |s|
    ensures forall k :: 0 <= k < |s| && k != i && k != j ==> Swap(s, i, j)[k] == s[k]
  {
  }

  /** A swap keeps the multiset of elements. */
  lemma SwapPermutes<T>(s: seq<T>, i: nat, j: nat)
    requires i < |s| && j < |s|
    ensures multiset(Swap(s, i, j)) == multiset(s)
  {
    if i != j {
      var s1 := s[i := s[j]];
      assert multiset(s1) == multiset(s) - multiset{s[i]} + multiset{s[j]};
      assert s1[j] == s[j];
      assert multiset(Swap(s, i, j)) == multiset(s1) - multiset{s[j]} + multiset{s[i]};
    }
  }

  /**
   * The iterations of the loop for index, index - 1, ..., 1. The iteration
   * for `index` is the (|s| - 1 - index)-th call of Math.random().
   */
  function ShuffleDown<T>(s: seq<T>, random: seq<real>, index: int): (r: seq<T>)
    requires -1 <= index < |s| && ValidDraws(random, |s|)
    ensures |r| == |s|
    decreases index
  {
    if index <= 0 then s
    else
      var newIndex := Pick(random[|s| - 1 - index], index + 1);
      ShuffleDown(Swap(s, index, newIndex), random, index - 1)
  }

  /** The whole shuffle: the loop starts at index |s| - 1. */
  function Shuffled<T>(s: seq<T>, random: seq<real>): (r: seq<T>)
    requires ValidDraws(random, |s|)
    ensures |r| == |s|
  {
    ShuffleDown(s, random, |s| - 1)
  }

  /** The remaining iterations permute what they are given. */
  lemma {:induction false} ShuffleDownPermutes<T>(s: seq<T>, random: seq<real>, index: int)
    requires -1 <= index < |s| && ValidDraws(random, |s|)
    ensures |ShuffleDown(s, random, index)| == |s|
    ensures multiset(ShuffleDown(s, random, index)) == multiset(s)
    decreases index
  {
    if index > 0 {
      var newIndex := Pick(random[|s| - 1 - index], index + 1);
      SwapPermutes(s, index, newIndex);
      ShuffleDownPermutes(Swap(s, index, newIndex), random, index - 1);
    }
  }

  /**
   * Positions above `index` are never touched by the remaining iterations:
   * once the iteration for a position has run, that position keeps its value.
   */
  lemma {:induction false} ShuffleDownKeepsSuffix<T>(s: seq<T>, random: seq<real>, index: int, j: nat)
    requires -1 <= index < |s| && ValidDraws(random, |s|) && index < j < |s|
    ensures |ShuffleDown(s, random, index)| == |s|
    ensures ShuffleDown(s, random, index)[j] == s[j]
    decreases index
  {
    ShuffleDownPermutes(s, random, index);
    if index > 0 {
      var newIndex := Pick(random[|s| - 1 - index], index + 1);
      var s' := Swap(s, index, newIndex);
      assert 0 <= newIndex <= index;
      SwapKeepsOthers(s, index, newIndex);
      ShuffleDownKeepsSuffix(s', random, index - 1, j);
      assert ShuffleDown(s, random, index) == ShuffleDown(s', random, index - 1);
    }
  }

  /**
   * One iteration of the loop: it performs the first step of ShuffleDown,
   * and the positions from `index` up already hold their final values.
   */
  lemma ShuffleStep<T>(before: seq<T>, random: seq<real>, index: nat, after: seq<T>)
    requires 0 < index < |before| && ValidDraws(random, |before|)
    requires after == Swap(before, index, Pick(random[|before| - 1 - index], index + 1))
    ensures ShuffleDown(after, random, index - 1) == ShuffleDown(before, random, index)
    ensures |ShuffleDown(after, random, index - 1)| == |after|
    ensures ShuffleDown(after, random, index - 1)[index..] == after[index..]
  {
    ShuffleDownPermutes(after, random, index - 1);
    forall j | index <= j < |after|
      ensures ShuffleDown(after, random, index - 1)[j] == after[j]
    {
      ShuffleDownKeepsSuffix(after, random, index - 1, j);
    }
  }

  /** The shuffle is a permutation: same length, same multiset of elements. */
  lemma ShuffledIsPermutation<T>(s: seq<T>, random: seq<real>)
    requires ValidDraws(random, |s|)
    ensures |Shuffled(s, random)| == |s|
    ensures multiset(Shuffled(s, random)) == multiset(s)
  {
    ShuffleDownPermutes(s, random, |s| - 1);
  }

  /** Arrays of length 0 or 1 come back unchanged: the loop body never runs. */
  lemma ShuffledShortUnchanged<T>(s: seq<T>, random: seq<real>)
    requires |s| <= 1 && ValidDraws(random, |s|)
    ensures Shuffled(s, random) == s
  {
  }

  /** `[array[i], array[j]] = [array[j], array[i]]` on the array itself. */
  method SwapAt<T>(a: array<T>, i: nat, j: nat)
    requires i < a.Length && j < a.Length
    modifies a
    ensures a[..] == Swap(old(a[..]), i, j)
  {
    a[i], a[j] := a[j], a[i];
    assert forall k :: 0 <= k < a.Length ==> a[..][k] == Swap(old(a[..]), i, j)[k];
  }

  /**
   * One iteration of shuffle's loop: newIndex = Math.floor(Math.random() *
   * (index + 1)), then the swap. What is left of the shuffle afterwards,
   * one index lower, is what was left of it before.
   */
  method ShuffleIteration<T>(a: array<T>, random: seq<real>, index: nat)
    requires 0 < index < a.Length && ValidDraws(random, a.Length)
    modifies a
    ensures a[..] == Swap(old(a[..]), index, Pick(random[a.Length - 1 - index], index + 1))
    ensures ShuffleDown(a[..], random, index - 1) == ShuffleDown(old(a[..]), random, index)
  {
    var newIndex := Pick(random[a.Length - 1 - index], index + 1);
    assert 0 <= newIndex <= index by {
      assert 0.0 <= random[a.Length - 1 - index] < 1.0;
    }
    SwapAt(a, index, newIndex);
    ShuffleStep(old(a[..]), random, index, a[..]);
  }

  /**
   * shuffle(array): swaps array[index] with array[newIndex], newIndex in
   * [0, index], for index from array.length - 1 down to 1, and returns the
   * array it was given.
   */
  method Shuffle<T>(a: array<T>, random: seq<real>) returns (r: array<T>)
    requires ValidDraws(random, a.Length)
    modifies a
    ensures r == a
    ensures a[..] == Shuffled(old(a[..]), random)
    ensures multiset(a[..]) == multiset(old(a[..]))
  {
    ghost var final := Shuffled(a[..], random);
    ShuffledIsPermutation(a[..], random);
    var index := a.Length - 1;
    while index > 0
      invariant -1 <= index < a.Length
      invariant ShuffleDown(a[..], random, index) == final
    {
      ShuffleIteration(a, random, index);
      index := index - 1;
    }
    r := a;
  }
}
