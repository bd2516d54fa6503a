/**
 * `Array.prototype.shuffle` of common.js: an in-place Fisher-Yates shuffle.
 * The successive results of `Math.random()` are an input sequence `draws`
 * of reals in [0, 1); the step at index `i` swaps `this[i]` with
 * `this[Math.floor(draw * (i + 1))]`.
 */
module ArrayShuffle {

  /** Every draw is a possible result of `Math.random()`. */
  predicate ValidDraws(draws: seq<real>)
  {
    forall k :: 0 <= k < |draws| ==> 0.0 <= draws[k] < 1.0
  }

  /** The index `Math.floor(draw * (i + 1))`. */
  function Pick(draw: real, i: nat): (r: int)
  {
    (draw * (i + 1) as real).Floor
  }

  /** A draw in [0, 1) picks an index in [0, i]. */
  lemma PickInRange(draw: real, i: nat)
    requires 0.0 <= draw < 1.0
    ensures 0 <= Pick(draw, i) <= i
  {
    var n := (i + 1) as real;
    assert 0.0 <= draw * n by {
      assert 0.0 <= n;
    }
    assert draw * n < n by {
      assert (1.0 - draw) * n > 0.0;
    }
  }

  /** The loop body: `swap = a[r]; a[r] = a[i]; a[i] = swap`. */
  function Swap<T>(s: seq<T>, r: nat, i: nat): (t: seq<T>)
    requires r < |s| && i < |s|
  {
    s[r := s[i]][i := s[r]]
  }

  /**
   * The steps for indices `i` down to 1; the step at `i` consumes the draw
   * at `next` and each later step the draw after it.
   */
  function Steps<T>(s: seq<T>, i: nat, draws: seq<real>, next: nat): (r: seq<T>)
    requires i < |s| && next + i <= |draws| && ValidDraws(draws)
    decreases i
  {
    if i == 0 then s
    else
      PickInRange(draws[next], i);
      Steps(Swap(s, Pick(draws[next], i), i), i - 1, draws, next + 1)
  }

  /**
   * The array after the shuffle: an empty array is returned at once, and
   * otherwise an n-element array takes n - 1 steps.
   */
  function Shuffled<T>(s: seq<T>, draws: seq<real>): (r: seq<T>)
    requires |draws| >= |s| - 1 && ValidDraws(draws)
  {
    if |s| == 0 then s else Steps(s, |s| - 1, draws, 0)
  }

  lemma SwapPermutes<T>(s: seq<T>, r: nat, i: nat)
    requires r < |s| && i < |s|
    ensures |Swap(s, r, i)| == |s|
    ensures multiset(Swap(s, r, i)) == multiset(s)
  {
    if r != i {
      var t := s[r := s[i]];
      assert multiset(t) == multiset(s) - multiset{s[r]} + multiset{s[i]};
      assert multiset(t[i := s[r]]) == multiset(t) - multiset{t[i]} + multiset{s[r]};
    }
  }

  lemma {:induction false} StepsPermute<T>(s: seq<T>, i: nat, draws: seq<real>, next: nat)
    requires i < |s| && next + i <= |draws| && ValidDraws(draws)
    ensures |Steps(s, i, draws, next)| == |s|
    ensures multiset(Steps(s, i, draws, next)) == multiset(s)
    decreases i
  {
    if i > 0 {
      PickInRange(draws[next], i);
      var r := Pick(draws[next], i);
      SwapPermutes(s, r, i);
      StepsPermute(Swap(s, r, i), i - 1, draws, next + 1);
    }
  }

  /** The shuffle yields a permutation of the input, of the same length. */
  lemma ShuffledPermutes<T>(s: seq<T>, draws: seq<real>)
    requires |draws| >= |s| - 1 && ValidDraws(draws)
    ensures |Shuffled(s, draws)| == |s|
    ensures multiset(Shuffled(s, draws)) == multiset(s)
  {
    if |s| > 0 {
      StepsPermute(s, |s| - 1, draws, 0);
    }
  }

  /** Arrays of length 0 and 1 come back unchanged, whatever the draws. */
  lemma ShuffledShort<T>(s: seq<T>, draws: seq<real>)
    requires |s| <= 1 && ValidDraws(draws)
    ensures Shuffled(s, draws) == s
  {
  }

  /** The steps for indices `i` down to 1 leave every later position alone. */
  lemma {:induction false} StepsKeepTail<T>(s: seq<T>, i: nat, draws: seq<real>, next: nat, k: nat)
    requires i < k < |s| && next + i <= |draws| && ValidDraws(draws)
    ensures |Steps(s, i, draws, next)| == |s|
    ensures Steps(s, i, draws, next)[k] == s[k]
    decreases i
  {
    if i > 0 {
      PickInRange(draws[next], i);
      var r := Pick(draws[next], i);
      SwapPermutes(s, r, i);
      StepsKeepTail(Swap(s, r, i), i - 1, draws, next + 1, k);
    }
  }

  /**
   * The first step settles the last position for good: it ends up holding
   * the element at the index picked by the first draw.
   */
  lemma ShuffledLast<T>(s: seq<T>, draws: seq<real>)
    requires |s| >= 2 && |draws| >= |s| - 1 && ValidDraws(draws)
    ensures |Shuffled(s, draws)| == |s|
    ensures 0 <= Pick(draws[0], |s| - 1) < |s|
    ensures Shuffled(s, draws)[|s| - 1] == s[Pick(draws[0], |s| - 1)]
  {
    var n := |s|;
    PickInRange(draws[0], n - 1);
    var r := Pick(draws[0], n - 1);
    var t := Swap(s, r, n - 1);
    SwapPermutes(s, r, n - 1);
    if n - 2 > 0 {
      StepsKeepTail(t, n - 2, draws, 1, n - 1);
    }
    ShuffledPermutes(s, draws);
  }

  /** The in-place shuffle; it returns nothing, like the source. */
  method Shuffle<T>(a: array<T>, draws: seq<real>)
    requires a.Length - 1 <= |draws| && ValidDraws(draws)
    modifies a
    ensures a[..] == Shuffled(old(a[..]), draws)
    ensures multiset(a[..]) == multiset(old(a[..]))
  {
    ghost var s := a[..];
    ShuffledPermutes(s, draws);
    var i := a.Length;
    if i == 0 {
      return;
    }
    i := i - 1;
    var k := 0;
    while i != 0
      invariant 0 <= i < a.Length && k == a.Length - 1 - i
      invariant Steps(a[..], i, draws, k) == Shuffled(s, draws)
      decreases i
    {
      PickInRange(draws[k], i);
      var r := Pick(draws[k], i);
      ghost var before := a[..];
      var swap := a[r];
      a[r] := a[i];
      a[i] := swap;
      assert a[..] == Swap(before, r, i);
      i := i - 1;
      k := k + 1;
    }
  }
}
