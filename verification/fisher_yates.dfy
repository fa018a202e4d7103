/** `Generator.shuffle` on a list, with its random choices made explicit.

    numpy shuffles a sequence of length `n` with the Fisher-Yates method: for
    `i` from `n - 1` down to `1` it swaps position `i` with a drawn position
    `j <= i`. The drawn positions are passed in as a witness `js`, where
    `js[m]` is the partner of position `n - 1 - m`.
 */
module FisherYates {

  /** One partner per position from the last down to the second, never after it. */
  predicate ValidSwaps(js: seq<nat>, n: nat) {
    && |js| == (if n == 0 then 0 else n - 1)
    && forall m :: 0 <= m < |js| ==> js[m] <= n - 1 - m
  }

  function Swap<T>(s: seq<T>, i: nat, j: nat): (r: seq<T>)
    requires i < |s| && j < |s|
    ensures |r| == |s|
    ensures r[i] == s[j] && r[j] == s[i]
    ensures forall k :: 0 <= k < |s| && k != i && k != j ==> r[k] == s[k]
  {
    s[i := s[j]][j := s[i]]
  }

  /** A swap only moves elements around. */
  lemma SwapPermutes<T>(s: seq<T>, i: nat, j: nat)
    requires i < |s| && j < |s|
    ensures multiset(Swap(s, i, j)) == multiset(s)
  {
  }

  /** The swaps from step `m` on. */
  function ShuffleFrom<T>(s: seq<T>, js: seq<nat>, m: nat): (r: seq<T>)
    requires ValidSwaps(js, |s|) && m <= |js|
    ensures |r| == |s|
    decreases |js| - m
  {
    if m == |js| then s
    else ShuffleFrom(Swap(s, |s| - 1 - m, js[m]), js, m + 1)
  }

  /** Every step is a swap, so the swaps from step `m` on only move elements around. */
  lemma {:induction false} ShuffleFromPermutes<T>(s: seq<T>, js: seq<nat>, m: nat)
    requires ValidSwaps(js, |s|) && m <= |js|
    ensures multiset(ShuffleFrom(s, js, m)) == multiset(s)
    decreases |js| - m
  {
    if m < |js| {
      var s' := Swap(s, |s| - 1 - m, js[m]);
      SwapPermutes(s, |s| - 1 - m, js[m]);
      ShuffleFromPermutes(s', js, m + 1);
    }
  }

  /** The shuffled sequence: a permutation of `s`. */
  function Shuffle<T>(s: seq<T>, js: seq<nat>): (r: seq<T>)
    requires ValidSwaps(js, |s|)
    ensures |r| == |s| && multiset(r) == multiset(s)
  {
    ShuffleFromPermutes(s, js, 0);
    ShuffleFrom(s, js, 0)
  }

  /** Swap partners that pair every position with itself. */
  predicate SelfSwaps(js: seq<nat>, n: nat) {
    && |js| == (if n == 0 then 0 else n - 1)
    && forall m :: 0 <= m < |js| ==> js[m] == n - 1 - m
  }

  /** The witness that never swaps two different positions. */
  function NoSwaps(n: nat): (js: seq<nat>)
    ensures ValidSwaps(js, n) && SelfSwaps(js, n)
  {
    seq(if n == 0 then 0 else n - 1, m requires 0 <= m < (if n == 0 then 0 else n - 1) => n - 1 - m)
  }

  /** Swapping every position with itself leaves the sequence as it was. */
  lemma {:induction false} ShuffleNoSwaps<T>(s: seq<T>, js: seq<nat>, m: nat)
    requires ValidSwaps(js, |s|) && SelfSwaps(js, |s|) && m <= |js|
    ensures ShuffleFrom(s, js, m) == s
    decreases |js| - m
  {
    if m < |js| {
      var i := |s| - 1 - m;
      assert js[m] == i;
      SwapSelf(s, i);
      ShuffleNoSwaps(s, js, m + 1);
    }
  }

  /** Swapping a position with itself changes nothing. */
  lemma SwapSelf<T>(s: seq<T>, i: nat)
    requires i < |s|
    ensures Swap(s, i, i) == s
  {
  }
}
