/** `shuffleArray` (nsfStudy2/util.ts): Fisher–Yates over a copy of the input. The random
    draw `Math.floor(Math.random() * (i + 1))` of the step for position `i` is the
    parameter `js[i]`, any value in `0..i`. */
module Shuffle {

  /** `js` holds one admissible draw for every position of an `n`-element array
      (`js[0]` is never read). */
  predicate SwapsFit(js: seq<nat>, n: nat)
  {
    |js| == n && forall i | 0 <= i < n :: js[i] <= i
  }

  /** `[s[i], s[j]] = [s[j], s[i]]`. */
  function Swap<T>(s: seq<T>, i: nat, j: nat): (r: seq<T>)
    requires i < |s| && j < |s|
    ensures |r| == |s| && r[i] == s[j] && r[j] == s[i]
    ensures forall k | 0 <= k < |s| && k != i && k != j :: r[k] == s[k]
    ensures multiset(r) == multiset(s)
  {
    var r := s[i := s[j]][j := s[i]];
    assert multiset(s[i := s[j]]) == multiset(s) - multiset{s[i]} + multiset{s[j]};
    r
  }

  /** The loop steps for `i = k-1` down to `1`, applied to `s`. Every step is a
      swap, and no step touches a position at or beyond `k`. */
  function Steps<T>(s: seq<T>, js: seq<nat>, k: nat): (r: seq<T>)
    requires k <= |s| && SwapsFit(js, |s|)
    ensures |r| == |s| && multiset(r) == multiset(s)
    ensures forall p | k <= p < |s| :: r[p] == s[p]
    decreases k
  {
    if k <= 1 then s else Steps(Swap(s, k - 1, js[k - 1]), js, k - 1)
  }

  /** The array `shuffleArray` returns, as a value. */
  function Shuffled<T>(s: seq<T>, js: seq<nat>): (r: seq<T>)
    requires SwapsFit(js, |s|)
    ensures |r| == |s| && multiset(r) == multiset(s)
    ensures |s| <= 1 ==> r == s
  {
    Steps(s, js, |s|)
  }

  /** The copy is made first (`[...array]`), then the descending loop swaps in place;
      the input array is left as it was. */
  method ShuffleArray<T>(a: array<T>, js: seq<nat>) returns (copy: array<T>)
    requires SwapsFit(js, a.Length)
    ensures fresh(copy)
    ensures copy[..] == Shuffled(a[..], js)
    ensures a[..] == old(a[..])
  {
    copy := new T[a.Length](k requires 0 <= k < a.Length reads a => a[k]);
    assert copy[..] == a[..];
    var i := copy.Length - 1;
    while i > 0
      invariant -1 <= i < copy.Length == a.Length
      invariant Steps(copy[..], js, i + 1) == Shuffled(a[..], js)
    {
      var j := js[i];
      ghost var before := copy[..];
      var t := copy[i];
      copy[i] := copy[j];
      copy[j] := t;
      assert copy[..] == Swap(before, i, j);
      i := i - 1;
    }
  }
}
