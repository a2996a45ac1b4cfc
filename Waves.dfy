/**
 * The mathematics shared by every variant of the pairwise "wave" reduction.
 *
 * A wave works on the live prefix of length n of a buffer: for every left
 * index i in [0, n/2) it adds the mirrored cell n-1-i into cell i, and the
 * live length then shrinks to ceil(n/2). Reducing repeats waves until the
 * live length is at most 1, leaving the total in cell 0.
 */
module Waves {

  /** Sum of a sequence, recursing on the first element. */
  function Sum(s: seq<int>): int
  {
    if |s| == 0 then 0 else s[0] + Sum(s[1..])
  }

  lemma {:induction false} SumConcat(a: seq<int>, b: seq<int>)
    ensures Sum(a + b) == Sum(a) + Sum(b)
  {
    if |a| == 0 {
      assert a + b == b;
    } else {
      assert (a + b)[1..] == a[1..] + b;
      SumConcat(a[1..], b);
    }
  }

  /** Extending a prefix by one element adds that element to the sum. */
  lemma SumPrefixStep(s: seq<int>, i: nat)
    requires i < |s|
    ensures Sum(s[..i + 1]) == Sum(s[..i]) + s[i]
  {
    assert s[..i + 1] == s[..i] + [s[i]];
    SumConcat(s[..i], [s[i]]);
  }

  /** Number of independent pair additions in a wave of live length n. */
  function Pairs(n: nat): nat
  {
    n / 2
  }

  /**
   * The live length after a wave, written `(n + 1) / 2` in the C# dispatcher
   * and Go job loop, and `pairs + (n & 1)` in the in-place variants.
   */
  function NextLen(n: nat): (m: nat)
    ensures m == Pairs(n) + n % 2
    ensures n <= 2 * m <= n + 1
    ensures n > 1 ==> 1 <= m < n
    ensures n == 1 ==> m == 1
  {
    (n + 1) / 2
  }

  /** `n & 1` on a 64-bit machine integer is the parity `n % 2` used by the model. */
  lemma LowBitIsParity(n: int)
    requires 0 <= n < 0x8000_0000_0000_0000
    ensures ((n as bv64) & 1) as int == n % 2
  {
  }

  /** The buffer after one complete wave over the live prefix of length n. */
  function Wave(s: seq<int>, n: nat): (r: seq<int>)
    requires n <= |s|
  {
    seq(|s|, k requires 0 <= k < |s| => if k < Pairs(n) then s[k] + s[n - 1 - k] else s[k])
  }

  /**
   * The buffer after the pair additions of the wave of live length n whose
   * left index lies in `done`, and no others. Left indices of a wave write
   * disjoint cells and read cells no left index writes, so this is the state
   * reached by any execution order of exactly those additions.
   */
  function WaveOn(s: seq<int>, n: nat, done: set<int>): (r: seq<int>)
    requires n <= |s|
  {
    seq(|s|, k requires 0 <= k < |s| => if k < Pairs(n) && k in done then s[k] + s[n - 1 - k] else s[k])
  }

  lemma WaveOnNone(s: seq<int>, n: nat)
    requires n <= |s|
    ensures WaveOn(s, n, {}) == s
  {
  }

  lemma WaveOnAll(s: seq<int>, n: nat, done: set<int>)
    requires n <= |s|
    requires forall k :: 0 <= k < Pairs(n) ==> k in done
    ensures WaveOn(s, n, done) == Wave(s, n)
  {
  }

  /**
   * Performing the pair addition for a left index k not yet done moves the
   * state from `done` to `done + {k}`: cell k still holds its original value
   * and its mirror n-1-k is never written during the wave.
   */
  lemma WaveOnAdd(s: seq<int>, n: nat, done: set<int>, k: int)
    requires n <= |s|
    requires 0 <= k < Pairs(n) && k !in done
    ensures var t := WaveOn(s, n, done);
            t[k := t[k] + t[n - 1 - k]] == WaveOn(s, n, done + {k})
  {
  }

  /**
   * Performing the additions of `more` after those of `done`, the two sets
   * disjoint below Pairs(n), is performing the additions of their union: the
   * cells `more` reads were not written by `done`.
   */
  lemma WaveOnCompose(s: seq<int>, n: nat, done: set<int>, more: set<int>)
    requires n <= |s|
    requires forall k :: 0 <= k < Pairs(n) && k in more ==> k !in done
    ensures WaveOn(WaveOn(s, n, done), n, more) == WaveOn(s, n, done + more)
  {
  }

  /** A wave only writes cells below Pairs(n); the unpaired middle cell of an odd n is carried over. */
  lemma WaveKeepsUpperCells(s: seq<int>, n: nat)
    requires n <= |s|
    ensures |Wave(s, n)| == |s|
    ensures forall k :: Pairs(n) <= k < |s| ==> Wave(s, n)[k] == s[k]
    ensures n % 2 == 1 ==> Pairs(n) < NextLen(n) && Wave(s, n)[Pairs(n)] == s[Pairs(n)]
  {
  }

  /** After k pair additions, the first k cells hold the first k cells plus the last k cells of the prefix. */
  lemma {:induction false} WaveFoldedHalf(s: seq<int>, n: nat, k: nat)
    requires n <= |s|
    requires k <= Pairs(n)
    ensures Sum(Wave(s, n)[..k]) == Sum(s[..k]) + Sum(s[n - k..n])
  {
    if k > 0 {
      var w := Wave(s, n);
      WaveFoldedHalf(s, n, k - 1);
      SumPrefixStep(w, k - 1);
      SumPrefixStep(s, k - 1);
      assert s[n - k..n][1..] == s[n - k + 1..n];
    }
  }

  /** The key invariant: one wave keeps the sum of the live prefix once the length shrinks. */
  lemma WaveSum(s: seq<int>, n: nat)
    requires n <= |s|
    ensures Sum(Wave(s, n)[..NextLen(n)]) == Sum(s[..n])
  {
    var w := Wave(s, n);
    var h, m := Pairs(n), NextLen(n);
    WaveFoldedHalf(s, n, h);
    assert s[..n] == s[..h] + s[h..m] + s[m..n];
    SumConcat(s[..h] + s[h..m], s[m..n]);
    SumConcat(s[..h], s[h..m]);
    assert w[..m] == w[..h] + s[h..m];
    SumConcat(w[..h], s[h..m]);
  }

  /** The buffer once waves have been applied from live length n down to length at most 1. */
  function Reduce(s: seq<int>, n: nat): (r: seq<int>)
    requires n <= |s|
    ensures |r| == |s|
    decreases n
  {
    if n <= 1 then s else Reduce(Wave(s, n), NextLen(n))
  }

  /** The reduction leaves the sum of the live prefix in cell 0. */
  lemma {:induction false} ReduceSum(s: seq<int>, n: nat)
    requires 1 <= n <= |s|
    ensures Reduce(s, n)[0] == Sum(s[..n])
    decreases n
  {
    if n == 1 {
      assert s[..1][1..] == [];
    } else {
      WaveSum(s, n);
      ReduceSum(Wave(s, n), NextLen(n));
    }
  }

  /** A set of positive size has a member: what lets a worker take "any pending task". */
  lemma NonEmptyHasMember<T>(p: set<T>)
    requires |p| > 0
    ensures exists x :: x in p
  {
    if forall x :: x !in p {
      assert false;
    }
  }

  /**
   * One wave in place, left index after left index: the inner loop shared by
   * the single-threaded reductions.
   */
  method WaveLoop(arr: array<int>, n: nat)
    requires n <= arr.Length
    modifies arr
    ensures arr[..] == Wave(old(arr[..]), n)
  {
    ghost var w := arr[..];
    var pairs := n / 2;
    var i := 0;
    while i < pairs
      invariant 0 <= i <= pairs
      invariant forall k :: 0 <= k < i ==> arr[k] == w[k] + w[n - 1 - k]
      invariant forall k :: i <= k < arr.Length ==> arr[k] == w[k]
    {
      arr[i] := arr[i] + arr[n - 1 - i];
      i := i + 1;
    }
    forall k | 0 <= k < arr.Length
      ensures arr[k] == Wave(w, n)[k]
    {
      assert Pairs(n) == pairs;
    }
    assert arr[..] == Wave(w, n);
  }

  /** Takes some member of a non-empty set; which one is left open. */
  method Pick<T>(p: set<T>) returns (x: T)
    requires |p| > 0
    ensures x in p
  {
    NonEmptyHasMember(p);
    x :| x in p;
  }

  /** The integers in [lo, hi), as a set. */
  function Span(lo: int, hi: int): (r: set<int>)
    ensures forall k :: k in r <==> lo <= k < hi
    ensures lo <= hi ==> |r| == hi - lo
    decreases hi - lo
  {
    if lo >= hi then {} else {lo} + Span(lo + 1, hi)
  }

  /** The benchmark fill pattern: cell i holds i % 1000. */
  function Fill(n: nat): (r: seq<int>)
    ensures |r| == n
  {
    seq(n, i => i % 1000)
  }

  /** The benchmark input as a fresh array, filled by a loop: cell i holds i % 1000. */
  method FillArray(n: nat) returns (arr: array<int>)
    ensures fresh(arr) && arr[..] == Fill(n)
  {
    arr := new int[n];
    var i := 0;
    while i < n
      invariant 0 <= i <= n
      invariant forall k :: 0 <= k < i ==> arr[k] == k % 1000
    {
      arr[i] := i % 1000;
      i := i + 1;
    }
  }

  /** A fresh array elementwise equal to `original`. */
  method CloneArray(original: array<int>) returns (a: array<int>)
    ensures fresh(a) && a[..] == original[..]
  {
    a := new int[original.Length];
    forall i | 0 <= i < original.Length {
      a[i] := original[i];
    }
  }
}
