/**
 * The in-place wave reduction of CSharp/Program_2.cs, its linear baseline,
 * and the final validation over clones of the `i % 1000` input
 * (`Waves.FillArray`, `Waves.CloneArray`).
 *
 * `Parallel.For` is modelled by its effect: every left index of the wave is
 * pending, and the pending indices are completed one at a time in an order
 * the model leaves open.
 */
module WaveBench {
  import opened Waves

  /** The sum of all elements, accumulated left to right; the array is only read. */
  method LinearSum(a: array<int>) returns (s: int)
    ensures s == Sum(a[..])
  {
    s := 0;
    var i := 0;
    while i < a.Length
      invariant 0 <= i <= a.Length
      invariant s == Sum(a[..i])
    {
      SumPrefixStep(a[..], i);
      assert a[..i + 1] == a[..][..i + 1] && a[..i] == a[..][..i];
      s := s + a[i];
      i := i + 1;
    }
    assert a[..a.Length] == a[..];
  }

  /**
   * One wave as `Parallel.For(0, pairs, i => arr[i] = arr[i] + arr[length - 1 - i])`:
   * every left index is pending, and the pending indices complete one at a
   * time in any order.
   */
  method ParallelFor(arr: array<int>, length: nat)
    requires length <= arr.Length
    modifies arr
    ensures arr[..] == Wave(old(arr[..]), length)
  {
    ghost var w := arr[..];
    var pairs := length / 2;
    var pending := Span(0, pairs);
    ghost var done: set<int> := {};
    WaveOnNone(w, length);
    while |pending| > 0
      invariant forall k :: k in pending ==> 0 <= k < pairs && k !in done
      invariant forall k :: 0 <= k < pairs ==> k in done || k in pending
      invariant arr[..] == WaveOn(w, length, done)
      decreases |pending|
    {
      var i := Pick(pending);
      WaveOnAdd(w, length, done, i);
      arr[i] := arr[i] + arr[length - 1 - i];
      done := done + {i};
      pending := pending - {i};
    }
    WaveOnAll(w, length, done);
  }

  /**
   * The wave reduction in place; both branches perform the same update on
   * every left index of the wave. The array must be non-empty: arr[0] is
   * read at the end.
   */
  method WaveReduceInPlace(arr: array<int>, parallel: bool) returns (r: int)
    requires arr.Length >= 1
    modifies arr
    ensures arr[..] == Reduce(old(arr[..]), arr.Length)
    ensures r == Sum(old(arr[..]))
  {
    var length := arr.Length;
    while length > 1
      invariant 1 <= length <= arr.Length
      invariant Reduce(arr[..], length) == Reduce(old(arr[..]), arr.Length)
      decreases length
    {
      ghost var w := arr[..];
      var pairs := length / 2;
      if parallel {
        ParallelFor(arr, length);
      } else {
        WaveLoop(arr, length);
      }
      assert arr[..] == Wave(w, length);
      length := pairs + length % 2;
    }
    r := arr[0];
    ReduceSum(old(arr[..]), arr.Length);
    assert old(arr[..])[..arr.Length] == old(arr[..]);
  }

  /**
   * The validation: the linear sum and both wave reductions, each run on a
   * fresh clone of the `i % 1000` input of length n, agree.
   */
  method Validate(n: nat) returns (linear: int, seqWave: int, parWave: int, ok: bool)
    requires n >= 1
    ensures linear == Sum(Fill(n)) && seqWave == linear && parWave == linear
    ensures ok
  {
    var original := FillArray(n);
    var a := CloneArray(original);
    linear := LinearSum(a);
    a := CloneArray(original);
    seqWave := WaveReduceInPlace(a, false);
    a := CloneArray(original);
    parWave := WaveReduceInPlace(a, true);
    ok := linear == seqWave && linear == parWave;
  }
}
