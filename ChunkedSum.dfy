/**
 * The Go wave sums of Go/main_2.go: the sequential in-place reduction, the
 * chunked variant that gives each goroutine a contiguous range of left
 * indices, the closed-form expected sum of the `i % 1000` input, and the
 * final check.
 *
 * Goroutines are modelled by their effect: all chunks of a wave are
 * launched, then they complete one at a time in an order the model leaves
 * open; the WaitGroup is the count of chunks still running.
 */
module ChunkedSum {
  import opened Waves

  /** Sequential wave sum; an empty slice is out of range at arr[0]. */
  method WaveSumSeq(arr: array<int>) returns (r: int)
    requires arr.Length >= 1
    modifies arr
    ensures arr[..] == Reduce(old(arr[..]), arr.Length)
    ensures r == Sum(old(arr[..]))
  {
    var n := arr.Length;
    while n > 1
      invariant 1 <= n <= arr.Length
      invariant Reduce(arr[..], n) == Reduce(old(arr[..]), arr.Length)
      decreases n
    {
      var left := n / 2;
      WaveLoop(arr, n);
      n := left + n % 2;
    }
    r := arr[0];
    ReduceSum(old(arr[..]), arr.Length);
    assert old(arr[..])[..arr.Length] == old(arr[..]);
  }

  /** The half-open range [start, end) of left indices one goroutine handles. */
  datatype Chunk = Chunk(start: int, end: int)

  /** Width of each chunk: ceil(left / workers). */
  function ChunkSize(left: nat, workers: nat): (size: nat)
    requires workers >= 1
    ensures size * workers >= left
    ensures left >= 1 ==> size >= 1 && (size - 1) * workers < left
    ensures left == 0 ==> size == 0
  {
    var size := (left + workers - 1) / workers;
    assert left + workers - 1 == size * workers + (left + workers - 1) % workers;
    size
  }

  /**
   * The chunks goroutines w, w+1, ... are launched with. Entry i belongs to
   * goroutine w + i and is the non-empty range
   * [(w + i) * size, min((w + i + 1) * size, left)); launching stops after
   * goroutine `workers - 1` or at the first goroutine whose range is empty.
   */
  function ChunksFrom(w: nat, workers: nat, size: nat, left: nat): (cs: seq<Chunk>)
    ensures w <= workers ==> w + |cs| <= workers
    ensures forall i :: 0 <= i < |cs| ==>
      cs[i].start == (w + i) * size < cs[i].end &&
      cs[i].end == (if cs[i].start + size > left then left else cs[i].start + size)
    ensures w + |cs| < workers ==> (w + |cs|) * size >= left || size == 0
    decreases workers - w
  {
    if w >= workers then []
    else
      var start := w * size;
      var end := if start + size > left then left else start + size;
      if start >= end then []
      else
        [Chunk(start, end)] + ChunksFrom(w + 1, workers, size, left)
  }


  /** Chunks in increasing order, hence pairwise disjoint. */
  ghost predicate Ordered(cs: seq<Chunk>)
  {
    forall i, j :: 0 <= i < j < |cs| ==> cs[i].end <= cs[j].start
  }

  ghost predicate Covers(cs: seq<Chunk>, k: int)
  {
    exists i :: 0 <= i < |cs| && cs[i].start <= k < cs[i].end
  }

  /**
   * From goroutine w on, at most `workers - w` chunks are launched, each
   * non-empty and inside [w * size, left), and each ends before the next
   * begins.
   */
  lemma ChunksFromBounds(w: nat, workers: nat, size: nat, left: nat)
    requires w <= workers
    ensures var cs := ChunksFrom(w, workers, size, left);
      |cs| <= workers - w &&
      (forall i :: 0 <= i < |cs| ==> w * size <= cs[i].start < cs[i].end <= left) &&
      Ordered(cs)
  {
    var cs := ChunksFrom(w, workers, size, left);
    forall i | 0 <= i < |cs|
      ensures w * size <= cs[i].start
    {
      MulMono(w, w + i, size);
    }
    forall i, j | 0 <= i < j < |cs|
      ensures cs[i].end <= cs[j].start
    {
      MulStep(w + i, w + j, size);
    }
  }

  /** Multiplying by a non-negative factor keeps the order. */
  lemma MulMono(a: int, b: int, c: nat)
    requires a <= b
    ensures a * c <= b * c
  {
  }

  /** A strictly larger factor is larger by at least one more multiple. */
  lemma MulStep(a: int, b: int, c: nat)
    requires a < b
    ensures a * c + c <= b * c
  {
    MulMono(a + 1, b, c);
  }

  /** Index k lies in block k / size of width size. */
  lemma DivBlock(k: nat, size: nat)
    requires size >= 1
    ensures (k / size) * size <= k < (k / size) * size + size
  {
    assert k == (k / size) * size + k % size;
  }

  /**
   * From goroutine w on, the launched chunks cover every left index in
   * [w * size, left): index k lies in the chunk of goroutine k / size, which
   * is launched because launching stops only at `workers` goroutines or
   * past `left`.
   */
  lemma ChunksFromCover(w: nat, workers: nat, size: nat, left: nat)
    requires w <= workers
    requires size * workers >= left
    requires left >= 1 ==> size >= 1
    ensures forall k :: w * size <= k < left ==> Covers(ChunksFrom(w, workers, size, left), k)
  {
    var cs := ChunksFrom(w, workers, size, left);
    forall k | w * size <= k < left
      ensures Covers(cs, k)
    {
      var g := k / size;
      DivBlock(k, size);
      if g < w {
        MulStep(g, w, size);
        assert false;
      }
      var stop := w + |cs|;
      if stop <= g {
        MulMono(stop, g, size);
        assert false;
      }
      var i := g - w;
      assert cs[i].start == g * size <= k < cs[i].end;
    }
  }

  /**
   * The chunks launched for a wave with `left` pairs and workers >= 1: at
   * most `workers` of them, non-empty, inside [0, left), ordered and
   * therefore pairwise disjoint, and together covering [0, left).
   */
  function WaveChunks(left: nat, workers: nat): (cs: seq<Chunk>)
    requires workers >= 1
    ensures |cs| <= workers
    ensures forall i :: 0 <= i < |cs| ==> 0 <= cs[i].start < cs[i].end <= left
    ensures Ordered(cs)
    ensures forall k :: 0 <= k < left <==> Covers(cs, k)
  {
    var size := ChunkSize(left, workers);
    ChunksFromBounds(0, workers, size, left);
    ChunksFromCover(0, workers, size, left);
    ChunksFrom(0, workers, size, left)
  }

  /** The goroutine body: exactly the pair additions of the wave of length curN for left indices s..e-1. */
  method RunChunk(arr: array<int>, s: int, e: int, curN: nat)
    requires 0 <= s <= e <= curN / 2 && curN <= arr.Length
    modifies arr
    ensures arr[..] == WaveOn(old(arr[..]), curN, Span(s, e))
    ensures forall k :: 0 <= k < arr.Length && !(s <= k < e) ==> arr[k] == old(arr[k])
  {
    ghost var t := arr[..];
    ghost var chunkDone: set<int> := {};
    WaveOnNone(t, curN);
    var i := s;
    while i < e
      invariant s <= i <= e
      invariant forall k :: k in chunkDone <==> s <= k < i
      invariant arr[..] == WaveOn(t, curN, chunkDone)
    {
      WaveOnAdd(t, curN, chunkDone, i);
      arr[i] := arr[i] + arr[curN - 1 - i];
      chunkDone := chunkDone + {i};
      i := i + 1;
    }
    assert chunkDone == Span(s, e);
  }

  /** The chunk ranges of one wave, computed as the launching loop does, break included. */
  method LaunchChunks(left: int, workers: int) returns (launched: seq<Chunk>)
    requires left >= 0 && workers >= 1
    ensures launched == WaveChunks(left, workers)
  {
    var chunkSize := (left + workers - 1) / workers;
    launched := [];
    var w := 0;
    while w < workers
      invariant 0 <= w <= workers
      invariant launched + ChunksFrom(w, workers, chunkSize, left) == WaveChunks(left, workers)
      decreases workers - w
    {
      var start := w * chunkSize;
      var end := start + chunkSize;
      if end > left {
        end := left;
      }
      if start >= end {
        assert ChunksFrom(w, workers, chunkSize, left) == [];
        assert launched + [] == launched;
        break;
      }
      assert ChunksFrom(w, workers, chunkSize, left) == [Chunk(start, end)] + ChunksFrom(w + 1, workers, chunkSize, left);
      launched := launched + [Chunk(start, end)];
      w := w + 1;
    }
  }

  /** Left index k is in a chunk that has not completed yet. */
  ghost predicate InPending(launched: seq<Chunk>, pending: set<int>, k: int)
  {
    exists c :: c in pending && 0 <= c < |launched| && launched[c].start <= k < launched[c].end
  }

  /**
   * The bookkeeping of a wave in progress: pending chunks are untouched, and
   * every left index is either done or inside a pending chunk.
   */
  ghost predicate WaveProgress(launched: seq<Chunk>, pending: set<int>, done: set<int>, left: int)
  {
    (forall c :: c in pending ==> 0 <= c < |launched|) &&
    (forall c, k :: c in pending && launched[c].start <= k < launched[c].end ==> k !in done) &&
    (forall k :: 0 <= k < left ==> k in done || InPending(launched, pending, k))
  }

  /** Completing pending chunk c keeps the bookkeeping, with c's range now done. */
  lemma ChunkDone(launched: seq<Chunk>, pending: set<int>, done: set<int>, left: int, c: int, done': set<int>)
    requires Ordered(launched)
    requires WaveProgress(launched, pending, done, left)
    requires c in pending
    requires forall k :: k in done' <==> k in done || launched[c].start <= k < launched[c].end
    ensures WaveProgress(launched, pending - {c}, done', left)
  {
    forall k | 0 <= k < left && k !in done'
      ensures InPending(launched, pending - {c}, k)
    {
      var c' :| c' in pending && 0 <= c' < |launched| && launched[c'].start <= k < launched[c'].end;
      assert c' != c;
    }
    forall c', k | c' in pending - {c} && launched[c'].start <= k < launched[c'].end
      ensures k !in done'
    {
      assert c' < c ==> launched[c'].end <= launched[c].start;
      assert c < c' ==> launched[c].end <= launched[c'].start;
    }
  }

  /**
   * A chunk disjoint from the left indices already done runs to completion:
   * the wave state moves from `done` to `done` plus the chunk, whatever
   * other chunks completed before it.
   */
  method RunPendingChunk(arr: array<int>, n: nat, s: int, e: int, ghost w0: seq<int>, ghost done: set<int>)
    requires 0 <= s <= e <= n / 2 && n <= |w0|
    requires arr[..] == WaveOn(w0, n, done)
    requires forall k :: s <= k < e ==> k !in done
    modifies arr
    ensures arr[..] == WaveOn(w0, n, done + Span(s, e))
  {
    RunChunk(arr, s, e, n);
    WaveOnCompose(w0, n, done, Span(s, e));
  }

  /** Straight after launching, every chunk is pending and nothing is done. */
  lemma LaunchProgress(left: nat, workers: nat)
    requires workers >= 1
    ensures var cs := WaveChunks(left, workers);
      (forall i :: 0 <= i < |cs| ==> 0 <= cs[i].start < cs[i].end <= left) &&
      Ordered(cs) &&
      WaveProgress(cs, Span(0, |cs|), {}, left)
  {
    var cs := WaveChunks(left, workers);
    forall k | 0 <= k < left
      ensures InPending(cs, Span(0, |cs|), k)
    {
      assert Covers(cs, k);
    }
  }

  /**
   * Pending chunk c is the next goroutine to call `wg.Done()`; once it has
   * run, the bookkeeping holds with c's range done.
   */
  method CompleteChunk(arr: array<int>, n: nat, left: nat, launched: seq<Chunk>, pending: set<int>, c: int,
                       ghost w0: seq<int>, ghost done: set<int>)
    returns (ghost done': set<int>)
    requires left == n / 2 && n <= |w0|
    requires (forall i :: 0 <= i < |launched| ==> 0 <= launched[i].start < launched[i].end <= left) && Ordered(launched)
    requires c in pending && WaveProgress(launched, pending, done, left)
    requires arr[..] == WaveOn(w0, n, done)
    modifies arr
    ensures WaveProgress(launched, pending - {c}, done', left)
    ensures arr[..] == WaveOn(w0, n, done')
  {
    var s, e := launched[c].start, launched[c].end;
    RunPendingChunk(arr, n, s, e, w0, done);
    done' := done + Span(s, e);
    ChunkDone(launched, pending, done, left, c, done');
  }

  /** Once no chunk is pending, every pair addition of the wave is done. */
  lemma AllChunksDone(w0: seq<int>, n: nat, launched: seq<Chunk>, pending: set<int>, done: set<int>, left: int)
    requires n <= |w0| && left == n / 2
    requires |pending| == 0 && WaveProgress(launched, pending, done, left)
    ensures WaveOn(w0, n, done) == Wave(w0, n)
  {
    forall k | 0 <= k < Pairs(n)
      ensures k in done
    {
      assert !InPending(launched, pending, k);
    }
    WaveOnAll(w0, n, done);
  }

  /**
   * One chunked wave: every launched chunk runs, in any order, and the
   * WaitGroup drains. A negative worker count launches no goroutine (the
   * launching loop `w < workers` has no iteration), so nothing is added; a
   * zero count divides by zero once there is a pair, and is excluded.
   */
  method ChunkedWave(arr: array<int>, n: nat, workers: int)
    requires n <= arr.Length && (workers != 0 || n <= 1)
    modifies arr
    ensures workers >= 1 || n <= 1 ==> arr[..] == Wave(old(arr[..]), n)
    ensures workers < 0 ==> arr[..] == old(arr[..])
  {
    ghost var w0 := arr[..];
    var left := n / 2;
    if workers < 0 || left == 0 {
      if left == 0 {
        assert Pairs(n) == 0;
        assert Wave(w0, n) == w0;
      }
      return;
    }
    var launched := LaunchChunks(left, workers);
    LaunchProgress(left, workers);
    var pending := Span(0, |launched|);
    var running := |launched|;
    ghost var done: set<int> := {};
    WaveOnNone(w0, n);
    while running > 0
      invariant running == |pending|
      invariant WaveProgress(launched, pending, done, left)
      invariant arr[..] == WaveOn(w0, n, done)
      decreases running
    {
      var c := Pick(pending);
      done := CompleteChunk(arr, n, left, launched, pending, c, w0, done);
      pending := pending - {c};
      running := running - 1;
    }
    AllChunksDone(w0, n, launched, pending, done, left);
  }

  /**
   * The chunked wave sum. The array must be non-empty (arr[0] is read at
   * the end) and, once there is a pair to add, the worker count non-zero.
   * With a positive count it is the reduction; with a negative count no
   * wave adds anything and the result is the first element.
   */
  method WaveSumParallel(arr: array<int>, workers: int) returns (r: int)
    requires arr.Length >= 1
    requires workers != 0 || arr.Length == 1
    modifies arr
    ensures workers >= 1 || arr.Length == 1 ==> arr[..] == Reduce(old(arr[..]), arr.Length) && r == Sum(old(arr[..]))
    ensures workers < 0 ==> arr[..] == old(arr[..]) && r == old(arr[0])
  {
    var n := arr.Length;
    while n > 1
      invariant 1 <= n <= arr.Length
      invariant workers >= 1 || arr.Length == 1 ==> Reduce(arr[..], n) == Reduce(old(arr[..]), arr.Length)
      invariant workers < 0 ==> arr[..] == old(arr[..])
      decreases n
    {
      var left := n / 2;
      ChunkedWave(arr, n, workers);
      n := left + n % 2;
    }
    r := arr[0];
    ReduceSum(old(arr[..]), arr.Length);
    assert old(arr[..])[..arr.Length] == old(arr[..]);
  }

  /** The first m cells of the input, for m up to one full cycle, sum to 0 + 1 + ... + (m - 1). */
  lemma {:induction false} CycleSum(m: nat)
    requires m <= 1000
    ensures 2 * Sum(Fill(m)) == m * (m - 1)
  {
    if m > 0 {
      CycleSum(m - 1);
      assert Fill(m) == Fill(m - 1) + [m - 1];
      SumConcat(Fill(m - 1), [m - 1]);
      assert m * (m - 1) == (m - 1) * (m - 2) + 2 * (m - 1);
    }
  }

  /**
   * The closed form for the sum of the `i % 1000` input of length n: every
   * complete cycle contributes the sum of one cycle of cells, 0 + ... + 999,
   * and the incomplete last cycle the sum of its first `n % 1000` cells.
   */
  function ExpectedSum(n: nat): (e: int)
    ensures e == (n / 1000) * Sum(Fill(1000)) + Sum(Fill(n % 1000))
  {
    var cycleSum := 999 * 1000 / 2;
    var cycles := n / 1000;
    var rems := n % 1000;
    var remSum := (rems - 1) * rems / 2;
    CycleSum(1000);
    CycleSum(rems);
    cycles * cycleSum + remSum
  }

  /** Appending one more input cell adds n % 1000 to the closed form. */
  lemma ExpectedSumStep(n: nat)
    ensures ExpectedSum(n + 1) == ExpectedSum(n) + n % 1000
  {
    var c, r := n / 1000, n % 1000;
    assert n == 1000 * c + r;
    if r < 999 {
      assert (n + 1) / 1000 == c && (n + 1) % 1000 == r + 1;
      assert (r + 1 - 1) * (r + 1) == (r - 1) * r + 2 * r;
    } else {
      assert (n + 1) / 1000 == c + 1 && (n + 1) % 1000 == 0;
    }
  }

  /** The closed form equals the sum of the input, including lengths that are multiples of 1000. */
  lemma {:induction false} ExpectedSumIsSum(n: nat)
    ensures ExpectedSum(n) == Sum(Fill(n))
  {
    if n > 0 {
      ExpectedSumIsSum(n - 1);
      ExpectedSumStep(n - 1);
      assert Fill(n) == Fill(n - 1) + [(n - 1) % 1000];
      SumConcat(Fill(n - 1), [(n - 1) % 1000]);
    }
  }

  /** Go's `copy(dst, src)` for slices of equal length. */
  method CopySlice(dst: array<int>, src: array<int>)
    requires dst.Length == src.Length && dst != src
    modifies dst
    ensures dst[..] == src[..]
  {
    forall i | 0 <= i < dst.Length {
      dst[i] := src[i];
    }
  }

  /** The check: both wave sums over copies of the input agree with the closed form. */
  method CheckSums(n: nat, cpus: int) returns (sumSeq: int, sumPar: int, exp: int, ok: bool)
    requires n >= 1 && cpus >= 1
    ensures sumSeq == exp && sumPar == exp && exp == Sum(Fill(n))
    ensures ok
  {
    var orig := FillArray(n);
    var arrSeq := new int[n];
    CopySlice(arrSeq, orig);
    var arrPar := new int[n];
    CopySlice(arrPar, orig);
    sumSeq := WaveSumSeq(arrSeq);
    sumPar := WaveSumParallel(arrPar, cpus);
    exp := ExpectedSum(n);
    ExpectedSumIsSum(n);
    ok := sumSeq == exp && sumPar == exp;
  }
}
