/**
 * The job-channel reduction of Go/main.go: a fixed set of worker goroutines
 * reads jobs from a channel, and the main goroutine sends one job per pair
 * of each wave and waits on that wave's WaitGroup before halving the length.
 *
 * The channel and the workers are modelled by their effect: every job of a
 * wave is sent, and the sent jobs complete one at a time in an order the
 * model leaves open; the wave's WaitGroup is the count of jobs not yet done.
 */
module JobSum {
  import opened Waves
  import opened Schedule

  /** The job sent for pair k of a wave of live length n. */
  function PairJob(n: int, k: int): Job
  {
    Job(k, n - 1 - k)
  }

  /** The worker's handling of one received job: cell `left` becomes the sum of the two cells. */
  method RunJob(arr: array<int>, j: Job)
    requires InRange(j, arr.Length)
    modifies arr
    ensures arr[..] == ApplyJob(old(arr[..]), j)
  {
    var sum := arr[j.left] + arr[j.right];
    arr[j.left] := sum;
  }

  /** The jobs the main goroutine sends on the channel for one wave: one per pair, each pairing k with currentLen-1-k. */
  method SendJobs(currentLen: nat) returns (sent: set<Job>)
    ensures |sent| == Pairs(currentLen)
    ensures forall j :: j in sent ==> 0 <= j.left < Pairs(currentLen) && j.right == currentLen - 1 - j.left
    ensures forall k :: 0 <= k < Pairs(currentLen) ==> PairJob(currentLen, k) in sent
  {
    var pairs := currentLen / 2;
    sent := {};
    var i := 0;
    while i < pairs
      invariant 0 <= i <= pairs
      invariant |sent| == i
      invariant forall j :: j in sent ==> 0 <= j.left < i && j.right == currentLen - 1 - j.left
      invariant forall k :: 0 <= k < i ==> PairJob(currentLen, k) in sent
    {
      sent := sent + {PairJob(currentLen, i)};
      i := i + 1;
    }
  }

  /**
   * One wave of `parallelSum`: `wave.Add(pairs)`, one job sent per pair,
   * then the workers finish the sent jobs in any order until `wave.Wait()`
   * returns. `jobsDone` counts the jobs finished.
   */
  method SendWave(arr: array<int>, currentLen: nat) returns (ghost jobsDone: nat)
    requires currentLen <= arr.Length
    modifies arr
    ensures arr[..] == Wave(old(arr[..]), currentLen)
    ensures jobsDone == |WaveJobs(currentLen)|
  {
    ghost var w := arr[..];
    var pairs := currentLen / 2;
    var waveCount := pairs;

    var sent := SendJobs(currentLen);

    // Workers finish the sent jobs in any order; `wave.Wait()` returns at zero.
    ghost var done: set<int> := {};
    jobsDone := 0;
    WaveOnNone(w, currentLen);
    while waveCount > 0
      invariant waveCount == |sent|
      invariant forall j :: j in sent ==> 0 <= j.left < pairs && j.right == currentLen - 1 - j.left && j.left !in done
      invariant forall k :: 0 <= k < pairs ==> k in done || PairJob(currentLen, k) in sent
      invariant arr[..] == WaveOn(w, currentLen, done)
      invariant jobsDone + waveCount == pairs
      decreases waveCount
    {
      var job := Pick(sent);
      sent := sent - {job};
      WaveJobStep(w, currentLen, done, job);
      RunJob(arr, job);
      done := done + {job.left};
      waveCount := waveCount - 1;
      jobsDone := jobsDone + 1;
    }
    WaveOnAll(w, currentLen, done);
  }

  /**
   * `parallelSum`: 0 for an empty slice, the only element of a singleton,
   * otherwise waves until one cell is live. `jobsDone` counts the jobs the
   * workers finish over the whole call; it is the size of the whole schedule.
   */
  method ParallelSum(arr: array<int>, nWorkers: int) returns (r: int, ghost jobsDone: nat)
    requires nWorkers >= 1 || arr.Length <= 1
    modifies arr
    ensures arr[..] == Reduce(old(arr[..]), arr.Length)
    ensures r == Sum(old(arr[..]))
    ensures arr.Length == 0 ==> r == 0
    ensures arr.Length == 1 ==> r == old(arr[0])
    ensures jobsDone == |ScheduleJobs(arr.Length)|
    ensures arr.Length >= 1 ==> jobsDone == arr.Length - 1
  {
    if arr.Length == 0 {
      return 0, 0;
    }
    ScheduleSize(arr.Length);
    if arr.Length == 1 {
      assert arr[..][1..] == [];
      return arr[0], 0;
    }
    jobsDone := 0;
    var currentLen := arr.Length;
    while currentLen > 1
      invariant 1 <= currentLen <= arr.Length
      invariant Reduce(arr[..], currentLen) == Reduce(old(arr[..]), arr.Length)
      invariant jobsDone + currentLen == arr.Length
      decreases currentLen
    {
      ghost var ran := SendWave(arr, currentLen);
      jobsDone := jobsDone + ran;
      currentLen := (currentLen + 1) / 2;
    }
    r := arr[0];
    ReduceSum(old(arr[..]), arr.Length);
    assert old(arr[..])[..arr.Length] == old(arr[..]);
  }

  /**
   * The `main` check: the parallel sum of the `i % 1000` input of length
   * nItems equals the sum accumulated by a plain loop, so it never panics.
   */
  method CheckTotal(nItems: nat, nWorkers: int) returns (totalSum: int, totalSumCheck: int, equal: bool)
    requires nWorkers >= 1 || nItems <= 1
    ensures totalSum == Sum(Fill(nItems)) && totalSumCheck == totalSum
    ensures equal
  {
    var arr := FillArray(nItems);
    ghost var jobs;
    totalSum, jobs := ParallelSum(arr, nWorkers);

    totalSumCheck := 0;
    var i := 0;
    while i < nItems
      invariant 0 <= i <= nItems
      invariant totalSumCheck == Sum(Fill(i))
    {
      assert Fill(i + 1) == Fill(i) + [i % 1000];
      SumConcat(Fill(i), [i % 1000]);
      totalSumCheck := totalSumCheck + i % 1000;
      i := i + 1;
    }
    equal := totalSum == totalSumCheck;
  }
}
