/**
 * The dispatcher/worker-pool reduction of CSharp/Program_1.cs and its
 * single-threaded reference, SequentialReduce.
 *
 * The worker pool is modelled by its effect on the buffer: the dispatcher
 * publishes all tasks of a wave, the countdown starts at the number of
 * tasks, and workers complete the pending tasks one at a time in an order
 * the model leaves open (any task may finish next). Elements are
 * mathematical integers.
 */
module PoolReduce {
  import opened Waves
  import opened Schedule

  /** A queued task: a left index and the live length of its wave. */
  datatype Task = Task(leftIndex: int, waveLength: int)
  {
    /** The paired cell, derived by the worker. */
    function RightIndex(): int
    {
      waveLength - 1 - leftIndex
    }

    function AsJob(): Job
    {
      Job(leftIndex, RightIndex())
    }
  }

  /** The tasks the dispatcher enqueues for a wave, in enqueue order. */
  function WaveTasks(waveLength: nat): (ts: seq<Task>)
    ensures |ts| == Pairs(waveLength)
  {
    seq(Pairs(waveLength), i => Task(i, waveLength))
  }

  /**
   * One task per left index in [0, pairs); each right index lies in
   * [pairs, waveLength), and the task is the job the wave schedule has at
   * that position.
   */
  lemma WaveTasksAreWaveJobs(waveLength: nat)
    ensures forall i :: 0 <= i < Pairs(waveLength) ==>
      WaveTasks(waveLength)[i].leftIndex == i &&
      Pairs(waveLength) <= WaveTasks(waveLength)[i].RightIndex() < waveLength &&
      WaveTasks(waveLength)[i].AsJob() == WaveJobs(waveLength)[i]
  {
  }

  /** Single-threaded wave reduction, in place; 0 for an empty array. */
  method SequentialReduce(arr: array<int>) returns (r: int)
    modifies arr
    ensures arr[..] == Reduce(old(arr[..]), arr.Length)
    ensures r == Sum(old(arr[..]))
    ensures arr.Length == 0 ==> r == 0
    ensures arr.Length == 1 ==> r == old(arr[0])
  {
    var length := arr.Length;
    while length > 1
      invariant 0 <= length <= arr.Length
      invariant arr.Length > 0 ==> length >= 1
      invariant Reduce(arr[..], length) == Reduce(old(arr[..]), arr.Length)
      decreases length
    {
      WaveLoop(arr, length);
      length := (length + 1) / 2;
    }
    if arr.Length > 0 {
      r := arr[0];
      ReduceSum(old(arr[..]), arr.Length);
      assert old(arr[..])[..arr.Length] == old(arr[..]);
    } else {
      r := 0;
    }
  }

  /** A worker's handling of one dequeued task: add the paired cell into the left cell. */
  method RunTask(arr: array<int>, task: Task)
    requires InRange(task.AsJob(), arr.Length)
    modifies arr
    ensures arr[..] == ApplyJob(old(arr[..]), task.AsJob())
  {
    var leftIndex := task.leftIndex;
    var rightIndex := task.RightIndex();
    arr[leftIndex] := arr[leftIndex] + arr[rightIndex];
  }

  /** The tasks the dispatcher enqueues for one wave: one per left index, all for this wave length. */
  method EnqueueWave(waveLength: nat) returns (queue: set<Task>)
    ensures |queue| == Pairs(waveLength)
    ensures forall t :: t in queue ==> t.waveLength == waveLength && 0 <= t.leftIndex < Pairs(waveLength)
    ensures forall k :: 0 <= k < Pairs(waveLength) ==> Task(k, waveLength) in queue
  {
    var pairs := waveLength / 2;
    queue := {};
    var leftIndex := 0;
    while leftIndex < pairs
      invariant 0 <= leftIndex <= pairs
      invariant |queue| == leftIndex
      invariant forall t :: t in queue ==> t.waveLength == waveLength && 0 <= t.leftIndex < leftIndex
      invariant forall k :: 0 <= k < leftIndex ==> Task(k, waveLength) in queue
    {
      queue := queue + {Task(leftIndex, waveLength)};
      leftIndex := leftIndex + 1;
    }
  }

  /**
   * One wave of the dispatcher: a task per left index is queued, the
   * countdown starts at the number of pairs, and the workers complete the
   * queued tasks in any order until it reaches zero. `tasksRun` counts them.
   */
  method DispatchWave(arr: array<int>, waveLength: nat) returns (ghost tasksRun: nat)
    requires waveLength <= arr.Length
    modifies arr
    ensures arr[..] == Wave(old(arr[..]), waveLength)
    ensures tasksRun == Pairs(waveLength)
  {
    ghost var w := arr[..];
    var pairs := waveLength / 2;

    var queue := EnqueueWave(waveLength);

    // Workers complete the pending tasks in any order; the dispatcher
    // waits until the countdown reaches zero.
    var countdown := pairs;
    ghost var done: set<int> := {};
    tasksRun := 0;
    WaveOnNone(w, waveLength);
    while countdown > 0
      invariant countdown == |queue|
      invariant forall t :: t in queue ==> t.waveLength == waveLength && 0 <= t.leftIndex < pairs && t.leftIndex !in done
      invariant forall k :: 0 <= k < pairs ==> k in done || Task(k, waveLength) in queue
      invariant arr[..] == WaveOn(w, waveLength, done)
      invariant tasksRun + countdown == pairs
      decreases countdown
    {
      var task := Pick(queue);
      queue := queue - {task};
      WaveJobStep(w, waveLength, done, task.AsJob());
      RunTask(arr, task);
      done := done + {task.leftIndex};
      countdown := countdown - 1;
      tasksRun := tasksRun + 1;
    }
    WaveOnAll(w, waveLength, done);
  }

  /**
   * The dispatcher: waves of published tasks, each wave drained by the
   * workers before the length shrinks. `tasksRun` counts the tasks the
   * workers complete over the whole call.
   */
  method ParallelReduce(arr: array<int>, workersCount: int) returns (r: int, ghost tasksRun: nat)
    requires workersCount >= 1 || arr.Length <= 1
    modifies arr
    ensures arr[..] == Reduce(old(arr[..]), arr.Length)
    ensures r == Sum(old(arr[..]))
    ensures arr.Length == 0 ==> r == 0
    ensures arr.Length == 1 ==> r == old(arr[0])
    ensures arr.Length >= 1 ==> tasksRun == arr.Length - 1
    ensures arr.Length == 0 ==> tasksRun == 0
  {
    var length := arr.Length;
    if length == 0 {
      return 0, 0;
    }
    if length == 1 {
      assert arr[..][1..] == [];
      return arr[0], 0;
    }
    tasksRun := 0;
    var waveLength := length;
    while waveLength > 1
      invariant 1 <= waveLength <= length
      invariant Reduce(arr[..], waveLength) == Reduce(old(arr[..]), length)
      invariant tasksRun + waveLength == length
      decreases waveLength
    {
      ghost var ran := DispatchWave(arr, waveLength);
      tasksRun := tasksRun + ran;
      waveLength := (waveLength + 1) / 2;
    }
    r := arr[0];
    ReduceSum(old(arr[..]), length);
    assert old(arr[..])[..length] == old(arr[..]);
  }

  /**
   * The driver: reduce two copies of the input sequentially and with the
   * pool, and compare. Over integers the comparison is exact equality.
   */
  method CompareReductions(original: array<int>, workerCount: int) returns (seqResult: int, parResult: int, same: bool)
    requires workerCount >= 1 || original.Length <= 1
    ensures seqResult == Sum(original[..]) && parResult == Sum(original[..])
    ensures same
  {
    var seqArray := CloneArray(original);
    var parArray := CloneArray(original);
    seqResult := SequentialReduce(seqArray);
    ghost var tasks;
    parResult, tasks := ParallelReduce(parArray, workerCount);
    same := seqResult == parResult;
  }
}
