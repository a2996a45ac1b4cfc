# Pairwise wave reduction, verified

This project models a small benchmark repository that sums an array by
"waves". One wave works on the live prefix of length `n`. For every left
index `i < n / 2` it adds the mirrored cell `n - 1 - i` into cell `i`. The
live length then becomes `ceil(n / 2)`, computed as `(n + 1) / 2` or as
`pairs + (n & 1)`. When an odd wave has a middle cell, that cell is kept
unchanged. The waves repeat until one cell is live, and cell 0 then holds
the total. The pair additions of one wave write disjoint cells and read
cells that no addition writes. That is why they may run concurrently.

The repository contains four programs. Each has a module here:

- `PoolReduce` (CSharp/Program_1.cs) has two reductions:
  - `SequentialReduce`, a single-threaded wave loop.
  - `ParallelReduce`, a dispatcher. For each wave it queues one task per
    pair, sets a countdown to the number of pairs, and waits while a pool
    of workers dequeues the tasks and signals. The driver reduces two
    copies of the input and compares the results.
- `WaveBench` (CSharp/Program_2.cs) has these parts, which the final
  validation compares:
  - `WaveReduceInPlace`, in a sequential and a `Parallel.For` flavour.
  - The linear baseline.
  - The `i % 1000` input and its clones, built with `Waves.FillArray` and
    `Waves.CloneArray`.
- `ChunkedSum` (Go/main_2.go) has these parts:
  - `waveSumSeq`.
  - `waveSumParallel`. For each wave it splits `[0, left)` into
    contiguous chunks of `ceil(left / workers)` indices and runs one
    goroutine per chunk.
  - The closed form `expectedSum`.
  - The final check.
- `JobSum` (Go/main.go) has `parallelSum`. Worker goroutines receive one
  job per pair on a channel, and the main goroutine waits on a WaitGroup
  for each wave. After the reduction, `main` compares the result with a
  plain loop.

Two modules hold the specification shared by all four programs:

- `Waves` defines:
  - `Sum`, `Pairs` and `NextLen`.
  - `Wave`, one complete wave.
  - `WaveOn`, the state after only the additions whose left index lies in
    a given set.
  - `Reduce`, all the waves.
  - `Fill`, the benchmark input.
  - The in-place wave loop `WaveLoop`.
  - `FillArray` and `CloneArray`, the input fill loop and the array copy
    that several of the programs repeat.
- `Schedule` treats a wave as a list of `Job(left, right)` updates. It
  proves the following:
  - Any order of a wave's jobs gives the same buffer.
  - The whole schedule has `n - 1` jobs.
  - Running the whole schedule is the reduction.

Concurrency is modelled by its effect on the buffer:

- Each wave publishes all its tasks, jobs or chunks into a pending set.
- They then complete one at a time. `Waves.Pick` chooses each one, and the
  model leaves open which. This matches the source, because the source
  also leaves the completion order open.
- The countdown or WaitGroup of the source is a counter. The invariant
  ties it to the size of the pending set.
- The invariant inside a wave is `arr[..] == WaveOn(w, n, done)`.

Every reduction is proved against `Reduce`, with `r == Sum(input)`, except
`waveSumParallel` with a negative worker count (see below), for which the
buffer is proved unchanged and the result to be its first element. Array elements are mathematical integers throughout.

Error cases are modelled as follows:

- `ParallelReduce` and `parallelSum` have early returns for empty and
  singleton arrays. Both are modelled.
- `WaveReduceInPlace`, `waveSumSeq` and `waveSumParallel` read `arr[0]`
  without a guard, so the model requires a non-empty array.
- A pool needs at least one worker once there is a pair to add:
  - With zero C# workers, the countdown never completes.
  - With a negative C# count, the worker array cannot be allocated.
  - With no Go worker, the channel send blocks for ever.
- For `waveSumParallel`, a zero worker count divides by zero, so the model
  excludes it. A negative count launches no goroutine, so the result is
  the first element unchanged. The model covers this case.

## Model

| member | source | states |
|---|---|---|
| Waves.NextLen | CSharp/Program_1.cs:58 | the next live length is `n / 2 + n % 2`, satisfies `n <= 2 * m <= n + 1`, is strictly smaller than `n` for `n > 1`, and stays 1 at 1 |
| Waves.LowBitIsParity | CSharp/Program_2.cs:50 | for a non-negative 64-bit length, `length & 1` equals `length % 2`, so `pairs + (length & 1)` is the same next length as `(length + 1) / 2` |
| Waves.WaveKeepsUpperCells | CSharp/Program_1.cs:51-58 | a wave changes no cell at or above `pairs`; for an odd length the middle cell `pairs` is live afterwards and carried over unchanged |
| Waves.WaveFoldedHalf | CSharp/Program_1.cs:52-56 | after the wave, the first k cells sum to the first k plus the last k cells of the live prefix |
| Waves.WaveSum | CSharp/Program_1.cs:49-58 | one wave keeps the sum of the live prefix when the live length shrinks to `(n + 1) / 2` |
| Waves.ReduceSum | CSharp/Program_1.cs:46-60 | after all the waves on a non-empty live prefix, cell 0 holds the sum of that prefix |
| Waves.WaveOnAdd | CSharp/Program_2.cs:39-42 | performing a pending addition `i` moves the buffer from the `done` additions to `done + {i}`, whatever was done before |
| Waves.WaveOnCompose | Go/main_2.go:48-55 | additions over disjoint sets of left indices, performed one set after the other, equal performing their union |
| Waves.WaveOnAll | Go/main_2.go:55 | once every left index below `pairs` is done, the buffer is the complete wave |
| Waves.WaveLoop | CSharp/Program_1.cs:51-56 | the sequential inner loop leaves the buffer as one complete wave of the old buffer |
| Waves.Pick | CSharp/Program_1.cs:90 | a worker takes some member of the non-empty pending set; which one is left open |
| Waves.FillArray | Go/main_2.go:10-16 | a fresh array whose cell i holds `i % 1000`; the same loop fills the C# input (CSharp/Program_2.cs lines 10-11) and the Go job-channel input (Go/main.go lines 81-84) |
| Waves.CloneArray | CSharp/Program_2.cs:13-18 | a fresh array with the elements of the original; also the `Array.Copy` copies of CSharp/Program_1.cs lines 19-22 |
| Waves.Span | Go/main_2.go:50 | the chunk's index range `[s, e)` as a set: k is in it exactly when `s <= k < e`, and it has `e - s` members |
| Schedule.ApplyJob | Go/main.go:22-23 | a job writes the sum of its two cells into its left cell and changes no other cell |
| Schedule.ApplyJobsConcat | Go/main.go:48-67 | running two job lists in turn is running their concatenation |
| Schedule.WaveJobs | Go/main.go:54-62 | a wave sends exactly `pairs` jobs |
| Schedule.WaveJobsDisjoint | Go/main.go:54-62 | job i has left `i` in `[0, pairs)` and right `n - 1 - i` in `[pairs, n)`, and distinct jobs have distinct left indices |
| Schedule.WaveJobStep | Go/main.go:19-26 | a worker finishing a pending job of the wave is the step from `done` to `done + {left}` |
| Schedule.ApplyDistinctJobs | Go/main.go:54-64 | any list of distinct jobs of the wave's shape has the effect of just its left indices' additions |
| Schedule.PermutationDistinct | Go/main.go:54-64 | a reordering of a list of distinct jobs is still distinct |
| Schedule.JobsAnyOrder | CSharp/Program_1.cs:108-126 | every permutation of a wave's jobs stays in range and gives the complete wave: the result does not depend on the order tasks complete |
| Schedule.ScheduleJobs | CSharp/Program_1.cs:108-126 | every job of the whole schedule indexes within the buffer |
| Schedule.ScheduleSize | Go/main.go:48-67 | for a non-empty array the whole schedule has `n - 1` jobs |
| Schedule.ScheduleReduces | CSharp/Program_1.cs:108-126 | running the whole schedule, wave after wave, is the reduction |
| PoolReduce.WaveTasks | CSharp/Program_1.cs:115-120 | one task is queued per pair of the wave |
| PoolReduce.WaveTasksAreWaveJobs | CSharp/Program_1.cs:92-94 | queued task i has left index `i` and right index `waveLength - 1 - i` in `[pairs, waveLength)`, and its update is the schedule's job i |
| PoolReduce.SequentialReduce | CSharp/Program_1.cs:46-61 | the buffer ends as the reduction of the input, the result is the sum of the input, 0 for an empty array and the only element of a singleton |
| PoolReduce.RunTask | CSharp/Program_1.cs:90-96 | a worker's dequeued task adds the right cell into the left cell and changes nothing else |
| PoolReduce.EnqueueWave | CSharp/Program_1.cs:115-120 | the queue of one wave holds exactly the tasks `(k, waveLength)` for `k < pairs` |
| PoolReduce.DispatchWave | CSharp/Program_1.cs:111-123 | when the countdown reaches zero, every queued task has run once, in some order, and the buffer is one complete wave |
| PoolReduce.ParallelReduce | CSharp/Program_1.cs:63-142 | the same final buffer and result as the sequential reduction, the early returns for 0 and 1 elements, and `n - 1` tasks run in total |
| PoolReduce.CompareReductions | CSharp/Program_1.cs:18-43 | both copies reduce to the sum of the original, so the comparison succeeds |
| WaveBench.LinearSum | CSharp/Program_2.cs:20-26 | the left-to-right accumulation is the sum of the array |
| WaveBench.ParallelFor | CSharp/Program_2.cs:39-42 | the loop bodies for indices `[0, pairs)`, completed in any order, give one complete wave |
| WaveBench.WaveReduceInPlace | CSharp/Program_2.cs:28-54 | in both branches the buffer ends as the reduction and the result is the sum of the non-empty input |
| WaveBench.Validate | CSharp/Program_2.cs:86-120 | the linear sum and both wave reductions of clones of the input agree, so validation reports OK |
| ChunkedSum.WaveSumSeq | Go/main_2.go:18-28 | the buffer ends as the reduction and the result is the sum of the non-empty input |
| ChunkedSum.ChunkSize | Go/main_2.go:34 | the chunk width is exactly `ceil(left / workers)`: `size * workers >= left` and, once there is a pair, `(size - 1) * workers < left` with `size >= 1`; 0 when there is no pair |
| ChunkedSum.ChunksFrom | Go/main_2.go:37-45 | entry i of the launched chunks belongs to goroutine `w + i` and is the non-empty range `[(w + i) * size, min((w + i + 1) * size, left))`; at most `workers - w` are launched, and launching stops only at `workers` goroutines or at the first empty range |
| ChunkedSum.ChunksFromBounds | Go/main_2.go:37-45 | from goroutine w on, at most `workers - w` chunks are launched, each non-empty, within `[w * size, left)`, in increasing order |
| ChunkedSum.ChunksFromCover | Go/main_2.go:37-45 | from goroutine w on, the launched chunks cover every left index in `[w * size, left)` |
| ChunkedSum.WaveChunks | Go/main_2.go:33-45 | the chunks of a wave are at most `workers`, disjoint, inside `[0, left)`, and cover exactly `[0, left)` |
| ChunkedSum.RunChunk | Go/main_2.go:48-53 | a goroutine performs exactly the additions of its own range `[s, e)` and changes no cell outside it |
| ChunkedSum.LaunchChunks | Go/main_2.go:34-45 | the launching loop, break included, yields exactly the chunks of the wave |
| ChunkedSum.ChunkDone | Go/main_2.go:49 | a completed chunk moves its indices from pending to done and keeps the wave's bookkeeping |
| ChunkedSum.RunPendingChunk | Go/main_2.go:48-53 | running a chunk whose indices are not yet done adds exactly that chunk to the done additions |
| ChunkedSum.LaunchProgress | Go/main_2.go:37-46 | right after launch, every left index of the wave is in a pending chunk and none is done |
| ChunkedSum.CompleteChunk | Go/main_2.go:48-53 | any pending chunk may finish next; afterwards the buffer is the wave restricted to the new done set |
| ChunkedSum.AllChunksDone | Go/main_2.go:55 | when `wg.Wait()` returns, with no chunk pending, the buffer is one complete wave |
| ChunkedSum.ChunkedWave | Go/main_2.go:32-56 | one wave with positive workers is the complete wave in any completion order; with negative workers nothing changes |
| ChunkedSum.WaveSumParallel | Go/main_2.go:30-59 | with positive workers the buffer ends as the reduction and the result is the sum; with negative workers the buffer is unchanged and the result is the first element |
| ChunkedSum.CycleSum | Go/main_2.go:63-66 | the first m <= 1000 input cells sum to `m * (m - 1) / 2`, the triangular number the comments name for a whole cycle and for the remainder |
| ChunkedSum.ExpectedSum | Go/main_2.go:61-72 | the closed form is `cycles` times the sum of one full cycle of input cells plus the sum of the first `n % 1000` cells |
| ChunkedSum.ExpectedSumStep | Go/main_2.go:61-72 | the closed form grows by `n % 1000` from length n to n + 1, across cycle boundaries too |
| ChunkedSum.ExpectedSumIsSum | Go/main_2.go:61-72 | the closed form equals the sum of the `i % 1000` input of every length |
| ChunkedSum.CopySlice | Go/main_2.go:85-89 | `copy` into a distinct slice of equal length gives the elements of the source |
| ChunkedSum.CheckSums | Go/main_2.go:83-122 | both wave sums equal the expected sum, which is the sum of the input, so the check reports OK |
| JobSum.RunJob | Go/main.go:19-26 | a received job stores the sum of its two cells in its left cell and changes nothing else |
| JobSum.SendJobs | Go/main.go:54-62 | one wave sends exactly one job `(k, currentLen - 1 - k)` for every `k < pairs` |
| JobSum.SendWave | Go/main.go:49-64 | after `wave.Wait()`, all the wave's jobs have run, in any order, and the buffer is one complete wave |
| JobSum.ParallelSum | Go/main.go:29-74 | the buffer ends as the reduction, the result is the sum, 0 for empty and the only element for a singleton, with `n - 1` jobs done in total |
| JobSum.CheckTotal | Go/main.go:76-103 | the parallel sum of the `i % 1000` input equals the loop's total, so `main` does not panic |

## Left out

- Threads, the work-stealing `Parallel.For`, goroutines, channels, semaphores, cancellation tokens and WaitGroups: only their effect is modelled. A wave's pending set is drained in any order, with a counter for the countdown or wait group. Memory visibility and scheduling are not modelled.
- The tasks' FIFO queue order: the queue is modelled as a set. A FIFO queue is one of the orders that `Schedule.JobsAnyOrder` covers.
- The overlap of sending a Go job with executing earlier ones: a wave's jobs are all sent, then completed.
- The C# reset of the countdown: a worker that signals while `countdown` is being replaced is not modelled.
- Worker start-up and shutdown: `cts.Cancel`, the final releases, `Task.WaitAll`, `close(jobsChn)` and `work.Wait()` are not modelled, because they leave the buffer unchanged.
- `maxDegreeOfParallelism` and `ParallelOptions`: these only limit concurrency.
- Floating point: the C# pool program works on `double` values with an `eps` comparison. The model uses exact integers, so `PoolReduce.CompareReductions` proves exact equality.
- PoolReduce.SequentialReduce: does not model `double` rounding. A different association of floating-point additions could differ from the left-to-right sum.
- WaveBench.WaveReduceInPlace: does not model 64-bit `long` overflow. The same holds for every other `long` or `int64` sum, which the model treats as unbounded.
- The random input of the C# pool program: it is a parameter, `original`.
- The constants `N`, `Environment.ProcessorCount`, `runtime.NumCPU`, `GOMAXPROCS` and the `-workers` flag: these are parameters.
- ChunkedSum.ExpectedSum: takes a natural number. A negative `N` is not modelled, because the source only calls it with `N = 10_000_000`.
- Timing, `Stopwatch`, `time.Since`, the `Benchmark` helper's repetitions and `GC` calls, and all console output: these are I/O.
- `panic("Sums are not equal!")`: the flag `equal`, proved true, stands for the comparison.
