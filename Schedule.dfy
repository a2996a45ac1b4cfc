/**
 * The work schedule the parallel variants generate, executed serially.
 *
 * Each wave of live length n is split into Pairs(n) independent jobs; job i
 * adds cell n-1-i into cell i. The lemmas show that the jobs of one wave
 * touch disjoint cells, that running them in ANY order gives the same buffer
 * as the sequential inner loop, and that the whole schedule has L-1 jobs and
 * computes the wave reduction.
 */
module Schedule {
  import opened Waves

  /** One pair addition: `left` receives the value of `right`. */
  datatype Job = Job(left: int, right: int)

  predicate InRange(j: Job, len: nat)
  {
    0 <= j.left < len && 0 <= j.right < len
  }

  /** The effect of one job: only cell `left` changes, to the sum of the two cells. */
  function ApplyJob(s: seq<int>, j: Job): (r: seq<int>)
    requires InRange(j, |s|)
    ensures |r| == |s|
    ensures r[j.left] == s[j.left] + s[j.right]
    ensures forall k :: 0 <= k < |s| && k != j.left ==> r[k] == s[k]
  {
    s[j.left := s[j.left] + s[j.right]]
  }

  /** The buffer after running `js` one after another, first to last. */
  function ApplyJobs(s: seq<int>, js: seq<Job>): (r: seq<int>)
    requires forall j :: j in js ==> InRange(j, |s|)
    ensures |r| == |s|
    decreases |js|
  {
    if js == [] then s else ApplyJob(ApplyJobs(s, js[..|js| - 1]), js[|js| - 1])
  }

  lemma {:induction false} ApplyJobsConcat(s: seq<int>, a: seq<Job>, b: seq<Job>)
    requires forall j :: j in a + b ==> InRange(j, |s|)
    ensures ApplyJobs(s, a + b) == ApplyJobs(ApplyJobs(s, a), b)
    decreases |b|
  {
    if b == [] {
      assert a + b == a;
    } else {
      var b' := b[..|b| - 1];
      assert (a + b)[..|a + b| - 1] == a + b';
      ApplyJobsConcat(s, a, b');
    }
  }

  /** The jobs one wave of live length n generates, in generation order. */
  function WaveJobs(n: nat): (js: seq<Job>)
    ensures |js| == Pairs(n)
  {
    seq(Pairs(n), i => Job(i, n - 1 - i))
  }

  /**
   * Within a wave every left index lies in [0, pairs) and every right index
   * in [pairs, n), at n-1-left; no cell is touched by two jobs.
   */
  lemma WaveJobsDisjoint(n: nat)
    ensures forall i :: 0 <= i < Pairs(n) ==>
      WaveJobs(n)[i].left == i && WaveJobs(n)[i].right == n - 1 - i &&
      0 <= WaveJobs(n)[i].left < Pairs(n) <= WaveJobs(n)[i].right < n
    ensures forall i, k :: 0 <= i < k < Pairs(n) ==>
      WaveJobs(n)[i].left != WaveJobs(n)[k].left && WaveJobs(n)[i].right != WaveJobs(n)[k].right &&
      WaveJobs(n)[i].left != WaveJobs(n)[k].right && WaveJobs(n)[i].right != WaveJobs(n)[k].left
  {
  }

  /** Jobs shaped like those of a wave of live length n. */
  ghost predicate WaveShaped(js: seq<Job>, n: nat)
  {
    forall j :: j in js ==> 0 <= j.left < Pairs(n) && j.right == n - 1 - j.left
  }

  ghost predicate Distinct(js: seq<Job>)
  {
    forall i, k :: 0 <= i < k < |js| ==> js[i] != js[k]
  }

  ghost function Lefts(js: seq<Job>): set<int>
  {
    set j | j in js :: j.left
  }

  /** Running a wave-shaped job whose left index is not yet done adds that index to the wave state. */
  lemma WaveJobStep(s: seq<int>, n: nat, done: set<int>, j: Job)
    requires n <= |s| && 0 <= j.left < Pairs(n) && j.right == n - 1 - j.left && j.left !in done
    ensures InRange(j, |s|)
    ensures ApplyJob(WaveOn(s, n, done), j) == WaveOn(s, n, done + {j.left})
  {
    WaveOnAdd(s, n, done, j.left);
  }

  /** Distinct wave-shaped jobs, run in the given order, perform exactly the additions of their left indices. */
  lemma {:induction false} ApplyDistinctJobs(s: seq<int>, n: nat, js: seq<Job>)
    requires n <= |s|
    requires WaveShaped(js, n) && Distinct(js)
    ensures ApplyJobs(s, js) == WaveOn(s, n, Lefts(js))
    decreases |js|
  {
    if js == [] {
      assert Lefts(js) == {};
      WaveOnNone(s, n);
    } else {
      var p, j := js[..|js| - 1], js[|js| - 1];
      assert js == p + [j];
      ApplyDistinctJobs(s, n, p);
      forall i | 0 <= i < |p|
        ensures p[i].left != j.left
      {
        assert p[i] == js[i] != js[|js| - 1];
      }
      assert j.left !in Lefts(p);
      WaveJobStep(s, n, Lefts(p), j);
      assert Lefts(js) == Lefts(p) + {j.left};
    }
  }

  lemma {:induction false} CountAtMostOne(b: seq<Job>, x: Job)
    requires Distinct(b)
    ensures multiset(b)[x] <= 1
    decreases |b|
  {
    if b != [] {
      assert b == [b[0]] + b[1..];
      CountAtMostOne(b[1..], x);
      if x == b[0] {
        assert x !in b[1..];
      }
    }
  }

  /** A permutation of a sequence without duplicates has no duplicates. */
  lemma PermutationDistinct(a: seq<Job>, b: seq<Job>)
    requires multiset(a) == multiset(b) && Distinct(b)
    ensures Distinct(a)
  {
    forall i, k | 0 <= i < k < |a|
      ensures a[i] != a[k]
    {
      if a[i] == a[k] {
        assert a == a[..i] + [a[i]] + a[i + 1..k] + [a[k]] + a[k + 1..];
        assert multiset(a)[a[i]] >= 2;
        CountAtMostOne(b, a[i]);
        assert false;
      }
    }
  }

  /**
   * Running one wave's jobs in any order (any permutation of the generated
   * jobs) gives the same buffer as the sequential inner loop.
   */
  lemma JobsAnyOrder(s: seq<int>, n: nat, js: seq<Job>)
    requires n <= |s|
    requires multiset(js) == multiset(WaveJobs(n))
    ensures forall j :: j in js ==> InRange(j, |s|)
    ensures ApplyJobs(s, js) == Wave(s, n)
  {
    assert forall j :: j in js ==> j in multiset(WaveJobs(n));
    assert WaveShaped(js, n);
    PermutationDistinct(js, WaveJobs(n));
    ApplyDistinctJobs(s, n, js);
    forall k | 0 <= k < Pairs(n)
      ensures k in Lefts(js)
    {
      assert WaveJobs(n)[k] in multiset(js);
    }
    WaveOnAll(s, n, Lefts(js));
  }

  /** Every job of every wave, wave after wave, for an initial length n. */
  function ScheduleJobs(n: nat): (js: seq<Job>)
    ensures forall j :: j in js ==> InRange(j, n)
    decreases n
  {
    if n <= 1 then [] else WaveJobs(n) + ScheduleJobs(NextLen(n))
  }

  /** Across all waves the schedule holds L-1 jobs. */
  lemma {:induction false} ScheduleSize(n: nat)
    requires n >= 1
    ensures |ScheduleJobs(n)| == n - 1
    decreases n
  {
    if n > 1 {
      ScheduleSize(NextLen(n));
    }
  }

  /** Running the whole schedule, wave after wave, is the wave reduction. */
  lemma {:induction false} ScheduleReduces(s: seq<int>, n: nat)
    requires n <= |s|
    ensures forall j :: j in ScheduleJobs(n) ==> InRange(j, |s|)
    ensures ApplyJobs(s, ScheduleJobs(n)) == Reduce(s, n)
    decreases n
  {
    if n > 1 {
      var m := NextLen(n);
      assert forall j :: j in ScheduleJobs(n) ==> InRange(j, |s|);
      ApplyJobsConcat(s, WaveJobs(n), ScheduleJobs(m));
      JobsAnyOrder(s, n, WaveJobs(n));
      ScheduleReduces(Wave(s, n), m);
    }
  }
}
