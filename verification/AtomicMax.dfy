/** The load / compare-exchange loop that raises expected_result_size_, under every interleaving of the jobs. */
module AtomicMax {

  /** A partitioning job: before its load, in its loop with the value it saw last, or done. */
  datatype Job =
    | Waiting(size: nat)
    | Looping(size: nat, seen: nat)
    | Finished(size: nat)

  datatype State = State(value: nat, jobs: seq<Job>)

  /** One atomic step of a job: its load, or one loop test with the compare-exchange. */
  function Step(s: State, i: nat): State
    requires i < |s.jobs| && !s.jobs[i].Finished?
  {
    match s.jobs[i]
    case Waiting(size) => s.(jobs := s.jobs[i := Looping(size, s.value)])
    case Looping(size, seen) =>
      if seen >= size then s.(jobs := s.jobs[i := Finished(size)])
      else if s.value == seen then State(size, s.jobs[i := Finished(size)])
      else s.(jobs := s.jobs[i := Looping(size, s.value)])
  }

  /** A schedule names the job that moves next; a job that is done does not move. */
  ghost predicate Runs(s: State, schedule: seq<nat>, t: State)
    decreases |schedule|
  {
    if schedule == [] then t == s
    else
      var i := schedule[0];
      i < |s.jobs| && !s.jobs[i].Finished? && Runs(Step(s, i), schedule[1..], t)
  }

  ghost predicate Initial(s: State, value: nat, sizes: seq<nat>) {
    s.value == value && |s.jobs| == |sizes| && forall i :: 0 <= i < |sizes| ==> s.jobs[i] == Waiting(sizes[i])
  }

  // ----- what every step keeps -----

  ghost predicate Invariant(s: State, value: nat, sizes: seq<nat>) {
    && |s.jobs| == |sizes| && value <= s.value
    && (s.value == value || s.value in sizes)
    && (forall i :: 0 <= i < |sizes| ==> s.jobs[i].size == sizes[i])
    && (forall i :: 0 <= i < |sizes| && s.jobs[i].Finished? ==> sizes[i] <= s.value)
    && (forall i :: 0 <= i < |sizes| && s.jobs[i].Looping? ==> s.jobs[i].seen <= s.value)
  }

  lemma StepKeeps(s: State, i: nat, value: nat, sizes: seq<nat>)
    requires Invariant(s, value, sizes) && i < |s.jobs| && !s.jobs[i].Finished?
    ensures Invariant(Step(s, i), value, sizes)
    ensures s.value <= Step(s, i).value
  {
    assert sizes[i] in sizes;
  }

  /** In every run the value never falls and a job that is done has left its mark. */
  lemma {:induction false} RunKeeps(s: State, schedule: seq<nat>, t: State, value: nat, sizes: seq<nat>)
    requires Invariant(s, value, sizes) && Runs(s, schedule, t)
    ensures Invariant(t, value, sizes) && s.value <= t.value
    decreases |schedule|
  {
    if schedule != [] {
      StepKeeps(s, schedule[0], value, sizes);
      RunKeeps(Step(s, schedule[0]), schedule[1..], t, value, sizes);
    }
  }

  ghost predicate IsMaximum(m: nat, value: nat, sizes: seq<nat>) {
    && value <= m && (m == value || m in sizes)
    && forall i :: 0 <= i < |sizes| ==> sizes[i] <= m
  }

  ghost predicate AllFinished(s: State) {
    forall i :: 0 <= i < |s.jobs| ==> s.jobs[i].Finished?
  }

  /** When all jobs are done the value is the maximum of the initial value and all sizes. */
  lemma MaximumReached(s: State, schedule: seq<nat>, t: State, value: nat, sizes: seq<nat>)
    requires Initial(s, value, sizes) && Runs(s, schedule, t) && AllFinished(t)
    ensures IsMaximum(t.value, value, sizes)
  {
    RunKeeps(s, schedule, t, value, sizes);
  }

  // ----- every run ends -----

  /** Jobs that will still move after a success elsewhere, and jobs whose next compare-exchange fails. */
  function Unfinished(jobs: seq<Job>): nat {
    if jobs == [] then 0
    else Unfinished(jobs[..|jobs| - 1]) + if jobs[|jobs| - 1].Finished? then 0 else 1
  }

  predicate Behind(job: Job, value: nat) {
    job.Waiting? || (job.Looping? && job.seen != value)
  }

  function BehindCount(jobs: seq<Job>, value: nat): nat {
    if jobs == [] then 0
    else BehindCount(jobs[..|jobs| - 1], value) + if Behind(jobs[|jobs| - 1], value) then 1 else 0
  }

  lemma {:induction false} UnfinishedUpdate(jobs: seq<Job>, i: nat, job: Job)
    requires i < |jobs|
    ensures Unfinished(jobs[i := job]) ==
            Unfinished(jobs) - (if jobs[i].Finished? then 0 else 1) + (if job.Finished? then 0 else 1)
  {
    var n := |jobs| - 1;
    if i == n {
      assert jobs[i := job][..n] == jobs[..n];
    } else {
      UnfinishedUpdate(jobs[..n], i, job);
      assert jobs[i := job][..n] == jobs[..n][i := job];
    }
  }

  lemma {:induction false} BehindUpdate(jobs: seq<Job>, i: nat, job: Job, value: nat)
    requires i < |jobs|
    ensures BehindCount(jobs[i := job], value) ==
            BehindCount(jobs, value) - (if Behind(jobs[i], value) then 1 else 0) + (if Behind(job, value) then 1 else 0)
  {
    var n := |jobs| - 1;
    if i == n {
      assert jobs[i := job][..n] == jobs[..n];
    } else {
      BehindUpdate(jobs[..n], i, job, value);
      assert jobs[i := job][..n] == jobs[..n][i := job];
    }
  }

  lemma {:induction false} BehindBounded(jobs: seq<Job>, value: nat)
    ensures BehindCount(jobs, value) <= Unfinished(jobs) <= |jobs|
  {
    if jobs != [] {
      BehindBounded(jobs[..|jobs| - 1], value);
    }
  }

  /** A bound on the number of steps still to come. */
  function Remaining(s: State): nat {
    Unfinished(s.jobs) * (|s.jobs| + 1) + BehindCount(s.jobs, s.value)
  }

  lemma OneLess(u: nat, c: nat)
    requires u > 0
    ensures u * c == (u - 1) * c + c
  {}

  lemma StepDecreases(s: State, i: nat)
    requires i < |s.jobs| && !s.jobs[i].Finished?
    ensures Remaining(Step(s, i)) < Remaining(s)
  {
    var t, n := Step(s, i), |s.jobs|;
    UnfinishedUpdate(s.jobs, i, t.jobs[i]);
    BehindUpdate(s.jobs, i, t.jobs[i], s.value);
    BehindBounded(t.jobs, t.value);
    assert t.jobs == s.jobs[i := t.jobs[i]];
    if t.jobs[i].Finished? {
      OneLess(Unfinished(s.jobs), n + 1);
    }
  }

  /** No interleaving lets the jobs spin forever: a run of n jobs has at most n * (n + 2) steps. */
  lemma {:induction false} RunBounded(s: State, schedule: seq<nat>, t: State)
    requires Runs(s, schedule, t)
    ensures |schedule| + Remaining(t) <= Remaining(s)
    decreases |schedule|
  {
    if schedule != [] {
      StepDecreases(s, schedule[0]);
      RunBounded(Step(s, schedule[0]), schedule[1..], t);
    }
  }

  lemma RunsEnd(s: State, schedule: seq<nat>, t: State, value: nat, sizes: seq<nat>)
    requires Initial(s, value, sizes) && Runs(s, schedule, t)
    ensures |schedule| <= |sizes| * (|sizes| + 2)
  {
    RunBounded(s, schedule, t);
    BehindBounded(s.jobs, s.value);
    Products(Unfinished(s.jobs), |sizes|, |sizes| + 1);
    Distribute(|sizes|);
  }

  lemma Products(a: nat, b: nat, c: nat)
    requires a <= b
    ensures a * c <= b * c
  {
    var d: nat := b - a;
    assert (a + d) * c == a * c + d * c;
  }

  lemma Distribute(n: nat)
    ensures n * (n + 1) + n == n * (n + 2)
  {}
}
