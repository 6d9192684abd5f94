/** The Fibonacci job graph, end to end. */
module Fibonacci {
  import opened Sums
  import opened PoolMachine
  import opened JobTrees
  import opened JobValues
  import opened JobProgress

  function Fib(n: nat): nat
    requires n >= 1
  {
    if n <= 2 then 1 else Fib(n - 2) + Fib(n - 1)
  }

  /** A job that submits two sub-jobs and adds up their results. */
  function FibProgram(n: nat): Program
    requires n >= 1
  {
    if n <= 2 then Return(1)
    else Submit(FibProgram(n - 2), Submit(FibProgram(n - 1), Await(0, Await(1, Return(0)))))
  }

  lemma {:induction false} FibMeaning(n: nat)
    requires n >= 1
    ensures WellFormed(FibProgram(n), 0) && Meaning(FibProgram(n)) == Fib(n)
  {
    if n > 2 {
      FibMeaning(n - 2);
      FibMeaning(n - 1);
      var sum := Await(0, Await(1, Return(0)));
      var vals := [Fib(n - 2) as int] + [Fib(n - 1)];
      assert WellFormed(Await(1, Return(0)), 2) && WellFormed(sum, 2);
      assert Denote(Await(1, Return(0)), vals, vals[0]) == vals[0] + vals[1];
      assert Denote(sum, vals, 0) == vals[0] + vals[1];
      var second := Submit(FibProgram(n - 1), sum);
      assert WellFormed(second, 1);
      assert Denote(second, [Fib(n - 2) as int], 0) == Denote(sum, vals, 0);
      assert [] + [Meaning(FibProgram(n - 2))] == [Fib(n - 2) as int];
    }
  }

  lemma AwaitsOnly(k: nat, rest: Program)
    ensures SubJobs(Await(k, rest)) == SubJobs(rest) && SubWaiters(Await(k, rest)) == SubWaiters(rest)
    ensures Waits(Await(k, rest))
  {
  }

  lemma PairJobs(a: Program, b: Program, end: Program)
    requires SubJobs(end) == 0 && SubWaiters(end) == 0 && Waits(end)
    ensures JobCount(Submit(a, Submit(b, end))) == 1 + JobCount(a) + JobCount(b)
    ensures Waiters(Submit(a, Submit(b, end))) == 1 + Waiters(a) + Waiters(b)
  {
    var second := Submit(b, end);
    assert SubJobs(second) == 1 + SubJobs(b) && SubWaiters(second) == Waiters(b) && Waits(second);
  }

  /** One job a call: 2 * Fib(n) - 1 of them, of which Fib(n) - 1 wait. */
  lemma {:induction false} FibJobs(n: nat)
    requires n >= 1
    ensures JobCount(FibProgram(n)) == 2 * Fib(n) - 1
    ensures Waiters(FibProgram(n)) == Fib(n) - 1
  {
    if n > 2 {
      FibJobs(n - 2);
      FibJobs(n - 1);
      AwaitsOnly(1, Return(0));
      AwaitsOnly(0, Await(1, Return(0)));
      PairJobs(FibProgram(n - 2), FibProgram(n - 1), Await(0, Await(1, Return(0))));
    }
  }

  // ---------------------------------------------------------------- the root is job number 0

  ghost predicate RootFirst(t: Tree, p: Program) {
    if t.jobs == [] then t.roots == [p] else t.jobs[0].prog == p
  }

  lemma StepKeepsRootFirst(cfg: Pool, t: Tree, st: Step, p: Program)
    requires RootFirst(t, p) && CanStep(cfg, t, st)
    ensures RootFirst(DoStep(cfg, t, st), p)
  {
  }

  lemma {:induction false} RunKeepsRootFirst(cfg: Pool, t: Tree, run: seq<Step>, p: Program)
    requires RootFirst(t, p) && CanRun(cfg, t, run)
    ensures RootFirst(DoRun(cfg, t, run), p)
    decreases |run|
  {
    if run != [] {
      StepKeepsRootFirst(cfg, t, run[0], p);
      RunKeepsRootFirst(cfg, DoStep(cfg, t, run[0]), run[1..], p);
    }
  }

  /** With at least Fib(n) fibers no schedule of `fibonacci(n)` gets stuck before close; each ends,
      spurious wake-ups aside; and when it has ended, the root has returned Fib(n) and exactly
      2 * Fib(n) - 1 jobs have run. */
  lemma FibonacciEndToEnd(cfg: Pool, n: nat, run: seq<Step>)
    requires n >= 1 && Fib(n) <= cfg.Min()
    requires CanRun(cfg, Begin([FibProgram(n)]), run)
    requires DoRun(cfg, Begin([FibProgram(n)]), run).pool.q.open
    ensures var t := DoRun(cfg, Begin([FibProgram(n)]), run);
            && GoesOn(cfg, t)
            && Work(run) <= 11 + Effort(FibProgram(n)) + 3 * cfg.Min() + 1 + SpuriousWakeUps(run)
            && (Over(t) ==> |t.jobs| == 2 * Fib(n) - 1 && t.jobs[0].outcome == Value(Fib(n)))
  {
    var roots := [FibProgram(n)];
    FibMeaning(n);
    FibJobs(n);
    assert roots[..0] == [];
    assert Sum(roots, Waiters) == Fib(n) - 1 && Sum(roots, JobCount) == 2 * Fib(n) - 1;
    assert Sum(roots, RootEffort) == 11 + Effort(FibProgram(n));
    JobTreesProgress(cfg, roots, run);
    EveryRunEnds(cfg, roots, run);
    RunKeepsRootFirst(cfg, Begin(roots), run, FibProgram(n));
    if Over(DoRun(cfg, Begin(roots), run)) {
      OverMeansAllValues(cfg, roots, run);
    }
  }

  /** The example of the documentation: nine jobs for fibonacci(5). */
  lemma NineJobsForFive()
    ensures Fib(5) == 5 && JobCount(FibProgram(5)) == 9
  {
    FibJobs(5);
  }

  // ---------------------------------------------------------------- the loop of the tests

  newtype int32 = x: int | -0x8000_0000 <= x < 0x8000_0000

  /** The iterative version: the same value for n >= 3, and -1 below, without overflow. */
  method IterativeFibonacci(n: int32) returns (third: int32)
    requires n >= 3 ==> Fib(n as nat) < 0x8000_0000
    ensures n >= 3 ==> third as int == Fib(n as nat)
    ensures n < 3 ==> third == -1
  {
    var first, second: int32 := 1, 1;
    third := -1;
    var i: int32 := 2;
    while i < n
      invariant 2 <= i && (n >= 2 ==> i <= n) && (n <= 2 ==> i == 2)
      invariant first as int == Fib(i as nat - 1) && second as int == Fib(i as nat)
      invariant if i == 2 then third == -1 else third == second
    {
      FibGrows(i as nat + 1, n as nat);
      third := first + second;
      first := second;
      second := third;
      i := i + 1;
    }
  }

  lemma {:induction false} FibGrows(m: nat, n: nat)
    requires 1 <= m <= n
    ensures Fib(m) <= Fib(n)
    decreases n
  {
    if m < n {
      FibGrows(m, n - 1);
    }
  }
}
