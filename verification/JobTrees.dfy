/** Jobs that submit sub-jobs to their own worker and wait for them, on top of the pool machine. */
module JobTrees {
  import opened Options
  import opened PoolMachine

  /** The body of a job, as far as the pool can tell.  `Submit` is `this_worker::submit`, whose
      future is the next one of the job; `Await(k, ..)` gets the k-th of these futures and adds its
      value to what the job returns; `Yield` stands for anything else that may suspend the fiber
      for a while.  A job's tree of sub-jobs is finite because the datatype is. */
  datatype Program =
    | Return(v: int)
    | Yield(rest: Program)
    | Submit(child: Program, rest: Program)
    | Await(k: nat, rest: Program)

  /** What the job returns if its sub-jobs return what they mean; `vals` are the values of the
      futures it holds and `acc` is the sum so far. */
  function Denote(p: Program, vals: seq<int>, acc: int): int {
    match p
    case Return(v) => acc + v
    case Yield(rest) => Denote(rest, vals, acc)
    case Submit(child, rest) => Denote(rest, vals + [Denote(child, [], 0)], acc)
    case Await(k, rest) => Denote(rest, vals, acc + if k < |vals| then vals[k] else 0)
  }

  function Meaning(p: Program): int { Denote(p, [], 0) }

  /** Only futures the job already holds are awaited; `n` of them it holds from the start. */
  predicate WellFormed(p: Program, n: nat) {
    match p
    case Return(_) => true
    case Yield(rest) => WellFormed(rest, n)
    case Submit(child, rest) => WellFormed(child, 0) && WellFormed(rest, n + 1)
    case Await(k, rest) => k < n && WellFormed(rest, n)
  }

  /** The jobs below `p`, and those among them that ever wait. */
  function SubJobs(p: Program): nat {
    match p
    case Return(_) => 0
    case Yield(rest) => SubJobs(rest)
    case Submit(child, rest) => 1 + SubJobs(child) + SubJobs(rest)
    case Await(_, rest) => SubJobs(rest)
  }

  predicate Waits(p: Program) {
    match p
    case Return(_) => false
    case Yield(rest) => Waits(rest)
    case Submit(_, rest) => Waits(rest)
    case Await(_, _) => true
  }

  function SubWaiters(p: Program): nat
    decreases p, 0
  {
    match p
    case Return(_) => 0
    case Yield(rest) => SubWaiters(rest)
    case Submit(child, rest) => Waiters(child) + SubWaiters(rest)
    case Await(_, rest) => SubWaiters(rest)
  }

  function Waiters(p: Program): nat
    decreases p, 1
  {
    (if Waits(p) then 1 else 0) + SubWaiters(p)
  }

  datatype Outcome = Pending | Value(v: int) | Raised

  /** A submitted job; its number is that of its future in the pool machine.
      `failed`: a future it awaited was broken or carried an exception. */
  datatype Job = Job(prog: Program, rest: Program, subs: seq<nat>, acc: int, failed: bool, outcome: Outcome)

  function NewJob(p: Program): Job { Job(p, p, [], 0, false, Pending) }

  /** `roots` are the jobs other threads have still to submit, in any order. */
  datatype Tree = Tree(pool: State, jobs: seq<Job>, roots: seq<Program>)

  function Begin(roots: seq<Program>): Tree { Tree(INITIAL, [], roots) }

  datatype Step =
    | Sys(a: Action)                           // the pool's own actions, and Finish of a job
    | SubmitRoot(i: nat, woken: Option<nat>)
    | SubmitChild(f: nat, woken: Option<nat>)
    | Resume(f: nat)                           // from a Yield
    | Get(f: nat)                              // the awaited future is ready

  /** Fiber `f` is inside a job whose remaining body is at hand. */
  predicate Runs(t: Tree, f: nat) {
    f < |t.pool.fibers| && t.pool.fibers[f].pc.Running? && t.pool.fibers[f].pc.w < |t.jobs|
  }

  function JobOf(t: Tree, f: nat): Job
    requires Runs(t, f)
  {
    t.jobs[t.pool.fibers[f].pc.w]
  }

  predicate Resolved(t: Tree, w: nat) {
    && w < |t.jobs| && w < |t.pool.futures|
    && (t.jobs[w].outcome != Pending || t.pool.futures[w].broken > 0)
  }

  ghost predicate CanStep(cfg: Pool, t: Tree, st: Step) {
    match st
    case Sys(a) =>
      && !a.Push? && Enabled(cfg, t.pool, a)
      && (a.Finish? ==> Runs(t, a.f) && JobOf(t, a.f).rest.Return?)
    case SubmitRoot(i, woken) => i < |t.roots| && Enabled(cfg, t.pool, Push(woken))
    case SubmitChild(f, woken) => Runs(t, f) && JobOf(t, f).rest.Submit? && Enabled(cfg, t.pool, Push(woken))
    case Resume(f) => Runs(t, f) && JobOf(t, f).rest.Yield? && Enabled(cfg, t.pool, Finish(f))
    case Get(f) =>
      && Runs(t, f) && JobOf(t, f).rest.Await? && Enabled(cfg, t.pool, Finish(f))
      && JobOf(t, f).rest.k < |JobOf(t, f).subs| && Resolved(t, JobOf(t, f).subs[JobOf(t, f).rest.k])
  }

  function Ended(j: Job): Job
    requires j.rest.Return?
  {
    j.(outcome := if j.failed then Raised else Value(j.acc + j.rest.v))
  }

  /** `get` on a future that is broken or carries an exception throws out of the job. */
  function Got(j: Job, from: Outcome): Job
    requires j.rest.Await?
  {
    if from.Value? then j.(rest := j.rest.rest, acc := j.acc + from.v)
    else j.(rest := Return(0), failed := true)
  }

  ghost function DoStep(cfg: Pool, t: Tree, st: Step): Tree
    requires CanStep(cfg, t, st)
  {
    match st
    case Sys(a) =>
      var pool := Apply(cfg, t.pool, a);
      if a.Finish? then Tree(pool, t.jobs[t.pool.fibers[a.f].pc.w := Ended(JobOf(t, a.f))], t.roots)
      else t.(pool := pool)
    case SubmitRoot(i, woken) =>
      Tree(SubmitJob(t.pool, woken), t.jobs + [NewJob(t.roots[i])], t.roots[..i] + t.roots[i + 1..])
    case SubmitChild(f, woken) =>
      var j := JobOf(t, f);
      var parent := j.(rest := j.rest.rest, subs := j.subs + [|t.jobs|]);
      Tree(SubmitJob(t.pool, woken), t.jobs[t.pool.fibers[f].pc.w := parent] + [NewJob(j.rest.child)], t.roots)
    case Resume(f) =>
      var j := JobOf(t, f);
      t.(jobs := t.jobs[t.pool.fibers[f].pc.w := j.(rest := j.rest.rest)])
    case Get(f) =>
      var j := JobOf(t, f);
      t.(jobs := t.jobs[t.pool.fibers[f].pc.w := Got(j, t.jobs[j.subs[j.rest.k]].outcome)])
  }

  ghost predicate CanRun(cfg: Pool, t: Tree, run: seq<Step>)
    decreases |run|
  {
    run == [] || (CanStep(cfg, t, run[0]) && CanRun(cfg, DoStep(cfg, t, run[0]), run[1..]))
  }

  ghost function DoRun(cfg: Pool, t: Tree, run: seq<Step>): Tree
    requires CanRun(cfg, t, run)
    decreases |run|
  {
    if run == [] then t else DoRun(cfg, DoStep(cfg, t, run[0]), run[1..])
  }
}
