/** Progress of job trees: with more fibers than jobs that ever wait, no schedule gets stuck
    before close, and no schedule goes on for ever. */
module JobProgress {
  import opened Options
  import opened Sums
  import Q = QueueProtocol
  import opened PoolMachine
  import PoolInvariant
  import PoolSteps
  import opened JobTrees
  import opened JobValues

  // ---------------------------------------------------------------- what an open run keeps

  function JobCount(p: Program): nat { 1 + SubJobs(p) }

  function SubsLeft(j: Job): nat { SubJobs(j.rest) }

  /** A job that waits, and those it has still to submit. */
  function WaitBudget(j: Job): nat { (if Waits(j.prog) then 1 else 0) + SubWaiters(j.rest) }

  /** While the queue is open nothing has gone wrong. */
  ghost predicate Healthy(pool: State, jobs: seq<Job>) {
    && (forall w: nat | w < |jobs| :: !jobs[w].failed && !jobs[w].outcome.Raised?)
    && (forall w: nat | w < |pool.futures| :: pool.futures[w].broken == 0)
  }

  /** No job is lost or invented: `total` of them in all, `waiters` of which wait. */
  ghost predicate Conserved(jobs: seq<Job>, roots: seq<Program>, total: nat, waiters: nat) {
    && |jobs| + Sum(jobs, SubsLeft) + Sum(roots, JobCount) == total
    && Sum(jobs, WaitBudget) + Sum(roots, Waiters) == waiters
    && (forall w: nat | w < |jobs| :: Waits(jobs[w].rest) ==> Waits(jobs[w].prog))
  }

  ghost predicate OpenInv(t: Tree, total: nat, waiters: nat) {
    t.pool.q.open ==> Healthy(t.pool, t.jobs) && Conserved(t.jobs, t.roots, total, waiters)
  }

  /** A job moves on in its body; what it submits is accounted for by its own record. */
  lemma MoveConserves(jobs: seq<Job>, w: nat, j: Job)
    requires w < |jobs|
    ensures Sum(jobs[w := j], SubsLeft) + SubJobs(jobs[w].rest) == Sum(jobs, SubsLeft) + SubJobs(j.rest)
    ensures j.prog == jobs[w].prog ==>
              Sum(jobs[w := j], WaitBudget) + SubWaiters(jobs[w].rest) == Sum(jobs, WaitBudget) + SubWaiters(j.rest)
  {
    SumUpdate(jobs, w, j, SubsLeft);
    SumUpdate(jobs, w, j, WaitBudget);
  }

  lemma NewConserves(jobs: seq<Job>, p: Program)
    ensures Sum(jobs + [NewJob(p)], SubsLeft) == Sum(jobs, SubsLeft) + SubJobs(p)
    ensures Sum(jobs + [NewJob(p)], WaitBudget) == Sum(jobs, WaitBudget) + Waiters(p)
  {
    SumAppend(jobs, NewJob(p), SubsLeft);
    SumAppend(jobs, NewJob(p), WaitBudget);
  }

  lemma PopBreaksNothing(cfg: Pool, s: State, f: nat)
    requires f < |s.fibers| && forall w: nat | w < |s.futures| :: s.futures[w].broken == 0
    ensures var s' := PopStep(cfg, s, f); forall w: nat | w < |s'.futures| :: s'.futures[w].broken == 0
  {
  }

  lemma SpawnBreaksNothing(s: State, f: nat, ready: bool, id: nat)
    requires f < |s.fibers| && s.fibers[f].pc.SpawnTest?
    requires forall w: nat | w < |s.futures| :: s.futures[w].broken == 0
    ensures var s' := SpawnStep(s, f, ready, id); forall w: nat | w < |s'.futures| :: s'.futures[w].broken == 0
  {
  }

  /** Promises are broken only by a closed queue. */
  lemma OpenStepBreaksNothing(cfg: Pool, s: State, a: Action)
    requires Enabled(cfg, s, a) && Apply(cfg, s, a).q.open
    requires PoolInvariant.HistoryInv(s) && (s.master.Returned? ==> !s.q.open)
    requires s.q.open ==> forall w: nat | w < |s.futures| :: s.futures[w].broken == 0
    ensures s.q.open
    ensures var s' := Apply(cfg, s, a); forall w: nat | w < |s'.futures| :: s'.futures[w].broken == 0
  {
    match a
    case TryPop(f) =>
      if s.q.open {
        PopBreaksNothing(cfg, s, f);
      }
    case Spawn(f, ready, id) =>
      if s.q.open {
        SpawnBreaksNothing(s, f, ready, id);
      }
    case _ =>
  }

  lemma StaysClosed(cfg: Pool, s: State, a: Action)
    requires Enabled(cfg, s, a) && !s.q.open
    ensures !Apply(cfg, s, a).q.open
  {
  }

  /** The accounts after a job has moved on without submitting. */
  lemma MoveKeepsAccounts(jobs: seq<Job>, roots: seq<Program>, w: nat, j: Job, total: nat, waiters: nat)
    requires Conserved(jobs, roots, total, waiters) && w < |jobs| && j.prog == jobs[w].prog
    requires SubJobs(j.rest) == SubJobs(jobs[w].rest) && SubWaiters(j.rest) == SubWaiters(jobs[w].rest)
    requires Waits(j.rest) ==> Waits(jobs[w].rest)
    ensures Conserved(jobs[w := j], roots, total, waiters)
  {
    MoveConserves(jobs, w, j);
  }

  lemma RootKeepsAccounts(jobs: seq<Job>, roots: seq<Program>, i: nat, total: nat, waiters: nat)
    requires Conserved(jobs, roots, total, waiters) && i < |roots|
    ensures Conserved(jobs + [NewJob(roots[i])], roots[..i] + roots[i + 1..], total, waiters)
  {
    NewConserves(jobs, roots[i]);
    SumRemove(roots, i, JobCount);
    SumRemove(roots, i, Waiters);
  }

  lemma ChildKeepsAccounts(jobs: seq<Job>, roots: seq<Program>, w: nat, subs: seq<nat>, total: nat, waiters: nat)
    requires Conserved(jobs, roots, total, waiters) && w < |jobs| && jobs[w].rest.Submit?
    ensures var j := jobs[w];
            Conserved(jobs[w := j.(rest := j.rest.rest, subs := subs)] + [NewJob(j.rest.child)], roots, total, waiters)
  {
    var j := jobs[w];
    var parent := j.(rest := j.rest.rest, subs := subs);
    MoveConserves(jobs, w, parent);
    NewConserves(jobs[w := parent], j.rest.child);
  }

  lemma StepKeepsHealthy(cfg: Pool, t: Tree, st: Step)
    requires Healthy(t.pool, t.jobs) && CanStep(cfg, t, st)
    requires PoolInvariant.HistoryInv(t.pool) && (t.pool.master.Returned? ==> !t.pool.q.open)
    requires t.pool.q.open && DoStep(cfg, t, st).pool.q.open
    ensures Healthy(DoStep(cfg, t, st).pool, DoStep(cfg, t, st).jobs)
  {
    match st
    case Sys(a) => OpenStepBreaksNothing(cfg, t.pool, a);
    case SubmitRoot(i, woken) => OpenStepBreaksNothing(cfg, t.pool, Push(woken));
    case SubmitChild(f, woken) => OpenStepBreaksNothing(cfg, t.pool, Push(woken));
    case _ =>
  }

  lemma StepKeepsAccounts(cfg: Pool, t: Tree, st: Step, total: nat, waiters: nat)
    requires Healthy(t.pool, t.jobs) && BooksInv(t.pool, t.jobs) && CanStep(cfg, t, st)
    requires Conserved(t.jobs, t.roots, total, waiters)
    ensures Conserved(DoStep(cfg, t, st).jobs, DoStep(cfg, t, st).roots, total, waiters)
  {
    match st
    case Sys(a) =>
      if a.Finish? {
        MoveKeepsAccounts(t.jobs, t.roots, t.pool.fibers[a.f].pc.w, Ended(JobOf(t, a.f)), total, waiters);
      }
    case SubmitRoot(i, _) => RootKeepsAccounts(t.jobs, t.roots, i, total, waiters);
    case SubmitChild(f, _) =>
      ChildKeepsAccounts(t.jobs, t.roots, t.pool.fibers[f].pc.w, JobOf(t, f).subs + [|t.jobs|], total, waiters);
    case Resume(f) =>
      var j := JobOf(t, f);
      MoveKeepsAccounts(t.jobs, t.roots, t.pool.fibers[f].pc.w, j.(rest := j.rest.rest), total, waiters);
    case Get(f) =>
      var j := JobOf(t, f);
      MoveKeepsAccounts(t.jobs, t.roots, t.pool.fibers[f].pc.w, Got(j, t.jobs[j.subs[j.rest.k]].outcome), total, waiters);
  }

  lemma StepKeepsOpen(cfg: Pool, t: Tree, st: Step, total: nat, waiters: nat)
    requires TreeInv(cfg, t) && OpenInv(t, total, waiters) && CanStep(cfg, t, st)
    ensures OpenInv(DoStep(cfg, t, st), total, waiters)
  {
    if st.Sys? && !t.pool.q.open {
      StaysClosed(cfg, t.pool, st.a);
    }
    if DoStep(cfg, t, st).pool.q.open {
      StepKeepsHealthy(cfg, t, st);
      StepKeepsAccounts(cfg, t, st, total, waiters);
    }
  }

  lemma {:induction false} RunKeepsOpen(cfg: Pool, t: Tree, run: seq<Step>, total: nat, waiters: nat)
    requires TreeInv(cfg, t) && OpenInv(t, total, waiters) && CanRun(cfg, t, run)
    ensures OpenInv(DoRun(cfg, t, run), total, waiters)
    decreases |run|
  {
    if run != [] {
      StepKeepsTree(cfg, t, run[0]);
      StepKeepsOpen(cfg, t, run[0], total, waiters);
      RunKeepsOpen(cfg, DoStep(cfg, t, run[0]), run[1..], total, waiters);
    }
  }

  lemma BeginOpen(roots: seq<Program>)
    ensures OpenInv(Begin(roots), Sum(roots, JobCount), Sum(roots, Waiters))
  {
  }

  // ---------------------------------------------------------------- nobody can be stuck

  /** A step that gets work done: not a spurious wake-up, and not part of shutting down. */
  predicate Productive(st: Step) {
    st.Sys? ==> st.a.Create? || st.a.Start? || st.a.Test? || st.a.TryPop? || st.a.Spawn? || st.a.Finish? || st.a.Retire?
  }

  /** Fiber `f` waits inside its job for a sub-job that is not over. */
  ghost predicate Blocked(t: Tree, f: nat) {
    && Runs(t, f) && JobOf(t, f).rest.Await?
    && JobOf(t, f).rest.k < |JobOf(t, f).subs|
    && !Resolved(t, JobOf(t, f).subs[JobOf(t, f).rest.k])
  }

  /** No fiber can go on: each has left, sleeps in `pop`, or waits for a sub-job. */
  ghost predicate AllHeld(t: Tree) {
    forall f: nat | f < |t.pool.fibers| ::
      t.pool.fibers[f].pc.Exited? || (t.pool.fibers[f].pc.InPop? && f in t.pool.q.waiting) || Blocked(t, f)
  }

  /** Different fibers run different jobs. */
  ghost predicate OneFiberPerJob(fibers: seq<Fiber>) {
    forall f: nat, g: nat | f < |fibers| && g < |fibers| && fibers[f].pc.Running? && fibers[f].pc == fibers[g].pc :: f == g
  }

  lemma FatesAreSeparate(s: State)
    requires PoolInvariant.FateInv(s)
    ensures OneFiberPerJob(s.fibers)
  {
    forall f: nat, g: nat | f < |s.fibers| && g < |s.fibers| && s.fibers[f].pc.Running? && s.fibers[f].pc == s.fibers[g].pc
      ensures f == g
    {
      assert PoolInvariant.Holding(f, s.fibers[f].pc, s.futures) && PoolInvariant.Holding(g, s.fibers[g].pc, s.futures);
      assert [f][0] == [g][0];
    }
  }

  /** A set of running fibers is no larger than the set of jobs they run. */
  lemma {:induction false} JobsOf(fibers: seq<Fiber>, fs: set<nat>) returns (ws: set<nat>)
    requires OneFiberPerJob(fibers) && forall f | f in fs :: f < |fibers| && fibers[f].pc.Running?
    ensures |ws| == |fs|
    ensures forall w | w in ws :: exists f :: f in fs && fibers[f].pc == Running(w)
    decreases |fs|
  {
    ws := {};
    if fs != {} {
      var f :| f in fs;
      var rest := JobsOf(fibers, fs - {f});
      ws := rest + {fibers[f].pc.w};
    }
  }

  /** Pigeonhole: no more fibers are blocked than there are jobs that wait. */
  lemma BlockedAreFew(t: Tree, fs: set<nat>, total: nat, waiters: nat)
    requires PoolInvariant.FateInv(t.pool) && Conserved(t.jobs, t.roots, total, waiters)
    requires forall f | f in fs :: Blocked(t, f)
    ensures |fs| <= waiters
  {
    FatesAreSeparate(t.pool);
    var ws := JobsOf(t.pool.fibers, fs);
    forall w | w in ws ensures w < |t.jobs| && WaitBudget(t.jobs[w]) >= 1 {
      var f :| f in fs && t.pool.fibers[f].pc == Running(w);
      assert Blocked(t, f);
    }
    SumBoundsCount(t.jobs, WaitBudget, ws);
  }

  /** If all fibers are held and there are more of them than waiting jobs, one of them sleeps in
      `pop`, and so the queue is empty. */
  lemma HeldMeansEmptyQueue(cfg: Pool, t: Tree, total: nat, waiters: nat)
    requires PoolInvariant.Inv(cfg, t.pool) && Conserved(t.jobs, t.roots, total, waiters) && t.pool.q.open
    requires !t.pool.master.Starting? && waiters < cfg.Min() && AllHeld(t)
    ensures t.pool.q.items == []
  {
    var s := t.pool;
    assert ReadySet(s.fibers) == {};
    var fs := set f: nat | f in LoopSet(s.fibers) && Blocked(t, f);
    BlockedAreFew(t, fs, total, waiters);
    if LoopSet(s.fibers) <= fs {
      SubsetSize(LoopSet(s.fibers), fs);
      assert false;
    }
    var f :| f in LoopSet(s.fibers) && f !in fs;
    assert f in s.q.waiting;
    assert forall g | g in s.q.notified :: At(s, g, InPop);
    assert forall g :: g !in s.q.notified;
  }

  /** A pending job is somewhere: queued, popped, or running and waiting for a younger pending
      job.  With nobody able to go on and nothing queued, none can be pending. */
  lemma {:induction false} HeldMeansOver(cfg: Pool, t: Tree, total: nat, waiters: nat, w: nat)
    requires TreeInv(cfg, t) && OpenInv(t, total, waiters) && t.pool.q.open
    requires t.pool.q.items == [] && AllHeld(t) && w < |t.jobs|
    ensures t.jobs[w].outcome != Pending
    decreases |t.jobs| - w
  {
    if t.jobs[w].outcome == Pending {
      var fut := t.pool.futures[w];
      assert PoolInvariant.Tracked(fut, w, t.pool.q.items, t.pool.fibers);
      assert fut.fulfilled == 0 && fut.broken == 0;
      var f := fut.poppers[0];
      assert Blocked(t, f) && t.pool.fibers[f].pc == Running(w);
      assert SubsYounger(t.jobs, w);
      HeldMeansOver(cfg, t, total, waiters, t.jobs[w].subs[t.jobs[w].rest.k]);
    }
  }

  /** A productive step of the pool or of one of its jobs, not of an outside thread. */
  predicate OwnWork(st: Step) {
    Productive(st) && !st.SubmitRoot?
  }

  /** A fiber that is neither out, nor asleep, nor blocked can go on, before close and after. */
  lemma FiberCanGoOn(cfg: Pool, t: Tree, f: nat) returns (st: Step)
    requires TreeInv(cfg, t) && !t.pool.master.Aborted? && f < |t.pool.fibers|
    requires !(t.pool.fibers[f].pc.Exited? || (t.pool.fibers[f].pc.InPop? && f in t.pool.q.waiting) || Blocked(t, f))
    ensures OwnWork(st) && CanStep(cfg, t, st)
  {
    var s := t.pool;
    match s.fibers[f].pc
    case Ready => st := Sys(Start(f));
    case LoopTest => st := Sys(Test(f));
    case InPop => st := Sys(TryPop(f));
    case SpawnTest(w) =>
      var id := PoolSteps.UnusedId(s.fibers);
      st := Sys(Spawn(f, true, id));
    case RetireTest => st := Sys(Retire(f, true));
    case Running(w) =>
      assert PoolInvariant.Holding(f, s.fibers[f].pc, s.futures);
      assert OnCourse(t.jobs, w);
      match t.jobs[w].rest
      case Return(_) => st := Sys(Finish(f));
      case Yield(_) => st := Resume(f);
      case Submit(_, _) =>
        var woken := Q.SomeWaker(s.q);
        st := SubmitChild(f, woken);
      case Await(_, _) => st := Get(f);
  }

  /** Every submitted job is over. */
  ghost predicate AllDone(t: Tree) {
    forall w: nat | w < |t.jobs| :: t.jobs[w].outcome != Pending
  }

  /** The whole tree has been submitted and every job is over. */
  ghost predicate Over(t: Tree) {
    t.roots == [] && AllDone(t)
  }

  /** No submitted job is left unfinished, or the pool itself can get on with the work, whether or
      not any other thread ever submits again. */
  ghost predicate GoesOn(cfg: Pool, t: Tree) {
    AllDone(t) || exists st :: OwnWork(st) && CanStep(cfg, t, st)
  }

  /** Before close, with more fibers than waiting jobs: while a submitted job is unfinished, the
      pool can take a productive step. */
  lemma NobodyStuck(cfg: Pool, t: Tree, total: nat, waiters: nat) returns (st: Step)
    requires TreeInv(cfg, t) && OpenInv(t, total, waiters) && t.pool.q.open
    requires waiters < cfg.Min() && !AllDone(t)
    ensures OwnWork(st) && CanStep(cfg, t, st)
  {
    if t.pool.master.Starting? {
      st := Sys(Create(seq(cfg.Min(), (i: nat) => i)));
    } else {
      var w: nat :| w < |t.jobs| && t.jobs[w].outcome == Pending;
      if AllHeld(t) {
        HeldMeansEmptyQueue(cfg, t, total, waiters);
        HeldMeansOver(cfg, t, total, waiters, w);
        assert false;
      }
      var f: nat :| f < |t.pool.fibers| &&
        !(t.pool.fibers[f].pc.Exited? || (t.pool.fibers[f].pc.InPop? && f in t.pool.q.waiting) || Blocked(t, f));
      st := FiberCanGoOn(cfg, t, f);
    }
  }

  // ---------------------------------------------------------------- nobody goes on for ever

  function Effort(p: Program): nat {
    match p
    case Return(_) => 0
    case Yield(rest) => 1 + Effort(rest)
    case Submit(child, rest) => 11 + Effort(child) + Effort(rest)
    case Await(_, rest) => 1 + Effort(rest)
  }

  function EffortLeft(j: Job): nat { Effort(j.rest) }

  function RootEffort(p: Program): nat { 11 + Effort(p) }

  function FiberEffort(x: Fiber): nat {
    match x.pc
    case Ready => 3
    case LoopTest => 2
    case InPop => 1
    case SpawnTest(_) => 9
    case Running(_) => 4
    case RetireTest => 3
    case Exited => 0
  }

  /** The pool's share of what is left to do: a queued job carries the effort of being popped and
      finished, a sleeping fiber none. */
  ghost function PoolEffort(cfg: Pool, s: State): int {
    9 * |s.q.items| + Sum(s.fibers, FiberEffort) - |s.q.waiting|
    + (if s.master.Starting? then 3 * cfg.Min() + 1 else 0)
  }

  ghost function Measure(cfg: Pool, t: Tree): int {
    JobsEffort(t.jobs, t.roots) + PoolEffort(cfg, t.pool)
  }

  lemma MeasureIsNat(cfg: Pool, t: Tree)
    requires PoolInvariant.QueueInv(t.pool)
    ensures Measure(cfg, t) >= 0
  {
    forall f | f in t.pool.q.waiting ensures f < |t.pool.fibers| && FiberEffort(t.pool.fibers[f]) >= 1 {
      assert At(t.pool, f, InPop);
    }
    SumBoundsCount(t.pool.fibers, FiberEffort, t.pool.q.waiting);
  }

  lemma MoveEffort(fibers: seq<Fiber>, f: nat, pc: Pc)
    requires f < |fibers|
    ensures Sum(MoveTo(fibers, f, pc), FiberEffort) + FiberEffort(fibers[f])
         == Sum(fibers, FiberEffort) + FiberEffort(fibers[f].(pc := pc))
  {
    SumUpdate(fibers, f, fibers[f].(pc := pc), FiberEffort);
  }

  lemma {:induction false} NewCrewEffort(fibers: seq<Fiber>)
    requires forall i | 0 <= i < |fibers| :: fibers[i].pc.Ready?
    ensures Sum(fibers, FiberEffort) == 3 * |fibers|
  {
    if fibers != [] {
      NewCrewEffort(fibers[..|fibers| - 1]);
    }
  }

  lemma SpawnEffort(fibers: seq<Fiber>, f: nat, x: Fiber, w: nat)
    requires f < |fibers| && fibers[f].pc.SpawnTest? && x.pc.Ready?
    ensures Sum(MoveTo(fibers, f, Running(w)), FiberEffort) + 5 == Sum(fibers, FiberEffort)
    ensures Sum(MoveTo(fibers + [x], f, Running(w)), FiberEffort) + 2 == Sum(fibers, FiberEffort)
  {
    MoveEffort(fibers, f, Running(w));
    SumAppend(fibers, x, FiberEffort);
    MoveEffort(fibers + [x], f, Running(w));
  }

  lemma PopEffort(cfg: Pool, s: State, f: nat)
    requires PoolInvariant.QueueInv(s) && At(s, f, InPop) && f !in s.q.waiting && s.q.open
    ensures PoolEffort(cfg, PopStep(cfg, s, f)) < PoolEffort(cfg, s)
  {
    if s.q.items != [] {
      MoveEffort(s.fibers, f, PopStep(cfg, s, f).fibers[f].pc);
    } else {
      assert |s.q.waiting + {f}| == |s.q.waiting| + 1;
    }
  }

  lemma PushEffort(cfg: Pool, s: State, woken: Option<nat>)
    requires s.q.open && Q.CanWake(s.q, woken)
    ensures PoolEffort(cfg, SubmitJob(s, woken)) <= PoolEffort(cfg, s) + 10
  {
    if woken.Some? {
      assert |s.q.waiting - {woken.value}| == |s.q.waiting| - 1;
    }
  }

  lemma WalkLowersEffort(cfg: Pool, s: State, a: Action)
    requires Enabled(cfg, s, a) && s.q.open && (a.Start? || a.Test? || a.Finish?)
    ensures PoolEffort(cfg, Apply(cfg, s, a)) < PoolEffort(cfg, s)
  {
    MoveEffort(s.fibers, a.f, Apply(cfg, s, a).fibers[a.f].pc);
  }

  lemma RetireLowersEffort(cfg: Pool, s: State, f: nat, ready: bool)
    requires Enabled(cfg, s, Retire(f, ready)) && s.fibers[f].id in s.fibs
    ensures PoolEffort(cfg, RetireStep(cfg, s, f, ready)) < PoolEffort(cfg, s)
  {
    MoveEffort(s.fibers, f, RetireStep(cfg, s, f, ready).fibers[f].pc);
  }

  lemma SpawnLowersEffort(cfg: Pool, s: State, f: nat, ready: bool, id: nat)
    requires f < |s.fibers| && s.fibers[f].pc.SpawnTest?
    ensures PoolEffort(cfg, SpawnStep(s, f, ready, id)) < PoolEffort(cfg, s)
  {
    SpawnEffort(s.fibers, f, Fiber(id, Ready, s.master.Joining? && id <= s.master.key), s.fibers[f].pc.w);
  }

  /** Every productive pool action leaves less to do, as long as the queue is open. */
  lemma PoolStepLowersEffort(cfg: Pool, s: State, a: Action)
    requires PoolInvariant.Inv(cfg, s) && Enabled(cfg, s, a) && s.q.open
    requires a.Create? || a.Start? || a.Test? || a.TryPop? || a.Spawn? || a.Finish? || a.Retire?
    ensures PoolEffort(cfg, Apply(cfg, s, a)) < PoolEffort(cfg, s)
  {
    match a
    case Create(ids) => NewCrewEffort(CreateFibers(s, ids).fibers);
    case TryPop(f) => PopEffort(cfg, s, f);
    case Spawn(f, ready, id) => SpawnLowersEffort(cfg, s, f, ready, id);
    case Retire(f, ready) =>
      PoolSteps.RetireFindsEntry(s, f);
      RetireLowersEffort(cfg, s, f, ready);
    case _ => WalkLowersEffort(cfg, s, a);
  }

  /** The other pool actions of an open run: a spurious wake-up gives one unit back. */
  lemma IdleStepEffort(cfg: Pool, s: State, a: Action)
    requires PoolInvariant.Inv(cfg, s) && Enabled(cfg, s, a) && Apply(cfg, s, a).q.open
    requires a.Spurious? || a.Notify? || a.Shut? || a.Join? || a.Destroy?
    ensures PoolEffort(cfg, Apply(cfg, s, a)) <= PoolEffort(cfg, s) + (if a.Spurious? then 1 else 0)
  {
    if a.Spurious? {
      assert |s.q.waiting - {a.f}| == |s.q.waiting| - 1;
    }
  }

  lemma SysLowersMeasure(cfg: Pool, t: Tree, a: Action)
    requires TreeInv(cfg, t) && CanStep(cfg, t, Sys(a)) && t.pool.q.open && Productive(Sys(a))
    ensures Measure(cfg, DoStep(cfg, t, Sys(a))) < Measure(cfg, t)
  {
    PoolStepLowersEffort(cfg, t.pool, a);
    if a.Finish? {
      SumUpdate(t.jobs, t.pool.fibers[a.f].pc.w, Ended(JobOf(t, a.f)), EffortLeft);
    }
  }

  ghost function JobsEffort(jobs: seq<Job>, roots: seq<Program>): nat {
    Sum(jobs, EffortLeft) + Sum(roots, RootEffort)
  }

  lemma RootJobsEffort(jobs: seq<Job>, roots: seq<Program>, i: nat)
    requires i < |roots|
    ensures JobsEffort(jobs + [NewJob(roots[i])], roots[..i] + roots[i + 1..]) + 11 == JobsEffort(jobs, roots)
  {
    SumAppend(jobs, NewJob(roots[i]), EffortLeft);
    SumRemove(roots, i, RootEffort);
  }

  lemma ChildJobsEffort(jobs: seq<Job>, roots: seq<Program>, w: nat, parent: Job)
    requires w < |jobs| && jobs[w].rest.Submit? && parent.rest == jobs[w].rest.rest
    ensures JobsEffort(jobs[w := parent] + [NewJob(jobs[w].rest.child)], roots) + 11 == JobsEffort(jobs, roots)
  {
    SumUpdate(jobs, w, parent, EffortLeft);
    SumAppend(jobs[w := parent], NewJob(jobs[w].rest.child), EffortLeft);
  }

  lemma MoveJobsEffort(jobs: seq<Job>, roots: seq<Program>, w: nat, j: Job)
    requires w < |jobs|
    ensures JobsEffort(jobs[w := j], roots) + EffortLeft(jobs[w]) == JobsEffort(jobs, roots) + EffortLeft(j)
  {
    SumUpdate(jobs, w, j, EffortLeft);
  }

  /** The jobs' share: a job step takes one unit from it, a submission eleven. */
  lemma JobStepEffort(cfg: Pool, t: Tree, st: Step)
    requires CanStep(cfg, t, st) && !st.Sys?
    ensures var t' := DoStep(cfg, t, st);
            JobsEffort(t'.jobs, t'.roots) + (if st.SubmitRoot? || st.SubmitChild? then 11 else 1) <= JobsEffort(t.jobs, t.roots)
  {
    match st
    case SubmitRoot(i, woken) => RootJobsEffort(t.jobs, t.roots, i);
    case SubmitChild(f, woken) =>
      var j := JobOf(t, f);
      var parent := j.(rest := j.rest.rest, subs := j.subs + [|t.jobs|]);
      ChildJobsEffort(t.jobs, t.roots, t.pool.fibers[f].pc.w, parent);
    case Resume(f) =>
      var j := JobOf(t, f);
      MoveJobsEffort(t.jobs, t.roots, t.pool.fibers[f].pc.w, j.(rest := j.rest.rest));
    case Get(f) =>
      var j := JobOf(t, f);
      MoveJobsEffort(t.jobs, t.roots, t.pool.fibers[f].pc.w, Got(j, t.jobs[j.subs[j.rest.k]].outcome));
  }

  lemma JobStepLowersMeasure(cfg: Pool, t: Tree, st: Step)
    requires CanStep(cfg, t, st) && t.pool.q.open && !st.Sys?
    ensures Measure(cfg, DoStep(cfg, t, st)) < Measure(cfg, t)
  {
    JobStepEffort(cfg, t, st);
    if st.SubmitRoot? || st.SubmitChild? {
      PushEffort(cfg, t.pool, st.woken);
    }
  }

  /** Productive steps and spurious wake-ups of a run. */
  function Work(run: seq<Step>): nat {
    if run == [] then 0 else (if Productive(run[0]) then 1 else 0) + Work(run[1..])
  }

  function SpuriousWakeUps(run: seq<Step>): nat {
    if run == [] then 0 else (if run[0].Sys? && run[0].a.Spurious? then 1 else 0) + SpuriousWakeUps(run[1..])
  }

  lemma StepMeasure(cfg: Pool, t: Tree, st: Step, total: nat, waiters: nat)
    requires TreeInv(cfg, t) && OpenInv(t, total, waiters) && CanStep(cfg, t, st) && DoStep(cfg, t, st).pool.q.open
    ensures t.pool.q.open
    ensures Measure(cfg, DoStep(cfg, t, st)) + (if Productive(st) then 1 else 0)
         <= Measure(cfg, t) + if st.Sys? && st.a.Spurious? then 1 else 0
  {
    if st.Sys? {
      if !t.pool.q.open {
        StaysClosed(cfg, t.pool, st.a);
      }
      if Productive(st) {
        SysLowersMeasure(cfg, t, st.a);
      } else {
        IdleStepEffort(cfg, t.pool, st.a);
      }
    } else {
      JobStepLowersMeasure(cfg, t, st);
    }
  }

  lemma {:induction false} RunIsBounded(cfg: Pool, t: Tree, run: seq<Step>, total: nat, waiters: nat)
    requires TreeInv(cfg, t) && OpenInv(t, total, waiters) && CanRun(cfg, t, run) && DoRun(cfg, t, run).pool.q.open
    ensures t.pool.q.open
    ensures Measure(cfg, DoRun(cfg, t, run)) + Work(run) <= Measure(cfg, t) + SpuriousWakeUps(run)
    decreases |run|
  {
    if run != [] {
      StepKeepsTree(cfg, t, run[0]);
      StepKeepsOpen(cfg, t, run[0], total, waiters);
      RunIsBounded(cfg, DoStep(cfg, t, run[0]), run[1..], total, waiters);
      StepMeasure(cfg, t, run[0], total, waiters);
    }
  }

  // ---------------------------------------------------------------- the theorem

  /** Before close every run is finite but for spurious wake-ups: its productive steps are bounded
      by the size of the job trees. */
  lemma EveryRunEnds(cfg: Pool, roots: seq<Program>, run: seq<Step>)
    requires forall i | 0 <= i < |roots| :: WellFormed(roots[i], 0)
    requires CanRun(cfg, Begin(roots), run) && DoRun(cfg, Begin(roots), run).pool.q.open
    ensures Work(run) <= Sum(roots, RootEffort) + 3 * cfg.Min() + 1 + SpuriousWakeUps(run)
  {
    var t := Begin(roots);
    BeginTree(cfg, roots);
    BeginOpen(roots);
    RunIsBounded(cfg, t, run, Sum(roots, JobCount), Sum(roots, Waiters));
    RunKeepsTree(cfg, t, run);
    MeasureIsNat(cfg, DoRun(cfg, t, run));
  }

  /** With more fibers (N, or Min) than jobs that ever wait, no reachable state before close is
      stuck with a submitted job unfinished: the pool can go on by itself. */
  lemma JobTreesProgress(cfg: Pool, roots: seq<Program>, run: seq<Step>)
    requires forall i | 0 <= i < |roots| :: WellFormed(roots[i], 0)
    requires Sum(roots, Waiters) < cfg.Min()
    requires CanRun(cfg, Begin(roots), run) && DoRun(cfg, Begin(roots), run).pool.q.open
    ensures GoesOn(cfg, DoRun(cfg, Begin(roots), run))
  {
    var t := DoRun(cfg, Begin(roots), run);
    BeginTree(cfg, roots);
    BeginOpen(roots);
    RunKeepsTree(cfg, Begin(roots), run);
    RunKeepsOpen(cfg, Begin(roots), run, Sum(roots, JobCount), Sum(roots, Waiters));
    if !AllDone(t) {
      var st := NobodyStuck(cfg, t, Sum(roots, JobCount), Sum(roots, Waiters));
    }
  }

  lemma OverMeansValues(t: Tree, total: nat, waiters: nat)
    requires Healthy(t.pool, t.jobs) && Conserved(t.jobs, t.roots, total, waiters)
    requires JobsInv(t.jobs) && BooksInv(t.pool, t.jobs) && Over(t)
    ensures |t.jobs| == total
    ensures forall w: nat | w < |t.jobs| :: t.jobs[w].outcome == Value(Meaning(t.jobs[w].prog))
  {
    SumZero(t.jobs, SubsLeft);
    forall w: nat | w < |t.jobs| ensures t.jobs[w].outcome == Value(Meaning(t.jobs[w].prog)) {
      assert OnCourse(t.jobs, w);
    }
  }

  /** And when everything is over before close, exactly the jobs of the trees have run, and each
      has returned what its program means. */
  lemma OverMeansAllValues(cfg: Pool, roots: seq<Program>, run: seq<Step>)
    requires forall i | 0 <= i < |roots| :: WellFormed(roots[i], 0)
    requires CanRun(cfg, Begin(roots), run) && DoRun(cfg, Begin(roots), run).pool.q.open
    requires Over(DoRun(cfg, Begin(roots), run))
    ensures var t := DoRun(cfg, Begin(roots), run);
            && |t.jobs| == Sum(roots, JobCount)
            && forall w: nat | w < |t.jobs| :: t.jobs[w].outcome == Value(Meaning(t.jobs[w].prog))
  {
    BeginTree(cfg, roots);
    BeginOpen(roots);
    RunKeepsTree(cfg, Begin(roots), run);
    RunKeepsOpen(cfg, Begin(roots), run, Sum(roots, JobCount), Sum(roots, Waiters));
    OverMeansValues(DoRun(cfg, Begin(roots), run), Sum(roots, JobCount), Sum(roots, Waiters));
  }
}
