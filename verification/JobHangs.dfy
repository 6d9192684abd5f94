/** The other half of `JobShutdown`: whatever the trees, if one of their jobs ever waits and the pool
    has a fiber, there is a schedule that leaves the master waiting in `join` for ever.  One fiber
    alone works until its job waits; then the queue is closed over the jobs still in it. */
module JobHangs {
  import opened Options
  import opened Sums
  import opened PoolMachine
  import PoolInvariant
  import PoolSteps
  import opened JobTrees
  import opened JobValues
  import opened JobProgress
  import opened JobSchedules
  import opened JobDeadlock
  import opened JobShutdown

  // ---------------------------------------------------------------- one fiber works alone

  /** Fiber 0 is in its loop; no other fiber has started. */
  ghost predicate LonePool(s: State) {
    && s.fault == NoFault && s.master.AtRendezvous? && !s.destroyed
    && s.q.open && s.q.waiting == {} && s.spawned == 1
    && |s.fibers| >= 1 && s.fibers[0].id == 0 && InLoop(s.fibers[0].pc)
    && (forall f | 1 <= f < |s.fibers| :: s.fibers[f].pc.Ready?)
  }

  predicate StillPending(jobs: seq<Job>, w: nat) { w < |jobs| && jobs[w].outcome.Pending? }

  /** No job has got past a wait: those in the queue are untouched, and so are the sub-jobs of the
      one that fiber 0 runs. */
  ghost predicate LoneJobs(jobs: seq<Job>, pc: Pc) {
    && (forall w: nat | w < |jobs| :: Waits(jobs[w].prog) ==> Waits(jobs[w].rest))
    && (forall w: nat | w < |jobs| && jobs[w].outcome.Pending? && pc != Running(w) :: jobs[w].subs == [])
    && (pc.Running? && pc.w < |jobs| ==> forall i | 0 <= i < |jobs[pc.w].subs| :: StillPending(jobs, jobs[pc.w].subs[i]))
  }

  ghost predicate Lone(cfg: Pool, t: Tree, total: nat, waiters: nat) {
    && TreeInv(cfg, t) && OpenInv(t, total, waiters) && t.roots == []
    && LonePool(t.pool) && LoneJobs(t.jobs, t.pool.fibers[0].pc)
  }

  /** What one step of fiber 0 has to show. */
  ghost predicate LoneMove(cfg: Pool, t: Tree, st: Step) {
    && CanStep(cfg, t, st) && Truthful(t, st) && Productive(st)
    && var t' := DoStep(cfg, t, st);
       t'.roots == t.roots && LonePool(t'.pool) && LoneJobs(t'.jobs, t'.pool.fibers[0].pc)
  }

  lemma OthersReady(t: Tree)
    requires LonePool(t.pool)
    ensures |t.pool.fibers| > 1 <==> exists g: nat :: g != 0 && CanGoOn(t, g)
  {
    if |t.pool.fibers| > 1 {
      assert CanGoOn(t, 1);
    }
  }

  /** With nothing queued and nothing in hand every job is over, and none ever waits. */
  lemma IdleMeansNobodyWaits(cfg: Pool, t: Tree, total: nat, waiters: nat)
    requires Lone(cfg, t, total, waiters) && t.pool.q.items == []
    requires !t.pool.fibers[0].pc.SpawnTest? && !t.pool.fibers[0].pc.Running?
    ensures waiters == 0
  {
    forall w: nat | w < |t.jobs| ensures WaitBudget(t.jobs[w]) == 0 {
      assert PoolInvariant.Tracked(t.pool.futures[w], w, t.pool.q.items, t.pool.fibers);
    }
    SumZero(t.jobs, WaitBudget);
  }

  lemma LonePops(cfg: Pool, t: Tree)
    requires LonePool(t.pool) && LoneJobs(t.jobs, t.pool.fibers[0].pc) && t.pool.fibers[0].pc.InPop?
    requires t.pool.q.items != [] && StillPending(t.jobs, t.pool.q.items[0])
    ensures LoneMove(cfg, t, Sys(TryPop(0)))
  {
  }

  lemma SpawnKeepsLone(s: State, ready: bool, id: nat)
    requires LonePool(s) && PoolInvariant.MapInv(s) && s.fibers[0].pc.SpawnTest? && Fresh(s, id)
    ensures LonePool(SpawnStep(s, 0, ready, id))
    ensures SpawnStep(s, 0, ready, id).fibers[0].pc == Running(s.fibers[0].pc.w)
  {
  }

  lemma LoneSpawns(cfg: Pool, t: Tree) returns (st: Step)
    requires LonePool(t.pool) && LoneJobs(t.jobs, t.pool.fibers[0].pc) && t.pool.fibers[0].pc.SpawnTest?
    requires PoolInvariant.MapInv(t.pool) && StillPending(t.jobs, t.pool.fibers[0].pc.w)
    ensures LoneMove(cfg, t, st)
  {
    OthersReady(t);
    var id := PoolSteps.UnusedId(t.pool.fibers);
    st := Sys(Spawn(0, |t.pool.fibers| > 1, id));
    SpawnKeepsLone(t.pool, |t.pool.fibers| > 1, id);
  }

  lemma LoneRetires(cfg: Pool, t: Tree) returns (st: Step)
    requires LonePool(t.pool) && LoneJobs(t.jobs, t.pool.fibers[0].pc) && t.pool.fibers[0].pc.RetireTest?
    requires cfg.Min() >= 1
    ensures LoneMove(cfg, t, st)
  {
    OthersReady(t);
    st := Sys(Retire(0, |t.pool.fibers| > 1));
  }

  lemma LoneRuns(cfg: Pool, t: Tree, st: Step)
    requires LonePool(t.pool) && LoneJobs(t.jobs, t.pool.fibers[0].pc) && t.pool.fibers[0].pc.Running?
    requires StillPending(t.jobs, t.pool.fibers[0].pc.w)
    requires match JobOf(t, 0).rest
             case Return(_) => st == Sys(Finish(0)) && !DetachesLive(t.pool)
             case Yield(_) => st == Resume(0)
             case Submit(_, _) => st == SubmitChild(0, None)
             case Await(_, _) => false
    ensures LoneMove(cfg, t, st)
  {
  }

  /** The wait has come. */
  lemma LoneWaits(cfg: Pool, t: Tree, total: nat, waiters: nat)
    requires Lone(cfg, t, total, waiters) && Runs(t, 0) && JobOf(t, 0).rest.Await?
    ensures Blocked(t, 0)
  {
    assert OnCourse(t.jobs, t.pool.fibers[0].pc.w);
    assert StillPending(t.jobs, JobOf(t, 0).subs[JobOf(t, 0).rest.k]);
  }

  lemma LoneStep(cfg: Pool, t: Tree, total: nat, waiters: nat) returns (st: Step)
    requires Lone(cfg, t, total, waiters) && waiters >= 1 && cfg.Min() >= 1 && !Blocked(t, 0)
    ensures LoneMove(cfg, t, st)
  {
    match t.pool.fibers[0].pc
    case LoopTest => st := Sys(Test(0));
    case InPop =>
      if t.pool.q.items == [] {
        IdleMeansNobodyWaits(cfg, t, total, waiters);
      }
      QueuedIsUnresolved(cfg, t, t.pool.q.items[0]);
      st := Sys(TryPop(0));
      LonePops(cfg, t);
    case SpawnTest(_) =>
      HeldIsUnresolved(cfg, t, 0);
      st := LoneSpawns(cfg, t);
    case RetireTest => st := LoneRetires(cfg, t);
    case Running(w) =>
      HeldIsUnresolved(cfg, t, 0);
      if t.jobs[w].rest.Await? {
        LoneWaits(cfg, t, total, waiters);
      } else {
        PoolSteps.DetachKeepsMap(t.pool);
        st := if t.jobs[w].rest.Return? then Sys(Finish(0))
              else if t.jobs[w].rest.Yield? then Resume(0)
              else SubmitChild(0, None);
        LoneRuns(cfg, t, st);
      }
  }

  /** Fiber 0 works until its job waits; the effort that is left bounds how long that takes. */
  lemma {:induction false} LoneUntilBlocked(cfg: Pool, t: Tree, total: nat, waiters: nat) returns (t': Tree)
    requires Lone(cfg, t, total, waiters) && waiters >= 1 && cfg.Min() >= 1
    ensures Reaches(cfg, t, t') && Lone(cfg, t', total, waiters) && Blocked(t', 0)
    decreases Measure(cfg, t)
  {
    if Blocked(t, 0) {
      NoStep(cfg, t);
      t' := t;
    } else {
      var st := LoneStep(cfg, t, total, waiters);
      var t1 := DoStep(cfg, t, st);
      OneStep(cfg, t, st);
      StepKeepsTree(cfg, t, st);
      StepKeepsOpen(cfg, t, st, total, waiters);
      StepMeasure(cfg, t, st, total, waiters);
      MeasureIsNat(cfg, t);
      t' := LoneUntilBlocked(cfg, t1, total, waiters);
      Further(cfg, t, t1, t');
    }
  }

  // ---------------------------------------------------------------- up to there

  /** All first fibers are there, none has started; the jobs that are submitted are queued. */
  ghost predicate Gathering(t: Tree, n: nat) {
    var s := t.pool;
    && s.fault == NoFault && s.master.AtRendezvous? && !s.destroyed && s.q.open && s.q.waiting == {} && s.spawned == 0
    && |s.fibers| == n
    && (forall f: nat | f < n :: s.fibers[f].pc.Ready? && s.fibers[f].id == f)
    && (forall w: nat | w < |t.jobs| :: t.jobs[w] == NewJob(t.jobs[w].prog))
  }

  lemma {:induction false} AllRootsCome(cfg: Pool, t: Tree, n: nat) returns (t': Tree)
    requires Gathering(t, n)
    ensures Reaches(cfg, t, t') && Gathering(t', n) && t'.roots == []
    decreases |t.roots|
  {
    if t.roots == [] {
      NoStep(cfg, t);
      t' := t;
    } else {
      OneStep(cfg, t, SubmitRoot(0, None));
      var t1 := DoStep(cfg, t, SubmitRoot(0, None));
      t' := AllRootsCome(cfg, t1, n);
      Further(cfg, t, t1, t');
    }
  }

  lemma FirstStarts(cfg: Pool, t: Tree, n: nat)
    requires Gathering(t, n) && n >= 1
    ensures CanStep(cfg, t, Sys(Start(0))) && Truthful(t, Sys(Start(0)))
    ensures var t' := DoStep(cfg, t, Sys(Start(0)));
            t'.roots == t.roots && LonePool(t'.pool) && LoneJobs(t'.jobs, t'.pool.fibers[0].pc)
  {
  }

  /** What holds in any state that a schedule with true answers reaches. */
  lemma ReachedKeeps(cfg: Pool, roots: seq<Program>, t: Tree)
    requires forall i | 0 <= i < |roots| :: WellFormed(roots[i], 0)
    requires Reaches(cfg, Begin(roots), t)
    ensures TreeInv(cfg, t) && OpenInv(t, Sum(roots, JobCount), Sum(roots, Waiters))
  {
    var run :| Leads(cfg, Begin(roots), run, t);
    LeadsByRun(cfg, Begin(roots), run, t);
    BeginTree(cfg, roots);
    BeginOpen(roots);
    RunKeepsTree(cfg, Begin(roots), run);
    RunKeepsOpen(cfg, Begin(roots), run, Sum(roots, JobCount), Sum(roots, Waiters));
  }

  lemma LoneComes(cfg: Pool, roots: seq<Program>) returns (t: Tree)
    requires forall i | 0 <= i < |roots| :: WellFormed(roots[i], 0)
    requires Sum(roots, Waiters) >= 1 && cfg.Min() >= 1
    ensures Reaches(cfg, Begin(roots), t) && Lone(cfg, t, Sum(roots, JobCount), Sum(roots, Waiters))
  {
    var t0 := CrewComes(cfg, roots);
    var t1 := AllRootsCome(cfg, t0, cfg.Min());
    Further(cfg, Begin(roots), t0, t1);
    FirstStarts(cfg, t1, cfg.Min());
    FurtherStep(cfg, Begin(roots), t1, Sys(Start(0)));
    t := DoStep(cfg, t1, Sys(Start(0)));
    ReachedKeeps(cfg, roots, t);
  }

  // ---------------------------------------------------------------- close

  /** The queue is closed over the job for which fiber 0 waits, and the master waits for fiber 0; the
      fibers up to `f` have left, the others have not started. */
  ghost predicate Closing(t: Tree, f: nat) {
    var s := t.pool;
    && 1 <= f <= |s.fibers| && s.fault == NoFault && !s.q.open
    && s.master == Joining(0, Some(0)) && Blocked(t, 0)
    && (forall g: nat | 1 <= g < f :: s.fibers[g].pc.Exited?)
    && (forall g: nat | f <= g < |s.fibers| :: s.fibers[g].pc.Ready?)
  }

  lemma FirstHasEntry(s: State)
    requires LonePool(s) && PoolInvariant.MapInv(s)
    ensures 0 in s.fibs && s.fibs[0].handle == Some(0)
  {
    assert s.fibers[0].id in s.fibs;
  }

  lemma CloseOver(cfg: Pool, t: Tree) returns (t': Tree)
    requires LonePool(t.pool) && Blocked(t, 0) && 0 in t.pool.fibs && t.pool.fibs[0].handle == Some(0)
    ensures Reaches(cfg, t, t') && Closing(t', 1)
  {
    OneStep(cfg, t, Sys(Notify));
    var t1 := DoStep(cfg, t, Sys(Notify));
    FurtherStep(cfg, t, t1, Sys(Shut(Some(0))));
    t' := DoStep(cfg, t1, Sys(Shut(Some(0))));
  }

  lemma NextLeaves(cfg: Pool, t: Tree, f: nat) returns (t': Tree)
    requires Closing(t, f) && f < |t.pool.fibers|
    ensures Reaches(cfg, t, t') && Closing(t', f + 1) && |t'.pool.fibers| == |t.pool.fibers|
  {
    OneStep(cfg, t, Sys(Start(f)));
    var t1 := DoStep(cfg, t, Sys(Start(f)));
    FurtherStep(cfg, t, t1, Sys(Test(f)));
    t' := DoStep(cfg, t1, Sys(Test(f)));
  }

  lemma {:induction false} OthersLeave(cfg: Pool, t: Tree, f: nat) returns (t': Tree)
    requires Closing(t, f)
    ensures Reaches(cfg, t, t') && Closing(t', |t'.pool.fibers|)
    decreases |t.pool.fibers| - f
  {
    if f == |t.pool.fibers| {
      NoStep(cfg, t);
      t' := t;
    } else {
      var t1 := NextLeaves(cfg, t, f);
      t' := OthersLeave(cfg, t1, f + 1);
      Further(cfg, t, t1, t');
    }
  }

  lemma ClosingHangs(cfg: Pool, t: Tree, st: Step)
    requires Closing(t, |t.pool.fibers|)
    ensures !(Headway(st) && CanStep(cfg, t, st))
  {
  }

  // ---------------------------------------------------------------- the theorem

  /** A schedule of these trees after whose last step the queue is closed. */
  ghost predicate ClosedRun(cfg: Pool, roots: seq<Program>, run: seq<Step>) {
    CanRun(cfg, Begin(roots), run) && !DoRun(cfg, Begin(roots), run).pool.q.open
  }

  lemma HangComes(cfg: Pool, roots: seq<Program>) returns (t: Tree)
    requires forall i | 0 <= i < |roots| :: WellFormed(roots[i], 0)
    requires Sum(roots, Waiters) >= 1 && cfg.Min() >= 1
    ensures Reaches(cfg, Begin(roots), t) && Closing(t, |t.pool.fibers|)
  {
    var begin, total, waiters := Begin(roots), Sum(roots, JobCount), Sum(roots, Waiters);
    var t0 := LoneComes(cfg, roots);
    var t1 := LoneUntilBlocked(cfg, t0, total, waiters);
    Further(cfg, begin, t0, t1);
    FirstHasEntry(t1.pool);
    var t2 := CloseOver(cfg, t1);
    Further(cfg, begin, t1, t2);
    t := OthersLeave(cfg, t2, 1);
    Further(cfg, begin, t2, t);
  }

  /** For any pool with a fiber, and any trees one of whose jobs ever waits: a schedule that leaves
      the master waiting in `join` for ever. */
  lemma ShutdownHangs(cfg: Pool, roots: seq<Program>) returns (run: seq<Step>)
    requires forall i | 0 <= i < |roots| :: WellFormed(roots[i], 0)
    requires Sum(roots, Waiters) >= 1 && cfg.Min() >= 1
    ensures ClosedRun(cfg, roots, run) && TruthfulRun(cfg, Begin(roots), run)
    ensures !ShutsDown(cfg, DoRun(cfg, Begin(roots), run))
  {
    var t := HangComes(cfg, roots);
    run :| Leads(cfg, Begin(roots), run, t);
    LeadsByRun(cfg, Begin(roots), run, t);
    forall st ensures !(Headway(st) && CanStep(cfg, t, st)) {
      ClosingHangs(cfg, t, st);
    }
  }

  /** After close every schedule of the trees `roots` can go on until the pool has returned (or, for
      a dynamic pool, has ended the program): exactly when none of their jobs ever waits, or the pool
      has no fibers; and no more often if only schedules count in which `has_ready_fibers` tells the
      truth.  With `EveryClosedRunEnds` this decides for any trees whether shutting down completes
      whatever the schedule. */
  lemma ShutdownCompletesExactly(cfg: Pool, roots: seq<Program>)
    requires forall i | 0 <= i < |roots| :: WellFormed(roots[i], 0)
    ensures (forall run :: ClosedRun(cfg, roots, run) ==> ShutsDown(cfg, DoRun(cfg, Begin(roots), run)))
            <==> Sum(roots, Waiters) == 0 || cfg.Min() == 0
    ensures (forall run :: ClosedRun(cfg, roots, run) && TruthfulRun(cfg, Begin(roots), run)
               ==> ShutsDown(cfg, DoRun(cfg, Begin(roots), run)))
            <==> Sum(roots, Waiters) == 0 || cfg.Min() == 0
  {
    if Sum(roots, Waiters) == 0 || cfg.Min() == 0 {
      forall run | ClosedRun(cfg, roots, run) ensures ShutsDown(cfg, DoRun(cfg, Begin(roots), run)) {
        ShutdownSucceeds(cfg, roots, run);
      }
    } else {
      var run := ShutdownHangs(cfg, roots);
    }
  }
}
