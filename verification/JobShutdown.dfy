/** Shutting down with jobs about.  Once the queue is closed every schedule ends after a bounded
    number of steps.  It ends with the pool returned if no job ever waits, or if every job that was
    submitted is over or broken.  What happens to the others is the subject of `JobHangs`. */
module JobShutdown {
  import opened Options
  import opened OrderedKeys
  import opened Sums
  import opened PoolMachine
  import PoolInvariant
  import PoolSteps
  import opened JobTrees
  import opened JobValues
  import opened JobProgress

  /** A step that brings a closed pool nearer to its end: work of a fiber, or a join that returns. */
  predicate Headway(st: Step) {
    OwnWork(st) || (st.Sys? && st.a.Join?)
  }

  /** `operator()` has returned, or the destruction of its map has ended the program. */
  ghost predicate Down(t: Tree) {
    t.pool.master.Returned? || t.pool.master.Aborted?
  }

  ghost predicate ShutsDown(cfg: Pool, t: Tree) {
    Down(t) || exists st :: Headway(st) && CanStep(cfg, t, st)
  }

  // ---------------------------------------------------------------- nobody goes on for ever

  function ClosedFiberEffort(x: Fiber): nat {
    match x.pc
    case Ready => 2
    case LoopTest => 1
    case InPop => 8
    case SpawnTest(_) => 7
    case Running(_) => 3
    case RetireTest => 2
    case Exited => 0
  }

  ghost function KeysAfter(fibs: map<nat, Entry>, key: nat): set<nat> {
    set k | k in fibs && key < k
  }

  /** The join that is under way and those ahead of it. */
  ghost function JoinsLeft(s: State): nat {
    match s.master
    case Joining(key, _) => 1 + |KeysAfter(s.fibs, key)|
    case _ => 0
  }

  ghost function ClosedPoolEffort(s: State): nat {
    Sum(s.fibers, ClosedFiberEffort) + JoinsLeft(s)
  }

  ghost function ClosedMeasure(t: Tree): nat {
    JobsEffort(t.jobs, t.roots) + ClosedPoolEffort(t.pool)
  }

  lemma MoveClosed(fibers: seq<Fiber>, f: nat, pc: Pc)
    requires f < |fibers|
    ensures Sum(MoveTo(fibers, f, pc), ClosedFiberEffort) + ClosedFiberEffort(fibers[f])
         == Sum(fibers, ClosedFiberEffort) + ClosedFiberEffort(fibers[f].(pc := pc))
  {
    SumUpdate(fibers, f, fibers[f].(pc := pc), ClosedFiberEffort);
  }

  /** One more key ahead, at most. */
  lemma NewKey(s: State, id: nat)
    ensures JoinsLeft(AddFiber(s, id)) <= JoinsLeft(s) + 1
  {
    if s.master.Joining? {
      var ahead, ahead' := KeysAfter(s.fibs, s.master.key), KeysAfter(AddFiber(s, id).fibs, s.master.key);
      assert ahead' - {id} <= ahead;
      SubsetSize(ahead' - {id}, ahead);
    }
  }

  lemma SpawnClosed(s: State, f: nat, ready: bool, id: nat)
    requires f < |s.fibers| && s.fibers[f].pc.SpawnTest?
    ensures ClosedPoolEffort(SpawnStep(s, f, ready, id)) < ClosedPoolEffort(s)
  {
    var w := s.fibers[f].pc.w;
    if Spawns(s, ready) {
      var s1 := AddFiber(s, id);
      NewKey(s, id);
      SumAppend(s.fibers, s1.fibers[|s.fibers|], ClosedFiberEffort);
      MoveClosed(s1.fibers, f, Running(w));
      assert JoinsLeft(SpawnStep(s, f, ready, id)) == JoinsLeft(s1);
    } else {
      MoveClosed(s.fibers, f, Running(w));
      assert JoinsLeft(SpawnStep(s, f, ready, id)) == JoinsLeft(s);
    }
  }

  /** A fiber moves and the keys of the map stay. */
  lemma WalkClosed(s: State, s': State, f: nat, pc: Pc)
    requires f < |s.fibers| && s'.fibers == MoveTo(s.fibers, f, pc)
    requires s'.master == s.master && s'.fibs.Keys == s.fibs.Keys
    requires ClosedFiberEffort(s.fibers[f].(pc := pc)) < ClosedFiberEffort(s.fibers[f])
    ensures ClosedPoolEffort(s') < ClosedPoolEffort(s)
  {
    MoveClosed(s.fibers, f, pc);
    assert s.master.Joining? ==> KeysAfter(s'.fibs, s.master.key) == KeysAfter(s.fibs, s.master.key);
  }

  lemma FiberStepClosed(cfg: Pool, s: State, a: Action)
    requires Enabled(cfg, s, a) && !s.q.open && (a.Start? || a.Test? || a.TryPop? || a.Finish?)
    ensures ClosedPoolEffort(Apply(cfg, s, a)) < ClosedPoolEffort(s)
  {
    var s' := Apply(cfg, s, a);
    WalkClosed(s, s', a.f, s'.fibers[a.f].pc);
  }

  lemma RetireClosed(cfg: Pool, s: State, f: nat, ready: bool)
    requires At(s, f, RetireTest) && s.fibers[f].id in s.fibs
    ensures ClosedPoolEffort(RetireStep(cfg, s, f, ready)) < ClosedPoolEffort(s)
  {
    var s' := RetireStep(cfg, s, f, ready);
    WalkClosed(s, s', f, s'.fibers[f].pc);
  }

  lemma JoinClosed(s: State, next: Option<nat>)
    requires s.master.Joining? && IsNext(s.fibs.Keys, s.master.key, next)
    ensures ClosedPoolEffort(JoinStep(s, next)) < ClosedPoolEffort(s)
  {
    if next.Some? {
      var ahead, ahead' := KeysAfter(s.fibs, s.master.key), KeysAfter(JoinStep(s, next).fibs, next.value);
      assert JoinStep(s, next).fibs.Keys == s.fibs.Keys;
      assert ahead' <= ahead - {next.value} && next.value in ahead;
      SubsetSize(ahead', ahead - {next.value});
    }
  }

  lemma PoolStepClosed(cfg: Pool, s: State, a: Action)
    requires PoolInvariant.Inv(cfg, s) && Enabled(cfg, s, a) && !s.q.open && !a.Push?
    ensures ClosedPoolEffort(Apply(cfg, s, a)) + (if Headway(Sys(a)) then 1 else 0) <= ClosedPoolEffort(s)
  {
    match a
    case Spawn(f, ready, id) => SpawnClosed(s, f, ready, id);
    case Join(next) => JoinClosed(s, next);
    case Retire(f, ready) =>
      PoolSteps.RetireFindsEntry(s, f);
      RetireClosed(cfg, s, f, ready);
    case Spurious(_) =>
    case Notify =>
    case Destroy =>
    case _ => FiberStepClosed(cfg, s, a);
  }

  lemma JobStepClosed(cfg: Pool, t: Tree, st: Step)
    requires CanStep(cfg, t, st) && !t.pool.q.open && !st.Sys?
    ensures ClosedMeasure(DoStep(cfg, t, st)) < ClosedMeasure(t)
  {
    JobStepEffort(cfg, t, st);
  }

  lemma StepClosed(cfg: Pool, t: Tree, st: Step)
    requires TreeInv(cfg, t) && CanStep(cfg, t, st) && !t.pool.q.open
    ensures !DoStep(cfg, t, st).pool.q.open
    ensures ClosedMeasure(DoStep(cfg, t, st)) + (if Headway(st) then 1 else 0) <= ClosedMeasure(t)
  {
    if st.Sys? {
      StaysClosed(cfg, t.pool, st.a);
      PoolStepClosed(cfg, t.pool, st.a);
      if st.a.Finish? {
        MoveJobsEffort(t.jobs, t.roots, t.pool.fibers[st.a.f].pc.w, Ended(JobOf(t, st.a.f)));
      }
    } else {
      JobStepClosed(cfg, t, st);
    }
  }

  function Headways(run: seq<Step>): nat {
    if run == [] then 0 else (if Headway(run[0]) then 1 else 0) + Headways(run[1..])
  }

  lemma {:induction false} ClosedRunIsBounded(cfg: Pool, t: Tree, run: seq<Step>)
    requires TreeInv(cfg, t) && CanRun(cfg, t, run) && !t.pool.q.open
    ensures !DoRun(cfg, t, run).pool.q.open
    ensures ClosedMeasure(DoRun(cfg, t, run)) + Headways(run) <= ClosedMeasure(t)
    decreases |run|
  {
    if run != [] {
      StepClosed(cfg, t, run[0]);
      StepKeepsTree(cfg, t, run[0]);
      ClosedRunIsBounded(cfg, DoStep(cfg, t, run[0]), run[1..]);
    }
  }

  /** After close every schedule comes to its end: the state at close bounds the steps of the
      fibers and of the join loop that follow, whatever the jobs and whoever still submits. */
  lemma EveryClosedRunEnds(cfg: Pool, roots: seq<Program>, run: seq<Step>, more: seq<Step>)
    requires forall i | 0 <= i < |roots| :: WellFormed(roots[i], 0)
    requires CanRun(cfg, Begin(roots), run) && !DoRun(cfg, Begin(roots), run).pool.q.open
    requires CanRun(cfg, DoRun(cfg, Begin(roots), run), more)
    ensures Headways(more) <= ClosedMeasure(DoRun(cfg, Begin(roots), run))
  {
    BeginTree(cfg, roots);
    RunKeepsTree(cfg, Begin(roots), run);
    ClosedRunIsBounded(cfg, DoRun(cfg, Begin(roots), run), more);
  }

  // ---------------------------------------------------------------- without waiting jobs

  ghost predicate NobodyWaits(t: Tree) {
    && (forall w: nat | w < |t.jobs| :: Waiters(t.jobs[w].rest) == 0)
    && (forall i | 0 <= i < |t.roots| :: Waiters(t.roots[i]) == 0)
  }

  lemma {:induction false} NobodyWaitsEver(cfg: Pool, t: Tree, run: seq<Step>)
    requires NobodyWaits(t) && CanRun(cfg, t, run)
    ensures NobodyWaits(DoRun(cfg, t, run))
    decreases |run|
  {
    if run != [] {
      StepKeepsNobodyWaits(cfg, t, run[0]);
      NobodyWaitsEver(cfg, DoStep(cfg, t, run[0]), run[1..]);
    }
  }

  lemma StepKeepsNobodyWaits(cfg: Pool, t: Tree, st: Step)
    requires NobodyWaits(t) && CanStep(cfg, t, st)
    ensures NobodyWaits(DoStep(cfg, t, st))
  {
  }

  lemma NoWaitersAtAll(roots: seq<Program>)
    requires Sum(roots, Waiters) == 0
    ensures NobodyWaits(Begin(roots))
  {
    forall i: nat | i < |roots| ensures Waiters(roots[i]) == 0 {
      if Waiters(roots[i]) >= 1 {
        SumBoundsCount(roots, Waiters, {i});
      }
    }
  }

  // ---------------------------------------------------------------- with no fiber blocked

  lemma ClosedGoesOn(cfg: Pool, t: Tree) returns (st: Step)
    requires TreeInv(cfg, t) && !t.pool.q.open && !Down(t)
    requires forall f: nat | f < |t.pool.fibers| :: !Blocked(t, f)
    ensures Headway(st) && CanStep(cfg, t, st)
  {
    var s := t.pool;
    if s.master.target.Some? && Live(s, s.master.target.value) {
      st := FiberCanGoOn(cfg, t, s.master.target.value);
    } else {
      var next := SomeNext(s.fibs.Keys, s.master.key);
      st := Sys(Join(next));
    }
  }

  lemma NotBlockedGoesOn(cfg: Pool, t: Tree)
    requires TreeInv(cfg, t) && !t.pool.q.open
    requires forall f: nat | f < |t.pool.fibers| :: !Blocked(t, f)
    ensures ShutsDown(cfg, t)
  {
    if !Down(t) {
      var st := ClosedGoesOn(cfg, t);
    }
  }

  /** Every job that was submitted is over, or its promise is broken. */
  ghost predicate Settled(t: Tree) {
    forall w: nat | w < |t.jobs| :: Resolved(t, w)
  }

  lemma QueuedIsUnresolved(cfg: Pool, t: Tree, w: nat)
    requires TreeInv(cfg, t) && w in t.pool.q.items
    ensures w < |t.jobs| && !Resolved(t, w)
  {
    assert t.pool.futures[w] == PENDING;
  }

  lemma HeldIsUnresolved(cfg: Pool, t: Tree, f: nat)
    requires TreeInv(cfg, t) && f < |t.pool.fibers| && (t.pool.fibers[f].pc.SpawnTest? || t.pool.fibers[f].pc.Running?)
    ensures t.pool.fibers[f].pc.w < |t.jobs| && !Resolved(t, t.pool.fibers[f].pc.w)
  {
    assert PoolInvariant.Holding(f, t.pool.fibers[f].pc, t.pool.futures);
  }

  /** Then no work is queued, and no fiber has one in its hands. */
  lemma SettledMeansIdle(cfg: Pool, t: Tree)
    requires TreeInv(cfg, t) && Settled(t)
    ensures t.pool.q.items == []
    ensures forall f: nat | f < |t.pool.fibers| :: !t.pool.fibers[f].pc.SpawnTest? && !t.pool.fibers[f].pc.Running?
  {
    if t.pool.q.items != [] {
      QueuedIsUnresolved(cfg, t, t.pool.q.items[0]);
      assert false;
    }
    forall f: nat | f < |t.pool.fibers| ensures !t.pool.fibers[f].pc.SpawnTest? && !t.pool.fibers[f].pc.Running? {
      if t.pool.fibers[f].pc.SpawnTest? || t.pool.fibers[f].pc.Running? {
        HeldIsUnresolved(cfg, t, f);
        assert false;
      }
    }
  }

  /** A pool action that is not part of running a job mends no promise. */
  lemma IdleStepMendsNothing(cfg: Pool, s: State, a: Action)
    requires Enabled(cfg, s, a) && s.q.items == [] && !a.Push? && !a.Spawn? && !a.Finish?
    ensures var s' := Apply(cfg, s, a);
            |s'.futures| == |s.futures| &&
            forall w: nat | w < |s.futures| :: s'.futures[w].broken >= s.futures[w].broken
  {
  }

  /** Whatever is still submitted to a closed queue is refused, and broken at once. */
  lemma StepKeepsSettled(cfg: Pool, t: Tree, st: Step)
    requires TreeInv(cfg, t) && Settled(t) && !t.pool.q.open && CanStep(cfg, t, st)
    ensures Settled(DoStep(cfg, t, st)) && !DoStep(cfg, t, st).pool.q.open
  {
    SettledMeansIdle(cfg, t);
    var t' := DoStep(cfg, t, st);
    if st.Sys? {
      StaysClosed(cfg, t.pool, st.a);
      IdleStepMendsNothing(cfg, t.pool, st.a);
    }
    forall w: nat | w < |t'.jobs| ensures Resolved(t', w) {
      assert w < |t.jobs| ==> Resolved(t, w);
    }
  }

  lemma {:induction false} SettledForGood(cfg: Pool, t: Tree, run: seq<Step>)
    requires TreeInv(cfg, t) && Settled(t) && !t.pool.q.open && CanRun(cfg, t, run)
    ensures TreeInv(cfg, DoRun(cfg, t, run)) && Settled(DoRun(cfg, t, run)) && !DoRun(cfg, t, run).pool.q.open
    decreases |run|
  {
    if run != [] {
      StepKeepsTree(cfg, t, run[0]);
      StepKeepsSettled(cfg, t, run[0]);
      SettledForGood(cfg, DoStep(cfg, t, run[0]), run[1..]);
    }
  }

  /** For any trees, waiting jobs or not, and either pool: if every job that was submitted is over or
      broken when the queue is closed, every schedule from then on can go on until the pool has
      returned, whoever still submits.  This is what a caller relies on who waits for all futures
      and shuts down then. */
  lemma ShutdownAfterAllDone(cfg: Pool, roots: seq<Program>, run: seq<Step>, more: seq<Step>)
    requires forall i | 0 <= i < |roots| :: WellFormed(roots[i], 0)
    requires CanRun(cfg, Begin(roots), run)
    requires !DoRun(cfg, Begin(roots), run).pool.q.open && Settled(DoRun(cfg, Begin(roots), run))
    requires CanRun(cfg, DoRun(cfg, Begin(roots), run), more)
    ensures ShutsDown(cfg, DoRun(cfg, DoRun(cfg, Begin(roots), run), more))
  {
    BeginTree(cfg, roots);
    RunKeepsTree(cfg, Begin(roots), run);
    var t := DoRun(cfg, Begin(roots), run);
    SettledForGood(cfg, t, more);
    SettledMeansIdle(cfg, DoRun(cfg, t, more));
    NotBlockedGoesOn(cfg, DoRun(cfg, t, more));
  }

  // ---------------------------------------------------------------- without fibers

  lemma StepKeepsEmptyPool(cfg: Pool, s: State, a: Action)
    requires PoolInvariant.Inv(cfg, s) && Enabled(cfg, s, a) && cfg.Min() == 0
    requires s.fibers == [] && s.fibs == map[] && !s.master.Joining?
    ensures var s' := Apply(cfg, s, a); s'.fibers == [] && s'.fibs == map[] && !s'.master.Joining?
  {
  }

  lemma {:induction false} EmptyPoolEver(cfg: Pool, t: Tree, run: seq<Step>)
    requires TreeInv(cfg, t) && CanRun(cfg, t, run) && cfg.Min() == 0
    requires t.pool.fibers == [] && t.pool.fibs == map[] && !t.pool.master.Joining?
    ensures DoRun(cfg, t, run).pool.fibers == [] && !DoRun(cfg, t, run).pool.master.Joining?
    decreases |run|
  {
    if run != [] {
      if run[0].Sys? {
        StepKeepsEmptyPool(cfg, t.pool, run[0].a);
      }
      StepKeepsTree(cfg, t, run[0]);
      EmptyPoolEver(cfg, DoStep(cfg, t, run[0]), run[1..]);
    }
  }

  lemma SucceedsWithoutWaiters(cfg: Pool, roots: seq<Program>, run: seq<Step>)
    requires TreeInv(cfg, Begin(roots)) && CanRun(cfg, Begin(roots), run) && Sum(roots, Waiters) == 0
    requires !DoRun(cfg, Begin(roots), run).pool.q.open
    ensures ShutsDown(cfg, DoRun(cfg, Begin(roots), run))
  {
    RunKeepsTree(cfg, Begin(roots), run);
    NoWaitersAtAll(roots);
    NobodyWaitsEver(cfg, Begin(roots), run);
    NotBlockedGoesOn(cfg, DoRun(cfg, Begin(roots), run));
  }

  lemma SucceedsWithoutFibers(cfg: Pool, roots: seq<Program>, run: seq<Step>)
    requires TreeInv(cfg, Begin(roots)) && CanRun(cfg, Begin(roots), run) && cfg.Min() == 0
    requires !DoRun(cfg, Begin(roots), run).pool.q.open
    ensures ShutsDown(cfg, DoRun(cfg, Begin(roots), run))
  {
    RunKeepsTree(cfg, Begin(roots), run);
    EmptyPoolEver(cfg, Begin(roots), run);
  }

  lemma ShutdownSucceeds(cfg: Pool, roots: seq<Program>, run: seq<Step>)
    requires forall i | 0 <= i < |roots| :: WellFormed(roots[i], 0)
    requires CanRun(cfg, Begin(roots), run) && !DoRun(cfg, Begin(roots), run).pool.q.open
    requires Sum(roots, Waiters) == 0 || cfg.Min() == 0
    ensures ShutsDown(cfg, DoRun(cfg, Begin(roots), run))
  {
    BeginTree(cfg, roots);
    if cfg.Min() == 0 {
      SucceedsWithoutFibers(cfg, roots, run);
    } else {
      SucceedsWithoutWaiters(cfg, roots, run);
    }
  }
}
