/** The condition of the progress theorem is exact: for every number of waiting jobs that is not
    below the number of first fibers there are job trees, and a schedule, that leave a submitted job
    stuck before close, even when `has_ready_fibers` always tells the truth. */
module JobDeadlock {
  import opened Options
  import opened Sums
  import opened PoolMachine
  import opened JobTrees
  import opened JobProgress
  import opened JobSchedules

  /** Each job yields once, submits one sub-job and waits for it, `d` times over. */
  function Chain(d: nat): Program {
    if d == 0 then Return(0) else Yield(Submit(Chain(d - 1), Await(0, Return(0))))
  }

  /** What is left of such a job after the yield. */
  function Link(d: nat): Program
    requires d > 0
  {
    Submit(Chain(d - 1), Await(0, Return(0)))
  }

  lemma {:induction false} ChainFacts(d: nat)
    ensures WellFormed(Chain(d), 0) && Waiters(Chain(d)) == d
  {
    if d > 0 {
      ChainFacts(d - 1);
      assert WellFormed(Await(0, Return(0)), 1) && Waits(Await(0, Return(0)));
      assert SubWaiters(Await(0, Return(0))) == 0;
      assert Chain(d) == Yield(Link(d));
      assert Waits(Link(d)) && SubWaiters(Link(d)) == d - 1 && WellFormed(Link(d), 0);
    }
  }

  // ---------------------------------------------------------------- the first fibers but one

  /** Nothing is over, broken or shut down; nobody sleeps. */
  ghost predicate Calm(t: Tree) {
    var s := t.pool;
    && s.fault == NoFault && s.master.AtRendezvous? && !s.destroyed
    && s.q.open && s.q.waiting == {} && |t.jobs| == |s.futures|
    && (forall w: nat | w < |s.futures| :: s.futures[w].broken == 0)
    && (forall k | k in s.fibs :: k < |s.fibers| && !s.fibs[k].terminated)
    && (forall f: nat | f < |s.fibers| :: s.fibers[f].id == f && f in s.fibs)
  }

  /** Fiber `f` runs job `f`, which waits for job `w`. */
  ghost predicate WaitsFor(t: Tree, f: nat, w: nat) {
    && f < |t.pool.fibers| && t.pool.fibers[f].pc == Running(f)
    && f < |t.jobs| && t.jobs[f].rest == Await(0, Return(0)) && t.jobs[f].subs == [w]
    && f < w < |t.jobs| && t.jobs[w].outcome.Pending?
  }

  ghost predicate WaitsForNext(t: Tree, f: nat) { WaitsFor(t, f, f + 1) }

  /** The first `i` fibers wait, each for the job of the next; the rest have not started. */
  ghost predicate Crew(t: Tree, n: nat, i: nat) {
    && Calm(t) && i <= n == |t.pool.fibers| && t.pool.spawned == i
    && (forall f: nat | f < i :: WaitsForNext(t, f))
    && (forall f: nat | i <= f < n :: t.pool.fibers[f].pc.Ready?)
  }

  /** And the next job of the chain is queued. */
  ghost predicate Stage(t: Tree, n: nat, k: nat, i: nat) {
    && i <= k && Crew(t, n, i) && t.roots == [Return(0)]
    && t.pool.q.items == [i] && |t.jobs| == i + 1 && t.jobs[i] == NewJob(Chain(k - i))
  }

  lemma CreatedFibers(s: State, ids: seq<nat>)
    requires forall i | 0 <= i < |ids| :: ids[i] == i
    ensures var s' := CreateFibers(s, ids);
            && |s'.fibers| == |ids|
            && (forall f: nat | f < |ids| :: s'.fibers[f] == Fiber(f, Ready, false) && f in s'.fibs)
            && (forall k | k in s'.fibs :: k < |ids| && !s'.fibs[k].terminated)
  {
    forall f: nat | f < |ids| ensures f in CreateFibers(s, ids).fibs {
      assert ids[f] == f;
    }
  }

  lemma CrewComes(cfg: Pool, roots: seq<Program>) returns (t: Tree)
    ensures Reaches(cfg, Begin(roots), t) && Crew(t, cfg.Min(), 0)
    ensures t.jobs == [] && t.roots == roots && t.pool.q.items == []
  {
    var ids := seq(cfg.Min(), (i: nat) => i);
    CreatedFibers(Begin(roots).pool, ids);
    OneStep(cfg, Begin(roots), Sys(Create(ids)));
    t := DoStep(cfg, Begin(roots), Sys(Create(ids)));
  }

  /** A thread outside submits the next root. */
  lemma RootComes(cfg: Pool, t: Tree) returns (t': Tree)
    requires Calm(t) && t.roots != [] && t.pool.q.items == []
    ensures Reaches(cfg, t, t') && Calm(t') && t'.pool.q.items == [|t.jobs|]
    ensures t'.jobs == t.jobs + [NewJob(t.roots[0])] && t'.roots == t.roots[1..]
    ensures t'.pool.fibers == t.pool.fibers && t'.pool.spawned == t.pool.spawned
  {
    OneStep(cfg, t, SubmitRoot(0, None));
    t' := DoStep(cfg, t, SubmitRoot(0, None));
  }

  lemma FirstStage(cfg: Pool, k: nat, roots: seq<Program>) returns (t: Tree)
    requires roots == [Chain(k), Return(0)]
    ensures Reaches(cfg, Begin(roots), t) && Stage(t, cfg.Min(), k, 0)
  {
    var t1 := CrewComes(cfg, roots);
    t := RootComes(cfg, t1);
    Further(cfg, Begin(roots), t1, t);
  }

  /** The state `t'` is like `t`, but fiber `i` has popped the only queued job and is at `pc`. */
  ghost predicate Popped(t: Tree, t': Tree, i: nat, w: nat, pc: Pc) {
    && Calm(t') && i < |t.pool.fibers|
    && t'.jobs == t.jobs && t'.roots == t.roots && t.pool.q.items == [w] && t'.pool.q.items == []
    && t'.pool.fibers == MoveTo(t.pool.fibers, i, pc)
    && t'.pool.spawned == t.pool.spawned + 1
    && t'.pool.fibs == t.pool.fibs
  }

  lemma EntersPop(cfg: Pool, t: Tree, i: nat) returns (t': Tree)
    requires Calm(t) && i < |t.pool.fibers| && t.pool.fibers[i].pc.Ready?
    ensures Reaches(cfg, t, t')
    ensures t' == t.(pool := t.pool.(fibers := MoveTo(t.pool.fibers, i, InPop), spawned := t.pool.spawned + 1))
  {
    OneStep(cfg, t, Sys(Start(i)));
    var t1 := DoStep(cfg, t, Sys(Start(i)));
    FurtherStep(cfg, t, t1, Sys(Test(i)));
    t' := DoStep(cfg, t1, Sys(Test(i)));
    assert MoveTo(MoveTo(t.pool.fibers, i, LoopTest), i, InPop) == MoveTo(t.pool.fibers, i, InPop);
  }

  lemma PopsOnly(cfg: Pool, s: State, i: nat, w: nat)
    requires i < |s.fibers| && s.q.items == [w] && s.q.waiting == {}
    ensures var s' := PopStep(cfg, s, i);
            && s'.q.items == [] && s'.q.waiting == {} && s'.q.open == s.q.open
            && s'.fibers == MoveTo(s.fibers, i, if AsksToSpawn(cfg, s) then SpawnTest(w) else Running(w))
            && |s'.futures| == |s.futures|
            && (forall v: nat | v < |s.futures| :: s'.futures[v].broken == s.futures[v].broken)
            && s'.(q := s.q, fibers := s.fibers, futures := s.futures, popped := s.popped) == s
  {
  }

  lemma Pops(cfg: Pool, t: Tree, t1: Tree, i: nat, w: nat) returns (t': Tree)
    requires Calm(t) && i < |t.pool.fibers| && t.pool.q.items == [w]
    requires t1 == t.(pool := t.pool.(fibers := MoveTo(t.pool.fibers, i, InPop), spawned := t.pool.spawned + 1))
    ensures Reaches(cfg, t1, t')
    ensures Popped(t, t', i, w, Running(w)) || (cfg.DynamicPool? && Popped(t, t', i, w, SpawnTest(w)))
  {
    PopsOnly(cfg, t1.pool, i, w);
    OneStep(cfg, t1, Sys(TryPop(i)));
    t' := DoStep(cfg, t1, Sys(TryPop(i)));
  }

  lemma FiberTakes(cfg: Pool, t: Tree, i: nat, w: nat) returns (t': Tree)
    requires Calm(t) && i < |t.pool.fibers| && t.pool.fibers[i].pc.Ready? && t.pool.q.items == [w]
    ensures Reaches(cfg, t, t')
    ensures Popped(t, t', i, w, Running(w)) || (cfg.DynamicPool? && Popped(t, t', i, w, SpawnTest(w)))
  {
    var t1 := EntersPop(cfg, t, i);
    t' := Pops(cfg, t, t1, i, w);
    Further(cfg, t, t1, t');
  }

  /** The queue is empty and another fiber could run: no fiber is created. */
  lemma NoSpawn(cfg: Pool, t: Tree, t1: Tree, i: nat, w: nat, g: nat) returns (t': Tree)
    requires Popped(t, t1, i, w, SpawnTest(w)) && g != i && CanGoOn(t1, g)
    ensures Reaches(cfg, t1, t') && Popped(t, t', i, w, Running(w))
  {
    var id := |t1.pool.fibers|;
    OneStep(cfg, t1, Sys(Spawn(i, true, id)));
    t' := DoStep(cfg, t1, Sys(Spawn(i, true, id)));
  }

  /** A fiber takes the queued job beside another one that could run. */
  lemma FiberPops(cfg: Pool, t: Tree, i: nat, w: nat, g: nat) returns (t': Tree)
    requires Calm(t) && i < |t.pool.fibers| && t.pool.fibers[i].pc.Ready? && t.pool.q.items == [w]
    requires g != i && g < |t.pool.fibers|
    requires t.pool.fibers[g].pc.Ready? ||
             (t.pool.fibers[g].pc == Running(g) && g < |t.jobs| && !t.jobs[g].rest.Await?)
    ensures Reaches(cfg, t, t') && Popped(t, t', i, w, Running(w))
  {
    t' := FiberTakes(cfg, t, i, w);
    if !Popped(t, t', i, w, Running(w)) {
      var t2 := NoSpawn(cfg, t, t', i, w, g);
      Further(cfg, t, t', t2);
      t' := t2;
    }
  }

  /** A fiber whose job has yielded goes on to submit the next job and waits for it. */
  lemma SubmitsAndWaits(cfg: Pool, t: Tree, i: nat, d: nat) returns (t': Tree)
    requires Calm(t) && i < |t.pool.fibers| && t.pool.fibers[i].pc == Running(i) && t.pool.q.items == []
    requires i < |t.jobs| && d > 0 && t.jobs[i] == NewJob(Chain(d))
    ensures Reaches(cfg, t, t') && Calm(t')
    ensures t'.pool.fibers == t.pool.fibers && t'.pool.spawned == t.pool.spawned && t'.roots == t.roots
    ensures |t'.jobs| == |t.jobs| + 1 && t'.pool.q.items == [|t.jobs|]
    ensures t'.jobs[|t.jobs|] == NewJob(Chain(d - 1)) && WaitsFor(t', i, |t.jobs|)
    ensures forall w: nat | w < |t.jobs| && w != i :: t'.jobs[w] == t.jobs[w]
    ensures t'.jobs[i].outcome == t.jobs[i].outcome
  {
    assert Chain(d) == Yield(Link(d));
    OneStep(cfg, t, Resume(i));
    t' := DoStep(cfg, t, Resume(i));
    FurtherStep(cfg, t, t', SubmitChild(i, None));
    t' := DoStep(cfg, t', SubmitChild(i, None));
  }

  lemma NextStage(cfg: Pool, k: nat, t: Tree, i: nat) returns (t': Tree)
    requires Stage(t, cfg.Min(), k, i) && i + 1 < cfg.Min() && i < k
    ensures Reaches(cfg, t, t') && Stage(t', cfg.Min(), k, i + 1)
  {
    var t1 := FiberPops(cfg, t, i, i, i + 1);
    t' := SubmitsAndWaits(cfg, t1, i, k - i);
    Further(cfg, t, t1, t');
    OneMoreWaits(t, t', cfg.Min(), i);
  }

  lemma OneMoreWaits(t: Tree, t': Tree, n: nat, i: nat)
    requires Crew(t, n, i) && i < n && Calm(t') && t'.pool.spawned == i + 1
    requires t'.pool.fibers == MoveTo(t.pool.fibers, i, Running(i))
    requires i < |t.jobs| <= |t'.jobs| && t'.jobs[i].outcome == t.jobs[i].outcome && WaitsFor(t', i, i + 1)
    requires forall w: nat | w < i :: t'.jobs[w] == t.jobs[w]
    ensures Crew(t', n, i + 1)
  {
    StillWaiting(t, t', i);
    assert WaitsForNext(t', i);
  }

  /** The others do not notice. */
  lemma StillWaiting(t: Tree, t': Tree, n: nat)
    requires forall f: nat | f < n :: WaitsForNext(t, f)
    requires n < |t.jobs| <= |t'.jobs| && n < |t.pool.fibers| <= |t'.pool.fibers|
    requires forall w: nat | w < n :: t'.jobs[w] == t.jobs[w]
    requires t'.jobs[n].outcome == t.jobs[n].outcome
    requires forall f: nat | f < n :: t'.pool.fibers[f] == t.pool.fibers[f]
    ensures forall f: nat | f < n :: WaitsForNext(t', f)
  {
    forall f: nat | f < n ensures WaitsForNext(t', f) {
      assert WaitsForNext(t, f);
    }
  }

  lemma {:induction false} LaterStage(cfg: Pool, k: nat, t: Tree, i: nat, last: nat) returns (t': Tree)
    requires Stage(t, cfg.Min(), k, i) && i <= last < cfg.Min() && last <= k
    ensures Reaches(cfg, t, t') && Stage(t', cfg.Min(), k, last)
    decreases last - i
  {
    if i == last {
      NoStep(cfg, t);
      t' := t;
    } else {
      var t1 := NextStage(cfg, k, t, i);
      t' := LaterStage(cfg, k, t1, i + 1, last);
      Further(cfg, t, t1, t');
    }
  }

  // ---------------------------------------------------------------- the last of the first fibers

  /** All the first fibers but the last wait; the last one is at the yield of its job, and no job is
      queued. */
  ghost predicate Yielding(t: Tree, n: nat, k: nat) {
    && 1 <= n <= k && Calm(t) && n <= |t.pool.fibers| && t.pool.q.items == []
    && (forall f: nat | f < n - 1 :: WaitsForNext(t, f))
    && t.pool.fibers[n - 1].pc == Running(n - 1)
    && n <= |t.jobs| && t.jobs[n - 1] == NewJob(Chain(k - n + 1))
  }

  lemma NobodyElse(t: Tree, n: nat)
    requires n >= 1 && |t.pool.fibers| == n && |t.jobs| == |t.pool.futures|
    requires forall w: nat | w < |t.pool.futures| :: t.pool.futures[w].broken == 0
    requires forall f: nat | f < n - 1 :: WaitsForNext(t, f)
    ensures forall g: nat | g != n - 1 :: !CanGoOn(t, g)
  {
    forall g: nat | g != n - 1 ensures !CanGoOn(t, g) {
      if g < n - 1 {
        assert WaitsForNext(t, g);
      }
    }
  }

  /** The last one asks when no other fiber could run: a fiber is created. */
  lemma LastSpawns(cfg: Pool, t: Tree, n: nat, k: nat) returns (t': Tree)
    requires 1 <= n <= k && Calm(t) && |t.pool.fibers| == n && t.pool.q.items == [] && t.pool.spawned == n
    requires forall f: nat | f < n - 1 :: WaitsForNext(t, f)
    requires t.pool.fibers[n - 1].pc == SpawnTest(n - 1)
    requires |t.jobs| == n && t.jobs[n - 1] == NewJob(Chain(k - n + 1))
    ensures Reaches(cfg, t, t') && Yielding(t', n, k)
    ensures t'.jobs == t.jobs && t'.roots == t.roots && t'.pool.spawned == n
    ensures |t'.pool.fibers| == n + 1 && t'.pool.fibers[n].pc.Ready?
  {
    NobodyElse(t, n);
    var st := Sys(Spawn(n - 1, false, n));
    OneStep(cfg, t, st);
    t' := DoStep(cfg, t, st);
    StillWaiting(t, t', n - 1);
  }

  /** No other fiber could run when the last one pops; if it asks, a fiber is created for it. */
  lemma LastPops(cfg: Pool, k: nat, t: Tree) returns (t': Tree)
    requires cfg.Min() >= 1 && Stage(t, cfg.Min(), k, cfg.Min() - 1) && cfg.Min() <= k
    ensures Reaches(cfg, t, t') && Yielding(t', cfg.Min(), k) && t'.roots == [Return(0)] && |t'.jobs| == cfg.Min()
    ensures t'.pool.spawned == cfg.Min()
    ensures |t'.pool.fibers| == cfg.Min() ||
            (cfg.DynamicPool? && |t'.pool.fibers| == cfg.Min() + 1 && t'.pool.fibers[cfg.Min()].pc.Ready?)
  {
    var n := cfg.Min();
    t' := FiberTakes(cfg, t, n - 1, n - 1);
    StillWaiting(t, t', n - 1);
    if !Popped(t, t', n - 1, n - 1, Running(n - 1)) {
      var t2 := LastSpawns(cfg, t', n, k);
      Further(cfg, t, t', t2);
      t' := t2;
    }
  }

  /** A job that does not wait is submitted, and the new fiber takes it, beside the yielding one. */
  lemma NewFiberPops(cfg: Pool, k: nat, t: Tree) returns (t': Tree)
    requires Yielding(t, cfg.Min(), k) && t.roots == [Return(0)] && |t.jobs| == cfg.Min() == t.pool.spawned
    requires |t.pool.fibers| == cfg.Min() + 1 && t.pool.fibers[cfg.Min()].pc.Ready?
    ensures Reaches(cfg, t, t') && Yielding(t', cfg.Min(), k) && t'.pool.spawned == cfg.Min() + 1
    ensures |t'.pool.fibers| == cfg.Min() + 1 && t'.pool.fibers[cfg.Min()].pc == Running(cfg.Min())
    ensures |t'.jobs| == cfg.Min() + 1 && t'.jobs[cfg.Min()] == NewJob(Return(0))
  {
    var n := cfg.Min();
    var t1 := RootComes(cfg, t);
    assert t1.jobs[n - 1].rest == Yield(Link(k - n + 1));
    t' := FiberPops(cfg, t1, n, n, n - 1);
    Further(cfg, t, t1, t');
    StillWaiting(t, t', n - 1);
  }

  lemma NewFiberFinishes(cfg: Pool, k: nat, t: Tree) returns (t': Tree)
    requires cfg.DynamicPool? && Yielding(t, cfg.Min(), k) && t.pool.spawned == cfg.Min() + 1
    requires |t.pool.fibers| == cfg.Min() + 1 && t.pool.fibers[cfg.Min()].pc == Running(cfg.Min())
    requires |t.jobs| == cfg.Min() + 1 && t.jobs[cfg.Min()] == NewJob(Return(0))
    ensures Reaches(cfg, t, t') && Yielding(t', cfg.Min(), k) && t'.pool.spawned == cfg.Min() + 1
    ensures |t'.pool.fibers| == cfg.Min() + 1 && t'.pool.fibers[cfg.Min()].pc == RetireTest
  {
    var n := cfg.Min();
    OneStep(cfg, t, Sys(Finish(n)));
    t' := DoStep(cfg, t, Sys(Finish(n)));
    StillWaiting(t, t', n - 1);
  }

  /** And retires beside it. */
  lemma NewFiberRetires(cfg: Pool, k: nat, t: Tree) returns (t': Tree)
    requires cfg.DynamicPool? && Yielding(t, cfg.Min(), k) && t.pool.spawned == cfg.Min() + 1
    requires |t.pool.fibers| == cfg.Min() + 1 && t.pool.fibers[cfg.Min()].pc == RetireTest
    ensures Reaches(cfg, t, t') && Alone(t', cfg.Min(), k)
  {
    var n := cfg.Min();
    assert t.jobs[n - 1].rest == Yield(Link(k - n + 1)) && CanGoOn(t, n - 1);
    OneStep(cfg, t, Sys(Retire(n, true)));
    t' := DoStep(cfg, t, Sys(Retire(n, true)));
    StillWaiting(t, t', n - 1);
  }

  /** As `Yielding`, and whatever other fibers there were have left. */
  ghost predicate Alone(t: Tree, n: nat, k: nat) {
    var s := t.pool;
    && 1 <= n <= k && n <= |s.fibers| && s.q.items == []
    && s.fault == NoFault && s.master.AtRendezvous? && !s.destroyed
    && s.q.open && s.q.waiting == {} && |t.jobs| == |s.futures|
    && (forall w: nat | w < |s.futures| :: s.futures[w].broken == 0)
    && (forall f: nat | f < n - 1 :: WaitsForNext(t, f))
    && s.fibers[n - 1].pc == Running(n - 1)
    && n <= |t.jobs| && t.jobs[n - 1] == NewJob(Chain(k - n + 1))
    && (forall f: nat | n <= f < |s.fibers| :: s.fibers[f].pc.Exited?)
  }

  lemma LastIsAlone(cfg: Pool, k: nat, t: Tree) returns (t': Tree)
    requires cfg.Min() >= 1 && Stage(t, cfg.Min(), k, cfg.Min() - 1) && cfg.Min() <= k
    ensures Reaches(cfg, t, t') && Alone(t', cfg.Min(), k)
  {
    t' := LastPops(cfg, k, t);
    if |t'.pool.fibers| != cfg.Min() {
      var t1 := NewFiberPops(cfg, k, t');
      Further(cfg, t, t', t1);
      var t2 := NewFiberFinishes(cfg, k, t1);
      Further(cfg, t, t1, t2);
      t' := NewFiberRetires(cfg, k, t2);
      Further(cfg, t, t2, t');
    }
  }

  // ---------------------------------------------------------------- stuck

  /** Every fiber has left or waits for a job that is not over. */
  ghost predicate Stuck(t: Tree) {
    && t.pool.master.AtRendezvous? && t.pool.q.open
    && (forall f: nat | f < |t.pool.fibers| :: t.pool.fibers[f].pc.Exited? || Blocked(t, f))
    && exists w: nat :: w < |t.jobs| && t.jobs[w].outcome.Pending?
  }

  lemma StuckIsStuck(cfg: Pool, t: Tree)
    requires Stuck(t)
    ensures t.pool.q.open && !GoesOn(cfg, t)
  {
    var w: nat :| w < |t.jobs| && t.jobs[w].outcome.Pending?;
    forall st | OwnWork(st) ensures !CanStep(cfg, t, st) {
      StuckStep(cfg, t, st);
    }
  }

  lemma StuckStep(cfg: Pool, t: Tree, st: Step)
    requires Stuck(t) && OwnWork(st)
    ensures !CanStep(cfg, t, st)
  {
  }

  lemma LastSubmits(cfg: Pool, n: nat, k: nat, t: Tree) returns (t': Tree)
    requires Alone(t, n, k)
    ensures Reaches(cfg, t, t')
    ensures t'.pool.fibers == t.pool.fibers && t'.pool.master == t.pool.master && t'.pool.q.open
    ensures |t'.jobs| == |t.jobs| + 1 == |t'.pool.futures|
    ensures forall w: nat | w < |t'.pool.futures| :: t'.pool.futures[w].broken == 0
    ensures forall w: nat | w < n - 1 :: t'.jobs[w] == t.jobs[w]
    ensures t'.jobs[n - 1].outcome == t.jobs[n - 1].outcome && WaitsFor(t', n - 1, |t.jobs|)
  {
    assert t.jobs[n - 1].rest == Yield(Link(k - n + 1));
    OneStep(cfg, t, Resume(n - 1));
    var t1 := DoStep(cfg, t, Resume(n - 1));
    FurtherStep(cfg, t, t1, SubmitChild(n - 1, None));
    t' := DoStep(cfg, t1, SubmitChild(n - 1, None));
  }

  lemma LastWaits(cfg: Pool, k: nat, t: Tree) returns (t': Tree)
    requires Alone(t, cfg.Min(), k)
    ensures Reaches(cfg, t, t') && Stuck(t')
  {
    var n := cfg.Min();
    t' := LastSubmits(cfg, n, k, t);
    StillWaiting(t, t', n - 1);
    AllWait(t', n, |t.jobs|);
  }

  lemma AllWait(t: Tree, n: nat, last: nat)
    requires 1 <= n <= |t.pool.fibers| && |t.jobs| == |t.pool.futures|
    requires t.pool.master.AtRendezvous? && t.pool.q.open
    requires forall w: nat | w < |t.pool.futures| :: t.pool.futures[w].broken == 0
    requires forall f: nat | f < n - 1 :: WaitsForNext(t, f)
    requires WaitsFor(t, n - 1, last)
    requires forall f: nat | n <= f < |t.pool.fibers| :: t.pool.fibers[f].pc.Exited?
    ensures Stuck(t)
  {
    forall f: nat | f < |t.pool.fibers| ensures t.pool.fibers[f].pc.Exited? || Blocked(t, f) {
      assert f < n - 1 ==> WaitsForNext(t, f);
    }
  }

  lemma GetsStuck(cfg: Pool, k: nat) returns (t: Tree)
    requires cfg.Min() <= k
    ensures Reaches(cfg, Begin([Chain(k), Return(0)]), t) && Stuck(t)
  {
    var roots := [Chain(k), Return(0)];
    var begin := Begin(roots);
    var first := FirstStage(cfg, k, roots);
    if cfg.Min() == 0 {
      t := first;
      assert t.jobs[0].outcome.Pending?;
    } else {
      var last := LaterStage(cfg, k, first, 0, cfg.Min() - 1);
      Further(cfg, begin, first, last);
      var alone := LastIsAlone(cfg, k, last);
      Further(cfg, begin, last, alone);
      t := LastWaits(cfg, k, alone);
      Further(cfg, begin, alone, t);
    }
  }

  // ---------------------------------------------------------------- the theorem

  /** A run of job trees with `k` waiting jobs in all, still before close. */
  ghost predicate OpenRun(cfg: Pool, roots: seq<Program>, k: nat, run: seq<Step>) {
    && Sum(roots, Waiters) == k
    && (forall i | 0 <= i < |roots| :: WellFormed(roots[i], 0))
    && CanRun(cfg, Begin(roots), run)
    && DoRun(cfg, Begin(roots), run).pool.q.open
  }

  lemma ChainRoots(k: nat)
    ensures Sum([Chain(k), Return(0)], Waiters) == k
    ensures forall i | 0 <= i < 2 :: WellFormed([Chain(k), Return(0)][i], 0)
  {
    var roots := [Chain(k), Return(0)];
    ChainFacts(k);
    assert roots[..1] == [Chain(k)] && roots[..1][..0] == [];
    assert Sum(roots[..1][..0], Waiters) == 0;
    assert Sum(roots[..1], Waiters) == k;
  }

  lemma ChainGetsStuck(cfg: Pool, k: nat) returns (roots: seq<Program>, run: seq<Step>)
    requires cfg.Min() <= k
    ensures OpenRun(cfg, roots, k, run) && TruthfulRun(cfg, Begin(roots), run)
    ensures !GoesOn(cfg, DoRun(cfg, Begin(roots), run))
  {
    roots := [Chain(k), Return(0)];
    ChainRoots(k);
    var t := GetsStuck(cfg, k);
    StuckIsStuck(cfg, t);
    run :| Leads(cfg, Begin(roots), run, t);
    LeadsByRun(cfg, Begin(roots), run, t);
  }

  /** Before close no schedule of any job trees with `k` waiting jobs leaves a submitted job stuck:
      exactly when the first fibers of the pool (N, or Min) outnumber the waiting jobs.  The Max of a
      dynamic pool never helps, and neither does it help to count only schedules in which
      `has_ready_fibers` tells the truth. */
  lemma ProgressExactly(cfg: Pool, k: nat)
    ensures (forall roots, run :: OpenRun(cfg, roots, k, run) ==> GoesOn(cfg, DoRun(cfg, Begin(roots), run)))
            <==> k < cfg.Min()
    ensures (forall roots, run :: OpenRun(cfg, roots, k, run) && TruthfulRun(cfg, Begin(roots), run)
               ==> GoesOn(cfg, DoRun(cfg, Begin(roots), run)))
            <==> k < cfg.Min()
  {
    if k < cfg.Min() {
      forall roots, run | OpenRun(cfg, roots, k, run)
        ensures GoesOn(cfg, DoRun(cfg, Begin(roots), run))
      {
        JobTreesProgress(cfg, roots, run);
      }
    } else {
      var roots, run := ChainGetsStuck(cfg, k);
    }
  }
}
