/** What holds over every run of a pool, from its start, whatever the submitters push, whatever
    `has_ready_fibers` answers and however the jobs suspend. */
module PoolTheorems {
  import opened Options
  import opened PoolMachine
  import opened PoolInvariant
  import opened PoolSteps

  lemma ReachableInv(pool: Pool, run: seq<Action>)
    requires Legal(pool, INITIAL, run)
    ensures Inv(pool, After(pool, INITIAL, run))
  {
    InitialInv(pool);
    RunKeepsInvariant(pool, INITIAL, run);
  }

  // ---------------------------------------------------------------- sleeping and counting

  /** No state has every popper asleep beside a non-empty or closed queue. */
  lemma NoWorkerSleepsBesideWork(pool: Pool, run: seq<Action>)
    requires Legal(pool, INITIAL, run)
    ensures var s := After(pool, INITIAL, run);
            s.q.waiting != {} ==> s.q.open && |s.q.items| <= |s.q.notified|
    ensures var s := After(pool, INITIAL, run);
            forall f | f in s.q.notified :: At(s, f, InPop)
  {
    ReachableInv(pool, run);
  }

  /** `*spawned` counts the fibers between lines 43 and 80, and with the fibers not yet started
      it never drops below Min before close. */
  lemma LowerBound(pool: Pool, run: seq<Action>)
    requires Legal(pool, INITIAL, run)
    ensures var s := After(pool, INITIAL, run);
            && s.spawned == |LoopSet(s.fibers)|
            && (!s.master.Starting? && s.q.open ==> s.spawned + |ReadySet(s.fibers)| >= pool.Min())
  {
    ReachableInv(pool, run);
  }

  // ---------------------------------------------------------------- the map of fibers

  /** `fibs->at` always finds the caller's entry, no joinable handle is overwritten, and an entry
      without a handle belongs to nobody who is still in the worker function. */
  lemma MapSafety(pool: Pool, run: seq<Action>)
    requires Legal(pool, INITIAL, run)
    ensures var s := After(pool, INITIAL, run);
            && s.fault == NoFault
            && (forall i: nat | Live(s, i) :: s.fibers[i].id in s.fibs && s.fibs[s.fibers[i].id] == Entry(Some(i), false))
            && (forall i: nat, j: nat | Live(s, i) && Live(s, j) && s.fibers[i].id == s.fibers[j].id :: i == j)
  {
    ReachableInv(pool, run);
  }

  // ---------------------------------------------------------------- shutdown

  /** When `operator()` returns the queue is closed and every fiber has left. */
  lemma ReturnedPoolIsEmpty(pool: Pool, run: seq<Action>)
    requires Legal(pool, INITIAL, run)
    ensures var s := After(pool, INITIAL, run);
            s.master.Returned? ==> !s.q.open && forall f: nat | f < |s.fibers| :: s.fibers[f].pc.Exited?
  {
    ReachableInv(pool, run);
    var s := After(pool, INITIAL, run);
    if s.master.Returned? {
      forall f: nat | f < |s.fibers| ensures s.fibers[f].pc.Exited? {
        ReturnedMeansLeft(s, f);
      }
    }
  }

  /** However the join loop ends, every fiber that was not inserted behind it has left. */
  lemma JoinLoopReachesEarlyFibers(pool: Pool, run: seq<Action>)
    requires Legal(pool, INITIAL, run)
    ensures var s := After(pool, INITIAL, run);
            && (s.q.open ==> forall f: nat | f < |s.fibers| :: !s.fibers[f].behind)
            && (s.master.Returned? || s.master.Aborted? ==>
                  forall f: nat | f < |s.fibers| && !s.fibers[f].behind :: s.fibers[f].pc.Exited?)
  {
    ReachableInv(pool, run);
    var s := After(pool, INITIAL, run);
    if s.master.Starting? {
      assert s.fibers == [];
    }
  }

  /** The fibers of `fibers` carry their marks over to `fibers'`. */
  ghost predicate SameMarks(fibers: seq<Fiber>, fibers': seq<Fiber>) {
    |fibers| <= |fibers'| && forall f: nat | f < |fibers| :: fibers'[f].behind == fibers[f].behind
  }

  lemma PopKeepsBehind(pool: Pool, s: State, f: nat)
    requires f < |s.fibers|
    ensures SameMarks(s.fibers, PopStep(pool, s, f).fibers) && PopStep(pool, s, f).master == s.master
  {
  }

  lemma SpawnKeepsBehind(s: State, f: nat, ready: bool, id: nat)
    requires f < |s.fibers| && s.fibers[f].pc.SpawnTest?
    ensures SameMarks(s.fibers, SpawnStep(s, f, ready, id).fibers) && SpawnStep(s, f, ready, id).master == s.master
  {
  }

  lemma RetireKeepsBehind(pool: Pool, s: State, f: nat, ready: bool)
    requires f < |s.fibers|
    ensures SameMarks(s.fibers, RetireStep(pool, s, f, ready).fibers) && RetireStep(pool, s, f, ready).master == s.master
  {
  }

  lemma StepKeepsBehind(pool: Pool, s: State, a: Action)
    requires Enabled(pool, s, a) && !s.master.Starting?
    ensures SameMarks(s.fibers, Apply(pool, s, a).fibers) && !Apply(pool, s, a).master.Starting?
  {
    match a
    case TryPop(f) => PopKeepsBehind(pool, s, f);
    case Spawn(f, ready, id) => SpawnKeepsBehind(s, f, ready, id);
    case Retire(f, ready) => RetireKeepsBehind(pool, s, f, ready);
    case _ =>
  }

  lemma {:induction false} RunKeepsBehind(pool: Pool, s: State, run: seq<Action>)
    requires Legal(pool, s, run) && !s.master.Starting?
    ensures SameMarks(s.fibers, After(pool, s, run).fibers)
    decreases |run|
  {
    if run != [] {
      StepKeepsBehind(pool, s, run[0]);
      RunKeepsBehind(pool, Apply(pool, s, run[0]), run[1..]);
    }
  }

  /** Every fiber created before close has left when the join loop has ended, however it ends: none
      of them can still reach the counter and the map in the frame of `operator()`. */
  lemma FibersBeforeCloseHaveLeft(pool: Pool, run: seq<Action>, more: seq<Action>, f: nat)
    requires Legal(pool, INITIAL, run) && Legal(pool, After(pool, INITIAL, run), more)
    requires After(pool, INITIAL, run).q.open && f < |After(pool, INITIAL, run).fibers|
    requires var s := After(pool, After(pool, INITIAL, run), more); s.master.Returned? || s.master.Aborted?
    ensures var s := After(pool, After(pool, INITIAL, run), more); f < |s.fibers| && s.fibers[f].pc.Exited?
  {
    var open := After(pool, INITIAL, run);
    ReachableInv(pool, run);
    JoinLoopReachesEarlyFibers(pool, run);
    RunKeepsBehind(pool, open, more);
    Follow(pool, INITIAL, run, more);
    JoinLoopReachesEarlyFibers(pool, run + more);
  }

  /** The end of the join loop: destroying the map aborts the program exactly when a fiber
      inserted behind the loop still has its handle. */
  lemma AbortsExactly(pool: Pool, run: seq<Action>)
    requires Legal(pool, INITIAL, run)
    requires Enabled(pool, After(pool, INITIAL, run), Join(None))
    ensures var s := After(pool, INITIAL, run);
            JoinStep(s, None).master.Aborted? <==>
            exists f: nat :: f < |s.fibers| && s.fibers[f].behind
                             && s.fibers[f].id in s.fibs && s.fibs[s.fibers[f].id].handle == Some(f)
  {
    ReachableInv(pool, run);
    var s := After(pool, INITIAL, run);
    var s1 := ClearJoined(s);
    if k :| k in s1.fibs && Joinable(s1.fibs, k) {
      var f := s.fibs[k].handle.value;
      assert s.fibers[f].behind && s.fibers[f].id == k;
    }
    if f: nat :| f < |s.fibers| && s.fibers[f].behind
                 && s.fibers[f].id in s.fibs && s.fibs[s.fibers[f].id].handle == Some(f) {
      assert Joinable(s1.fibs, s.fibers[f].id);
    }
  }

  /** A static pool has N fibers from its creation on and never inserts another. */
  ghost predicate StaticInv(pool: Pool, s: State) {
    && (!s.master.Starting? ==> |s.fibers| == pool.Min())
    && (forall f: nat | f < |s.fibers| ::
          !s.fibers[f].behind && !s.fibers[f].pc.SpawnTest? && !s.fibers[f].pc.RetireTest?)
  }

  lemma StepKeepsStaticInv(pool: Pool, s: State, a: Action)
    requires pool.StaticPool? && StaticInv(pool, s) && StartInv(s) && Enabled(pool, s, a)
    ensures StaticInv(pool, Apply(pool, s, a))
  {
  }

  lemma {:induction false} RunKeepsStaticInv(pool: Pool, s: State, run: seq<Action>)
    requires pool.StaticPool? && StaticInv(pool, s) && Inv(pool, s) && Legal(pool, s, run)
    ensures StaticInv(pool, After(pool, s, run))
    decreases |run|
  {
    if run != [] {
      StepKeepsStaticInv(pool, s, run[0]);
      StepKeepsInv(pool, s, run[0]);
      RunKeepsStaticInv(pool, Apply(pool, s, run[0]), run[1..]);
    }
  }

  /** The join loop of a static pool never aborts, and when it has returned all N fibers are out. */
  lemma StaticPoolJoinsAll(n: nat, run: seq<Action>)
    requires Legal(StaticPool(n), INITIAL, run)
    ensures var s := After(StaticPool(n), INITIAL, run);
            && !s.master.Aborted?
            && (s.master.Returned? ==>
                  !s.q.open && |s.fibers| == n && forall f: nat | f < n :: s.fibers[f].pc.Exited?)
  {
    InitialInv(StaticPool(n));
    RunKeepsStaticInv(StaticPool(n), INITIAL, run);
    ReachableInv(StaticPool(n), run);
    ReturnedPoolIsEmpty(StaticPool(n), run);
  }

  // ---------------------------------------------------------------- after close

  /** The actions a worker fiber takes itself. */
  function Actor(a: Action): Option<nat> {
    match a
    case Start(f) => Some(f)
    case Test(f) => Some(f)
    case TryPop(f) => Some(f)
    case Spawn(f, _, _) => Some(f)
    case Finish(f) => Some(f)
    case Retire(f, _) => Some(f)
    case _ => None
  }

  function Steps(run: seq<Action>, f: nat): nat {
    if run == [] then 0 else (if Actor(run[0]) == Some(f) then 1 else 0) + Steps(run[1..], f)
  }

  function Pops(run: seq<Action>, f: nat): nat {
    if run == [] then 0 else (if run[0] == TryPop(f) then 1 else 0) + Pops(run[1..], f)
  }

  /** How many own steps a fiber has left once the queue is closed. */
  function RestOf(pc: Pc): nat {
    match pc
    case Ready => 2
    case LoopTest => 1
    case InPop => 5
    case SpawnTest(_) => 4
    case Running(_) => 3
    case RetireTest => 2
    case Exited => 0
  }

  function Rest(fibers: seq<Fiber>, f: nat): nat {
    RestOf(if f < |fibers| then fibers[f].pc else Ready)
  }

  /** One fiber moves towards the exit, nobody enters `pop`, and new fibers are not started. */
  ghost predicate MovesOut(s: State, s': State, g: nat) {
    && !s'.q.open
    && g < |s.fibers| <= |s'.fibers|
    && (forall i: nat | i < |s.fibers| && i != g :: s'.fibers[i] == s.fibers[i])
    && (forall i | |s.fibers| <= i < |s'.fibers| :: s'.fibers[i].pc.Ready?)
    && RestOf(s'.fibers[g].pc) < RestOf(s.fibers[g].pc)
    && !s'.fibers[g].pc.InPop?
  }

  lemma ClosedPop(pool: Pool, s: State, f: nat)
    requires Enabled(pool, s, TryPop(f)) && !s.q.open
    ensures MovesOut(s, Apply(pool, s, TryPop(f)), f) && s.fibers[f].pc.InPop?
  {
  }

  lemma ClosedWork(pool: Pool, s: State, a: Action)
    requires Enabled(pool, s, a) && !s.q.open && (a.Spawn? || a.Finish? || a.Retire?)
    requires a.Retire? ==> s.fibers[a.f].id in s.fibs
    ensures MovesOut(s, Apply(pool, s, a), a.f)
  {
  }

  lemma ClosedRest(pool: Pool, s: State, a: Action)
    requires Enabled(pool, s, a) && !s.q.open && !s.master.Starting?
    requires !a.TryPop? && !a.Spawn? && !a.Finish? && !a.Retire?
    ensures var s' := Apply(pool, s, a);
            match Actor(a)
            case None => !s'.q.open && s'.fibers == s.fibers
            case Some(g) => MovesOut(s, s', g)
  {
  }

  lemma ClosedMove(pool: Pool, s: State, a: Action)
    requires Inv(pool, s) && Enabled(pool, s, a) && !s.q.open
    ensures var s' := Apply(pool, s, a);
            match Actor(a)
            case None => !s'.q.open && s'.fibers == s.fibers
            case Some(g) => MovesOut(s, s', g) && (a.TryPop? ==> s.fibers[g].pc.InPop?)
  {
    if a.TryPop? {
      ClosedPop(pool, s, a.f);
    } else if a.Spawn? || a.Finish? || a.Retire? {
      if a.Retire? {
        RetireFindsEntry(s, a.f);
      }
      ClosedWork(pool, s, a);
    } else {
      ClosedRest(pool, s, a);
    }
  }

  /** One step of a closed run, seen by fiber `f`. */
  lemma ClosedCount(pool: Pool, s: State, a: Action, f: nat)
    requires Inv(pool, s) && Enabled(pool, s, a) && !s.q.open
    ensures var s' := Apply(pool, s, a);
            && !s'.q.open
            && (if a == TryPop(f) then 1 else 0) + PopsLeft(s'.fibers, f) <= PopsLeft(s.fibers, f)
            && (if Actor(a) == Some(f) then 1 else 0) + Rest(s'.fibers, f) <= Rest(s.fibers, f)
  {
    ClosedMove(pool, s, a);
  }

  function PopsLeft(fibers: seq<Fiber>, f: nat): nat {
    if f < |fibers| && fibers[f].pc.InPop? then 1 else 0
  }

  lemma {:induction false} BoundedPops(pool: Pool, s: State, run: seq<Action>, f: nat)
    requires Inv(pool, s) && Legal(pool, s, run) && !s.q.open
    ensures Pops(run, f) + PopsLeft(After(pool, s, run).fibers, f) <= PopsLeft(s.fibers, f)
    decreases |run|
  {
    if run != [] {
      ClosedCount(pool, s, run[0], f);
      StepKeepsInv(pool, s, run[0]);
      BoundedPops(pool, Apply(pool, s, run[0]), run[1..], f);
    }
  }

  lemma {:induction false} BoundedSteps(pool: Pool, s: State, run: seq<Action>, f: nat)
    requires Inv(pool, s) && Legal(pool, s, run) && !s.q.open
    ensures Steps(run, f) + Rest(After(pool, s, run).fibers, f) <= Rest(s.fibers, f)
    decreases |run|
  {
    if run != [] {
      ClosedCount(pool, s, run[0], f);
      StepKeepsInv(pool, s, run[0]);
      BoundedSteps(pool, Apply(pool, s, run[0]), run[1..], f);
    }
  }

  /** After close a worker calls `pop` at most once more, and only if it was already inside it or
      past the loop test; a fiber that starts later never pops; and every step of its own, of which
      it has at most five, brings a worker nearer to leaving its loop. */
  lemma BoundedWorkAfterClose(pool: Pool, s: State, run: seq<Action>, f: nat)
    requires Inv(pool, s) && Legal(pool, s, run) && !s.q.open
    ensures Pops(run, f) + PopsLeft(After(pool, s, run).fibers, f) <= PopsLeft(s.fibers, f) <= 1
    ensures Steps(run, f) + Rest(After(pool, s, run).fibers, f) <= Rest(s.fibers, f) <= 5
  {
    BoundedPops(pool, s, run, f);
    BoundedSteps(pool, s, run, f);
  }

  /** A worker that has used up its steps is out. */
  lemma NoStepsLeftMeansOut(fibers: seq<Fiber>, f: nat)
    ensures Rest(fibers, f) == 0 <==> f < |fibers| && fibers[f].pc.Exited?
  {
  }

  /** And it can always take the next one: after close no worker is held up anywhere but inside its
      job. */
  lemma WorkerCanStepAfterClose(pool: Pool, s: State, f: nat) returns (a: Action)
    requires Inv(pool, s) && !s.q.open && !s.master.Aborted?
    requires f < |s.fibers| && !s.fibers[f].pc.Exited?
    ensures Actor(a) == Some(f) && Enabled(pool, s, a)
    ensures !s.fibers[f].pc.Running? ==> !a.Finish?
  {
    match s.fibers[f].pc
    case Ready => a := Start(f);
    case LoopTest => a := Test(f);
    case InPop => a := TryPop(f);
    case SpawnTest(_) =>
      var id := UnusedId(s.fibers);
      a := Spawn(f, true, id);
    case Running(_) => a := Finish(f);
    case RetireTest => a := Retire(f, true);
  }

  // ---------------------------------------------------------------- jobs and futures

  /** Conservation: what was accepted, in push order, is what was popped followed by the queue; a
      popped job has one popper and is run by nobody else, at most once. */
  lemma ConservationOfJobs(pool: Pool, run: seq<Action>)
    requires Legal(pool, INITIAL, run)
    ensures var s := After(pool, INITIAL, run);
            && (!s.destroyed ==> s.accepted == s.popped + s.q.items)
            && s.popped <= s.accepted
            && (forall w: nat | w < |s.futures| ::
                  && |s.futures[w].poppers| == (if w in s.popped then 1 else 0)
                  && s.futures[w].runners <= s.futures[w].poppers
                  && s.futures[w].fulfilled <= |s.futures[w].runners|)
  {
    ReachableInv(pool, run);
    var s := After(pool, INITIAL, run);
    forall w: nat | w < |s.futures|
      ensures |s.futures[w].poppers| == (if w in s.popped then 1 else 0)
      ensures s.futures[w].runners <= s.futures[w].poppers
      ensures s.futures[w].fulfilled <= |s.futures[w].runners|
    {
      assert Tracked(s.futures[w], w, s.q.items, s.fibers);
    }
  }

  /** The fate of a future once the pool has returned and the worker is destroyed: fulfilled by
      exactly one run of its job, or broken once, because the closed queue refused the job or was
      destroyed with the job still in it. */
  lemma FateOfFutures(pool: Pool, run: seq<Action>, w: nat)
    requires Legal(pool, INITIAL, run)
    requires var s := After(pool, INITIAL, run); s.destroyed && w < |s.futures|
    ensures var s := After(pool, INITIAL, run);
            var fut := s.futures[w];
            && fut.fulfilled + fut.broken == 1
            && (fut.fulfilled == 1 <==> w in s.popped)
            && (fut.fulfilled == 1 ==> |fut.runners| == 1 && fut.poppers == fut.runners)
            && (fut.broken == 1 ==> fut.runners == [])
  {
    ReachableInv(pool, run);
    ReturnedPoolIsEmpty(pool, run);
    var s := After(pool, INITIAL, run);
    assert Tracked(s.futures[w], w, s.q.items, s.fibers);
  }
}
