/** The upper bound of the dynamic pool: when it holds, and runs that break it. */
module PoolBounds {
  import opened Options
  import opened PoolMachine
  import opened PoolInvariant
  import opened PoolSteps

  /** The fibers created and not yet out of their worker function. */
  ghost function Crew(s: State): nat {
    |LoopSet(s.fibers)| + |ReadySet(s.fibers)|
  }

  function Max2(a: nat, b: nat): nat { if a < b then b else a }

  /** Lines 57-61 run as one uninterrupted step: the fiber that answers the spawn test popped its
      job in the step before.  `last` is the fiber that popped in the step before `run`. */
  predicate Uninterrupted(last: Option<nat>, run: seq<Action>)
    decreases |run|
  {
    run == [] ||
    (&& (run[0].Spawn? ==> last == Some(run[0].f))
     && Uninterrupted(if run[0].TryPop? then Some(run[0].f) else None, run[1..]))
  }

  /** No fiber is created while another one that was created has yet to start. */
  ghost predicate AllStarted(pool: Pool, s: State, run: seq<Action>)
    requires Legal(pool, s, run)
    decreases |run|
  {
    run == [] ||
    (&& (run[0].Spawn? && Spawns(s, run[0].ready) ==> ReadySet(s.fibers) == {})
     && AllStarted(pool, Apply(pool, s, run[0]), run[1..]))
  }

  /** What is known between two steps of a calm run. */
  ghost predicate CalmInv(min: nat, max: nat, s: State, last: Option<nat>) {
    && Crew(s) <= Max2(min, max)
    && (last.Some? && last.value < |s.fibers| && s.fibers[last.value].pc.SpawnTest? ==> s.spawned < max)
  }

  /** A step that moves one fiber and creates none: the crew does not grow. */
  lemma MoveShrinksCrew(s: State, s': State, f: nat, pc: Pc)
    requires f < |s.fibers| && !s.fibers[f].pc.Exited? && !pc.Ready?
    requires s'.fibers == MoveTo(s.fibers, f, pc)
    ensures Crew(s') <= Crew(s)
  {
    var loop, ready := LoopSet(s.fibers), ReadySet(s.fibers);
    Recount(s.fibers, f, pc);
    if s.fibers[f].pc.Ready? {
      assert f in ready && f !in loop;
    } else {
      assert f in loop && f !in ready;
      assert ready - {f} == ready;
    }
  }

  lemma SpawnGrowsCrew(s: State, f: nat, ready: bool, id: nat)
    requires f < |s.fibers| && s.fibers[f].pc.SpawnTest?
    ensures Crew(SpawnStep(s, f, ready, id)) <= Crew(s) + if Spawns(s, ready) then 1 else 0
  {
    if Spawns(s, ready) {
      var s1 := AddFiber(s, id);
      assert LoopSet(s1.fibers) == LoopSet(s.fibers);
      assert ReadySet(s1.fibers) == ReadySet(s.fibers) + {|s.fibers|};
      MoveShrinksCrew(s1, SpawnStep(s, f, ready, id), f, Running(s.fibers[f].pc.w));
    } else {
      MoveShrinksCrew(s, SpawnStep(s, f, ready, id), f, Running(s.fibers[f].pc.w));
    }
  }

  lemma WalkKeepsCrew(pool: Pool, s: State, a: Action)
    requires Enabled(pool, s, a) && (a.Start? || a.Test? || a.TryPop? || a.Finish?)
    ensures Crew(Apply(pool, s, a)) <= Crew(s)
  {
    var s' := Apply(pool, s, a);
    if s'.fibers != s.fibers {
      MoveShrinksCrew(s, s', a.f, s'.fibers[a.f].pc);
    }
  }

  lemma RetireKeepsCrew(pool: Pool, s: State, f: nat, ready: bool)
    requires At(s, f, RetireTest) && s.fibers[f].id in s.fibs
    ensures Crew(RetireStep(pool, s, f, ready)) <= Crew(s)
  {
    var s' := RetireStep(pool, s, f, ready);
    MoveShrinksCrew(s, s', f, s'.fibers[f].pc);
  }

  lemma StepKeepsCrew(pool: Pool, s: State, a: Action)
    requires MapInv(s) && Enabled(pool, s, a) && !a.Spawn? && !a.Create?
    ensures Crew(Apply(pool, s, a)) <= Crew(s)
  {
    match a
    case Start(_) => WalkKeepsCrew(pool, s, a);
    case Test(_) => WalkKeepsCrew(pool, s, a);
    case TryPop(_) => WalkKeepsCrew(pool, s, a);
    case Finish(_) => WalkKeepsCrew(pool, s, a);
    case Retire(f, ready) =>
      RetireFindsEntry(s, f);
      RetireKeepsCrew(pool, s, f, ready);
    case _ =>
  }

  lemma CalmStep(min: nat, max: nat, s: State, last: Option<nat>, a: Action)
    requires CountInv(DynamicPool(min, max), s) && MapInv(s) && StartInv(s)
    requires CalmInv(min, max, s, last) && Enabled(DynamicPool(min, max), s, a)
    requires a.Spawn? ==> last == Some(a.f) && (Spawns(s, a.ready) ==> ReadySet(s.fibers) == {})
    ensures CalmInv(min, max, Apply(DynamicPool(min, max), s, a), if a.TryPop? then Some(a.f) else None)
  {
    var pool := DynamicPool(min, max);
    if a.Spawn? {
      SpawnGrowsCrew(s, a.f, a.ready, a.id);
    } else if a.Create? {
      AllReady(Apply(pool, s, a).fibers);
    } else {
      StepKeepsCrew(pool, s, a);
    }
  }

  /** Max holds over every calm run. */
  lemma {:induction false} CalmRunsStayBelowMax(min: nat, max: nat, s: State, last: Option<nat>, run: seq<Action>)
    requires Inv(DynamicPool(min, max), s) && Legal(DynamicPool(min, max), s, run)
    requires CalmInv(min, max, s, last) && Uninterrupted(last, run) && AllStarted(DynamicPool(min, max), s, run)
    ensures Crew(After(DynamicPool(min, max), s, run)) <= Max2(min, max)
    decreases |run|
  {
    if run != [] {
      var pool, a := DynamicPool(min, max), run[0];
      var s' := Apply(pool, s, a);
      StepKeepsInv(pool, s, a);
      CalmStep(min, max, s, last, a);
      CalmRunsStayBelowMax(min, max, s', if a.TryPop? then Some(a.f) else None, run[1..]);
    }
  }

  /** From the start: live fibers never exceed the larger of Min and Max. */
  lemma UpperBound(min: nat, max: nat, run: seq<Action>)
    requires Legal(DynamicPool(min, max), INITIAL, run)
    requires Uninterrupted(None, run) && AllStarted(DynamicPool(min, max), INITIAL, run)
    ensures Crew(After(DynamicPool(min, max), INITIAL, run)) <= Max2(min, max)
  {
    InitialInv(DynamicPool(min, max));
    assert LoopSet(INITIAL.fibers) == {} == ReadySet(INITIAL.fibers);
    CalmRunsStayBelowMax(min, max, INITIAL, None, run);
  }

  // ---------------------------------------------------------------- exactly when Max holds

  lemma {:induction false} UninterruptedChain(last: Option<nat>, run: seq<Action>, more: seq<Action>)
    requires Uninterrupted(last, run) && Uninterrupted(None, more)
    requires run != [] && !run[|run| - 1].TryPop?
    ensures Uninterrupted(last, run + more)
    decreases |run|
  {
    assert (run + more)[1..] == run[1..] + more;
    if |run| > 1 {
      UninterruptedChain(if run[0].TryPop? then Some(run[0].f) else None, run[1..], more);
    } else {
      assert run[1..] + more == more;
    }
  }

  /** The first fiber works alone at `pc`; the others have not started; the queue has works. */
  ghost predicate OneWorking(s: State, pc: Pc) {
    && s.fault == NoFault && s.master.AtRendezvous? && !s.destroyed
    && s.q.open && s.q.waiting == {} && s.q.items != [] && s.spawned == 1
    && s.fibers != [] && s.fibers[0].pc == pc
    && s.fibers[0].id in s.fibs
    && (forall k | k in s.fibs :: !s.fibs[k].terminated)
    && (forall i | 1 <= i < |s.fibers| :: s.fibers[i].pc.Ready?)
  }

  lemma LapPops(min: nat, max: nat, s: State)
    requires OneWorking(s, LoopTest) && |s.q.items| > 1 && max > 1
    ensures Legal(DynamicPool(min, max), s, [Test(0), TryPop(0)])
    ensures var s' := After(DynamicPool(min, max), s, [Test(0), TryPop(0)]);
            OneWorking(s', SpawnTest(s.q.items[0])) && s'.q.items == s.q.items[1..] && |s'.fibers| == |s.fibers|
  {
    var pool := DynamicPool(min, max);
    Extend(pool, s, [], Test(0));
    Extend(pool, s, [Test(0)], TryPop(0));
    assert [Test(0)] + [TryPop(0)] == [Test(0), TryPop(0)];
  }

  lemma LapSpawns(pool: Pool, s: State, w: nat, id: nat)
    requires OneWorking(s, SpawnTest(w)) && MapInv(s) && Fresh(s, id)
    ensures && Enabled(pool, s, Spawn(0, true, id))
            && var s' := Apply(pool, s, Spawn(0, true, id));
               OneWorking(s', Running(w)) && s'.q == s.q && |s'.fibers| == |s.fibers| + 1
  {
  }

  lemma LapEnds(min: nat, max: nat, s: State, w: nat)
    requires OneWorking(s, Running(w))
    ensures Legal(DynamicPool(min, max), s, [Finish(0), Retire(0, true)])
    ensures var s' := After(DynamicPool(min, max), s, [Finish(0), Retire(0, true)]);
            OneWorking(s', LoopTest) && s'.q == s.q && |s'.fibers| == |s.fibers|
  {
    var pool := DynamicPool(min, max);
    Extend(pool, s, [], Finish(0));
    Extend(pool, s, [Finish(0)], Retire(0, true));
    assert [Finish(0)] + [Retire(0, true)] == [Finish(0), Retire(0, true)];
  }

  function LapOf(id: nat): seq<Action> {
    [Test(0), TryPop(0), Spawn(0, true, id), Finish(0), Retire(0, true)]
  }

  lemma LapIsUninterrupted(id: nat)
    ensures Uninterrupted(None, LapOf(id))
  {
    assert LapOf(id)[1..] == [TryPop(0), Spawn(0, true, id), Finish(0), Retire(0, true)];
    assert [TryPop(0), Spawn(0, true, id), Finish(0), Retire(0, true)][1..] == [Spawn(0, true, id), Finish(0), Retire(0, true)];
    assert [Spawn(0, true, id), Finish(0), Retire(0, true)][1..] == [Finish(0), Retire(0, true)];
    assert [Finish(0), Retire(0, true)][1..] == [Retire(0, true)];
    assert [Retire(0, true)][1..] == [];
    assert Uninterrupted(None, [Finish(0), Retire(0, true)]);
    assert Uninterrupted(Some(0), [Spawn(0, true, id), Finish(0), Retire(0, true)]);
  }

  /** One round of the worker loop pops a job and creates one more fiber. */
  lemma Lap(min: nat, max: nat, s: State) returns (lap: seq<Action>)
    requires Inv(DynamicPool(min, max), s) && OneWorking(s, LoopTest) && |s.q.items| > 1 && max > 1
    ensures Legal(DynamicPool(min, max), s, lap) && Uninterrupted(None, lap)
    ensures lap != [] && !lap[|lap| - 1].TryPop?
    ensures var s' := After(DynamicPool(min, max), s, lap);
            OneWorking(s', LoopTest) && |s'.q.items| == |s.q.items| - 1 && |s'.fibers| == |s.fibers| + 1
  {
    var pool := DynamicPool(min, max);
    LapPops(min, max, s);
    lap := [Test(0), TryPop(0)];
    var s1 := After(pool, s, lap);
    RunKeepsInvariant(pool, s, lap);
    var id := UnusedId(s1.fibers);
    LapSpawns(pool, s1, s.q.items[0], id);
    Extend(pool, s, lap, Spawn(0, true, id));
    lap := lap + [Spawn(0, true, id)];
    LapEnds(min, max, After(pool, s, lap), s.q.items[0]);
    Follow(pool, s, lap, [Finish(0), Retire(0, true)]);
    lap := lap + [Finish(0), Retire(0, true)];
    LapIsUninterrupted(id);
    assert lap == LapOf(id);
  }

  lemma {:induction false} Laps(min: nat, max: nat, s: State, n: nat) returns (run: seq<Action>)
    requires Inv(DynamicPool(min, max), s) && OneWorking(s, LoopTest) && |s.q.items| > n && max > 1
    ensures Legal(DynamicPool(min, max), s, run) && Uninterrupted(None, run)
    ensures var s' := After(DynamicPool(min, max), s, run);
            OneWorking(s', LoopTest) && |s'.fibers| == |s.fibers| + n
    decreases n
  {
    run := [];
    if n > 0 {
      var pool := DynamicPool(min, max);
      var lap := Lap(min, max, s);
      var s' := After(pool, s, lap);
      RunKeepsInvariant(pool, s, lap);
      var rest := Laps(min, max, s', n - 1);
      Follow(pool, s, lap, rest);
      UninterruptedChain(None, lap, rest);
      run := lap + rest;
    }
  }

  /** Created, and `jobs` jobs submitted. */
  ghost predicate Idle(s: State, min: nat, jobs: nat) {
    && s.fault == NoFault && s.master.AtRendezvous? && !s.destroyed
    && s.q.open && s.q.waiting == {} && |s.q.items| == jobs && s.spawned == 0
    && |s.fibers| == min && (min > 0 ==> 0 in s.fibs)
    && (forall k | k in s.fibs :: !s.fibs[k].terminated)
    && (forall i | 0 <= i < min :: s.fibers[i] == Fiber(i, Ready, false))
  }

  lemma {:induction false} BeginWith(min: nat, max: nat, jobs: nat) returns (run: seq<Action>)
    ensures Legal(DynamicPool(min, max), INITIAL, run) && Uninterrupted(None, run)
    ensures run != [] && !run[|run| - 1].TryPop?
    ensures Idle(After(DynamicPool(min, max), INITIAL, run), min, jobs)
    decreases jobs
  {
    var pool := DynamicPool(min, max);
    if jobs == 0 {
      var ids := seq(min, (i: nat) => i);
      assert min > 0 ==> ids[0] == 0;
      Extend(pool, INITIAL, [], Create(ids));
      run := [Create(ids)];
    } else {
      var r := BeginWith(min, max, jobs - 1);
      Extend(pool, INITIAL, r, Push(None));
      UninterruptedChain(None, r, [Push(None)]);
      run := r + [Push(None)];
    }
  }

  lemma FirstStartsWorking(pool: Pool, s: State, min: nat, jobs: nat)
    requires Idle(s, min, jobs) && min >= 1 && jobs >= 1
    ensures Enabled(pool, s, Start(0))
    ensures OneWorking(Apply(pool, s, Start(0)), LoopTest)
  {
  }

  lemma FirstStarts(min: nat, max: nat, jobs: nat) returns (run: seq<Action>)
    requires min >= 1 && jobs >= 1
    ensures Legal(DynamicPool(min, max), INITIAL, run) && Uninterrupted(None, run)
    ensures run != [] && !run[|run| - 1].TryPop?
    ensures var s := After(DynamicPool(min, max), INITIAL, run);
            OneWorking(s, LoopTest) && |s.q.items| == jobs && |s.fibers| == min
  {
    var pool := DynamicPool(min, max);
    var begin := BeginWith(min, max, jobs);
    FirstStartsWorking(pool, After(pool, INITIAL, begin), min, jobs);
    Extend(pool, INITIAL, begin, Start(0));
    UninterruptedChain(None, begin, [Start(0)]);
    run := begin + [Start(0)];
  }

  /** With Min at least 1 and Max at least 2 the crew outgrows both, by a run in which every
      spawn test is answered without interruption: while the fibers it creates have not started,
      the one that works keeps finding `*spawned == 1`. */
  lemma MaxCanBeBroken(min: nat, max: nat) returns (run: seq<Action>)
    requires min >= 1 && max >= 2
    ensures Legal(DynamicPool(min, max), INITIAL, run) && Uninterrupted(None, run)
    ensures Crew(After(DynamicPool(min, max), INITIAL, run)) > Max2(min, max)
  {
    var pool := DynamicPool(min, max);
    var begin := FirstStarts(min, max, max + 2);
    InitialInv(pool);
    RunKeepsInvariant(pool, INITIAL, begin);
    var laps := Laps(min, max, After(pool, INITIAL, begin), max);
    Follow(pool, INITIAL, begin, laps);
    UninterruptedChain(None, begin, laps);
    run := begin + laps;
    CountOneWorking(After(pool, INITIAL, run).fibers);
  }

  lemma {:induction false} CountOneWorking(fibers: seq<Fiber>)
    requires fibers != [] && fibers[0].pc.LoopTest? && forall i | 1 <= i < |fibers| :: fibers[i].pc.Ready?
    ensures LoopSet(fibers) == {0} && |ReadySet(fibers)| == |fibers| - 1
  {
    var n := |fibers| - 1;
    if n > 0 {
      CountOneWorking(fibers[..n]);
      assert ReadySet(fibers) == ReadySet(fibers[..n]) + {n};
    }
  }

  /** Where no fiber can ever pass the first half of line 57. */
  ghost predicate NobodyAsks(s: State) {
    forall f: nat | f < |s.fibers| :: !s.fibers[f].pc.SpawnTest?
  }

  lemma StepKeepsNobodyAsks(min: nat, max: nat, s: State, a: Action)
    requires CountInv(DynamicPool(min, max), s) && NobodyAsks(s) && Enabled(DynamicPool(min, max), s, a)
    requires max <= 1 || (s.fibers == [] && min == 0)
    ensures NobodyAsks(Apply(DynamicPool(min, max), s, a))
    ensures s.fibers == [] && min == 0 ==> Apply(DynamicPool(min, max), s, a).fibers == []
  {
    if a.TryPop? {
      assert a.f in LoopSet(s.fibers);
      assert |LoopSet(s.fibers)| >= |{a.f}|;
    }
  }

  lemma {:induction false} NobodyAsksEver(min: nat, max: nat, s: State, run: seq<Action>)
    requires Inv(DynamicPool(min, max), s) && Legal(DynamicPool(min, max), s, run)
    requires NobodyAsks(s) && Crew(s) <= Max2(min, max)
    requires max <= 1 || (s.fibers == [] && min == 0)
    ensures Crew(After(DynamicPool(min, max), s, run)) <= Max2(min, max)
    decreases |run|
  {
    if run != [] {
      var pool, a := DynamicPool(min, max), run[0];
      StepKeepsInv(pool, s, a);
      StepKeepsNobodyAsks(min, max, s, a);
      if a.Create? {
        AllReady(Apply(pool, s, a).fibers);
      } else {
        StepKeepsCrew(pool, s, a);
      }
      NobodyAsksEver(min, max, Apply(pool, s, a), run[1..]);
    }
  }

  /** Exactly when Max bounds the crew over all runs with uninterrupted spawn tests: when the pool
      can never create a fiber beyond its first Min.  Otherwise the bound needs the condition of
      `UpperBound`, that every created fiber has started whenever another is created. */
  lemma MaxHoldsExactly(min: nat, max: nat)
    ensures (forall run :: Legal(DynamicPool(min, max), INITIAL, run) && Uninterrupted(None, run) ==>
               Crew(After(DynamicPool(min, max), INITIAL, run)) <= Max2(min, max))
            <==> min == 0 || max <= 1
  {
    var pool := DynamicPool(min, max);
    if min == 0 || max <= 1 {
      forall run | Legal(pool, INITIAL, run) ensures Crew(After(pool, INITIAL, run)) <= Max2(min, max) {
        InitialInv(pool);
        assert LoopSet(INITIAL.fibers) == {} == ReadySet(INITIAL.fibers);
        NobodyAsksEver(min, max, INITIAL, run);
      }
    } else {
      var run := MaxCanBeBroken(min, max);
    }
  }
}
