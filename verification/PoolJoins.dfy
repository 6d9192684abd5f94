/** The join loop of the dynamic pool and the fibers created after close: exactly when the loop
    can miss one, so that destroying the map of fibers ends the program. */
module PoolJoins {
  import opened Options
  import opened PoolMachine
  import opened PoolInvariant
  import opened PoolSteps
  import opened PoolBounds

  // ---------------------------------------------------------------- it cannot happen

  ghost predicate NobodyBehind(s: State) {
    NobodyAsks(s) && forall f: nat | f < |s.fibers| :: !s.fibers[f].behind
  }

  lemma {:induction false} NobodyBehindEver(min: nat, max: nat, s: State, run: seq<Action>)
    requires Inv(DynamicPool(min, max), s) && Legal(DynamicPool(min, max), s, run) && NobodyBehind(s)
    requires max <= 1 || (s.fibers == [] && min == 0)
    ensures !After(DynamicPool(min, max), s, run).master.Aborted?
    decreases |run|
  {
    if run != [] {
      var pool, a := DynamicPool(min, max), run[0];
      StepKeepsInv(pool, s, a);
      StepKeepsNobodyAsks(min, max, s, a);
      StepKeepsNobodyBehind(pool, s, a);
      NobodyBehindEver(min, max, Apply(pool, s, a), run[1..]);
    }
  }

  lemma StepKeepsNobodyBehind(pool: Pool, s: State, a: Action)
    requires NobodyBehind(s) && StartInv(s) && Enabled(pool, s, a)
    ensures forall f: nat | f < |Apply(pool, s, a).fibers| :: !Apply(pool, s, a).fibers[f].behind
  {
  }

  // ---------------------------------------------------------------- it can happen

  /** Fiber `i` has id `i + 1` and can be joined under it, for the fibers `first` to `min - 1`. */
  ghost predicate Numbered(s: State, first: nat, min: nat) {
    && min <= |s.fibers|
    && (forall i | first <= i < min ::
          && s.fibers[i].id == i + 1
          && s.fibers[i].id in s.fibs && s.fibs[s.fibers[i].id] == Entry(Some(i), false))
  }

  /** The pool has begun and `jobs` jobs are queued. */
  ghost predicate Awaiting(s: State, min: nat, jobs: nat) {
    && s.fault == NoFault && s.master.AtRendezvous? && !s.destroyed && s.spawned == 0
    && s.q.open && s.q.waiting == {} && |s.q.items| == jobs
    && |s.fibers| == min && Numbered(s, 0, min)
    && (forall i | 0 <= i < min :: s.fibers[i].pc.Ready?)
    && (forall k | k in s.fibs :: 1 <= k <= min && !s.fibs[k].terminated)
  }

  lemma CreatedAreAwaiting(min: nat, ids: seq<nat>)
    requires |ids| == min && forall i | 0 <= i < min :: ids[i] == i + 1
    ensures Awaiting(CreateFibers(INITIAL, ids), min, 0)
  {
  }

  lemma {:induction false} BeginNumbered(min: nat, max: nat, jobs: nat) returns (run: seq<Action>)
    ensures Legal(DynamicPool(min, max), INITIAL, run)
    ensures Awaiting(After(DynamicPool(min, max), INITIAL, run), min, jobs)
    decreases jobs
  {
    var pool := DynamicPool(min, max);
    if jobs == 0 {
      var ids := seq(min, (i: nat) => i + 1);
      CreatedAreAwaiting(min, ids);
      Extend(pool, INITIAL, [], Create(ids));
      run := [Create(ids)];
    } else {
      var r := BeginNumbered(min, max, jobs - 1);
      Extend(pool, INITIAL, r, Push(None));
      run := r + [Push(None)];
    }
  }

  /** The first fiber starts, pops a job and means to ask for another fiber. */
  lemma FirstAsks(min: nat, max: nat, s: State) returns (run: seq<Action>)
    requires Awaiting(s, min, 2) && min >= 1 && max >= 2
    ensures Legal(DynamicPool(min, max), s, run)
    ensures var s' := After(DynamicPool(min, max), s, run);
            && s'.fault == NoFault && s'.master.AtRendezvous? && !s'.destroyed
            && s'.q.open && s'.q.items != [] && s'.fibs == s.fibs
            && |s'.fibers| == min && Numbered(s', 0, min)
            && s'.fibers[0].pc.SpawnTest? && (forall i | 1 <= i < min :: s'.fibers[i].pc.Ready?)
  {
    var pool := DynamicPool(min, max);
    Extend(pool, s, [], Start(0));
    run := [Start(0)];
    Extend(pool, s, run, Test(0)); run := run + [Test(0)];
    Extend(pool, s, run, TryPop(0)); run := run + [TryPop(0)];
  }

  /** The queue is closed, and fiber `min`, with id 0, has been inserted behind the cursor. */
  ghost predicate Missed(s: State, first: nat, min: nat) {
    && s.fault == NoFault && !s.q.open && s.q.items != []
    && |s.fibers| == min + 1 && Numbered(s, first, min)
    && 0 in s.fibs && s.fibs[0] == Entry(Some(min), false)
    && (forall k | k in s.fibs :: k <= min && !s.fibs[k].terminated)
  }

  lemma CloseThenSpawn(min: nat, max: nat, s: State) returns (run: seq<Action>)
    requires s.fault == NoFault && s.master.AtRendezvous? && !s.destroyed && s.q.open && s.q.items != []
    requires |s.fibers| == min >= 1 && Numbered(s, 0, min)
    requires s.fibers[0].pc.SpawnTest? && (forall i | 1 <= i < min :: s.fibers[i].pc.Ready?)
    requires forall k | k in s.fibs :: 1 <= k <= min && !s.fibs[k].terminated
    ensures Legal(DynamicPool(min, max), s, run)
    ensures var s' := After(DynamicPool(min, max), s, run);
            && Missed(s', 0, min) && s'.master == Joining(1, Some(0))
            && s'.fibers[0].pc.Running? && (forall i | 1 <= i < min :: s'.fibers[i].pc.Ready?)
  {
    var pool := DynamicPool(min, max);
    assert s.fibers[0].id == 1;
    Extend(pool, s, [], Notify);
    run := [Notify];
    Extend(pool, s, run, Shut(Some(1))); run := run + [Shut(Some(1))];
    Extend(pool, s, run, Spawn(0, true, 0)); run := run + [Spawn(0, true, 0)];
  }

  lemma FirstLeaves(min: nat, max: nat, s: State) returns (run: seq<Action>)
    requires Missed(s, 0, min) && !s.master.Aborted? && min >= 1 && s.fibers[0].pc.Running?
    ensures Legal(DynamicPool(min, max), s, run)
    ensures var s' := After(DynamicPool(min, max), s, run);
            && Missed(s', 0, min) && s'.master == s.master && s'.fibers[0].pc.Exited?
            && (forall i | 1 <= i <= min :: s'.fibers[i] == s.fibers[i])
  {
    var pool := DynamicPool(min, max);
    Extend(pool, s, [], Finish(0));
    run := [Finish(0)];
    Extend(pool, s, run, Retire(0, false)); run := run + [Retire(0, false)];
    Extend(pool, s, run, Test(0)); run := run + [Test(0)];
  }

  /** Fibers `n` to `min - 1` start, find the queue closed and leave. */
  lemma {:induction false} OthersLeave(min: nat, max: nat, s: State, n: nat) returns (run: seq<Action>)
    requires Missed(s, 0, min) && !s.master.Aborted? && 1 <= n <= min
    requires (forall i | 0 <= i < n :: s.fibers[i].pc.Exited?) && forall i | n <= i < min :: s.fibers[i].pc.Ready?
    ensures Legal(DynamicPool(min, max), s, run)
    ensures var s' := After(DynamicPool(min, max), s, run);
            Missed(s', 0, min) && s'.master == s.master && forall i | 0 <= i < min :: s'.fibers[i].pc.Exited?
    decreases min - n
  {
    var pool := DynamicPool(min, max);
    if n == min {
      run := [];
      assert After(pool, s, run) == s;
    } else {
      Extend(pool, s, [], Start(n));
      Extend(pool, s, [Start(n)], Test(n));
      var two := [Start(n)] + [Test(n)];
      var rest := OthersLeave(min, max, After(pool, s, two), n + 1);
      Follow(pool, s, two, rest);
      run := two + rest;
    }
  }

  /** The loop joins keys `k` to `min` in turn, and never comes to key 0. */
  lemma {:induction false} JoinsPastZero(min: nat, max: nat, s: State, k: nat) returns (run: seq<Action>)
    requires 1 <= k <= min && Missed(s, k - 1, min) && s.master == Joining(k, Some(k - 1))
    requires forall i | 0 <= i < min :: s.fibers[i].pc.Exited?
    ensures Legal(DynamicPool(min, max), s, run) && After(DynamicPool(min, max), s, run).master.Aborted?
    decreases min - k
  {
    var pool := DynamicPool(min, max);
    assert s.fibers[k - 1].id == k;
    if k == min {
      assert Joinable(ClearJoined(s).fibs, 0);
      Extend(pool, s, [], Join(None));
      run := [Join(None)];
    } else {
      assert s.fibers[k].id == k + 1;
      Extend(pool, s, [], Join(Some(k + 1)));
      var rest := JoinsPastZero(min, max, Apply(pool, s, Join(Some(k + 1))), k + 1);
      Follow(pool, s, [Join(Some(k + 1))], rest);
      run := [Join(Some(k + 1))] + rest;
    }
  }

  lemma ReachClose(min: nat, max: nat) returns (run: seq<Action>)
    requires min >= 1 && max >= 2
    ensures Legal(DynamicPool(min, max), INITIAL, run)
    ensures var s := After(DynamicPool(min, max), INITIAL, run);
            && Missed(s, 0, min) && s.master == Joining(1, Some(0))
            && s.fibers[0].pc.Running? && (forall i | 1 <= i < min :: s.fibers[i].pc.Ready?)
  {
    var pool := DynamicPool(min, max);
    var begin := BeginNumbered(min, max, 2);
    var asks := FirstAsks(min, max, After(pool, INITIAL, begin));
    Follow(pool, INITIAL, begin, asks);
    var spawns := CloseThenSpawn(min, max, After(pool, INITIAL, begin + asks));
    Follow(pool, INITIAL, begin + asks, spawns);
    run := begin + asks + spawns;
  }

  lemma LeaveAndJoin(min: nat, max: nat, s: State) returns (run: seq<Action>)
    requires min >= 1 && Missed(s, 0, min) && s.master == Joining(1, Some(0))
    requires s.fibers[0].pc.Running? && (forall i | 1 <= i < min :: s.fibers[i].pc.Ready?)
    ensures Legal(DynamicPool(min, max), s, run) && After(DynamicPool(min, max), s, run).master.Aborted?
  {
    var pool := DynamicPool(min, max);
    var leaves := FirstLeaves(min, max, s);
    var others := OthersLeave(min, max, After(pool, s, leaves), 1);
    Follow(pool, s, leaves, others);
    var joins := JoinsPastZero(min, max, After(pool, s, leaves + others), 1);
    Follow(pool, s, leaves + others, joins);
    run := leaves + others + joins;
  }

  lemma LoopCanMiss(min: nat, max: nat) returns (run: seq<Action>)
    requires min >= 1 && max >= 2
    ensures Legal(DynamicPool(min, max), INITIAL, run)
    ensures After(DynamicPool(min, max), INITIAL, run).master.Aborted?
  {
    var pool := DynamicPool(min, max);
    var close := ReachClose(min, max);
    var rest := LeaveAndJoin(min, max, After(pool, INITIAL, close));
    Follow(pool, INITIAL, close, rest);
    run := close + rest;
  }

  /** Exactly when the join loop joins or sees detached every fiber of the pool, whatever the
      schedule: when no fiber can be created after the first Min.  Otherwise a worker that popped a
      job before close may still create a fiber, under an id the loop has already passed. */
  lemma JoinLoopMissesNobodyExactly(min: nat, max: nat)
    ensures (forall run :: Legal(DynamicPool(min, max), INITIAL, run) ==>
               !After(DynamicPool(min, max), INITIAL, run).master.Aborted?)
            <==> min == 0 || max <= 1
  {
    var pool := DynamicPool(min, max);
    if min == 0 || max <= 1 {
      forall run | Legal(pool, INITIAL, run) ensures !After(pool, INITIAL, run).master.Aborted? {
        InitialInv(pool);
        NobodyBehindEver(min, max, INITIAL, run);
      }
    } else {
      var run := LoopCanMiss(min, max);
    }
  }
}
