/** Every step of the pool machine keeps the invariant: one lemma an action, on top of a few
    lemmas about the shapes the steps have in common. */
module PoolSteps {
  import opened Options
  import opened OrderedKeys
  import Q = QueueProtocol
  import opened PoolMachine
  import opened PoolInvariant

  // ---------------------------------------------------------------- shapes

  lemma Recount(fibers: seq<Fiber>, f: nat, pc: Pc)
    requires f < |fibers|
    ensures var fibers' := MoveTo(fibers, f, pc);
            && LoopSet(fibers') == (if InLoop(pc) then LoopSet(fibers) + {f} else LoopSet(fibers) - {f})
            && ReadySet(fibers') == (if pc.Ready? then ReadySet(fibers) + {f} else ReadySet(fibers) - {f})
  {
  }

  /** A fiber moves inside its loop: nobody is counted in or out. */
  lemma MoveKeepsCount(pool: Pool, s: State, s': State, f: nat, pc: Pc)
    requires StartInv(s) && CountInv(pool, s)
    requires f < |s.fibers| && InLoop(s.fibers[f].pc) && InLoop(pc)
    requires s'.fibers == MoveTo(s.fibers, f, pc) && s'.spawned == s.spawned
    requires s'.master == s.master && s'.q.open == s.q.open
    ensures StartInv(s') && CountInv(pool, s')
  {
    Recount(s.fibers, f, pc);
    assert LoopSet(s'.fibers) == LoopSet(s.fibers) && ReadySet(s'.fibers) == ReadySet(s.fibers);
  }

  /** A fiber moves, possibly out of its worker function, and the map stays as it is. */
  lemma MoveKeepsMap(s: State, s': State, f: nat, pc: Pc)
    requires MapInv(s) && JoinInv(s)
    requires f < |s.fibers| && !s.fibers[f].pc.Exited?
    requires s'.fibers == MoveTo(s.fibers, f, pc) && s'.fibs == s.fibs && s'.fault == s.fault
    requires s'.master == s.master && s'.q.open == s.q.open
    ensures MapInv(s') && JoinInv(s')
  {
  }

  /** A fiber moves, holding no job before or after. */
  lemma MoveKeepsFate(s: State, s': State, f: nat, pc: Pc)
    requires FateInv(s) && PopperInv(s) && HistoryInv(s)
    requires f < |s.fibers| && !pc.SpawnTest? && !pc.Running?
    requires !s.fibers[f].pc.SpawnTest? && !s.fibers[f].pc.Running?
    requires s'.fibers == MoveTo(s.fibers, f, pc) && s'.futures == s.futures && s'.q.items == s.q.items
    requires s'.accepted == s.accepted && s'.popped == s.popped
    requires s'.destroyed == s.destroyed && s'.master == s.master
    ensures FateInv(s') && PopperInv(s') && HistoryInv(s')
  {
  }

  // ---------------------------------------------------------------- actions

  lemma {:induction false} AllReady(fibers: seq<Fiber>)
    requires forall i | 0 <= i < |fibers| :: fibers[i].pc.Ready?
    ensures LoopSet(fibers) == {} && |ReadySet(fibers)| == |fibers|
  {
    if fibers != [] {
      var n := |fibers| - 1;
      AllReady(fibers[..n]);
      assert ReadySet(fibers) == ReadySet(fibers[..n]) + {n};
    }
  }

  lemma CreateKeepsMap(s: State, ids: seq<nat>)
    requires MapInv(s) && s.master.Starting? && s.q.open && Distinct(ids)
    ensures MapInv(CreateFibers(s, ids)) && JoinInv(CreateFibers(s, ids))
  {
  }

  lemma CreateKeepsFate(s: State, ids: seq<nat>)
    requires s.fibers == [] && FateInv(s) && PopperInv(s) && HistoryInv(s) && Distinct(ids) && s.master.Starting?
    ensures FateInv(CreateFibers(s, ids)) && PopperInv(CreateFibers(s, ids)) && HistoryInv(CreateFibers(s, ids))
  {
  }

  lemma CreateKeepsInv(pool: Pool, s: State, ids: seq<nat>)
    requires Inv(pool, s) && Enabled(pool, s, Create(ids))
    ensures Inv(pool, CreateFibers(s, ids))
  {
    CreateKeepsMap(s, ids);
    CreateKeepsFate(s, ids);
    AllReady(CreateFibers(s, ids).fibers);
    assert LoopSet(s.fibers) == {};
  }

  lemma StartKeepsCount(pool: Pool, s: State, f: nat)
    requires CountInv(pool, s) && Enabled(pool, s, Start(f))
    ensures CountInv(pool, Apply(pool, s, Start(f)))
  {
    Recount(s.fibers, f, LoopTest);
    assert f !in LoopSet(s.fibers) && f in ReadySet(s.fibers);
  }

  lemma StartKeepsInv(pool: Pool, s: State, f: nat)
    requires Inv(pool, s) && Enabled(pool, s, Start(f))
    ensures Inv(pool, Apply(pool, s, Start(f)))
  {
    var s' := Apply(pool, s, Start(f));
    StartKeepsCount(pool, s, f);
    MoveKeepsMap(s, s', f, LoopTest);
    MoveKeepsFate(s, s', f, LoopTest);
  }

  lemma PassTestKeepsInv(pool: Pool, s: State, f: nat)
    requires Inv(pool, s) && Enabled(pool, s, Test(f)) && s.q.open
    ensures Inv(pool, Apply(pool, s, Test(f)))
  {
    var s' := Apply(pool, s, Test(f));
    MoveKeepsCount(pool, s, s', f, InPop);
    MoveKeepsMap(s, s', f, InPop);
    MoveKeepsFate(s, s', f, InPop);
  }

  lemma FailTestKeepsCount(pool: Pool, s: State, f: nat)
    requires CountInv(pool, s) && Enabled(pool, s, Test(f)) && !s.q.open
    ensures CountInv(pool, Apply(pool, s, Test(f)))
  {
    Recount(s.fibers, f, Exited);
    assert f in LoopSet(s.fibers);
  }

  lemma FailTestKeepsInv(pool: Pool, s: State, f: nat)
    requires Inv(pool, s) && Enabled(pool, s, Test(f)) && !s.q.open
    ensures Inv(pool, Apply(pool, s, Test(f)))
  {
    var s' := Apply(pool, s, Test(f));
    FailTestKeepsCount(pool, s, f);
    MoveKeepsMap(s, s', f, Exited);
    MoveKeepsFate(s, s', f, Exited);
  }

  lemma HeadIsUnique(s: State)
    requires HistoryInv(s) && s.q.items != []
    ensures forall i | 1 <= i < |s.q.items| :: s.q.items[i] != s.q.items[0]
  {
    assert forall i | 0 <= i < |s.q.items| :: s.accepted[|s.popped| + i] == s.q.items[i];
  }

  /** A popped work goes from the head of the queue into the hands of its popper. */
  lemma PopKeepsFate(pool: Pool, s: State, f: nat)
    requires FateInv(s) && HistoryInv(s) && Enabled(pool, s, TryPop(f)) && s.q.items != []
    ensures FateInv(PopStep(pool, s, f))
  {
    HeadIsUnique(s);
    PopKeepsTracked(pool, s, f);
    PopKeepsHolding(pool, s, f);
  }

  lemma PopKeepsHolding(pool: Pool, s: State, f: nat)
    requires FateInv(s) && At(s, f, InPop) && s.q.items != []
    ensures var s' := PopStep(pool, s, f); forall g: nat | g < |s'.fibers| :: Holding(g, s'.fibers[g].pc, s'.futures)
  {
    assert s.futures[s.q.items[0]] == PENDING;
  }

  lemma PopKeepsTracked(pool: Pool, s: State, f: nat)
    requires FateInv(s) && At(s, f, InPop) && s.q.items != []
    requires forall i | 1 <= i < |s.q.items| :: s.q.items[i] != s.q.items[0]
    ensures var s' := PopStep(pool, s, f);
            forall w: nat | w < |s'.futures| :: Tracked(s'.futures[w], w, s'.q.items, s'.fibers)
  {
    var s' := PopStep(pool, s, f);
    var head := s.q.items[0];
    forall w: nat | w < |s'.futures| ensures Tracked(s'.futures[w], w, s'.q.items, s'.fibers) {
      assert Tracked(s.futures[w], w, s.q.items, s.fibers);
    }
  }

  lemma PopKeepsHistory(pool: Pool, s: State, f: nat)
    requires HistoryInv(s) && At(s, f, InPop) && s.q.items != []
    ensures HistoryInv(PopStep(pool, s, f))
  {
    assert s.popped + s.q.items == PopStep(pool, s, f).popped + PopStep(pool, s, f).q.items;
    assert |AddPopper(s.futures, s.q.items[0], f)| == |s.futures|;
  }

  lemma PopKeepsPopper(pool: Pool, s: State, f: nat)
    requires HistoryInv(s) && PopperInv(s) && At(s, f, InPop) && s.q.items != []
    ensures PopperInv(PopStep(pool, s, f))
  {
    assert s.q.items[0] in s.accepted by {
      assert s.accepted[|s.popped|] == s.q.items[0];
    }
  }

  lemma PopKeepsSleepers(pool: Pool, s: State, f: nat)
    requires SleepersInPop(s) && At(s, f, InPop) && f !in s.q.waiting
    ensures SleepersInPop(PopStep(pool, s, f))
  {
    var s' := PopStep(pool, s, f);
    forall g | g in s'.q.waiting || g in s'.q.notified ensures At(s', g, InPop) {
      assert g == f || g in s.q.waiting || g in s.q.notified;
      if g == f {
        assert s'.fibers == s.fibers;
      }
    }
  }

  lemma PopKeepsQueue(pool: Pool, s: State, f: nat)
    requires QueueInv(s) && Enabled(pool, s, TryPop(f))
    ensures QueueInv(PopStep(pool, s, f))
  {
    PopKeepsSleepers(pool, s, f);
    KeepsNoLostWakeUp(pool, s, TryPop(f));
  }

  lemma TakeKeepsInv(pool: Pool, s: State, f: nat)
    requires Inv(pool, s) && Enabled(pool, s, TryPop(f)) && s.q.items != []
    ensures Inv(pool, PopStep(pool, s, f))
  {
    var s' := PopStep(pool, s, f);
    PopKeepsQueue(pool, s, f);
    MoveKeepsCount(pool, s, s', f, s'.fibers[f].pc);
    MoveKeepsMap(s, s', f, s'.fibers[f].pc);
    PopKeepsFate(pool, s, f);
    PopKeepsHistory(pool, s, f);
    PopKeepsPopper(pool, s, f);
  }

  lemma SleepKeepsInv(pool: Pool, s: State, f: nat)
    requires Inv(pool, s) && Enabled(pool, s, TryPop(f)) && s.q.items == [] && s.q.open
    ensures Inv(pool, PopStep(pool, s, f))
  {
    PopKeepsQueue(pool, s, f);
    WaitSetsKeepInv(pool, s, PopStep(pool, s, f).q);
  }

  lemma GiveUpKeepsInv(pool: Pool, s: State, f: nat)
    requires Inv(pool, s) && Enabled(pool, s, TryPop(f)) && s.q.items == [] && !s.q.open
    ensures Inv(pool, PopStep(pool, s, f))
  {
    var s' := PopStep(pool, s, f);
    PopKeepsQueue(pool, s, f);
    MoveKeepsCount(pool, s, s', f, LoopTest);
    MoveKeepsMap(s, s', f, LoopTest);
    MoveKeepsFate(s, s', f, LoopTest);
  }

  /** What a step keeps that leaves fibers, map and master alone and the queue as open as it was. */
  lemma CrewUntouched(pool: Pool, s: State, s': State)
    requires StartInv(s) && CountInv(pool, s) && MapInv(s) && JoinInv(s)
    requires s'.fibers == s.fibers && s'.fibs == s.fibs && s'.spawned == s.spawned
    requires s'.master == s.master && s'.fault == s.fault && s'.q.open == s.q.open
    ensures StartInv(s') && CountInv(pool, s') && MapInv(s') && JoinInv(s')
  {
  }

  lemma PushKeepsQueue(pool: Pool, s: State, woken: Option<nat>)
    requires QueueInv(s) && Enabled(pool, s, Push(woken))
    ensures QueueInv(SubmitJob(s, woken))
  {
    KeepsNoLostWakeUp(pool, s, Push(woken));
  }

  lemma PushKeepsInv(pool: Pool, s: State, woken: Option<nat>)
    requires Inv(pool, s) && Enabled(pool, s, Push(woken))
    ensures Inv(pool, SubmitJob(s, woken))
  {
    PushKeepsQueue(pool, s, woken);
    CrewUntouched(pool, s, SubmitJob(s, woken));
    PushKeepsFate(pool, s, woken);
    PushKeepsHistory(pool, s, woken);
  }

  lemma PushKeepsFate(pool: Pool, s: State, woken: Option<nat>)
    requires FateInv(s) && Enabled(pool, s, Push(woken))
    ensures FateInv(SubmitJob(s, woken))
  {
    var s' := SubmitJob(s, woken);
    forall w: nat | w < |s'.futures| ensures Tracked(s'.futures[w], w, s'.q.items, s'.fibers) {
      if w < |s.futures| {
        assert Tracked(s.futures[w], w, s.q.items, s.fibers);
      }
    }
  }

  lemma PushKeepsHistory(pool: Pool, s: State, woken: Option<nat>)
    requires HistoryInv(s) && PopperInv(s) && Enabled(pool, s, Push(woken))
    requires s.q.open ==> !s.destroyed
    ensures HistoryInv(SubmitJob(s, woken)) && PopperInv(SubmitJob(s, woken))
  {
    var s' := SubmitJob(s, woken);
    assert forall w | w in s.popped :: w in s.accepted;
    if s.q.open {
      assert s'.accepted == s'.popped + s'.q.items;
    }
  }

  /** A fresh id overwrites no joinable handle, and the new fiber owns its entry. */
  lemma AddFiberKeepsMap(s: State, id: nat)
    requires MapInv(s) && JoinInv(s) && Fresh(s, id)
    requires !s.master.Starting? && !s.master.Returned? && !s.master.Aborted?
    ensures MapInv(AddFiber(s, id)) && JoinInv(AddFiber(s, id))
  {
  }

  lemma AddFiberKeepsCount(pool: Pool, s: State, id: nat)
    requires CountInv(pool, s)
    ensures CountInv(pool, AddFiber(s, id))
  {
    var s' := AddFiber(s, id);
    assert LoopSet(s'.fibers) == LoopSet(s.fibers);
    assert ReadySet(s'.fibers) == ReadySet(s.fibers) + {|s.fibers|};
  }

  /** Nobody is left in the worker function once the pool has returned. */
  lemma ReturnedMeansLeft(s: State, f: nat)
    requires MapInv(s) && JoinInv(s) && s.master.Returned? && f < |s.fibers|
    ensures s.fibers[f].pc.Exited?
  {
  }

  lemma AddFiberKeepsInv(pool: Pool, s: State, id: nat)
    requires Inv(pool, s) && Fresh(s, id)
    requires !s.master.Starting? && !s.master.Returned? && !s.master.Aborted?
    ensures Inv(pool, AddFiber(s, id))
  {
    AddFiberKeepsMap(s, id);
    AddFiberKeepsCount(pool, s, id);
  }

  /** A fiber takes up the job it has popped. */
  lemma RunKeepsFate(s: State, s': State, f: nat)
    requires FateInv(s) && PopperInv(s)
    requires f < |s.fibers| && s.fibers[f].pc.SpawnTest?
    requires var w := s.fibers[f].pc.w;
             s' == s.(fibers := MoveTo(s.fibers, f, Running(w)), futures := AddRunner(s.futures, w, f))
    ensures FateInv(s') && PopperInv(s')
  {
    forall v: nat | v < |s'.futures| ensures Tracked(s'.futures[v], v, s'.q.items, s'.fibers) {
      assert Tracked(s.futures[v], v, s.q.items, s.fibers);
    }
  }

  lemma RunKeepsInv(pool: Pool, s: State, s': State, f: nat)
    requires Inv(pool, s)
    requires f < |s.fibers| && s.fibers[f].pc.SpawnTest?
    requires var w := s.fibers[f].pc.w;
             s' == s.(fibers := MoveTo(s.fibers, f, Running(w)), futures := AddRunner(s.futures, w, f))
    ensures Inv(pool, s')
  {
    var w := s.fibers[f].pc.w;
    MoveKeepsCount(pool, s, s', f, Running(w));
    MoveKeepsMap(s, s', f, Running(w));
    RunKeepsFate(s, s', f);
  }

  lemma SpawnKeepsInv(pool: Pool, s: State, f: nat, ready: bool, id: nat)
    requires Inv(pool, s) && Enabled(pool, s, Spawn(f, ready, id))
    ensures Inv(pool, SpawnStep(s, f, ready, id))
  {
    if s.master.Returned? {
      ReturnedMeansLeft(s, f);
    }
    if Spawns(s, ready) {
      AddFiberKeepsInv(pool, s, id);
      RunKeepsInv(pool, AddFiber(s, id), SpawnStep(s, f, ready, id), f);
    } else {
      RunKeepsInv(pool, s, SpawnStep(s, f, ready, id), f);
    }
  }

  lemma FinishKeepsFate(s: State, s': State, f: nat, pc: Pc)
    requires FateInv(s) && PopperInv(s) && HistoryInv(s)
    requires f < |s.fibers| && s.fibers[f].pc.Running? && !pc.SpawnTest? && !pc.Running?
    requires s'.fibers == MoveTo(s.fibers, f, pc) && s'.futures == Fulfil(s.futures, s.fibers[f].pc.w)
    requires s'.q == s.q && s'.accepted == s.accepted && s'.popped == s.popped
    requires s'.destroyed == s.destroyed && s'.master == s.master
    ensures FateInv(s') && PopperInv(s') && HistoryInv(s')
  {
    forall v: nat | v < |s'.futures| ensures Tracked(s'.futures[v], v, s'.q.items, s'.fibers) {
      assert Tracked(s.futures[v], v, s.q.items, s.fibers);
    }
  }

  /** Lines 65-69 detach fibers only after they have left. */
  lemma DetachKeepsMap(s: State)
    requires MapInv(s) && JoinInv(s) && !s.master.Aborted?
    ensures !DetachesLive(s)
    ensures MapInv(s.(fibs := DetachTerminated(s.fibs))) && JoinInv(s.(fibs := DetachTerminated(s.fibs)))
  {
  }

  lemma FinishKeepsInv(pool: Pool, s: State, f: nat)
    requires Inv(pool, s) && Enabled(pool, s, Finish(f))
    ensures Inv(pool, FinishStep(pool, s, f))
  {
    var s' := FinishStep(pool, s, f);
    var pc := s'.fibers[f].pc;
    MoveKeepsCount(pool, s, s', f, pc);
    FinishKeepsFate(s, s', f, pc);
    DetachKeepsMap(s);
    MoveKeepsMap(if pool.StaticPool? then s else s.(fibs := DetachTerminated(s.fibs)), s', f, pc);
  }

  /** `fibs->at` finds the retiring fiber's own entry. */
  lemma RetireFindsEntry(s: State, f: nat)
    requires MapInv(s) && f < |s.fibers| && s.fibers[f].pc.RetireTest?
    ensures s.fibers[f].id in s.fibs && s.fibs[s.fibers[f].id] == Entry(Some(f), false)
  {
  }

  /** A fiber leaves and marks its entry; the handle stays where it is. */
  lemma MarkKeepsMap(s: State, s': State, f: nat)
    requires MapInv(s) && JoinInv(s) && f < |s.fibers| && s.fibers[f].pc.RetireTest?
    requires s'.fibers == MoveTo(s.fibers, f, Exited)
    requires s'.fibs == s.fibs[s.fibers[f].id := Entry(Some(f), true)]
    requires s'.master == s.master && s'.q.open == s.q.open && s'.fault == s.fault
    ensures MapInv(s') && JoinInv(s')
  {
    assert forall k | k in s'.fibs :: s'.fibs[k].handle == s.fibs[k].handle;
  }

  lemma RetireKeepsInv(pool: Pool, s: State, f: nat, ready: bool)
    requires Inv(pool, s) && Enabled(pool, s, Retire(f, ready))
    ensures Inv(pool, RetireStep(pool, s, f, ready))
  {
    var s' := RetireStep(pool, s, f, ready);
    RetireFindsEntry(s, f);
    if Retires(pool, s, ready) {
      Recount(s.fibers, f, Exited);
      assert f in LoopSet(s.fibers);
      MarkKeepsMap(s, s', f);
      MoveKeepsFate(s, s', f, Exited);
    } else {
      MoveKeepsCount(pool, s, s', f, LoopTest);
      MoveKeepsMap(s, s', f, LoopTest);
      MoveKeepsFate(s, s', f, LoopTest);
    }
  }

  lemma ShutKeepsInv(pool: Pool, s: State, next: Option<nat>)
    requires Inv(pool, s) && Enabled(pool, s, Shut(next))
    ensures Inv(pool, ShutStep(s, next))
  {
    KeepsNoLostWakeUp(pool, s, Shut(next));
    AdvanceKeepsMap(s.(flag := false, q := Q.Close(s.q)), -1, next);
  }

  /** What the join loop knows when it is about to look for the key after `key`. */
  ghost predicate Joined(s: State, key: int)
    requires MapInv(s)
  {
    !s.q.open && forall k | k in s.fibs && s.fibs[k].handle.Some? ::
      s.fibers[s.fibs[k].handle.value].behind <==> k <= key
  }

  lemma AdvanceKeepsMap(s: State, key: int, next: Option<nat>)
    requires MapInv(s) && Joined(s, key) && IsNext(s.fibs.Keys, key, next)
    ensures MapInv(Advance(s, next)) && JoinInv(Advance(s, next))
  {
  }

  /** The handle that has been joined is empty afterwards. */
  lemma ClearKeepsMap(s: State)
    requires MapInv(s) && JoinInv(s) && s.master.Joining?
    requires s.master.target.Some? ==> !Live(s, s.master.target.value)
    ensures MapInv(ClearJoined(s)) && Joined(ClearJoined(s), s.master.key)
  {
  }

  lemma JoinKeepsInv(pool: Pool, s: State, next: Option<nat>)
    requires Inv(pool, s) && Enabled(pool, s, Join(next))
    ensures Inv(pool, JoinStep(s, next))
  {
    ClearKeepsMap(s);
    AdvanceKeepsMap(ClearJoined(s), s.master.key, next);
  }

  lemma DestroyKeepsInv(pool: Pool, s: State)
    requires Inv(pool, s) && Enabled(pool, s, Destroy)
    ensures Inv(pool, DestroyStep(s))
  {
    var s' := DestroyStep(s);
    forall w: nat | w < |s'.futures| ensures Tracked(s'.futures[w], w, s'.q.items, s'.fibers) {
      assert Tracked(s.futures[w], w, s.q.items, s.fibers);
    }
  }

  /** Only the wait sets change. */
  lemma WaitSetsKeepInv(pool: Pool, s: State, q: Q.Queue)
    requires Inv(pool, s) && q.items == s.q.items && q.open == s.q.open && QueueInv(s.(q := q))
    ensures Inv(pool, s.(q := q))
  {
  }

  lemma SpuriousKeepsSleepers(s: State, f: nat)
    requires QueueInv(s) && f in s.q.waiting
    ensures QueueInv(s.(q := Q.WakeUp(s.q, f)))
  {
    Q.StepKeepsNoLostWakeUp(s.q, Q.DoWakeSpuriously(f));
  }

  lemma SpuriousKeepsInv(pool: Pool, s: State, f: nat)
    requires Inv(pool, s) && Enabled(pool, s, Spurious(f))
    ensures Inv(pool, Apply(pool, s, Spurious(f)))
  {
    SpuriousKeepsSleepers(s, f);
    WaitSetsKeepInv(pool, s, Q.WakeUp(s.q, f));
  }

  lemma NotifyKeepsInv(pool: Pool, s: State)
    requires Inv(pool, s)
    ensures Inv(pool, s.(flag := true))
  {
  }

  /** Every step of the pool keeps the whole invariant. */
  lemma StepKeepsInv(pool: Pool, s: State, a: Action)
    requires Inv(pool, s) && Enabled(pool, s, a)
    ensures Inv(pool, Apply(pool, s, a))
  {
    match a
    case Create(ids) => CreateKeepsInv(pool, s, ids);
    case Push(woken) => PushKeepsInv(pool, s, woken);
    case Start(f) => StartKeepsInv(pool, s, f);
    case Test(f) => if s.q.open { PassTestKeepsInv(pool, s, f); } else { FailTestKeepsInv(pool, s, f); }
    case TryPop(f) =>
      if s.q.items != [] { TakeKeepsInv(pool, s, f); }
      else if s.q.open { SleepKeepsInv(pool, s, f); }
      else { GiveUpKeepsInv(pool, s, f); }
    case Spurious(f) => SpuriousKeepsInv(pool, s, f);
    case Spawn(f, ready, id) => SpawnKeepsInv(pool, s, f, ready, id);
    case Finish(f) => FinishKeepsInv(pool, s, f);
    case Retire(f, ready) => RetireKeepsInv(pool, s, f, ready);
    case Notify => NotifyKeepsInv(pool, s);
    case Shut(next) => ShutKeepsInv(pool, s, next);
    case Join(next) => JoinKeepsInv(pool, s, next);
    case Destroy => DestroyKeepsInv(pool, s);
  }

  lemma {:induction false} RunKeepsInvariant(pool: Pool, s: State, run: seq<Action>)
    requires Inv(pool, s) && Legal(pool, s, run)
    ensures Inv(pool, After(pool, s, run))
    decreases |run|
  {
    if run != [] {
      StepKeepsInv(pool, s, run[0]);
      RunKeepsInvariant(pool, Apply(pool, s, run[0]), run[1..]);
    }
  }

  /** There is always a fresh id. */
  lemma {:induction false} UnusedId(fibers: seq<Fiber>) returns (id: nat)
    ensures forall i | 0 <= i < |fibers| :: fibers[i].id < id
  {
    if fibers == [] {
      id := 0;
    } else {
      var n := |fibers| - 1;
      id := UnusedId(fibers[..n]);
      if id <= fibers[n].id {
        id := fibers[n].id + 1;
      }
    }
  }
}
