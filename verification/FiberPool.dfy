/** The two pools as programs over the heap queue.  A `FiberPool` is the stack frame of
    `operator()` (the map of fibers, the counter), its worker fibers and the queue they share.
    Each method is the code one fiber runs from one suspension point to the next, and is proved to
    be the step of the pool machine of the same name: what the machine's theorems say about every
    run holds for every sequence of these calls.

    The caller plays the scheduler and the fiber library: it says who runs next, what
    `has_ready_fibers` answers and which ids new fibers get. */
module FiberPool {
  import opened Options
  import opened OrderedKeys
  import opened PoolMachine
  import opened PoolInvariant
  import PoolDecisions
  import PoolSteps
  import QueueProtocol
  import WorkQueue

  lemma InitialInvAt(pool: Pool, s: State)
    requires s == State(QueueProtocol.EMPTY, [], map[], 0, Starting, false, [], [], [], NoFault, false)
    ensures s == INITIAL && Inv(pool, s)
  {
    InitialInv(pool);
  }

  /** From the pop to the end of the loop body, where the local handle goes out of scope. */
  predicate HasWork(pc: Pc) { pc.SpawnTest? || pc.Running? || pc.RetireTest? }

  predicate Carries(pc: Pc, id: nat) {
    (pc.SpawnTest? || pc.Running?) ==> pc.w == id
  }

  /** Exactly the fibers in the middle of a loop body hold a work, each the one it has popped. */
  ghost predicate HandsFull(fibers: seq<Fiber>, held: map<nat, WorkQueue.Work>) {
    && (forall f: nat :: f in held <==> f < |fibers| && HasWork(fibers[f].pc))
    && (forall f | f in held :: Carries(fibers[f].pc, held[f].id))
  }

  /** The works bear the numbers of the futures, each its own. */
  ghost predicate Named(works: set<WorkQueue.Work>, n: nat) {
    && |works| == n
    && (forall x | x in works :: x.id < n)
    && (forall x, y | x in works && y in works && x.id == y.id :: x == y)
  }

  lemma EmptyHands(held: map<nat, WorkQueue.Work>, works: set<WorkQueue.Work>)
    requires held == map[] && works == {}
    ensures HandsFull([], held) && Named(works, 0)
  {
  }

  lemma NamedMore(works: set<WorkQueue.Work>, w: WorkQueue.Work)
    requires Named(works, w.id) && w !in works
    ensures Named(works + {w}, w.id + 1)
  {
  }

  lemma HandsMove(fibers: seq<Fiber>, held: map<nat, WorkQueue.Work>, f: nat, pc: Pc)
    requires HandsFull(fibers, held) && f < |fibers|
    requires HasWork(pc) == HasWork(fibers[f].pc) && (f in held ==> Carries(pc, held[f].id))
    ensures HandsFull(MoveTo(fibers, f, pc), held)
  {
  }

  lemma HandsTake(fibers: seq<Fiber>, held: map<nat, WorkQueue.Work>, f: nat, pc: Pc, held': map<nat, WorkQueue.Work>)
    requires HandsFull(fibers, held) && f < |fibers| && HasWork(pc)
    requires held'.Keys == held.Keys + {f} && Carries(pc, held'[f].id)
    requires forall g | g in held :: held'[g] == held[g]
    requires f !in held
    ensures HandsFull(MoveTo(fibers, f, pc), held')
  {
  }

  lemma HandsDrop(fibers: seq<Fiber>, held: map<nat, WorkQueue.Work>, f: nat, pc: Pc)
    requires HandsFull(fibers, held) && f < |fibers| && !HasWork(pc)
    ensures HandsFull(MoveTo(fibers, f, pc), held - {f})
  {
  }

  lemma HandsNew(fibers: seq<Fiber>, held: map<nat, WorkQueue.Work>, x: Fiber)
    requires HandsFull(fibers, held) && x.pc.Ready?
    ensures HandsFull(fibers + [x], held)
  {
  }

  class FiberPool {
    const pool: Pool
    const queue: WorkQueue.Queue
    var fibers: seq<Fiber>
    var fibs: map<nat, Entry>
    var spawned: int
    var master: Master
    var flag: bool
    var fault: Fault
    var futures: seq<Future>
    var destroyed: bool
    var held: map<nat, WorkQueue.Work>
    ghost var works: set<WorkQueue.Work>
    ghost var accepted: seq<nat>
    ghost var popped: seq<nat>

    /** What every step of the machine keeps holds, and so does the account of the handles. */
    ghost predicate Valid()
      reads this, queue, queue.nodes, works
    {
      Handles() && Inv(pool, Abs())
    }

    /** Every work ever submitted is queued, or in the hands of the fiber that has popped it, or
        deallocated once. */
    ghost predicate Handles()
      reads this, queue, queue.nodes, works
    {
      && WorkQueue.Tracks(queue, held, works)
      && HandsFull(fibers, held)
      && Named(works, |futures|)
    }

    /** The step `a` of the machine has been made. */
    twostate predicate Did(a: Action)
      reads this, queue
    {
      old(Enabled(pool, Abs(), a)) && Abs() == Apply(pool, old(Abs()), a)
    }

    ghost function Abs(): State
      reads this, queue
    {
      State(queue.View(), fibers, fibs, spawned, master, flag, futures, accepted, popped, fault, destroyed)
    }

    constructor (pool: Pool)
      ensures Valid() && this.pool == pool && Abs() == INITIAL
      ensures fresh(queue) && works == {}
    {
      this.pool := pool;
      queue := new WorkQueue.Queue();
      fibers, fibs, spawned, master := [], map[], 0, Starting;
      flag, fault, futures, destroyed := false, NoFault, [], false;
      accepted, popped := [], [];
      held, works := map[], {};
      new;
      EmptyHands(held, works);
      WorkQueue.TracksNothing(queue, held, works);
      ghost var s := Abs();
      InitialInvAt(pool, s);
    }

    /** The loop that creates Min fibers, each ready and each under its own id. */
    method Create(ids: seq<nat>)
      requires Valid() && master.Starting? && |ids| == pool.Min() && Distinct(ids)
      requires pool.StaticPool? ==> forall i | 0 <= i < |ids| :: ids[i] == i
      modifies this`fibers, this`fibs, this`master
      ensures Valid() && Did(PoolMachine.Create(ids))
    {
      ghost var s := Abs();
      CreateCrew(ids);
      PoolSteps.StepKeepsInv(pool, s, PoolMachine.Create(ids));
    }

    method CreateCrew(ids: seq<nat>)
      requires Handles() && |ids| == pool.Min() && Distinct(ids) && fibers == [] && fibs == map[]
      modifies this`fibers, this`fibs, this`master
      ensures Handles() && Abs() == CreateFibers(old(Abs()), ids)
    {
      CreateLoop(ids);
      master := AtRendezvous;
      assert held == map[];
    }

    method CreateLoop(ids: seq<nat>)
      requires |ids| == pool.Min() && Distinct(ids) && fibers == [] && fibs == map[]
      modifies this`fibers, this`fibs
      ensures fibers == CreateFibers(old(Abs()), ids).fibers && fibs == CreateFibers(old(Abs()), ids).fibs
    {
      for i := 0 to pool.Min()
        invariant |fibers| == i && forall j | 0 <= j < i :: fibers[j] == Fiber(ids[j], Ready, false)
        invariant forall j | 0 <= j < i :: ids[j] in fibs && fibs[ids[j]] == Entry(Some(j), false)
        invariant forall k | k in fibs :: k in ids[..i]
      {
        fibers := fibers + [Fiber(ids[i], Ready, false)];
        fibs := fibs[ids[i] := Entry(Some(i), false)];
      }
      assert ids[..pool.Min()] == ids;
    }

    /** `submit_preempt` or `submit_coop`, on whatever thread: the status of the push is ignored,
        and a refused job breaks its promise. */
    method Submit() returns (accepts: bool, woken: Option<nat>)
      requires Valid() && !master.Aborted? && !destroyed
      modifies this`futures, this`accepted, this`works, queue, queue.nodes
      ensures Valid() && accepts == old(queue.open) && Did(Push(woken))
      ensures old(works) <= works && fresh(works - old(works))
    {
      ghost var s := Abs();
      accepts, woken := PushJob();
      PoolSteps.StepKeepsInv(pool, s, Push(woken));
    }

    method PushJob() returns (accepts: bool, woken: Option<nat>)
      requires Handles()
      modifies this`futures, this`accepted, this`works, queue, queue.nodes
      ensures Handles()
      ensures accepts == old(queue.open) && Abs() == SubmitJob(old(Abs()), woken)
      ensures accepts ==> QueueProtocol.CanWake(old(queue.View()), woken)
      ensures old(works) <= works && fresh(works - old(works))
    {
      accepts, woken := PushWork();
      Book(accepts);
    }

    method PushWork() returns (accepts: bool, woken: Option<nat>)
      requires WorkQueue.Tracks(queue, held, works) && Named(works, |futures|)
      modifies this`works, queue, queue.nodes
      ensures WorkQueue.Tracks(queue, held, works) && Named(works, |futures| + 1)
      ensures accepts == old(queue.open) && (accepts ==> QueueProtocol.CanWake(old(queue.View()), woken))
      ensures queue.View() == QueueProtocol.Push(old(queue.View()), |futures|, woken)
      ensures old(works) <= works && fresh(works - old(works))
    {
      var w;
      w, accepts, woken := WorkQueue.Submit(queue, |futures|, held, works);
      NamedMore(works, w);
      works := works + {w};
    }

    /** A promise for the job, broken at once if the queue has refused it. */
    method Book(accepts: bool)
      modifies this`futures, this`accepted
      ensures accepted == if accepts then old(accepted) + [|old(futures)|] else old(accepted)
      ensures futures == old(futures) + [if accepts then PENDING else PENDING.(broken := 1)]
    {
      if accepts {
        accepted := accepted + [|futures|];
        futures := futures + [PENDING];
      } else {
        futures := futures + [PENDING.(broken := 1)];
      }
    }

    method Start(f: nat)
      requires Valid() && !master.Aborted? && f < |fibers| && fibers[f].pc.Ready?
      modifies this`fibers, this`spawned
      ensures Valid() && Did(PoolMachine.Start(f))
    {
      ghost var s := Abs();
      EnterLoop(f);
      PoolSteps.StepKeepsInv(pool, s, PoolMachine.Start(f));
    }

    method EnterLoop(f: nat)
      requires Handles() && f < |fibers| && fibers[f].pc.Ready?
      modifies this`fibers, this`spawned
      ensures Handles() && Abs() == old(Abs()).(fibers := MoveTo(old(fibers), f, LoopTest), spawned := old(spawned) + 1)
    {
      HandsMove(fibers, held, f, LoopTest);
      spawned := spawned + 1;
      fibers := MoveTo(fibers, f, LoopTest);
    }

    /** The loop test, and on leaving the loop the end of the worker function. */
    method Test(f: nat)
      requires Valid() && !master.Aborted? && f < |fibers| && fibers[f].pc.LoopTest?
      modifies this`fibers, this`spawned
      ensures Valid() && Did(PoolMachine.Test(f))
    {
      ghost var s := Abs();
      TestLoop(f);
      PoolSteps.StepKeepsInv(pool, s, PoolMachine.Test(f));
    }

    method TestLoop(f: nat)
      requires Handles() && f < |fibers| && fibers[f].pc.LoopTest?
      modifies this`fibers, this`spawned
      ensures Handles()
      ensures Abs() == if queue.open then old(Abs()).(fibers := MoveTo(old(fibers), f, InPop)) else Leave(old(Abs()), f)
    {
      var closed := queue.Closed();
      HandsMove(fibers, held, f, if closed then Exited else InPop);
      if closed {
        spawned := spawned - 1;
        fibers := MoveTo(fibers, f, Exited);
      } else {
        fibers := MoveTo(fibers, f, InPop);
      }
    }

    /** A sleeper wakes for no reason. */
    method WakeUp(f: nat)
      requires Valid() && !master.Aborted? && f in queue.waiting
      modifies queue`waiting, queue`notified
      ensures Valid() && Did(Spurious(f))
    {
      ghost var s := Abs();
      WakeSleeper(f);
      PoolSteps.StepKeepsInv(pool, s, Spurious(f));
    }

    method WakeSleeper(f: nat)
      requires Handles() && f in queue.waiting
      modifies queue`waiting, queue`notified
      ensures Handles() && Abs() == old(Abs()).(q := QueueProtocol.WakeUp(old(queue.View()), f))
    {
      queue.WakeUp(f);
    }

    /** One pass of `pop`, and with a work in hand the first half of line 57.  The fiber keeps its
        handle on the work. */
    method TryPop(f: nat)
      requires Valid() && !master.Aborted? && f < |fibers| && fibers[f].pc.InPop? && f !in queue.waiting
      modifies this`fibers, this`futures, this`popped, this`held, queue, queue.nodes
      ensures Valid() && Did(PoolMachine.TryPop(f))
      ensures f in held <==> old(queue.View()).items != []
    {
      ghost var s := Abs();
      PopAndMove(f);
      PoolSteps.StepKeepsInv(pool, s, PoolMachine.TryPop(f));
    }

    method PopAndMove(f: nat)
      requires Handles() && f < |fibers| && fibers[f].pc.InPop?
      modifies this`fibers, this`futures, this`popped, this`held, queue, queue.nodes
      ensures Handles() && Abs() == PopStep(pool, old(Abs()), f)
      ensures f in held <==> old(queue.View()).items != []
    {
      ghost var s, was := Abs(), held;
      var r := TakeInHand(f);
      HandsAfterPop(s, f, queue.View(), r, was, held);
      GoOnAfterPop(f, r, s);
    }

    method GoOnAfterPop(f: nat, r: QueueProtocol.PopResult, ghost s: State)
      requires WorkQueue.Tracks(queue, held, works) && Named(works, |futures|)
      requires f < |fibers| && Abs() == s.(q := queue.View())
      requires var s' := PopStepWith(pool, s, f, queue.View(), r); HandsFull(s'.fibers, held) && |s'.futures| == |s.futures|
      modifies this`fibers, this`futures, this`popped
      ensures Handles() && Abs() == PopStepWith(pool, s, f, queue.View(), r)
    {
      AfterPop(f, r, s);
    }

    method TakeInHand(f: nat) returns (r: QueueProtocol.PopResult)
      requires WorkQueue.Tracks(queue, held, works) && f !in held
      modifies this`held, queue, queue.nodes
      ensures WorkQueue.Tracks(queue, held, works)
      ensures (queue.View(), r) == QueueProtocol.Pop(old(queue.View()), f)
      ensures if r.Got? then held.Keys == old(held).Keys + {f} && held[f].id == r.item else held == old(held)
      ensures forall g | g in old(held) :: held[g] == old(held)[g]
    {
      r, held := WorkQueue.Take(queue, f, true, held, works);
    }

    lemma HandsAfterPop(s: State, f: nat, q: QueueProtocol.Queue, r: QueueProtocol.PopResult,
                        held: map<nat, WorkQueue.Work>, h: map<nat, WorkQueue.Work>)
      requires HandsFull(s.fibers, held) && f < |s.fibers| && s.fibers[f].pc.InPop?
      requires if r.Got? then h.Keys == held.Keys + {f} && h[f].id == r.item else h == held
      requires forall g | g in held :: h[g] == held[g]
      ensures var s' := PopStepWith(pool, s, f, q, r); HandsFull(s'.fibers, h) && |s'.futures| == |s.futures|
    {
      var pc := PopStepWith(pool, s, f, q, r).fibers[f].pc;
      match r {
        case Blocked =>
        case Closed => HandsMove(s.fibers, held, f, pc);
        case Got(_) => HandsTake(s.fibers, held, f, pc, h);
      }
    }

    /** What the fiber does with the answer of `pop`. */
    method AfterPop(f: nat, r: QueueProtocol.PopResult, ghost s: State)
      requires f < |fibers| && Abs() == s.(q := queue.View())
      modifies this`fibers, this`futures, this`popped
      ensures Abs() == PopStepWith(pool, s, f, queue.View(), r)
    {
      match r {
        case Blocked =>
        case Closed => fibers := MoveTo(fibers, f, LoopTest);
        case Got(id) => TakeWork(f, id);
      }
    }

    method TakeWork(f: nat, id: nat)
      requires f < |fibers|
      modifies this`fibers, this`futures, this`popped
      ensures popped == old(popped) + [id]
      ensures var asks := AsksToSpawn(pool, old(Abs()));
              && futures == (if asks then AddPopper(old(futures), id, f) else AddRunner(AddPopper(old(futures), id, f), id, f))
              && fibers == MoveTo(old(fibers), f, if asks then SpawnTest(id) else Running(id))
    {
      popped := popped + [id];
      futures := AddPopper(futures, id, f);
      if pool.DynamicPool? && pool.max > spawned {
        fibers := MoveTo(fibers, f, SpawnTest(id));
      } else {
        futures := AddRunner(futures, id, f);
        fibers := MoveTo(fibers, f, Running(id));
      }
    }

    /** Line 57 from `empty()` on, and lines 58-60; the library picks an id that is not in use. */
    method Spawn(f: nat, ready: bool, id: nat)
      requires Valid() && !master.Aborted? && f < |fibers| && fibers[f].pc.SpawnTest? && Fresh(Abs(), id)
      modifies this`fibers, this`fibs, this`fault, this`futures
      ensures Valid() && Did(PoolMachine.Spawn(f, ready, id))
      ensures |fibers| == old(|fibers|) + if old(queue.View()).items == [] && ready then 0 else 1
    {
      ghost var s := Abs();
      PoolDecisions.SpawnsExactly(pool, s, f, ready, id);
      SpawnOrNot(f, ready, id);
      PoolSteps.StepKeepsInv(pool, s, PoolMachine.Spawn(f, ready, id));
    }

    lemma HandsAfterSpawn(s: State, f: nat, ready: bool, id: nat)
      requires HandsFull(s.fibers, held) && f < |s.fibers| && s.fibers[f].pc.SpawnTest?
      ensures HandsFull(SpawnStep(s, f, ready, id).fibers, held)
    {
      var s1 := if Spawns(s, ready) then PoolMachine.AddFiber(s, id) else s;
      if Spawns(s, ready) {
        HandsNew(s.fibers, held, s1.fibers[|s.fibers|]);
      }
      HandsMove(s1.fibers, held, f, Running(s.fibers[f].pc.w));
    }

    method SpawnOrNot(f: nat, ready: bool, id: nat)
      requires Handles() && f < |fibers| && fibers[f].pc.SpawnTest?
      modifies this`fibers, this`fibs, this`fault, this`futures
      ensures Handles() && Abs() == SpawnStep(old(Abs()), f, ready, id)
    {
      HandsAfterSpawn(Abs(), f, ready, id);
      SpawnTwoWays(f, ready, id);
    }

    method SpawnTwoWays(f: nat, ready: bool, id: nat)
      requires queue.Valid() && f < |fibers| && fibers[f].pc.SpawnTest?
      modifies this`fibers, this`fibs, this`fault, this`futures
      ensures Abs() == SpawnStep(old(Abs()), f, ready, id) && |futures| == old(|futures|)
    {
      var w := fibers[f].pc.w;
      var empty := queue.Empty();
      if !empty || !ready {
        AddFiber(id);
      }
      futures := AddRunner(futures, w, f);
      fibers := MoveTo(fibers, f, Running(w));
    }

    method AddFiber(id: nat)
      modifies this`fibers, this`fibs, this`fault
      ensures Abs() == PoolMachine.AddFiber(old(Abs()), id)
    {
      if id in fibs && fibs[id].handle.Some? {
        fault := OverwroteJoinable;
      }
      fibs := fibs[id := Entry(Some(|fibers|), false)];
      fibers := fibers + [Fiber(id, Ready, master.Joining? && id <= master.key)];
    }

    /** The loop of lines 65-69. */
    method DetachLoop()
      modifies this`fibs, this`fault
      ensures fibs.Keys == old(fibs.Keys)
      ensures forall k | k in fibs :: fibs[k].terminated == old(fibs)[k].terminated
      ensures forall k | k in fibs :: fibs[k].handle == if old(fibs)[k].terminated then None else old(fibs)[k].handle
      ensures fault == if old(DetachesLive(Abs())) then DetachedLive else old(fault)
    {
      var todo := fibs.Keys;
      ghost var was := fibs;
      while todo != {}
        invariant todo <= fibs.Keys == was.Keys
        invariant forall k | k in todo :: fibs[k] == was[k]
        invariant forall k | k in was && k !in todo ::
          fibs[k] == if was[k].terminated then was[k].(handle := None) else was[k]
        invariant fault == if exists k | k in was :: k !in todo && was[k].terminated && was[k].handle.Some?
                                                    && Live(old(Abs()), was[k].handle.value) then DetachedLive else old(fault)
        decreases |todo|
      {
        var k :| k in todo;
        if fibs[k].terminated {
          if fibs[k].handle.Some? && fibs[k].handle.value < |fibers| && !fibers[fibs[k].handle.value].pc.Exited? {
            fault := DetachedLive;
          }
          fibs := fibs[k := fibs[k].(handle := None)];
        }
        todo := todo - {k};
      }
    }

    /** The job has returned: its promise is kept.  In a static pool that is the end of the loop body;
        in a dynamic pool the terminated fibers are detached. */
    method Finish(f: nat)
      requires Valid() && !master.Aborted? && f < |fibers| && fibers[f].pc.Running?
      modifies this`futures, this`fibers, this`fibs, this`fault, this`held, works
      ensures Valid() && Did(PoolMachine.Finish(f))
      ensures f in old(held) && (f in held <==> pool.DynamicPool?)
      ensures pool.StaticPool? ==> old(held)[f].deallocations == 1
    {
      ghost var s := Abs();
      EndJob(f);
      PoolSteps.StepKeepsInv(pool, s, PoolMachine.Finish(f));
    }

    method EndJob(f: nat)
      requires Handles() && f < |fibers| && fibers[f].pc.Running?
      modifies this`futures, this`fibers, this`fibs, this`fault, this`held, works
      ensures Handles() && Abs() == FinishStep(pool, old(Abs()), f)
      ensures f in old(held) && (f in held <==> pool.DynamicPool?)
      ensures pool.StaticPool? ==> old(held)[f].deallocations == 1
    {
      ghost var was := fibers;
      FinishJob(f);
      if pool.StaticPool? {
        HandsDrop(was, held, f, LoopTest);
        DropWork(f);
      } else {
        HandsMove(was, held, f, RetireTest);
      }
    }

    /** The fiber's handle goes out of scope, and with it the work. */
    method DropWork(f: nat)
      requires WorkQueue.Tracks(queue, held, works) && f in held
      modifies this`held, works
      ensures WorkQueue.Tracks(queue, held, works) && held == old(held) - {f}
      ensures queue.View() == old(queue.View()) && old(held[f]).deallocations == 1
    {
      held := WorkQueue.Drop(queue, f, held, works);
    }

    method FinishJob(f: nat)
      requires f < |fibers| && fibers[f].pc.Running?
      modifies this`futures, this`fibers, this`fibs, this`fault
      ensures Abs() == FinishStep(pool, old(Abs()), f)
    {
      futures := Fulfil(futures, fibers[f].pc.w);
      if pool.StaticPool? {
        fibers := MoveTo(fibers, f, LoopTest);
      } else {
        DetachLoop();
        assert fibs == DetachTerminated(old(fibs));
        fibers := MoveTo(fibers, f, RetireTest);
      }
    }

    /** Line 74 from `empty()` on, lines 76-80, and the end of the loop body. */
    method Retire(f: nat, ready: bool)
      requires Valid() && !master.Aborted? && f < |fibers| && fibers[f].pc.RetireTest?
      modifies this`fibs, this`fibers, this`spawned, this`fault, this`held, works
      ensures Valid() && Did(PoolMachine.Retire(f, ready))
      ensures f in old(held) && f !in held && old(held)[f].deallocations == 1
      ensures f < |fibers|
      ensures fibers[f].pc.Exited? <==> old(queue.View()).items == [] && pool.Min() < old(spawned) && ready
    {
      ghost var s := Abs();
      PoolDecisions.RetiresExactly(pool, s, f, ready, pool.Min());
      PoolSteps.RetireFindsEntry(s, f);
      EndBody(f, ready);
      PoolSteps.StepKeepsInv(pool, s, PoolMachine.Retire(f, ready));
    }

    method EndBody(f: nat, ready: bool)
      requires Handles() && f < |fibers| && fibers[f].pc.RetireTest? && fibers[f].id in fibs
      modifies this`fibs, this`fibers, this`spawned, this`fault, this`held, works
      ensures Handles() && Abs() == RetireStep(pool, old(Abs()), f, ready)
      ensures f in old(held) && f !in held && old(held)[f].deallocations == 1
    {
      ghost var was := fibers;
      RetireOrNot(f, ready);
      HandsDrop(was, held, f, fibers[f].pc);
      DropWork(f);
    }

    method RetireOrNot(f: nat, ready: bool)
      requires queue.Valid() && f < |fibers|
      modifies this`fibs, this`fibers, this`spawned, this`fault
      ensures Abs() == RetireStep(pool, old(Abs()), f, ready)
    {
      var empty := queue.Empty();
      var id := fibers[f].id;
      if !(empty && pool.Min() < spawned && ready) {
        fibers := MoveTo(fibers, f, LoopTest);
      } else if id in fibs {
        fibs := fibs[id := fibs[id].(terminated := true)];
        spawned := spawned - 1;
        fibers := MoveTo(fibers, f, Exited);
      } else {
        fault := MissingEntry;
      }
    }

    method AnyJoinable() returns (any: bool)
      ensures any == exists k | k in fibs :: Joinable(fibs, k)
    {
      any := false;
      var todo := fibs.Keys;
      while todo != {}
        invariant todo <= fibs.Keys
        invariant any == exists k | k in fibs :: k !in todo && Joinable(fibs, k)
        decreases |todo|
      {
        var k :| k in todo;
        if Joinable(fibs, k) {
          any := true;
        }
        todo := todo - {k};
      }
    }

    /** The loop stops at the next entry, or ends and the map is destroyed. */
    method Advance(after: int) returns (next: Option<nat>)
      modifies this`master
      ensures IsNext(fibs.Keys, after, next) && master == PoolMachine.Advance(old(Abs()), next).master
    {
      next := NextKey(fibs.Keys, after);
      match next {
        case Some(k) => master := Joining(k, fibs[k].handle);
        case None =>
          var any := AnyJoinable();
          master := if any then Aborted else Returned;
      }
    }

    method Notify()
      requires Valid() && !master.Aborted? && !destroyed
      modifies this`flag
      ensures Valid() && Did(PoolMachine.Notify)
    {
      ghost var s := Abs();
      flag := true;
      PoolSteps.StepKeepsInv(pool, s, PoolMachine.Notify);
    }

    /** `rdzv->wait()` has returned: close, and start joining. */
    method Shut() returns (next: Option<nat>)
      requires Valid() && master.AtRendezvous? && flag
      modifies this`flag, this`master, queue`open, queue`waiting, queue`notified
      ensures Valid() && Did(PoolMachine.Shut(next))
    {
      ghost var s := Abs();
      next := CloseAndAdvance();
      PoolSteps.StepKeepsInv(pool, s, PoolMachine.Shut(next));
    }

    method CloseAndAdvance() returns (next: Option<nat>)
      requires Handles()
      modifies this`flag, this`master, queue`open, queue`waiting, queue`notified
      ensures Handles() && IsNext(fibs.Keys, -1, next) && Abs() == ShutStep(old(Abs()), next)
    {
      flag := false;
      WorkQueue.CloseQueue(queue, held, works);
      next := Advance(-1);
    }

    /** The fiber being joined has exited: its handle is emptied and the loop moves on. */
    method Join() returns (next: Option<nat>)
      requires Valid() && master.Joining? && (master.target.Some? ==> !Live(Abs(), master.target.value))
      modifies this`fibs, this`master
      ensures Valid() && Did(PoolMachine.Join(next))
    {
      ghost var s := Abs();
      next := ClearAndAdvance();
      PoolSteps.StepKeepsInv(pool, s, PoolMachine.Join(next));
    }

    method ClearAndAdvance() returns (next: Option<nat>)
      requires master.Joining?
      modifies this`fibs, this`master
      ensures IsNext(old(fibs.Keys), old(master.key), next) && Abs() == JoinStep(old(Abs()), next)
    {
      var k := master.key;
      if master.target.Some? && k in fibs {
        fibs := fibs[k := fibs[k].(handle := None)];
      }
      assert fibs == ClearJoined(old(Abs())).fibs && fibs.Keys == old(fibs.Keys);
      next := Advance(k);
    }

    /** The worker thread object is destroyed after its pool has returned: the works still queued
        are deallocated unrun and their promises broken.  With that every work ever submitted has
        been deallocated exactly once. */
    method Destroy()
      requires Valid() && master.Returned? && !destroyed
      modifies this`futures, this`destroyed, queue, queue.nodes
      ensures Valid() && Did(PoolMachine.Destroy)
      ensures forall w | w in works :: w.deallocations == 1
    {
      ghost var s := Abs();
      DropQueue();
      PoolSteps.StepKeepsInv(pool, s, PoolMachine.Destroy);
      HandsEmpty();
    }

    /** After the pool has returned nobody holds a work. */
    lemma HandsEmpty()
      requires Valid() && master.Returned?
      ensures held == map[]
    {
      forall f | f in held ensures false {
        PoolSteps.ReturnedMeansLeft(Abs(), f);
      }
    }

    /** Nothing leaks and nothing is freed twice: when the worker has been destroyed there is a work
        for each job ever submitted, and each has been deallocated exactly once. */
    lemma NothingLeaks()
      requires Valid() && destroyed
      ensures |works| == |futures| && forall w | w in works :: w.deallocations == 1
    {
      HandsEmpty();
      assert queue.View().items == WorkQueue.Ids(queue.nodes);
    }

    method DropQueue()
      requires Handles()
      modifies this`futures, this`destroyed, queue, queue.nodes
      ensures Handles() && Abs() == DestroyStep(old(Abs())) && queue.nodes == []
    {
      var ids := QueuedIds();
      futures := BreakAll(futures, ids);
      WorkQueue.DestroyQueue(queue, held, works);
      destroyed := true;
    }

    /** The ids of the queued works, read off the list. */
    method QueuedIds() returns (ids: seq<nat>)
      requires queue.Valid()
      ensures ids == queue.View().items
    {
      ids := [];
      var w := queue.head;
      ghost var i := 0;
      while w != null
        invariant i <= |queue.nodes| && w == (if i < |queue.nodes| then queue.nodes[i] else null)
        invariant ids == WorkQueue.Ids(queue.nodes)[..i]
        decreases |queue.nodes| - i
      {
        ids := ids + [w.id];
        w := w.nxt;
        i := i + 1;
      }
    }

    /** Whether a step can be made now. */
    predicate Allowed(a: Action)
      reads this, queue
    {
      && !master.Aborted?
      && match a
         case Create(ids) =>
           && master.Starting? && |ids| == pool.Min() && Distinct(ids)
           && (pool.StaticPool? ==> forall i | 0 <= i < |ids| :: ids[i] == i)
         case Push(_) => !destroyed
         case Start(f) => f < |fibers| && fibers[f].pc.Ready?
         case Test(f) => f < |fibers| && fibers[f].pc.LoopTest?
         case TryPop(f) => f < |fibers| && fibers[f].pc.InPop? && f !in queue.waiting
         case Spurious(f) => f in queue.waiting
         case Spawn(f, _, id) => f < |fibers| && fibers[f].pc.SpawnTest? && FreshId(fibers, fibs, master, id)
         case Finish(f) => f < |fibers| && fibers[f].pc.Running?
         case Retire(f, _) => f < |fibers| && fibers[f].pc.RetireTest?
         case Notify => !destroyed
         case Shut(_) => master.AtRendezvous? && flag
         case Join(_) =>
           master.Joining? && (master.target.None? || |fibers| <= master.target.value || fibers[master.target.value].pc.Exited?)
         case Destroy => master.Returned? && !destroyed
    }

    /** The class can make every step that the machine can, and no other. */
    lemma AllowedExactly(a: Action)
      requires Valid()
      ensures Allowed(a) <==> exists b :: SameStep(a, b) && Enabled(pool, Abs(), b)
    {
      if Allowed(a) {
        var woken := QueueProtocol.SomeWaker(queue.View());
        var first := SomeNext(fibs.Keys, -1);
        var next := SomeNext(fibs.Keys, if master.Joining? then master.key else 0);
        var b := if a.Push? then Push(woken) else if a.Shut? then PoolMachine.Shut(first)
                 else if a.Join? then PoolMachine.Join(next) else a;
        assert SameStep(a, b) && Enabled(pool, Abs(), b);
      }
    }

    /** A step of a worker fiber up to the pop. */
    method ServeIdle(a: Action)
      requires Valid() && Allowed(a) && (a.Start? || a.Test?)
      modifies this`fibers, this`spawned
      ensures Valid() && Did(a)
    {
      match a {
        case Start(f) => Start(f);
        case Test(f) => Test(f);
      }
    }

    /** A step of a worker fiber from the pop to the execution. */
    method ServeBusy(a: Action)
      requires Valid() && Allowed(a) && (a.TryPop? || a.Spawn?)
      modifies this`fibers, this`fibs, this`fault, this`futures, this`popped, this`held, queue, queue.nodes
      ensures Valid() && Did(a)
    {
      match a {
        case TryPop(f) => TryPop(f);
        case Spawn(f, ready, id) => Spawn(f, ready, id);
      }
    }

    /** A step of a worker fiber after the execution. */
    method ServeDone(a: Action)
      requires Valid() && Allowed(a) && (a.Finish? || a.Retire?)
      modifies this`futures, this`fibers, this`fibs, this`spawned, this`fault, this`held, works
      ensures Valid() && Did(a)
    {
      match a {
        case Finish(f) => Finish(f);
        case Retire(f, ready) => Retire(f, ready);
      }
    }

    /** A step of the master, or of anybody else. */
    method ServeOther(a: Action) returns (ghost b: Action)
      requires Valid() && Allowed(a)
      requires !a.Start? && !a.Test? && !a.TryPop? && !a.Spawn? && !a.Finish? && !a.Retire?
      modifies this, queue, works
      ensures Valid() && SameStep(a, b) && Did(b)
      ensures old(works) <= works && fresh(works - old(works))
    {
      b := a;
      match a {
        case Create(ids) => Create(ids);
        case Push(_) =>
          var _, woken := Submit();
          b := Push(woken);
        case Spurious(f) => WakeUp(f);
        case Notify => Notify();
        case Shut(_) =>
          var next := Shut();
          b := PoolMachine.Shut(next);
        case Join(_) =>
          var next := Join();
          b := PoolMachine.Join(next);
        case Destroy => Destroy();
      }
    }

    /** Makes the step that is asked for. */
    method Serve(a: Action) returns (ghost b: Action)
      requires Valid() && Allowed(a)
      modifies this, queue, works
      ensures Valid() && SameStep(a, b) && Did(b)
      ensures old(works) <= works && fresh(works - old(works))
    {
      b := a;
      if a.Start? || a.Test? {
        ServeIdle(a);
      } else if a.TryPop? || a.Spawn? {
        ServeBusy(a);
      } else if a.Finish? || a.Retire? {
        ServeDone(a);
      } else {
        b := ServeOther(a);
      }
    }

    /** Makes the step if the machine can make one, and nothing otherwise. */
    method Try(a: Action) returns (ghost b: Option<Action>)
      requires Valid()
      modifies this, queue, works
      ensures Valid() && old(works) <= works && fresh(works - old(works))
      ensures Meets(pool, old(Abs()), a, b) && Abs() == Next(pool, old(Abs()), b)
    {
      b := None;
      AllowedExactly(a);
      if Allowed(a) {
        ghost var c := Serve(a);
        b := Some(c);
      }
    }
  }

  /** Which sleeper a push wakes, and where the join loop goes next, is not for the caller to say. */
  predicate SameStep(asked: Action, done: Action) {
    || asked == done || (asked.Push? && done.Push?) || (asked.Shut? && done.Shut?) || (asked.Join? && done.Join?)
  }

  /** The answer to a request is the step asked for; only a request for a step that the machine
      cannot make is passed over. */
  ghost predicate Meets(pool: Pool, s: State, a: Action, b: Option<Action>) {
    match b
    case Some(c) => SameStep(a, c) && Enabled(pool, s, c)
    case None => !exists c :: SameStep(a, c) && Enabled(pool, s, c)
  }

  ghost function Next(pool: Pool, s: State, b: Option<Action>): State
    requires b.Some? ==> Enabled(pool, s, b.value)
  {
    if b.Some? then Apply(pool, s, b.value) else s
  }

  /** Each request, in turn, has its answer. */
  ghost predicate Answers(pool: Pool, s: State, requests: seq<Action>, log: seq<Option<Action>>)
    decreases |requests|
  {
    && |log| == |requests|
    && (requests == [] ||
        (&& Meets(pool, s, requests[0], log[0])
         && Answers(pool, Next(pool, s, log[0]), requests[1..], log[1..])))
  }

  /** The steps made. */
  function StepsOf(log: seq<Option<Action>>): seq<Action> {
    if log == [] then [] else (if log[0].Some? then [log[0].value] else []) + StepsOf(log[1..])
  }

  lemma {:induction false} AnswersAreARun(pool: Pool, s: State, requests: seq<Action>, log: seq<Option<Action>>)
    requires Answers(pool, s, requests, log)
    ensures Legal(pool, s, StepsOf(log))
    decreases |requests|
  {
    if requests != [] {
      AnswersAreARun(pool, Next(pool, s, log[0]), requests[1..], log[1..]);
      if log[0].Some? {
        assert StepsOf(log)[1..] == StepsOf(log[1..]);
      } else {
        assert StepsOf(log) == StepsOf(log[1..]);
      }
    }
  }

  ghost predicate Reached(pool: Pool, s: State, requests: seq<Action>, log: seq<Option<Action>>, s': State) {
    && Answers(pool, s, requests, log)
    && Legal(pool, s, StepsOf(log)) && s' == After(pool, s, StepsOf(log))
  }

  lemma {:induction false} StepsOfMore(log: seq<Option<Action>>, b: Option<Action>)
    ensures StepsOf(log + [b]) == StepsOf(log) + if b.Some? then [b.value] else []
  {
    var log', end := log + [b], if b.Some? then [b.value] else [];
    if log == [] {
      assert log'[1..] == [] && StepsOf(log'[1..]) == [];
      assert end + [] == end == [] + end;
    } else {
      var first, rest := if log[0].Some? then [log[0].value] else [], StepsOf(log[1..]);
      assert log'[1..] == log[1..] + [b];
      StepsOfMore(log[1..], b);
      assert first + (rest + end) == first + rest + end;
    }
  }

  lemma AfterFirst(pool: Pool, s: State, log: seq<Option<Action>>)
    requires log != [] && (log[0].Some? ==> Enabled(pool, s, log[0].value)) && Legal(pool, s, StepsOf(log))
    ensures var s1 := Next(pool, s, log[0]);
            Legal(pool, s1, StepsOf(log[1..])) && After(pool, s1, StepsOf(log[1..])) == After(pool, s, StepsOf(log))
  {
    if log[0].Some? {
      assert StepsOf(log)[1..] == StepsOf(log[1..]);
    } else {
      assert StepsOf(log) == StepsOf(log[1..]);
    }
  }

  lemma {:induction false} AnswersMore(pool: Pool, s: State, requests: seq<Action>, log: seq<Option<Action>>, a: Action, b: Option<Action>)
    requires Answers(pool, s, requests, log) && Legal(pool, s, StepsOf(log))
    requires Meets(pool, After(pool, s, StepsOf(log)), a, b)
    ensures Answers(pool, s, requests + [a], log + [b])
    decreases |requests|
  {
    var requests', log' := requests + [a], log + [b];
    if requests == [] {
      assert requests'[1..] == [] && log'[1..] == [];
    } else {
      assert requests'[1..] == requests[1..] + [a] && log'[1..] == log[1..] + [b];
      AfterFirst(pool, s, log);
      AnswersMore(pool, Next(pool, s, log[0]), requests[1..], log[1..], a, b);
    }
  }

  lemma OneMoreRequest(pool: Pool, s: State, requests: seq<Action>, log: seq<Option<Action>>,
                       s': State, a: Action, b: Option<Action>)
    requires Reached(pool, s, requests, log, s') && Meets(pool, s', a, b)
    ensures Reached(pool, s, requests + [a], log + [b], Next(pool, s', b))
  {
    AnswersMore(pool, s, requests, log, a, b);
    StepsOfMore(log, b);
    if b.Some? {
      Extend(pool, s, StepsOf(log), b.value);
    } else {
      assert StepsOf(log) + [] == StepsOf(log);
    }
  }

  lemma RequestAt(pool: Pool, s: State, requests: seq<Action>, n: nat, log: seq<Option<Action>>, s': State, b: Option<Action>)
    requires n < |requests| && Reached(pool, s, requests[..n], log, s') && Meets(pool, s', requests[n], b)
    ensures Reached(pool, s, requests[..n + 1], log + [b], Next(pool, s', b))
  {
    OneMoreRequest(pool, s, requests[..n], log, s', requests[n], b);
    assert requests[..n + 1] == requests[..n] + [requests[n]];
  }

  /** One more request, as one more entry of the log. */
  method TryNext(p: FiberPool, requests: seq<Action>, n: nat, ghost s: State, ghost log: seq<Option<Action>>)
    returns (ghost log': seq<Option<Action>>)
    requires p.Valid() && n < |requests| && Reached(p.pool, s, requests[..n], log, p.Abs())
    modifies p, p.queue, p.works
    ensures p.Valid() && Reached(p.pool, s, requests[..n + 1], log', p.Abs())
    ensures old(p.works) <= p.works && fresh(p.works - old(p.works))
  {
    ghost var was := p.Abs();
    ghost var b := p.Try(requests[n]);
    RequestAt(p.pool, s, requests, n, log, was, b);
    log' := log + [b];
  }

  /** All the requests, one after the other. */
  method Drive(p: FiberPool, requests: seq<Action>, ghost s: State) returns (ghost log: seq<Option<Action>>)
    requires p.Valid() && p.Abs() == s
    modifies p, p.queue, p.works
    ensures p.Valid() && Reached(p.pool, s, requests, log, p.Abs())
  {
    log := [];
    for n := 0 to |requests|
      invariant p.Valid() && fresh(p.works - old(p.works))
      invariant Reached(p.pool, s, requests[..n], log, p.Abs())
    {
      log := TryNext(p, requests, n, s, log);
    }
    assert requests[..|requests|] == requests;
  }

  /** A pool from its creation on, under any requests.  Every step that is asked for and possible is
      made, and what the pool does is a run of the machine; once it has been destroyed, each work
      ever submitted has been deallocated exactly once. */
  method Lifetime(pool: Pool, requests: seq<Action>) returns (p: FiberPool, ghost log: seq<Option<Action>>)
    ensures p.Valid() && p.pool == pool
    ensures Answers(pool, INITIAL, requests, log)
    ensures Legal(pool, INITIAL, StepsOf(log)) && p.Abs() == After(pool, INITIAL, StepsOf(log))
    ensures p.destroyed ==> |p.works| == |p.futures| && forall w | w in p.works :: w.deallocations == 1
  {
    p := new FiberPool(pool);
    log := Drive(p, requests, p.Abs());
    if p.destroyed {
      p.NothingLeaks();
    }
  }
}
