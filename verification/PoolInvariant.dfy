/** What every step of the pool machine keeps. */
module PoolInvariant {
  import opened Options
  import Q = QueueProtocol
  import opened PoolMachine

  /** Only fibers inside `pop` are asleep or woken. */
  ghost predicate QueueInv(s: State) {
    && Q.NoLostWakeUp(s.q)
    && SleepersInPop(s)
  }

  ghost predicate SleepersInPop(s: State) {
    forall f | f in s.q.waiting || f in s.q.notified :: At(s, f, InPop)
  }

  /** Before the master has run there are no fibers. */
  ghost predicate StartInv(s: State) {
    s.master.Starting? ==> s.fibers == [] && s.fibs == map[]
  }

  /** `spawned` counts the fibers between lines 43 and 80; until close they and the fibers not
      yet started are at least Min. */
  ghost predicate CountInv(pool: Pool, s: State) {
    && s.spawned == |LoopSet(s.fibers)|
    && (!s.master.Starting? && s.q.open ==> |LoopSet(s.fibers)| + |ReadySet(s.fibers)| >= pool.Min())
  }

  /** Every fiber that has not left has its own, joinable, unmarked entry; every handle sits
      under the id of the fiber it joins. */
  ghost predicate MapInv(s: State) {
    && s.fault == NoFault
    && (forall i | 0 <= i < |s.fibers| && !s.fibers[i].pc.Exited? ::
          s.fibers[i].id in s.fibs && s.fibs[s.fibers[i].id] == Entry(Some(i), false))
    && (forall k | k in s.fibs && s.fibs[k].handle.Some? ::
          s.fibs[k].handle.value < |s.fibers| && s.fibers[s.fibs[k].handle.value].id == k)
  }

  /** The handles the join loop has passed are exactly those of fibers inserted behind it. */
  ghost predicate Ahead(s: State, key: nat, target: Option<nat>)
    requires MapInv(s)
  {
    forall k | k in s.fibs && s.fibs[k].handle.Some? ::
      s.fibers[s.fibs[k].handle.value].behind <==> !(key < k || (key == k && target == s.fibs[k].handle))
  }

  ghost predicate JoinInv(s: State)
    requires MapInv(s)
  {
    match s.master
    case Starting => s.q.open
    case AtRendezvous => s.q.open && forall i | 0 <= i < |s.fibers| :: !s.fibers[i].behind
    case Joining(key, target) =>
      && !s.q.open && key in s.fibs && Ahead(s, key, target)
      && (target.Some? ==>
            && target.value < |s.fibers| && s.fibers[target.value].id == key
            && (s.fibs[key].handle == None || s.fibs[key].handle == target))
    case Returned => !s.q.open && forall k | k in s.fibs :: s.fibs[k].handle.None?
    case Aborted =>
      && !s.q.open && (exists k | k in s.fibs :: Joinable(s.fibs, k))
      && forall k | k in s.fibs && s.fibs[k].handle.Some? :: s.fibers[s.fibs[k].handle.value].behind
  }

  ghost predicate HistoryInv(s: State) {
    && (!s.destroyed ==> s.accepted == s.popped + s.q.items)
    && (s.destroyed ==> s.popped <= s.accepted && s.q.items == [] && s.master.Returned?)
    && (forall i, j | 0 <= i < j < |s.accepted| :: s.accepted[i] < s.accepted[j])
    && (forall i | 0 <= i < |s.accepted| :: s.accepted[i] < |s.futures|)
  }

  predicate Fulfilled(fut: Future) {
    |fut.poppers| == 1 && fut == Future(fut.poppers, fut.poppers, 1, 0)
  }

  const BROKEN: Future := Future([], [], 0, 1)

  ghost predicate HeldBy(fibers: seq<Fiber>, f: nat, pc: Pc) {
    f < |fibers| && fibers[f].pc == pc
  }

  /** Where the promise `fut` of job `w` stands, and who holds the job. */
  ghost predicate Tracked(fut: Future, w: nat, items: seq<nat>, fibers: seq<Fiber>) {
    || (fut == PENDING && w in items)
    || (|fut.poppers| == 1 && fut == Future(fut.poppers, [], 0, 0) && HeldBy(fibers, fut.poppers[0], SpawnTest(w)))
    || (|fut.poppers| == 1 && fut == Future(fut.poppers, fut.poppers, 0, 0) && HeldBy(fibers, fut.poppers[0], Running(w)))
    || Fulfilled(fut)
    || fut == BROKEN
  }

  /** What a fiber in the middle of a job knows about that job's promise. */
  ghost predicate Holding(f: nat, pc: Pc, futures: seq<Future>) {
    match pc
    case SpawnTest(w) => w < |futures| && futures[w] == Future([f], [], 0, 0)
    case Running(w) => w < |futures| && futures[w] == Future([f], [f], 0, 0)
    case _ => true
  }

  ghost predicate FateInv(s: State) {
    && (forall w: nat | w < |s.futures| :: Tracked(s.futures[w], w, s.q.items, s.fibers))
    && (forall i | 0 <= i < |s.q.items| :: s.q.items[i] < |s.futures| && s.futures[s.q.items[i]] == PENDING)
    && (forall f: nat | f < |s.fibers| :: Holding(f, s.fibers[f].pc, s.futures))
  }

  /** A rejected job is broken at once; exactly the popped jobs have a popper. */
  ghost predicate PopperInv(s: State) {
    && (forall w: nat | w < |s.futures| && w !in s.accepted :: s.futures[w] == BROKEN)
    && (forall w: nat | w < |s.futures| :: w in s.popped <==> s.futures[w].poppers != [])
  }

  ghost predicate Inv(pool: Pool, s: State) {
    && StartInv(s)
    && QueueInv(s)
    && CountInv(pool, s)
    && MapInv(s)
    && JoinInv(s)
    && HistoryInv(s)
    && FateInv(s)
    && PopperInv(s)
  }

  lemma InitialInv(pool: Pool)
    ensures Inv(pool, INITIAL)
  {
    assert LoopSet(INITIAL.fibers) == {};
  }

  /** The queue operation a step performs, if it touches the queue. */
  function QueueOp(s: State, a: Action): Option<Q.Op> {
    match a
    case Push(woken) => Some(Q.DoPush(|s.futures|, woken))
    case TryPop(f) => Some(Q.DoPop(f))
    case Spurious(f) => Some(Q.DoWakeSpuriously(f))
    case Shut(_) => Some(Q.DoClose)
    case _ => None
  }

  /** The pool drives its queue through the queue's own operations only. */
  lemma QueueStep(pool: Pool, s: State, a: Action)
    requires Enabled(pool, s, a) && !a.Destroy?
    ensures var op := QueueOp(s, a);
            if op.None? then Apply(pool, s, a).q == s.q
            else Q.Enabled(s.q, op.value) && Apply(pool, s, a).q == Q.Apply(s.q, op.value)
  {
  }

  lemma KeepsNoLostWakeUp(pool: Pool, s: State, a: Action)
    requires QueueInv(s) && Enabled(pool, s, a)
    ensures Q.NoLostWakeUp(Apply(pool, s, a).q)
  {
    if !a.Destroy? {
      QueueStep(pool, s, a);
      if QueueOp(s, a).Some? {
        Q.StepKeepsNoLostWakeUp(s.q, QueueOp(s, a).value);
      }
    }
  }
}
