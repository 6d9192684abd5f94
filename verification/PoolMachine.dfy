/** A worker thread's fiber pool as a step machine: `static_pool`, `dynamic_pool`, the queue
    they share with the submitters, the rendezvous flag and the master fiber.

    Fibers of one thread are cooperative.  Only locking a mutex, sleeping on a condition
    variable, joining and running a job can suspend a fiber, so each `Action` is a stretch of
    code from one such point to the next.  Submitters run on any thread and reach the pool
    through the queue's mutex only, so `Push` may fall between any two actions.

    Assumptions about the fiber library, which is not part of this model:
    creating a fiber only makes it ready; the id of a fiber is not reused while the fiber runs,
    is held by a joinable handle or is being joined; `join` returns only after the fiber has
    exited and leaves the handle empty; `has_ready_fibers` may answer anything. */
module PoolMachine {
  import opened Options
  import opened OrderedKeys
  import opened QueueProtocol

  datatype Pool = StaticPool(n: nat) | DynamicPool(min: nat, max: nat) {
    function Min(): nat {
      match this
      case StaticPool(n) => n
      case DynamicPool(min, _) => min
    }
  }

  /** Where a worker fiber stands in its worker function. */
  datatype Pc =
    | Ready              // created, not started
    | LoopTest           // about to lock the queue in closed()
    | InPop              // inside pop: entering, asleep or woken, as the queue says
    | SpawnTest(w: nat)  // has found Max > *spawned, about to lock the queue in empty()
    | Running(w: nat)    // inside execute(), running or suspended
    | RetireTest         // about to lock the queue in empty() after a job
    | Exited

  /** One incarnation of a worker fiber.  Ids are reused, positions in `State.fibers` are not.
      `behind` marks a fiber put into the map at or below the key the master is joining. */
  datatype Fiber = Fiber(id: nat, pc: Pc, behind: bool)

  /** A `worker_fiber` in the map: the incarnation it can still join, and `terminated_`. */
  datatype Entry = Entry(handle: Option<nat>, terminated: bool)

  datatype Master =
    | Starting
    | AtRendezvous
    | Joining(key: nat, target: Option<nat>)
    | Returned
    | Aborted  // a joinable handle was destroyed together with the map: std::terminate

  /** What happened to one submitted job: who popped it, who ran it, and its promise. */
  datatype Future = Future(poppers: seq<nat>, runners: seq<nat>, fulfilled: nat, broken: nat)

  const PENDING: Future := Future([], [], 0, 0)

  /** The ways the map of fibers could be misused. */
  datatype Fault =
    | NoFault
    | MissingEntry       // fibs->at throws
    | OverwroteJoinable  // fibs[id] = f drops a joinable handle
    | DetachedLive       // a fiber still inside its worker function is detached

  datatype State = State(
    q: Queue,
    fibers: seq<Fiber>,
    fibs: map<nat, Entry>,
    spawned: int,
    master: Master,
    flag: bool,
    futures: seq<Future>,
    accepted: seq<nat>,
    popped: seq<nat>,
    fault: Fault,
    destroyed: bool)

  const INITIAL: State :=
    State(EMPTY, [], map[], 0, Starting, false, [], [], [], NoFault, false)

  datatype Action =
    | Create(ids: seq<nat>)                    // the master creates its Min fibers
    | Push(woken: Option<nat>)                 // any thread submits a job
    | Start(f: nat)
    | Test(f: nat)
    | TryPop(f: nat)
    | Spurious(f: nat)                         // a sleeper wakes for no reason
    | Spawn(f: nat, ready: bool, id: nat)      // line 57 from empty() on, lines 58-60
    | Finish(f: nat)                           // the job returns
    | Retire(f: nat, ready: bool)              // line 74 from empty() on, lines 76-80
    | Notify
    | Shut(next: Option<nat>)                  // the master wakes, closes, starts joining
    | Join(next: Option<nat>)
    | Destroy                                  // the worker thread object is destroyed

  // ---------------------------------------------------------------- fibers and futures

  predicate InLoop(pc: Pc) { !pc.Ready? && !pc.Exited? }

  ghost function LoopSet(fibers: seq<Fiber>): set<nat> {
    set i: nat | i < |fibers| && InLoop(fibers[i].pc)
  }

  ghost function ReadySet(fibers: seq<Fiber>): set<nat> {
    set i: nat | i < |fibers| && fibers[i].pc.Ready?
  }

  function MoveTo(fibers: seq<Fiber>, f: nat, pc: Pc): seq<Fiber>
    requires f < |fibers|
  {
    fibers[f := fibers[f].(pc := pc)]
  }

  function AddPopper(fs: seq<Future>, w: nat, f: nat): seq<Future> {
    if w < |fs| then fs[w := fs[w].(poppers := fs[w].poppers + [f])] else fs
  }

  function AddRunner(fs: seq<Future>, w: nat, f: nat): seq<Future> {
    if w < |fs| then fs[w := fs[w].(runners := fs[w].runners + [f])] else fs
  }

  function Fulfil(fs: seq<Future>, w: nat): seq<Future> {
    if w < |fs| then fs[w := fs[w].(fulfilled := fs[w].fulfilled + 1)] else fs
  }

  function BreakAll(fs: seq<Future>, ws: seq<nat>): seq<Future> {
    seq(|fs|, i requires 0 <= i < |fs| =>
      if i in ws then fs[i].(broken := fs[i].broken + 1) else fs[i])
  }

  // ---------------------------------------------------------------- the map of fibers

  predicate Joinable(fibs: map<nat, Entry>, k: nat) {
    k in fibs && fibs[k].handle.Some?
  }

  /** Lines 65-69: every entry marked terminated loses its handle; no entry is erased. */
  function DetachTerminated(fibs: map<nat, Entry>): map<nat, Entry> {
    map k | k in fibs :: if fibs[k].terminated then fibs[k].(handle := None) else fibs[k]
  }

  predicate Live(s: State, i: nat) {
    i < |s.fibers| && !s.fibers[i].pc.Exited?
  }

  predicate DetachesLive(s: State) {
    exists k | k in s.fibs :: s.fibs[k].terminated && s.fibs[k].handle.Some? && Live(s, s.fibs[k].handle.value)
  }

  /** Nobody who still matters carries this id. */
  predicate FreshId(fibers: seq<Fiber>, fibs: map<nat, Entry>, master: Master, id: nat) {
    forall i | 0 <= i < |fibers| && fibers[i].id == id ::
      && fibers[i].pc.Exited?
      && !(id in fibs && fibs[id].handle == Some(i))
      && !(master.Joining? && master.target == Some(i))
  }

  predicate Fresh(s: State, id: nat) { FreshId(s.fibers, s.fibs, s.master, id) }

  // ---------------------------------------------------------------- steps

  predicate Distinct(ids: seq<nat>) {
    forall i, j | 0 <= i < j < |ids| :: ids[i] != ids[j]
  }

  function CreateFibers(s: State, ids: seq<nat>): State
    requires Distinct(ids)
  {
    s.(fibers := seq(|ids|, i requires 0 <= i < |ids| => Fiber(ids[i], Ready, false)),
       fibs := map i: nat | i < |ids| :: ids[i] := Entry(Some(i), false),
       master := AtRendezvous)
  }

  /** A rejected job breaks its promise at once: the last handle on the work is a temporary. */
  function SubmitJob(s: State, woken: Option<nat>): State {
    var w := |s.futures|;
    if s.q.open then
      s.(q := QueueProtocol.Push(s.q, w, woken), futures := s.futures + [PENDING], accepted := s.accepted + [w])
    else
      s.(futures := s.futures + [PENDING.(broken := 1)])
  }

  /** Line 80 and the end of the worker function. */
  function Leave(s: State, f: nat): State
    requires f < |s.fibers|
  {
    s.(fibers := MoveTo(s.fibers, f, Exited), spawned := s.spawned - 1)
  }

  /** Line 57, first operand: read as soon as `pop` has returned, before any suspension. */
  predicate AsksToSpawn(pool: Pool, s: State) {
    pool.DynamicPool? && pool.max > s.spawned
  }

  /** What `pop` has answered, and with a work in hand the first half of line 57. */
  function PopStepWith(pool: Pool, s: State, f: nat, q: Queue, r: PopResult): State
    requires f < |s.fibers|
  {
    match r
    case Blocked => s.(q := q)
    case Closed => s.(q := q, fibers := MoveTo(s.fibers, f, LoopTest))
    case Got(w) =>
      var asks := AsksToSpawn(pool, s);
      var futures := AddPopper(s.futures, w, f);
      s.(q := q, popped := s.popped + [w],
         futures := if asks then futures else AddRunner(futures, w, f),
         fibers := MoveTo(s.fibers, f, if asks then SpawnTest(w) else Running(w)))
  }

  function PopStep(pool: Pool, s: State, f: nat): State
    requires f < |s.fibers|
  {
    PopStepWith(pool, s, f, Pop(s.q, f).0, Pop(s.q, f).1)
  }

  /** Line 57, the other operands. */
  predicate Spawns(s: State, ready: bool) { s.q.items != [] || !ready }

  /** Lines 58-60. */
  function AddFiber(s: State, id: nat): State {
    var behind := s.master.Joining? && id <= s.master.key;
    s.(fibers := s.fibers + [Fiber(id, Ready, behind)],
       fibs := s.fibs[id := Entry(Some(|s.fibers|), false)],
       fault := if Joinable(s.fibs, id) then OverwroteJoinable else s.fault)
  }

  function SpawnStep(s: State, f: nat, ready: bool, id: nat): State
    requires f < |s.fibers| && s.fibers[f].pc.SpawnTest?
  {
    var w := s.fibers[f].pc.w;
    var s1 := if Spawns(s, ready) then AddFiber(s, id) else s;
    s1.(fibers := MoveTo(s1.fibers, f, Running(w)), futures := AddRunner(s.futures, w, f))
  }

  function FinishStep(pool: Pool, s: State, f: nat): State
    requires f < |s.fibers| && s.fibers[f].pc.Running?
  {
    var futures := Fulfil(s.futures, s.fibers[f].pc.w);
    match pool
    case StaticPool(_) => s.(futures := futures, fibers := MoveTo(s.fibers, f, LoopTest))
    case DynamicPool(_, _) =>
      s.(futures := futures, fibers := MoveTo(s.fibers, f, RetireTest),
         fibs := DetachTerminated(s.fibs),
         fault := if DetachesLive(s) then DetachedLive else s.fault)
  }

  predicate Retires(pool: Pool, s: State, ready: bool) {
    s.q.items == [] && pool.Min() < s.spawned && ready
  }

  function RetireStep(pool: Pool, s: State, f: nat, ready: bool): State
    requires f < |s.fibers|
  {
    var id := s.fibers[f].id;
    if !Retires(pool, s, ready) then s.(fibers := MoveTo(s.fibers, f, LoopTest))
    else if id in s.fibs then Leave(s, f).(fibs := s.fibs[id := s.fibs[id].(terminated := true)])
    else s.(fault := MissingEntry)
  }

  /** The join loop moves to `next`, or ends and the map of fibers is destroyed. */
  function Advance(s: State, next: Option<nat>): State {
    match next
    case Some(k) => s.(master := Joining(k, if k in s.fibs then s.fibs[k].handle else None))
    case None => s.(master := if exists k | k in s.fibs :: Joinable(s.fibs, k) then Aborted else Returned)
  }

  function ShutStep(s: State, next: Option<nat>): State {
    Advance(s.(flag := false, q := Close(s.q)), next)
  }

  /** `join` has returned: the entry's handle is empty. */
  function ClearJoined(s: State): State
    requires s.master.Joining?
  {
    var k := s.master.key;
    if s.master.target.Some? && k in s.fibs then s.(fibs := s.fibs[k := s.fibs[k].(handle := None)]) else s
  }

  function JoinStep(s: State, next: Option<nat>): State
    requires s.master.Joining?
  {
    Advance(ClearJoined(s), next)
  }

  function DestroyStep(s: State): State {
    s.(futures := BreakAll(s.futures, s.q.items), q := s.q.(items := []), destroyed := true)
  }

  ghost predicate At(s: State, f: nat, pc: Pc) { f < |s.fibers| && s.fibers[f].pc == pc }

  ghost predicate Enabled(pool: Pool, s: State, a: Action) {
    && s.fault == NoFault
    && !s.master.Aborted?
    && match a
       case Create(ids) =>
         && s.master.Starting?
         && |ids| == pool.Min()
         && Distinct(ids)
         && (pool.StaticPool? ==> forall i | 0 <= i < |ids| :: ids[i] == i)
       case Push(woken) => !s.destroyed && (s.q.open ==> CanWake(s.q, woken))
       case Start(f) => At(s, f, Ready)
       case Test(f) => At(s, f, LoopTest)
       case TryPop(f) => At(s, f, InPop) && f !in s.q.waiting
       case Spurious(f) => f in s.q.waiting
       case Spawn(f, _, id) => f < |s.fibers| && s.fibers[f].pc.SpawnTest? && Fresh(s, id)
       case Finish(f) => f < |s.fibers| && s.fibers[f].pc.Running?
       case Retire(f, _) => At(s, f, RetireTest)
       case Notify => !s.destroyed
       case Shut(next) => s.master.AtRendezvous? && s.flag && IsNext(s.fibs.Keys, -1, next)
       case Join(next) =>
         && s.master.Joining?
         && (s.master.target.Some? ==> !Live(s, s.master.target.value))
         && IsNext(s.fibs.Keys, s.master.key, next)
       case Destroy => s.master.Returned? && !s.destroyed
  }

  ghost function Apply(pool: Pool, s: State, a: Action): State
    requires Enabled(pool, s, a)
  {
    match a
    case Create(ids) => CreateFibers(s, ids)
    case Push(woken) => SubmitJob(s, woken)
    case Start(f) => s.(fibers := MoveTo(s.fibers, f, LoopTest), spawned := s.spawned + 1)
    case Test(f) => if s.q.open then s.(fibers := MoveTo(s.fibers, f, InPop)) else Leave(s, f)
    case TryPop(f) => PopStep(pool, s, f)
    case Spurious(f) => s.(q := WakeUp(s.q, f))
    case Spawn(f, ready, id) => SpawnStep(s, f, ready, id)
    case Finish(f) => FinishStep(pool, s, f)
    case Retire(f, ready) => RetireStep(pool, s, f, ready)
    case Notify => s.(flag := true)
    case Shut(next) => ShutStep(s, next)
    case Join(next) => JoinStep(s, next)
    case Destroy => DestroyStep(s)
  }

  // ---------------------------------------------------------------- runs

  ghost predicate Legal(pool: Pool, s: State, run: seq<Action>)
    decreases |run|
  {
    run == [] || (Enabled(pool, s, run[0]) && Legal(pool, Apply(pool, s, run[0]), run[1..]))
  }

  ghost function After(pool: Pool, s: State, run: seq<Action>): State
    requires Legal(pool, s, run)
    decreases |run|
  {
    if run == [] then s else After(pool, Apply(pool, s, run[0]), run[1..])
  }

  lemma {:induction false} Follow(pool: Pool, s: State, run: seq<Action>, more: seq<Action>)
    requires Legal(pool, s, run) && Legal(pool, After(pool, s, run), more)
    ensures Legal(pool, s, run + more) && After(pool, s, run + more) == After(pool, After(pool, s, run), more)
    decreases |run|
  {
    if run == [] {
      assert run + more == more;
    } else {
      assert (run + more)[1..] == run[1..] + more;
      Follow(pool, Apply(pool, s, run[0]), run[1..], more);
    }
  }

  lemma Extend(pool: Pool, s: State, run: seq<Action>, a: Action)
    requires Legal(pool, s, run) && Enabled(pool, After(pool, s, run), a)
    ensures Legal(pool, s, run + [a]) && After(pool, s, run + [a]) == Apply(pool, After(pool, s, run), a)
  {
    assert [a][1..] == [];
    Follow(pool, s, run, [a]);
  }
}
