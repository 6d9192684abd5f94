/** What a worker fiber decides between two jobs: whether to create a fiber, whether to retire, and
    which of the others to detach; and what the map of fibers holds in consequence. */
module PoolDecisions {
  import opened Options
  import opened OrderedKeys
  import Q = QueueProtocol
  import opened PoolMachine
  import opened PoolInvariant
  import opened PoolSteps
  import opened PoolTheorems

  /** The number of fibers that are created first, and that the pool keeps until close. */
  predicate KeepsAtLeast(pool: Pool, n: nat) {
    match pool
    case StaticPool(fibers) => n == fibers
    case DynamicPool(min, max) => n == min
  }

  /** The first fibers: N of them in a static pool, Min in a dynamic one, ready to run and joinable
      each under its own id. */
  lemma CreatesExactly(pool: Pool, s: State, ids: seq<nat>, n: nat)
    requires Enabled(pool, s, Create(ids)) && KeepsAtLeast(pool, n)
    ensures var s' := Apply(pool, s, Create(ids));
            && |s'.fibers| == n == |ids| && s'.master.AtRendezvous? && s'.q == s.q && s'.spawned == s.spawned
            && forall i: nat | i < n ::
                 && s'.fibers[i].id == ids[i] && s'.fibers[i].pc.Ready?
                 && ids[i] in s'.fibs && s'.fibs[ids[i]].handle == Some(i) && !s'.fibs[ids[i]].terminated
  {
  }

  /** One pass of `pop`: the front of the queue if there is one, even from a closed queue; sleep beside
      an open, empty queue; back to the loop test otherwise.  A fiber with a job in hand goes on to ask
      for help exactly if its pool is dynamic and has fewer than Max fibers in the loop. */
  lemma PopsExactly(pool: Pool, s: State, f: nat)
    requires Enabled(pool, s, TryPop(f))
    ensures var s' := Apply(pool, s, TryPop(f));
            && s'.q.open == s.q.open && |s'.fibers| == |s.fibers| && s'.spawned == s.spawned && s'.fibs == s.fibs
            && (forall g: nat | g < |s.fibers| && g != f :: s'.fibers[g] == s.fibers[g])
            && if s.q.items != [] then
                 var w := s.q.items[0];
                 && s'.q.items == s.q.items[1..] && s'.popped == s.popped + [w] && s'.q.waiting == s.q.waiting
                 && s'.fibers[f].pc == if pool.DynamicPool? && s.spawned < pool.max then SpawnTest(w) else Running(w)
               else if s.q.open then
                 s'.q.items == [] && s'.fibers[f].pc.InPop? && s'.q.waiting == s.q.waiting + {f}
               else
                 s'.q.items == [] && s'.fibers[f].pc.LoopTest? && s'.q.waiting == s.q.waiting
  {
  }

  /** Nobody is created while nothing is queued and another fiber is ready; in every other case exactly
      one fiber is, ready to run and joinable under its own id.  Either way the job is executed. */
  lemma SpawnsExactly(pool: Pool, s: State, f: nat, ready: bool, id: nat)
    requires Enabled(pool, s, Spawn(f, ready, id))
    ensures var s' := Apply(pool, s, Spawn(f, ready, id));
            && s'.fibers[f] == s.fibers[f].(pc := Running(s.fibers[f].pc.w))
            && (forall g: nat | g < |s.fibers| && g != f :: g < |s'.fibers| && s'.fibers[g] == s.fibers[g])
            && s'.q == s.q && s'.spawned == s.spawned
            && if s.q.items == [] && ready then
                 |s'.fibers| == |s.fibers| && s'.fibs == s.fibs
               else
                 && |s'.fibers| == |s.fibers| + 1
                 && s'.fibers[|s.fibers|].id == id && s'.fibers[|s.fibers|].pc.Ready?
                 && s'.fibs.Keys == s.fibs.Keys + {id}
                 && s'.fibs[id].handle == Some(|s.fibers|) && !s'.fibs[id].terminated
                 && forall k | k in s.fibs && k != id :: s'.fibs[k] == s.fibs[k]
  {
  }

  /** A fiber leaves exactly if nothing is queued, more than Min fibers are in the loop and another
      fiber is ready, and then its entry is marked and keeps its handle; otherwise it goes back to the
      loop test.  Nothing else changes. */
  lemma RetiresExactly(pool: Pool, s: State, f: nat, ready: bool, n: nat)
    requires Inv(pool, s) && Enabled(pool, s, Retire(f, ready)) && KeepsAtLeast(pool, n)
    ensures var s' := Apply(pool, s, Retire(f, ready));
            var left := s.q.items == [] && s.spawned > n && ready;
            && s'.fibers == s.fibers[f := s.fibers[f].(pc := if left then Exited else LoopTest)]
            && s'.spawned == (if left then s.spawned - 1 else s.spawned)
            && s'.q == s.q && s'.futures == s.futures && s'.fibs.Keys == s.fibs.Keys
            && forall k | k in s.fibs ::
                 && s'.fibs[k].handle == s.fibs[k].handle
                 && (s'.fibs[k].terminated <==> s.fibs[k].terminated || (left && k == s.fibers[f].id))
  {
    RetireFindsEntry(s, f);
  }

  // ---------------------------------------------------------------- the map of fibers

  /** While the queue is open a fiber leaves by retiring only, and its entry says so. */
  ghost predicate Marked(s: State) {
    s.q.open ==> forall k | k in s.fibs && s.fibs[k].handle.Some? && !Live(s, s.fibs[k].handle.value) :: s.fibs[k].terminated
  }

  /** There is an entry for every id that a fiber has ever had. */
  ghost predicate EntryForEach(s: State) {
    && (forall i: nat | i < |s.fibers| :: s.fibers[i].id in s.fibs)
    && (forall k | k in s.fibs :: HadId(s.fibers, k))
  }

  ghost predicate HadId(fibers: seq<Fiber>, k: nat) {
    exists i: nat :: i < |fibers| && fibers[i].id == k
  }

  lemma SameIds(fibers: seq<Fiber>, fibers': seq<Fiber>)
    requires |fibers| <= |fibers'| && forall i: nat | i < |fibers| :: fibers'[i].id == fibers[i].id
    ensures forall k | HadId(fibers, k) :: HadId(fibers', k)
  {
    forall k | HadId(fibers, k) ensures HadId(fibers', k) {
      var i: nat :| i < |fibers| && fibers[i].id == k;
      assert fibers'[i].id == k;
    }
  }

  lemma CreateKeepsEntries(s: State, ids: seq<nat>)
    requires s.fibers == [] && s.fibs == map[] && Distinct(ids)
    ensures Marked(CreateFibers(s, ids)) && EntryForEach(CreateFibers(s, ids))
  {
    var s' := CreateFibers(s, ids);
    forall k | k in s'.fibs ensures HadId(s'.fibers, k) {
      var i: nat :| i < |ids| && ids[i] == k;
      assert s'.fibers[i].id == k;
    }
  }

  lemma SpawnKeepsEntries(s: State, f: nat, ready: bool, id: nat)
    requires Marked(s) && EntryForEach(s) && MapInv(s) && f < |s.fibers| && s.fibers[f].pc.SpawnTest?
    ensures Marked(SpawnStep(s, f, ready, id)) && EntryForEach(SpawnStep(s, f, ready, id))
  {
    var s' := SpawnStep(s, f, ready, id);
    SameIds(s.fibers, s'.fibers);
    if |s'.fibers| > |s.fibers| {
      assert s'.fibers[|s.fibers|].id == id;
    }
  }

  lemma RetireKeepsEntries(pool: Pool, s: State, f: nat, ready: bool)
    requires Marked(s) && EntryForEach(s) && MapInv(s) && At(s, f, RetireTest)
    ensures Marked(RetireStep(pool, s, f, ready)) && EntryForEach(RetireStep(pool, s, f, ready))
  {
    SameIds(s.fibers, RetireStep(pool, s, f, ready).fibers);
  }

  /** A fiber moves, and the map changes at most by losing handles. */
  lemma MoveKeepsEntries(s: State, s': State, f: nat, pc: Pc)
    requires Marked(s) && EntryForEach(s) && f < |s.fibers|
    requires s'.fibers == MoveTo(s.fibers, f, pc) && (pc.Exited? ==> !s'.q.open) && (s'.q.open ==> s.q.open)
    requires s'.fibs.Keys == s.fibs.Keys
    requires forall k | k in s.fibs :: s'.fibs[k].handle.None? || s'.fibs[k] == s.fibs[k]
    ensures Marked(s') && EntryForEach(s')
  {
    SameIds(s.fibers, s'.fibers);
  }

  lemma WalkKeepsEntries(pool: Pool, s: State, a: Action)
    requires Marked(s) && EntryForEach(s) && Enabled(pool, s, a) && (a.Start? || a.Test? || a.TryPop? || a.Finish?)
    ensures Marked(Apply(pool, s, a)) && EntryForEach(Apply(pool, s, a))
  {
    var s' := Apply(pool, s, a);
    MoveKeepsEntries(s, s', a.f, s'.fibers[a.f].pc);
  }

  lemma OthersKeepEntries(pool: Pool, s: State, a: Action)
    requires Marked(s) && EntryForEach(s) && Enabled(pool, s, a)
    requires a.Push? || a.Spurious? || a.Notify? || a.Shut? || (a.Join? && !s.q.open) || a.Destroy?
    ensures Marked(Apply(pool, s, a)) && EntryForEach(Apply(pool, s, a))
  {
  }

  lemma StepKeepsEntries(pool: Pool, s: State, a: Action)
    requires Inv(pool, s) && Marked(s) && EntryForEach(s) && Enabled(pool, s, a)
    ensures Marked(Apply(pool, s, a)) && EntryForEach(Apply(pool, s, a))
  {
    match a
    case Create(ids) => CreateKeepsEntries(s, ids);
    case Spawn(f, ready, id) => SpawnKeepsEntries(s, f, ready, id);
    case Retire(f, ready) => RetireKeepsEntries(pool, s, f, ready);
    case Start(f) => WalkKeepsEntries(pool, s, a);
    case Test(f) => WalkKeepsEntries(pool, s, a);
    case TryPop(f) => WalkKeepsEntries(pool, s, a);
    case Finish(f) => WalkKeepsEntries(pool, s, a);
    case _ => OthersKeepEntries(pool, s, a);
  }

  lemma {:induction false} RunKeepsEntries(pool: Pool, s: State, run: seq<Action>)
    requires Inv(pool, s) && Marked(s) && EntryForEach(s) && Legal(pool, s, run)
    ensures Marked(After(pool, s, run)) && EntryForEach(After(pool, s, run))
    decreases |run|
  {
    if run != [] {
      StepKeepsEntries(pool, s, run[0]);
      StepKeepsInv(pool, s, run[0]);
      RunKeepsEntries(pool, Apply(pool, s, run[0]), run[1..]);
    }
  }

  /** No entry is ever erased: the keys of the map are the ids of all fibers there have been. */
  lemma EntriesAreNeverErased(pool: Pool, run: seq<Action>, k: nat)
    requires Legal(pool, INITIAL, run)
    ensures var s := After(pool, INITIAL, run);
            k in s.fibs <==> exists i: nat :: i < |s.fibers| && s.fibers[i].id == k
  {
    InitialInv(pool);
    RunKeepsEntries(pool, INITIAL, run);
    var s := After(pool, INITIAL, run);
    assert k in s.fibs ==> HadId(s.fibers, k);
  }

  /** Over every run of a dynamic pool, while the queue is open: when a fiber has finished a job and
      gone through the map, an entry has a handle exactly if a fiber of its id is still there, and
      that is the fiber it joins.  No fiber that has retired before is joinable any more. */
  lemma FinishDetachesExactly(min: nat, max: nat, run: seq<Action>, f: nat, k: nat)
    requires Legal(DynamicPool(min, max), INITIAL, run)
    requires var s := After(DynamicPool(min, max), INITIAL, run);
             Enabled(DynamicPool(min, max), s, Finish(f)) && s.q.open && k in s.fibs
    ensures var s' := Apply(DynamicPool(min, max), After(DynamicPool(min, max), INITIAL, run), Finish(f));
            && k in s'.fibs
            && (s'.fibs[k].handle.Some? <==>
                exists i: nat :: i < |s'.fibers| && s'.fibers[i].id == k && !s'.fibers[i].pc.Exited?)
            && (s'.fibs[k].handle.Some? ==>
                var i := s'.fibs[k].handle.value;
                i < |s'.fibers| && s'.fibers[i].id == k && !s'.fibers[i].pc.Exited?)
  {
    var pool := DynamicPool(min, max);
    var s := After(pool, INITIAL, run);
    ReachableInv(pool, run);
    InitialInv(pool);
    RunKeepsEntries(pool, INITIAL, run);
    HandlesOfLive(pool, s, f, k);
  }

  lemma HandlesOfLive(pool: Pool, s: State, f: nat, k: nat)
    requires pool.DynamicPool? && MapInv(s) && Marked(s) && Enabled(pool, s, Finish(f)) && s.q.open && k in s.fibs
    ensures var s' := Apply(pool, s, Finish(f));
            && k in s'.fibs
            && (s'.fibs[k].handle.Some? <==>
                exists i: nat :: i < |s'.fibers| && s'.fibers[i].id == k && !s'.fibers[i].pc.Exited?)
            && (s'.fibs[k].handle.Some? ==>
                var i := s'.fibs[k].handle.value;
                i < |s'.fibers| && s'.fibers[i].id == k && !s'.fibers[i].pc.Exited?)
  {
    var s' := Apply(pool, s, Finish(f));
    if s'.fibs[k].handle.Some? {
      var i := s'.fibs[k].handle.value;
      assert s.fibs[k].handle == Some(i) && s.fibers[i].id == k;
      assert s'.fibers[i].id == k && !s'.fibers[i].pc.Exited?;
    }
    if i: nat :| i < |s'.fibers| && s'.fibers[i].id == k && !s'.fibers[i].pc.Exited? {
      assert !s.fibers[i].pc.Exited?;
    }
  }

  /** The flag of the rendezvous: set by `notify`, taken back by the master when it wakes. */
  lemma FlagExactly(pool: Pool, s: State, a: Action)
    requires Enabled(pool, s, a)
    ensures Apply(pool, s, a).flag <==> a.Notify? || (s.flag && !a.Shut?)
  {
  }

  /** Nobody but the fibers is ever held up by anything else than what he waits for: a submitter and
      `notify` by nothing until the worker is destroyed, the master only by a rendezvous without
      notification and by the fiber it joins. */
  lemma OthersCanStep(pool: Pool, s: State)
    requires Inv(pool, s) && !s.master.Aborted?
    ensures !s.destroyed ==> Enabled(pool, s, Notify) && exists woken :: Enabled(pool, s, Push(woken))
    ensures s.master.Starting? ==> exists ids :: Enabled(pool, s, Create(ids))
    ensures s.master.AtRendezvous? && s.flag ==> exists next :: Enabled(pool, s, Shut(next))
    ensures s.master.Joining? && (s.master.target.Some? ==> s.fibers[s.master.target.value].pc.Exited?) ==>
              exists next :: Enabled(pool, s, Join(next))
    ensures s.master.Returned? && !s.destroyed ==> Enabled(pool, s, Destroy)
  {
    var woken := Q.SomeWaker(s.q);
    var first := SomeNext(s.fibs.Keys, -1);
    var next := SomeNext(s.fibs.Keys, if s.master.Joining? then s.master.key else -1);
    assert !s.destroyed ==> Enabled(pool, s, Push(woken));
    if s.master.Starting? {
      assert Enabled(pool, s, Create(seq(pool.Min(), (i: nat) => i)));
    }
    assert s.master.AtRendezvous? && s.flag ==> Enabled(pool, s, Shut(first));
    if s.master.Joining? && (s.master.target.Some? ==> s.fibers[s.master.target.value].pc.Exited?) {
      assert Enabled(pool, s, Join(next));
    }
  }
}
