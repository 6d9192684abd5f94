/** Schedules in which `has_ready_fibers` tells the truth about the pool's own fibers, and what they
    can reach. */
module JobSchedules {
  import opened PoolMachine
  import PoolInvariant
  import opened PoolDecisions
  import opened JobTrees
  import opened JobProgress

  /** Fiber `f` could run if it were its turn. */
  ghost predicate CanGoOn(t: Tree, f: nat) {
    && f < |t.pool.fibers|
    && !(t.pool.fibers[f].pc.Exited? || (t.pool.fibers[f].pc.InPop? && f in t.pool.q.waiting) || Blocked(t, f))
  }

  /** A fiber that asks is told whether another fiber of the pool could run. */
  ghost predicate Truthful(t: Tree, st: Step) {
    st.Sys? && (st.a.Spawn? || st.a.Retire?) ==> (st.a.ready <==> exists g: nat :: g != st.a.f && CanGoOn(t, g))
  }

  ghost predicate TruthfulRun(cfg: Pool, t: Tree, run: seq<Step>)
    requires CanRun(cfg, t, run)
    decreases |run|
  {
    run == [] || (Truthful(t, run[0]) && TruthfulRun(cfg, DoStep(cfg, t, run[0]), run[1..]))
  }

  /** A schedule with true answers leads from `t` to `t'`. */
  ghost predicate Leads(cfg: Pool, t: Tree, run: seq<Step>, t': Tree)
    decreases |run|
  {
    if run == [] then t' == t
    else CanStep(cfg, t, run[0]) && Truthful(t, run[0]) && Leads(cfg, DoStep(cfg, t, run[0]), run[1..], t')
  }

  lemma {:induction false} LeadsByRun(cfg: Pool, t: Tree, run: seq<Step>, t': Tree)
    requires Leads(cfg, t, run, t')
    ensures CanRun(cfg, t, run) && TruthfulRun(cfg, t, run) && DoRun(cfg, t, run) == t'
    decreases |run|
  {
    if run != [] {
      LeadsByRun(cfg, DoStep(cfg, t, run[0]), run[1..], t');
    }
  }

  lemma {:induction false} LeadsOn(cfg: Pool, t: Tree, run: seq<Step>, t1: Tree, more: seq<Step>, t2: Tree)
    requires Leads(cfg, t, run, t1) && Leads(cfg, t1, more, t2)
    ensures Leads(cfg, t, run + more, t2)
    decreases |run|
  {
    if run == [] {
      assert run + more == more;
    } else {
      assert (run + more)[1..] == run[1..] + more;
      LeadsOn(cfg, DoStep(cfg, t, run[0]), run[1..], t1, more, t2);
    }
  }

  ghost predicate Reaches(cfg: Pool, t: Tree, t': Tree) {
    exists run :: Leads(cfg, t, run, t')
  }

  lemma NoStep(cfg: Pool, t: Tree)
    ensures Reaches(cfg, t, t)
  {
    assert Leads(cfg, t, [], t);
  }

  lemma OneStep(cfg: Pool, t: Tree, st: Step)
    requires CanStep(cfg, t, st) && Truthful(t, st)
    ensures Reaches(cfg, t, DoStep(cfg, t, st))
  {
    var run := [st];
    assert run[1..] == [] && Leads(cfg, DoStep(cfg, t, st), [], DoStep(cfg, t, st));
    assert Leads(cfg, t, run, DoStep(cfg, t, st));
  }

  lemma Further(cfg: Pool, t: Tree, t1: Tree, t2: Tree)
    requires Reaches(cfg, t, t1) && Reaches(cfg, t1, t2)
    ensures Reaches(cfg, t, t2)
  {
    var run :| Leads(cfg, t, run, t1);
    var more :| Leads(cfg, t1, more, t2);
    LeadsOn(cfg, t, run, t1, more, t2);
  }

  lemma FurtherStep(cfg: Pool, t: Tree, t1: Tree, st: Step)
    requires Reaches(cfg, t, t1) && CanStep(cfg, t1, st) && Truthful(t1, st)
    ensures Reaches(cfg, t, DoStep(cfg, t1, st))
  {
    OneStep(cfg, t1, st);
    Further(cfg, t, t1, DoStep(cfg, t1, st));
  }

  // ---------------------------------------------------------------- what true answers are for

  /** Fiber `f` moves, and whatever else changes does not concern fiber `g`. */
  lemma StillCanGoOn(t: Tree, t': Tree, g: nat)
    requires CanGoOn(t, g) && g < |t'.pool.fibers| && t'.pool.fibers[g] == t.pool.fibers[g]
    requires t'.pool.q.waiting == t.pool.q.waiting && t'.jobs == t.jobs && |t'.pool.futures| == |t.pool.futures|
    requires forall w: nat | w < |t.pool.futures| :: t'.pool.futures[w].broken == t.pool.futures[w].broken
    ensures CanGoOn(t', g)
  {
    assert Blocked(t', g) ==> Blocked(t, g);
  }

  /** When a fiber has been told the truth and has acted on it, another fiber can go on: should the
      first one be suspended by its job, somebody is left to serve the queue. */
  lemma SomebodyElseAfterSpawn(cfg: Pool, t: Tree, f: nat, ready: bool, id: nat)
    requires CanStep(cfg, t, Sys(Spawn(f, ready, id))) && Truthful(t, Sys(Spawn(f, ready, id)))
    ensures exists g: nat :: g != f && CanGoOn(DoStep(cfg, t, Sys(Spawn(f, ready, id))), g)
  {
    var t' := DoStep(cfg, t, Sys(Spawn(f, ready, id)));
    SpawnsExactly(cfg, t.pool, f, ready, id);
    if t.pool.q.items == [] && ready {
      var g: nat :| g != f && CanGoOn(t, g);
      StillCanGoOn(t, t', g);
    } else {
      assert CanGoOn(t', |t.pool.fibers|);
    }
  }

  /** And a fiber retires only beside another one that can go on: retiring never takes away the last
      fiber that could serve the queue. */
  lemma SomebodyElseAfterRetire(cfg: Pool, t: Tree, f: nat, ready: bool)
    requires PoolInvariant.Inv(cfg, t.pool)
    requires CanStep(cfg, t, Sys(Retire(f, ready))) && Truthful(t, Sys(Retire(f, ready)))
    requires DoStep(cfg, t, Sys(Retire(f, ready))).pool.fibers[f].pc.Exited?
    ensures exists g: nat :: g != f && CanGoOn(DoStep(cfg, t, Sys(Retire(f, ready))), g)
  {
    RetiresExactly(cfg, t.pool, f, ready, cfg.Min());
    var g: nat :| g != f && CanGoOn(t, g);
    StillCanGoOn(t, DoStep(cfg, t, Sys(Retire(f, ready))), g);
  }
}
