/** Every schedule computes the same values: a job that returns a value returns its meaning. */
module JobValues {
  import opened Options
  import opened PoolMachine
  import PoolInvariant
  import PoolSteps
  import opened JobTrees

  /** What the futures `subs` of a job are meant to carry. */
  function Vals(jobs: seq<Job>, subs: seq<nat>): seq<int> {
    seq(|subs|, i requires 0 <= i < |subs| => if subs[i] < |jobs| then Meaning(jobs[subs[i]].prog) else 0)
  }

  /** Sub-jobs are younger than their parent. */
  predicate SubsYounger(jobs: seq<Job>, w: nat)
    requires w < |jobs|
  {
    forall i | 0 <= i < |jobs[w].subs| :: w < jobs[w].subs[i] < |jobs|
  }

  /** What the job still does, added to what it has summed up, is what it was submitted for. */
  predicate OnCourse(jobs: seq<Job>, w: nat)
    requires w < |jobs|
  {
    var j := jobs[w];
    && (!j.failed ==> Denote(j.rest, Vals(jobs, j.subs), j.acc) == Meaning(j.prog))
    && (j.outcome.Value? ==> j.outcome.v == Meaning(j.prog))
    && WellFormed(j.rest, |j.subs|)
  }

  ghost predicate JobsInv(jobs: seq<Job>) {
    forall w: nat | w < |jobs| :: SubsYounger(jobs, w) && OnCourse(jobs, w)
  }

  /** The pool's book of futures and the jobs' outcomes agree. */
  ghost predicate BooksInv(pool: State, jobs: seq<Job>) {
    && |jobs| == |pool.futures|
    && (forall w: nat | w < |jobs| :: jobs[w].outcome == Pending <==> pool.futures[w].fulfilled == 0)
    && (forall w: nat | w < |jobs| && jobs[w].outcome != Pending :: jobs[w].rest.Return?)
  }

  ghost predicate TreeInv(cfg: Pool, t: Tree) {
    && PoolInvariant.Inv(cfg, t.pool)
    && BooksInv(t.pool, t.jobs)
    && JobsInv(t.jobs)
    && (forall i | 0 <= i < |t.roots| :: WellFormed(t.roots[i], 0))
  }

  /** Vals depends on the programs only. */
  lemma ValsStable(jobs: seq<Job>, jobs': seq<Job>, subs: seq<nat>)
    requires |jobs| <= |jobs'| && forall w: nat | w < |jobs| :: jobs'[w].prog == jobs[w].prog
    requires forall i | 0 <= i < |subs| :: subs[i] < |jobs|
    ensures Vals(jobs', subs) == Vals(jobs, subs)
  {
  }

  /** A job makes a step that keeps it on course; the others do not notice. */
  lemma StepKeepsJobs(jobs: seq<Job>, w: nat, j: Job)
    requires JobsInv(jobs) && w < |jobs| && j.prog == jobs[w].prog
    requires SubsYounger(jobs[w := j], w) && OnCourse(jobs[w := j], w)
    ensures JobsInv(jobs[w := j])
  {
    var jobs' := jobs[w := j];
    forall v: nat | v < |jobs'| ensures SubsYounger(jobs', v) && OnCourse(jobs', v) {
      if v != w {
        assert SubsYounger(jobs, v) && OnCourse(jobs, v);
        ValsStable(jobs, jobs', jobs[v].subs);
      }
    }
  }

  lemma NewKeepsJobs(jobs: seq<Job>, p: Program)
    requires JobsInv(jobs) && WellFormed(p, 0)
    ensures JobsInv(jobs + [NewJob(p)])
  {
    var jobs' := jobs + [NewJob(p)];
    forall v: nat | v < |jobs'| ensures SubsYounger(jobs', v) && OnCourse(jobs', v) {
      if v < |jobs| {
        assert SubsYounger(jobs, v) && OnCourse(jobs, v);
        ValsStable(jobs, jobs', jobs[v].subs);
      } else {
        assert Vals(jobs', []) == [];
      }
    }
  }

  lemma SubmitKeepsJobs(jobs: seq<Job>, w: nat)
    requires JobsInv(jobs) && w < |jobs| && jobs[w].rest.Submit? && jobs[w].outcome.Pending?
    ensures var j := jobs[w];
            JobsInv(jobs[w := j.(rest := j.rest.rest, subs := j.subs + [|jobs|])] + [NewJob(j.rest.child)])
  {
    var j := jobs[w];
    assert SubsYounger(jobs, w) && OnCourse(jobs, w);
    NewKeepsJobs(jobs, j.rest.child);
    var grown := jobs + [NewJob(j.rest.child)];
    var parent := j.(rest := j.rest.rest, subs := j.subs + [|jobs|]);
    var jobs' := grown[w := parent];
    assert jobs' == jobs[w := parent] + [NewJob(j.rest.child)];
    ValsStable(jobs, jobs', j.subs);
    assert Vals(jobs', parent.subs) == Vals(jobs, j.subs) + [Meaning(j.rest.child)];
    StepKeepsJobs(grown, w, parent);
  }

  lemma GetKeepsJobs(jobs: seq<Job>, w: nat, child: nat)
    requires JobsInv(jobs) && w < |jobs| && jobs[w].rest.Await? && jobs[w].outcome.Pending?
    requires jobs[w].rest.k < |jobs[w].subs| && child == jobs[w].subs[jobs[w].rest.k] < |jobs|
    ensures JobsInv(jobs[w := Got(jobs[w], jobs[child].outcome)])
  {
    var j := Got(jobs[w], jobs[child].outcome);
    assert SubsYounger(jobs, w) && OnCourse(jobs, w) && OnCourse(jobs, child);
    ValsStable(jobs, jobs[w := j], j.subs);
    StepKeepsJobs(jobs, w, j);
  }

  lemma LocalKeepsJobs(jobs: seq<Job>, w: nat, j: Job)
    requires JobsInv(jobs) && w < |jobs| && jobs[w].outcome.Pending?
    requires (jobs[w].rest.Yield? && j == jobs[w].(rest := jobs[w].rest.rest)) || (jobs[w].rest.Return? && j == Ended(jobs[w]))
    ensures JobsInv(jobs[w := j])
  {
    assert SubsYounger(jobs, w) && OnCourse(jobs, w);
    ValsStable(jobs, jobs[w := j], j.subs);
    StepKeepsJobs(jobs, w, j);
  }

  /** Only the end of a job fulfils a promise, and only that job's. */
  lemma PoolStepKeepsBooks(cfg: Pool, s: State, a: Action)
    requires Enabled(cfg, s, a)
    ensures var s' := Apply(cfg, s, a);
            && |s'.futures| == |s.futures| + (if a.Push? then 1 else 0)
            && (forall w: nat | w < |s.futures| ::
                  s'.futures[w].fulfilled == s.futures[w].fulfilled + (if a.Finish? && s.fibers[a.f].pc.w == w then 1 else 0))
            && (a.Push? ==> s'.futures[|s.futures|].fulfilled == 0)
  {
    if a.TryPop? {
      PopKeepsBooks(cfg, s, a.f);
    } else if a.Spawn? {
      assert forall w: nat | w < |s.futures| :: SpawnStep(s, a.f, a.ready, a.id).futures[w].fulfilled == s.futures[w].fulfilled;
    }
  }

  lemma PopKeepsBooks(cfg: Pool, s: State, f: nat)
    requires f < |s.fibers|
    ensures var s' := PopStep(cfg, s, f);
            |s'.futures| == |s.futures| && forall w: nat | w < |s.futures| :: s'.futures[w].fulfilled == s.futures[w].fulfilled
  {
  }

  /** A job that runs is not over. */
  lemma RunningIsPending(cfg: Pool, t: Tree, f: nat)
    requires TreeInv(cfg, t) && Runs(t, f)
    ensures JobOf(t, f).outcome.Pending? && t.pool.futures[t.pool.fibers[f].pc.w] == Future([f], [f], 0, 0)
  {
    assert PoolInvariant.Holding(f, t.pool.fibers[f].pc, t.pool.futures);
  }

  lemma SysKeepsTree(cfg: Pool, t: Tree, a: Action)
    requires TreeInv(cfg, t) && CanStep(cfg, t, Sys(a))
    ensures TreeInv(cfg, DoStep(cfg, t, Sys(a)))
  {
    PoolSteps.StepKeepsInv(cfg, t.pool, a);
    PoolStepKeepsBooks(cfg, t.pool, a);
    if a.Finish? {
      RunningIsPending(cfg, t, a.f);
      LocalKeepsJobs(t.jobs, t.pool.fibers[a.f].pc.w, Ended(JobOf(t, a.f)));
    }
  }

  lemma NewBooks(s: State, s': State, jobs: seq<Job>, p: Program)
    requires BooksInv(s, jobs)
    requires |s'.futures| == |s.futures| + 1 && s'.futures[|s.futures|].fulfilled == 0
    requires forall v: nat | v < |s.futures| :: s'.futures[v].fulfilled == s.futures[v].fulfilled
    ensures BooksInv(s', jobs + [NewJob(p)])
  {
  }

  lemma RootKeepsTree(cfg: Pool, t: Tree, i: nat, woken: Option<nat>)
    requires TreeInv(cfg, t) && CanStep(cfg, t, SubmitRoot(i, woken))
    ensures TreeInv(cfg, DoStep(cfg, t, SubmitRoot(i, woken)))
  {
    PoolSteps.StepKeepsInv(cfg, t.pool, Push(woken));
    PoolStepKeepsBooks(cfg, t.pool, Push(woken));
    NewBooks(t.pool, SubmitJob(t.pool, woken), t.jobs, t.roots[i]);
    NewKeepsJobs(t.jobs, t.roots[i]);
  }

  lemma GrowBooks(s: State, s': State, jobs: seq<Job>, w: nat, j: Job, p: Program)
    requires BooksInv(s, jobs) && w < |jobs| && jobs[w].outcome.Pending? && j.outcome.Pending?
    requires |s'.futures| == |s.futures| + 1 && s'.futures[|s.futures|].fulfilled == 0
    requires forall v: nat | v < |s.futures| :: s'.futures[v].fulfilled == s.futures[v].fulfilled
    ensures BooksInv(s', jobs[w := j] + [NewJob(p)])
  {
  }

  lemma ChildKeepsTree(cfg: Pool, t: Tree, f: nat, woken: Option<nat>)
    requires TreeInv(cfg, t) && CanStep(cfg, t, SubmitChild(f, woken))
    ensures TreeInv(cfg, DoStep(cfg, t, SubmitChild(f, woken)))
  {
    RunningIsPending(cfg, t, f);
    PoolSteps.StepKeepsInv(cfg, t.pool, Push(woken));
    PoolStepKeepsBooks(cfg, t.pool, Push(woken));
    var w, j := t.pool.fibers[f].pc.w, JobOf(t, f);
    SubmitKeepsJobs(t.jobs, w);
    GrowBooks(t.pool, SubmitJob(t.pool, woken), t.jobs, w, j.(rest := j.rest.rest, subs := j.subs + [|t.jobs|]), j.rest.child);
  }

  lemma LocalKeepsTree(cfg: Pool, t: Tree, st: Step)
    requires TreeInv(cfg, t) && CanStep(cfg, t, st) && (st.Resume? || st.Get?)
    ensures TreeInv(cfg, DoStep(cfg, t, st))
  {
    RunningIsPending(cfg, t, st.f);
    var w, j := t.pool.fibers[st.f].pc.w, JobOf(t, st.f);
    if st.Resume? {
      LocalKeepsJobs(t.jobs, w, j.(rest := j.rest.rest));
    } else {
      GetKeepsJobs(t.jobs, w, j.subs[j.rest.k]);
    }
  }

  lemma StepKeepsTree(cfg: Pool, t: Tree, st: Step)
    requires TreeInv(cfg, t) && CanStep(cfg, t, st)
    ensures TreeInv(cfg, DoStep(cfg, t, st))
  {
    match st
    case Sys(a) => SysKeepsTree(cfg, t, a);
    case SubmitRoot(i, woken) => RootKeepsTree(cfg, t, i, woken);
    case SubmitChild(f, woken) => ChildKeepsTree(cfg, t, f, woken);
    case _ => LocalKeepsTree(cfg, t, st);
  }

  lemma BeginTree(cfg: Pool, roots: seq<Program>)
    requires forall i | 0 <= i < |roots| :: WellFormed(roots[i], 0)
    ensures TreeInv(cfg, Begin(roots))
  {
    PoolInvariant.InitialInv(cfg);
  }

  lemma {:induction false} RunKeepsTree(cfg: Pool, t: Tree, run: seq<Step>)
    requires TreeInv(cfg, t) && CanRun(cfg, t, run)
    ensures TreeInv(cfg, DoRun(cfg, t, run))
    decreases |run|
  {
    if run != [] {
      StepKeepsTree(cfg, t, run[0]);
      RunKeepsTree(cfg, DoStep(cfg, t, run[0]), run[1..]);
    }
  }

  /** Whatever the schedule, the number of fibers, and however far the run has come: a job that
      returned a value returned what its program means, sub-jobs evaluated one after the other. */
  lemma EveryScheduleSameValue(cfg: Pool, roots: seq<Program>, run: seq<Step>, w: nat)
    requires forall i | 0 <= i < |roots| :: WellFormed(roots[i], 0)
    requires CanRun(cfg, Begin(roots), run)
    requires w < |DoRun(cfg, Begin(roots), run).jobs|
    ensures var j := DoRun(cfg, Begin(roots), run).jobs[w];
            j.outcome.Value? ==> j.outcome.v == Meaning(j.prog)
  {
    BeginTree(cfg, roots);
    RunKeepsTree(cfg, Begin(roots), run);
    assert OnCourse(DoRun(cfg, Begin(roots), run).jobs, w);
  }

  // ---------------------------------------------------------------- exceptions

  /** A future that is broken, or whose job has thrown, makes `get` throw, and that leaves the job: the
      fiber can do nothing in it any more but end it, and then the job has thrown too. */
  lemma ExceptionEndsTheJob(cfg: Pool, t: Tree, f: nat, st: Step)
    requires CanStep(cfg, t, Get(f))
    requires !t.jobs[JobOf(t, f).subs[JobOf(t, f).rest.k]].outcome.Value?
    requires st.SubmitChild? || st.Resume? || st.Get?
    ensures var t' := DoStep(cfg, t, Get(f));
            && (st.f == f ==> !CanStep(cfg, t', st))
            && CanStep(cfg, t', Sys(Finish(f)))
            && DoStep(cfg, t', Sys(Finish(f))).jobs[t.pool.fibers[f].pc.w].outcome.Raised?
  {
  }

  /** The job has thrown, or its promise is broken. */
  ghost predicate Spoilt(t: Tree, w: nat) {
    && w < |t.jobs| && w < |t.pool.futures|
    && (t.jobs[w].outcome.Raised? || t.pool.futures[w].broken > 0)
  }

  ghost predicate SomeSpoilt(t: Tree, subs: seq<nat>) {
    exists i | 0 <= i < |subs| :: Spoilt(t, subs[i])
  }

  /** A job fails, and throws in the end, only because of one of its sub-jobs. */
  ghost predicate HasCause(t: Tree, w: nat)
    requires w < |t.jobs|
  {
    && (t.jobs[w].outcome.Raised? ==> t.jobs[w].failed)
    && (t.jobs[w].outcome.Value? ==> !t.jobs[w].failed)
    && (t.jobs[w].failed ==> SomeSpoilt(t, t.jobs[w].subs))
  }

  /** Nothing is mended: no promise, and no job that has thrown. */
  ghost predicate NothingMended(t: Tree, t': Tree) {
    && |t.jobs| <= |t'.jobs| && |t.pool.futures| <= |t'.pool.futures|
    && (forall w: nat | w < |t.jobs| && t.jobs[w].outcome.Raised? :: t'.jobs[w].outcome.Raised?)
    && (forall w: nat | w < |t.pool.futures| :: t'.pool.futures[w].broken >= t.pool.futures[w].broken)
  }

  lemma StillSpoilt(t: Tree, t': Tree, subs: seq<nat>, subs': seq<nat>)
    requires NothingMended(t, t') && SomeSpoilt(t, subs) && subs <= subs'
    ensures SomeSpoilt(t', subs')
  {
    var i :| 0 <= i < |subs| && Spoilt(t, subs[i]);
    assert Spoilt(t', subs'[i]);
  }

  lemma PoolMendsNothing(cfg: Pool, s: State, a: Action)
    requires Enabled(cfg, s, a)
    ensures var s' := Apply(cfg, s, a);
            && |s.futures| <= |s'.futures|
            && forall w: nat | w < |s.futures| :: s'.futures[w].broken >= s.futures[w].broken
  {
    if a.TryPop? {
      PopMendsNothing(cfg, s, a.f);
    } else if a.Spawn? {
      assert SpawnStep(s, a.f, a.ready, a.id).futures == AddRunner(s.futures, s.fibers[a.f].pc.w, a.f);
    }
  }

  lemma PopMendsNothing(cfg: Pool, s: State, f: nat)
    requires f < |s.fibers|
    ensures var s' := PopStep(cfg, s, f);
            |s'.futures| == |s.futures| && forall w: nat | w < |s.futures| :: s'.futures[w].broken == s.futures[w].broken
  {
  }

  /** Of the jobs there were only the one at hand changes, and it keeps its sub-jobs. */
  ghost predicate OneJobChanges(t: Tree, t': Tree, w: nat) {
    && NothingMended(t, t')
    && (forall v: nat | v < |t.jobs| && v != w :: t'.jobs[v] == t.jobs[v])
    && (forall v: nat | |t.jobs| <= v < |t'.jobs| :: !t'.jobs[v].failed && t'.jobs[v].outcome.Pending?)
    && (w < |t.jobs| ==> FailsForACause(t, t.jobs[w], t'.jobs[w]))
  }

  ghost predicate FailsForACause(t: Tree, j: Job, j': Job) {
    && j.subs <= j'.subs
    && (j.failed ==> j'.failed)
    && (j'.failed && !j.failed ==> SomeSpoilt(t, j.subs))
    && (j'.outcome.Raised? ==> j'.failed) && (j'.outcome.Value? ==> !j'.failed)
  }

  lemma SysChanges(cfg: Pool, t: Tree, a: Action) returns (w: nat)
    requires TreeInv(cfg, t) && CanStep(cfg, t, Sys(a))
    ensures OneJobChanges(t, DoStep(cfg, t, Sys(a)), w)
  {
    PoolMendsNothing(cfg, t.pool, a);
    w := |t.jobs|;
    if a.Finish? {
      RunningIsPending(cfg, t, a.f);
      w := t.pool.fibers[a.f].pc.w;
    }
  }

  lemma SubmitChanges(cfg: Pool, t: Tree, st: Step) returns (w: nat)
    requires TreeInv(cfg, t) && CanStep(cfg, t, st) && (st.SubmitRoot? || st.SubmitChild?)
    ensures OneJobChanges(t, DoStep(cfg, t, st), w)
  {
    PoolMendsNothing(cfg, t.pool, Push(st.woken));
    w := |t.jobs|;
    if st.SubmitChild? {
      RunningIsPending(cfg, t, st.f);
      w := t.pool.fibers[st.f].pc.w;
    }
  }

  lemma LocalChanges(cfg: Pool, t: Tree, st: Step)
    requires TreeInv(cfg, t) && CanStep(cfg, t, st) && (st.Resume? || st.Get?)
    ensures OneJobChanges(t, DoStep(cfg, t, st), t.pool.fibers[st.f].pc.w)
  {
    RunningIsPending(cfg, t, st.f);
    if st.Get? {
      var j := JobOf(t, st.f);
      assert !t.jobs[j.subs[j.rest.k]].outcome.Value? ==> Spoilt(t, j.subs[j.rest.k]);
    }
  }

  ghost predicate AllCaused(t: Tree) {
    forall w: nat | w < |t.jobs| :: HasCause(t, w)
  }

  lemma ChangeKeepsCause(t: Tree, t': Tree, w: nat)
    requires AllCaused(t) && OneJobChanges(t, t', w)
    ensures AllCaused(t')
  {
    forall v: nat | v < |t'.jobs| ensures HasCause(t', v) {
      if v < |t.jobs| {
        assert HasCause(t, v);
        if t'.jobs[v].failed {
          StillSpoilt(t, t', t.jobs[v].subs, t'.jobs[v].subs);
        }
      }
    }
  }

  lemma StepKeepsCause(cfg: Pool, t: Tree, st: Step)
    requires TreeInv(cfg, t) && CanStep(cfg, t, st) && AllCaused(t)
    ensures AllCaused(DoStep(cfg, t, st))
  {
    var w: nat;
    match st {
      case Sys(a) => w := SysChanges(cfg, t, a);
      case SubmitRoot(_, _) => w := SubmitChanges(cfg, t, st);
      case SubmitChild(_, _) => w := SubmitChanges(cfg, t, st);
      case _ =>
        LocalChanges(cfg, t, st);
        w := t.pool.fibers[st.f].pc.w;
    }
    ChangeKeepsCause(t, DoStep(cfg, t, st), w);
  }

  lemma {:induction false} RunKeepsCause(cfg: Pool, t: Tree, run: seq<Step>)
    requires TreeInv(cfg, t) && CanRun(cfg, t, run) && AllCaused(t)
    ensures AllCaused(DoRun(cfg, t, run))
    decreases |run|
  {
    if run != [] {
      StepKeepsTree(cfg, t, run[0]);
      StepKeepsCause(cfg, t, run[0]);
      RunKeepsCause(cfg, DoStep(cfg, t, run[0]), run[1..]);
    }
  }

  /** Over every run: a job throws only if one of its sub-jobs has thrown or was never executed. */
  lemma ExceptionsHaveACause(cfg: Pool, roots: seq<Program>, run: seq<Step>, w: nat)
    requires forall i | 0 <= i < |roots| :: WellFormed(roots[i], 0)
    requires CanRun(cfg, Begin(roots), run)
    requires var t := DoRun(cfg, Begin(roots), run); w < |t.jobs| && t.jobs[w].outcome.Raised?
    ensures var t := DoRun(cfg, Begin(roots), run);
            exists i | 0 <= i < |t.jobs[w].subs| :: Spoilt(t, t.jobs[w].subs[i])
  {
    BeginTree(cfg, roots);
    RunKeepsCause(cfg, Begin(roots), run);
    assert HasCause(DoRun(cfg, Begin(roots), run), w);
  }
}
