/** Ending a worker: `rendezvous`, and `worker_thread::shutdown` against the master fiber.

    Whether and when the pool's `operator()` returns, once its master is past the rendezvous, is not
    decided here: `Finish` only says that the thread ends when it does. */
module Handshake {

  /** Where the worker thread's master fiber is. */
  datatype Master =
    | Before   // has not reached wait()
    | Asleep   // inside wait(), on the condition variable
    | Woken    // inside wait(), woken, about to test the flag
    | Past     // wait() has returned: closing the queue and joining the fibers
    | Done     // the thread function is over

  /** Where the owner of the worker is. */
  datatype Owner = Idle | AtNotify | AtJoin

  /** The owner calls `shutdown` as often as it likes, one call after the other. */
  datatype State = State(flag: bool, master: Master, owner: Owner, joinable: bool, notifies: nat, joins: nat)

  const START: State := State(false, Before, Idle, true, 0, 0)

  datatype Action =
    | Call          // shutdown() tests joinable()
    | Notify        // rdzv_.notify()
    | Join          // thrd_.join() returns
    | Wait          // the master enters wait(), or tests the flag after a wake-up
    | Spurious      // the master wakes for no reason
    | Finish        // the pool's operator() returns

  predicate Enabled(s: State, a: Action) {
    match a
    case Call => s.owner.Idle?
    case Notify => s.owner.AtNotify?
    case Join => s.owner.AtJoin? && s.master.Done?
    case Wait => s.master.Before? || s.master.Woken?
    case Spurious => s.master.Asleep?
    case Finish => s.master.Past?
  }

  function Apply(s: State, a: Action): State
    requires Enabled(s, a)
  {
    match a
    case Call => if s.joinable then s.(owner := AtNotify) else s
    case Notify =>
      s.(flag := true, master := if s.master.Asleep? then Woken else s.master, owner := AtJoin, notifies := s.notifies + 1)
    case Join => s.(owner := Idle, joinable := false, joins := s.joins + 1)
    case Wait => if s.flag then s.(flag := false, master := Past) else s.(master := Asleep)
    case Spurious => s.(master := Woken)
    case Finish => s.(master := Done)
  }

  /** The rendezvous object.  `sleeping` and `woken` say whether the master fiber is asleep on the
      condition variable, or woken and about to test the flag again. */
  class Rendezvous {
    var flag: bool
    var sleeping: bool
    var woken: bool

    ghost predicate Matches(s: State)
      reads this
    {
      flag == s.flag && sleeping == s.master.Asleep? && woken == s.master.Woken?
    }

    constructor ()
      ensures Matches(START)
    {
      flag, sleeping, woken := false, false, false;
    }

    method Notify(ghost s: State)
      requires Matches(s) && Enabled(s, Action.Notify)
      modifies this
      ensures Matches(Apply(s, Action.Notify))
    {
      flag := true;
      woken := woken || sleeping;
      sleeping := false;
    }

    /** One test of the predicate inside `wait`; on success the flag is taken back. */
    method WaitPass(ghost s: State) returns (passed: bool)
      requires Matches(s) && Enabled(s, Wait)
      modifies this
      ensures Matches(Apply(s, Wait)) && passed == Apply(s, Wait).master.Past?
    {
      passed := flag;
      flag, woken, sleeping := false, false, !passed;
    }
  }

  predicate Legal(s: State, run: seq<Action>)
    decreases |run|
  {
    run == [] || (Enabled(s, run[0]) && Legal(Apply(s, run[0]), run[1..]))
  }

  function After(s: State, run: seq<Action>): State
    requires Legal(s, run)
    decreases |run|
  {
    if run == [] then s else After(Apply(s, run[0]), run[1..])
  }

  /** A notification is either still in the flag, with the master not asleep, or has been taken. */
  predicate Inv(s: State) {
    && (s.flag <==> s.notifies == 1 && !s.master.Past? && !s.master.Done?)
    && (s.flag ==> !s.master.Asleep?)
    && (s.master.Past? || s.master.Done? ==> s.notifies == 1)
    && s.notifies == (if s.owner.AtJoin? || !s.joinable then 1 else 0)
    && s.joins == (if s.joinable then 0 else 1)
    && (!s.joinable ==> s.master.Done? && s.owner.Idle?)
  }

  lemma {:induction false} RunKeepsInv(s: State, run: seq<Action>)
    requires Inv(s) && Legal(s, run)
    ensures Inv(After(s, run))
    decreases |run|
  {
    if run != [] {
      RunKeepsInv(Apply(s, run[0]), run[1..]);
    }
  }

  /** Under every interleaving, whether `notify` comes before or after the master reaches `wait`:
      the worker is notified and joined at most once, the pool is not left before it is notified,
      a further `shutdown` after the join changes nothing, and an owner that has notified is never
      left waiting for a master that sleeps. */
  lemma NotificationIsNeverLost(run: seq<Action>)
    requires Legal(START, run)
    ensures var s := After(START, run);
            && s.joins <= s.notifies <= 1
            && (s.master.Past? || s.master.Done? ==> s.notifies == 1)
            && (s.owner.AtJoin? ==> !s.master.Asleep?)
            && (s.joins == 1 ==> Enabled(s, Call) && Apply(s, Call) == s)
  {
    RunKeepsInv(START, run);
  }

  /** Once the owner has notified, the rendezvous does not hold anybody up: a master that has not
      passed it yet is awake and passes with its very next step, and `join` returns exactly when the
      pool has returned. */
  lemma OnlyThePoolDelaysTheJoin(run: seq<Action>)
    requires Legal(START, run) && After(START, run).owner.AtJoin?
    ensures var s := After(START, run);
            && (s.master.Past? || s.master.Done? || (Enabled(s, Wait) && Apply(s, Wait).master.Past?))
            && (Enabled(s, Join) <==> s.master.Done?)
            && (s.master.Done? ==> Apply(s, Join).joins == 1)
  {
    RunKeepsInv(START, run);
  }
}
