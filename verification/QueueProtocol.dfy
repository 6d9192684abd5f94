/** The work queue as its clients see it: an open/closed flag, the works in push order,
    and the two stages a fiber passes while it is asleep inside `pop`.

    A fiber in `waiting` sleeps on `not_empty_cond_`.  A fiber in `notified` has been
    woken (by a push, by close, or spuriously) and has not yet re-acquired the mutex.
    Every function below is one critical section of the queue's mutex. */
module QueueProtocol {
  import opened Options

  datatype Queue = Queue(open: bool, items: seq<nat>, waiting: set<nat>, notified: set<nat>)

  datatype PopResult = Blocked | Closed | Got(item: nat)

  const EMPTY: Queue := Queue(true, [], {}, {})

  /** `notify_one` wakes some sleeper if there is one; which one is the library's choice. */
  predicate CanWake(q: Queue, woken: Option<nat>) {
    match woken
    case None => q.waiting == {}
    case Some(f) => f in q.waiting
  }

  /** One sleeper leaves the wait set; it still has to re-acquire the mutex. */
  function WakeUp(q: Queue, f: nat): Queue {
    q.(waiting := q.waiting - {f}, notified := q.notified + {f})
  }

  function NotifyOne(q: Queue, woken: Option<nat>): Queue {
    match woken
    case None => q
    case Some(f) => WakeUp(q, f)
  }

  /** `push`: a closed queue refuses the work and stays as it is. */
  function Push(q: Queue, w: nat, woken: Option<nat>): Queue {
    if q.open then NotifyOne(q.(items := q.items + [w]), woken) else q
  }

  function Close(q: Queue): Queue {
    q.(open := false, waiting := {}, notified := q.notified + q.waiting)
  }

  /** One pass through the test of `pop` (and of `value_pop`) by fiber `f`, taken when `f`
      enters and again each time it wakes: sleep, give up, or take the head. */
  function Pop(q: Queue, f: nat): (Queue, PopResult) {
    var awake := q.(notified := q.notified - {f});
    if q.items != [] then (awake.(items := q.items[1..]), Got(q.items[0]))
    else if q.open then (awake.(waiting := q.waiting + {f}), Blocked)
    else (awake, Closed)
  }

  /** `try_pop` never sleeps: `Blocked` stands for the status `empty`. */
  function TryPop(q: Queue): (Queue, PopResult) {
    if q.items != [] then (q.(items := q.items[1..]), Got(q.items[0]))
    else (q, if q.open then Blocked else Closed)
  }

  datatype Op =
    | DoPush(work: nat, woken: Option<nat>)
    | DoPop(fiber: nat)
    | DoTryPop
    | DoClose
    | DoWakeSpuriously(fiber: nat)

  predicate Enabled(q: Queue, op: Op) {
    match op
    case DoPush(_, woken) => q.open ==> CanWake(q, woken)
    case DoPop(f) => f !in q.waiting
    case DoTryPop => true
    case DoClose => true
    case DoWakeSpuriously(f) => f in q.waiting
  }

  function Apply(q: Queue, op: Op): Queue {
    match op
    case DoPush(w, woken) => Push(q, w, woken)
    case DoPop(f) => Pop(q, f).0
    case DoTryPop => TryPop(q).0
    case DoClose => Close(q)
    case DoWakeSpuriously(f) => WakeUp(q, f)
  }

  /** The works an operation accepts, and the works it hands out. */
  function AcceptedBy(q: Queue, op: Op): seq<nat> {
    if op.DoPush? && q.open then [op.work] else []
  }

  function PoppedBy(q: Queue, op: Op): seq<nat> {
    var r := if op.DoPop? then Pop(q, op.fiber).1 else if op.DoTryPop? then TryPop(q).1 else Blocked;
    if r.Got? then [r.item] else []
  }

  predicate Legal(q: Queue, ops: seq<Op>)
    decreases |ops|
  {
    ops == [] || (Enabled(q, ops[0]) && Legal(Apply(q, ops[0]), ops[1..]))
  }

  function Run(q: Queue, ops: seq<Op>): Queue
    decreases |ops|
  {
    if ops == [] then q else Run(Apply(q, ops[0]), ops[1..])
  }

  function Accepted(q: Queue, ops: seq<Op>): seq<nat>
    decreases |ops|
  {
    if ops == [] then [] else AcceptedBy(q, ops[0]) + Accepted(Apply(q, ops[0]), ops[1..])
  }

  function Popped(q: Queue, ops: seq<Op>): seq<nat>
    decreases |ops|
  {
    if ops == [] then [] else PoppedBy(q, ops[0]) + Popped(Apply(q, ops[0]), ops[1..])
  }

  /** Whoever sleeps, sleeps beside an open queue none of whose works lacks a woken fiber. */
  ghost predicate NoLostWakeUp(q: Queue) {
    && q.waiting !! q.notified
    && (q.waiting != {} ==> q.open && |q.items| <= |q.notified|)
  }

  lemma StepKeepsNoLostWakeUp(q: Queue, op: Op)
    requires NoLostWakeUp(q) && Enabled(q, op)
    ensures NoLostWakeUp(Apply(q, op))
  {
    match op
    case DoPush(w, woken) =>
      if q.open && woken.Some? {
        assert |q.notified + {woken.value}| == |q.notified| + 1;
      }
    case DoPop(f) =>
      if f in q.notified {
        assert |q.notified - {f}| == |q.notified| - 1;
      } else {
        assert q.notified - {f} == q.notified;
      }
    case DoTryPop =>
    case DoClose =>
    case DoWakeSpuriously(f) =>
      assert |q.notified + {f}| == |q.notified| + 1;
  }

  lemma {:induction false} RunKeepsNoLostWakeUp(q: Queue, ops: seq<Op>)
    requires NoLostWakeUp(q) && Legal(q, ops)
    ensures NoLostWakeUp(Run(q, ops))
    decreases |ops|
  {
    if ops != [] {
      StepKeepsNoLostWakeUp(q, ops[0]);
      RunKeepsNoLostWakeUp(Apply(q, ops[0]), ops[1..]);
    }
  }

  /** Over every interleaving of push, pop, value_pop, try_pop, close and spurious wake-ups:
      if every fiber inside `pop` is asleep then the queue is open and empty. */
  lemma NobodySleepsBesideWork(ops: seq<Op>)
    requires Legal(EMPTY, ops)
    ensures var q := Run(EMPTY, ops);
            q.waiting != {} ==> q.open && |q.items| <= |q.notified|
    ensures var q := Run(EMPTY, ops);
            q.waiting != {} && q.notified == {} ==> q.open && q.items == []
  {
    RunKeepsNoLostWakeUp(EMPTY, ops);
  }

  lemma StepIsFifo(q: Queue, op: Op)
    ensures q.items + AcceptedBy(q, op) == PoppedBy(q, op) + Apply(q, op).items
  {
  }

  /** First in, first out over every interleaving: what was queued before and accepted during
      the run is what the run popped followed by what is still queued. */
  lemma {:induction false} FirstInFirstOut(q: Queue, ops: seq<Op>)
    requires Legal(q, ops)
    ensures q.items + Accepted(q, ops) == Popped(q, ops) + Run(q, ops).items
    decreases |ops|
  {
    if ops != [] {
      var q', rest := Apply(q, ops[0]), ops[1..];
      StepIsFifo(q, ops[0]);
      FirstInFirstOut(q', rest);
      Splice(q.items, AcceptedBy(q, ops[0]), Accepted(q', rest), PoppedBy(q, ops[0]), q'.items, Popped(q', rest), Run(q', rest).items);
    }
  }

  lemma Splice(a: seq<nat>, b: seq<nat>, c: seq<nat>, d: seq<nat>, e: seq<nat>, g: seq<nat>, h: seq<nat>)
    requires a + b == d + e && e + c == g + h
    ensures a + (b + c) == (d + g) + h
  {
    assert a + (b + c) == (a + b) + c == d + (e + c) == (d + g) + h;
  }

  /** A closed queue stays closed and takes nothing more in. */
  lemma {:induction false} ClosedForGood(q: Queue, ops: seq<Op>)
    requires !q.open && Legal(q, ops)
    ensures !Run(q, ops).open && Accepted(q, ops) == []
    decreases |ops|
  {
    if ops != [] {
      ClosedForGood(Apply(q, ops[0]), ops[1..]);
    }
  }

  /** What the two pops answer: the front of a queue that has one, even if it is closed; from an empty
      one `closed` exactly if it is closed.  Only `pop` goes to sleep. */
  lemma AnswersExactly(q: Queue, f: nat)
    ensures Pop(q, f).1 == TryPop(q).1 && Pop(q, f).0.items == TryPop(q).0.items
    ensures q.items != [] ==> Pop(q, f).1 == Got(q.items[0]) && Pop(q, f).0.items == q.items[1..]
    ensures q.items == [] ==> Pop(q, f).1 == if q.open then Blocked else Closed
    ensures TryPop(q).0.waiting == q.waiting && TryPop(q).0.notified == q.notified && TryPop(q).0.open == q.open
    ensures Pop(q, f).0.waiting == if q.open && q.items == [] then q.waiting + {f} else q.waiting
  {
  }

  function PopsIn(ops: seq<Op>): nat {
    if ops == [] then 0 else (if ops[0].DoPop? || ops[0].DoTryPop? then 1 else 0) + PopsIn(ops[1..])
  }

  /** A closed queue is drained: whatever else is tried, each pop takes the next of the works that were
      left, in order, until none is left, and every further one is told that the queue is closed. */
  lemma {:induction false} ClosedDrains(q: Queue, ops: seq<Op>, f: nat)
    requires !q.open && Legal(q, ops)
    ensures Run(q, ops).items == if PopsIn(ops) <= |q.items| then q.items[PopsIn(ops)..] else []
    ensures Popped(q, ops) == if PopsIn(ops) <= |q.items| then q.items[..PopsIn(ops)] else q.items
    ensures PopsIn(ops) >= |q.items| ==> Pop(Run(q, ops), f).1 == Closed && TryPop(Run(q, ops)).1 == Closed
    decreases |ops|
  {
    if ops != [] {
      ClosedDrains(Apply(q, ops[0]), ops[1..], f);
    }
  }

  lemma {:induction false} OneMore(q: Queue, ops: seq<Op>, op: Op)
    requires Legal(q, ops) && Enabled(Run(q, ops), op)
    ensures Legal(q, ops + [op]) && Run(q, ops + [op]) == Apply(Run(q, ops), op)
    decreases |ops|
  {
    if ops == [] {
      assert ops + [op] == [op] && [op][1..] == [];
    } else {
      assert (ops + [op])[1..] == ops[1..] + [op];
      OneMore(Apply(q, ops[0]), ops[1..], op);
    }
  }

  /** Somebody to wake, if anybody sleeps. */
  lemma SomeWaker(q: Queue) returns (woken: Option<nat>)
    ensures CanWake(q, woken)
  {
    if f :| f in q.waiting {
      woken := Some(f);
    } else {
      woken := None;
    }
  }
}
