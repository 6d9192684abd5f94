/** The work queue on the heap: intrusively counted works in a singly linked list, with a tail that
    points to the link the next work goes into.

    Incrementing or decrementing a count is one atomic step in this model, although the counter is
    a plain integer; the queue's own methods run under its mutex.  Works are identified by a
    number; `locals` counts the handles on a work that live in neither `head_` nor a `nxt`. */
module WorkQueue {
  import opened Options
  import Q = QueueProtocol

  class Work {
    const id: nat
    var useCount: nat
    var nxt: Work?
    var deallocations: nat
    ghost var locals: nat

    constructor (id: nat)
      ensures this.id == id && useCount == 0 && nxt == null && deallocations == 0 && locals == 0
    {
      this.id := id;
      useCount, nxt, deallocations, locals := 0, null, 0, 0;
    }
  }

  /** Where the tail points: the queue's `head_`, or the `nxt` of a work. */
  datatype Link = HeadLink | NxtOf(w: Work)

  ghost predicate Distinct(c: seq<Work>) {
    forall i, j | 0 <= i < j < |c| :: c[i] != c[j]
  }

  /** Following the links from the handle `w` visits the works `c`, each once, and ends. */
  ghost predicate Links(w: Work?, c: seq<Work>)
    reads c`nxt
  {
    && w == (if c == [] then null else c[0])
    && (forall i | 0 < i < |c| :: c[i - 1].nxt == c[i])
    && (c != [] ==> c[|c| - 1].nxt == null)
    && Distinct(c)
  }

  /** Exact counts: one link of the list and the local handles. */
  ghost predicate Exact(c: seq<Work>)
    reads c`useCount, c`locals, c`deallocations
  {
    forall x | x in c :: x.useCount == 1 + x.locals && x.deallocations == 0
  }

  /** What follows the front of a list is a list without the front. */
  lemma LinksTail(w: Work?, c: seq<Work>)
    requires Links(w, c) && w != null
    ensures c[0] !in c[1..] && Links(w.nxt, c[1..])
  {
    var rest := c[1..];
    assert forall i | 0 <= i < |rest| :: rest[i] == c[i + 1];
    assert Distinct(rest);
  }

  /** A handle is given up: the one in `head_`, or the one in the link before position `i` of the
      list `c`.  The last handle on a work deallocates it, and with it the handle in its `nxt`: the
      works from `i` that nobody else holds go, each exactly once, up to the first work, at
      position `k`, that somebody does hold, which loses one handle. */
  method Release(w: Work?, ghost c: seq<Work>, ghost i: nat) returns (ghost k: nat)
    requires i <= |c| && w == (if i < |c| then c[i] else null)
    requires Distinct(c) && (c != [] ==> c[|c| - 1].nxt == null)
    requires forall j | i < j < |c| :: c[j - 1].nxt == c[j]
    requires forall j | i <= j < |c| :: c[j].useCount >= 1 && c[j].deallocations == 0
    modifies c`useCount, c`deallocations, c`nxt
    ensures i <= k <= |c|
    ensures forall j | i <= j < k :: old(c[j].useCount) == 1
    ensures forall j | i <= j < k :: c[j].deallocations == 1 && c[j].useCount == 0 && c[j].nxt == null
    ensures k < |c| ==> c[k].useCount == old(c[k].useCount) - 1 >= 1
    ensures forall j | 0 <= j < i || k < j < |c| :: c[j].useCount == old(c[j].useCount)
    ensures forall j | 0 <= j < i || k <= j < |c| :: c[j].deallocations == old(c[j].deallocations) && c[j].nxt == old(c[j].nxt)
    decreases |c| - i
  {
    k := i;
    if w != null {
      w.useCount := w.useCount - 1;
      if w.useCount == 0 {
        var n := w.nxt;
        w.nxt := null;
        w.deallocations := w.deallocations + 1;
        k := Release(n, c, i + 1);
      }
    }
  }

  /** A local handle on a work without successor goes out of scope.  If it was the last handle the
      work is deallocated; its `nxt` is null and releases nothing. */
  method DropLocal(w: Work)
    requires w.nxt == null && w.deallocations == 0 && w.useCount >= 1 && w.locals >= 1
    modifies w`useCount, w`locals, w`deallocations
    ensures w.useCount == old(w.useCount) - 1 && w.locals == old(w.locals) - 1
    ensures w.deallocations == if w.useCount == 0 then 1 else 0
  {
    w.locals := w.locals - 1;
    w.useCount := w.useCount - 1;
    if w.useCount == 0 {
      w.deallocations := w.deallocations + 1;
    }
  }

  ghost function Ids(c: seq<Work>): seq<nat> {
    seq(|c|, i requires 0 <= i < |c| => c[i].id)
  }

  class Queue {
    var open: bool
    var head: Work?
    var tail: Link
    var waiting: set<nat>
    var notified: set<nat>
    ghost var nodes: seq<Work>

    /** The list is acyclic and complete, the tail is on its one null link (`head_` exactly when the
        list is empty), and the count of every queued work is exact. */
    ghost predicate Valid()
      reads this, nodes
    {
      && Links(head, nodes)
      && Exact(nodes)
      && tail == (if nodes == [] then HeadLink else NxtOf(nodes[|nodes| - 1]))
    }

    ghost function View(): Q.Queue
      reads this
    {
      Q.Queue(open, Ids(nodes), waiting, notified)
    }

    constructor ()
      ensures Valid() && View() == Q.EMPTY && nodes == []
    {
      open, head, tail, waiting, notified, nodes := true, null, HeadLink, {}, {}, [];
    }

    /** Appends a work that is in no list; the new link is one more handle on it. */
    method PushTail(w: Work)
      requires Valid() && w !in nodes
      requires w.nxt == null && w.deallocations == 0 && w.useCount == w.locals
      modifies this`head, this`tail, this`nodes, nodes`nxt, w`useCount
      ensures Valid() && nodes == old(nodes) + [w]
      ensures w.useCount == old(w.useCount) + 1
    {
      match tail {
        case HeadLink => head := w;
        case NxtOf(last) => last.nxt := w;
      }
      w.useCount := w.useCount + 1;
      tail := NxtOf(w);
      nodes := nodes + [w];
    }

    /** Removes the front and hands its list handle to the caller; nothing is deallocated. */
    method PopHead() returns (w: Work)
      requires Valid() && nodes != []
      modifies this`head, this`tail, this`nodes, nodes`nxt, nodes`useCount, nodes`locals
      ensures Valid() && w == old(nodes[0]) && nodes == old(nodes[1..])
      ensures w.nxt == null && w.deallocations == 0
      ensures w.locals == old(w.locals) + 1 && w.useCount == w.locals
      ensures forall x | x in nodes :: x.locals == old(x.locals)
    {
      w := head;
      LinksTail(w, nodes);
      ghost var rest := nodes[1..];
      assert forall x | x in rest :: x in nodes;
      assert w.nxt != null ==> w.nxt in rest && w.nxt == nodes[1];
      Unlink(w, w.nxt);
      forall x | x in rest
        ensures x.useCount == old(x.useCount) && x.locals == old(x.locals) && x.nxt == old(x.nxt)
      {
        assert x != w;
      }
      nodes := rest;
      assert Links(head, nodes) && Exact(nodes);
    }

    /** The handle assignments of `pop_head_`, on the front and the work behind it, if there is one. */
    method Unlink(w: Work, next: Work?)
      requires w == head && next == w.nxt && w != next && w.useCount >= 1
      modifies this`head, this`tail, w`nxt, w`useCount, w`locals
      modifies (if next == null then {} else {next})`useCount
      ensures head == next && w.nxt == null
      ensures tail == if next == null then HeadLink else old(tail)
      ensures w.locals == old(w.locals) + 1 && w.useCount == old(w.useCount)
      ensures next != null ==> next.useCount == old(next.useCount)
    {
      // old_head is one more handle on the front
      w.useCount, w.locals := w.useCount + 1, w.locals + 1;
      // head_ = old_head->nxt: one more handle on the new front, one less on the old
      if next != null {
        next.useCount := next.useCount + 1;
      }
      head := next;
      w.useCount := w.useCount - 1;
      if head == null {
        tail := HeadLink;
      }
      // old_head->nxt.reset(): the new front keeps the handle in head_
      w.nxt := null;
      if next != null {
        next.useCount := next.useCount - 1;
      }
    }

    /** `push`: a closed queue refuses the work; otherwise one sleeper is notified, if there is one. */
    method Push(w: Work) returns (accepted: bool, woken: Option<nat>)
      requires Valid() && w !in nodes
      requires w.nxt == null && w.deallocations == 0 && w.useCount == w.locals
      modifies this, nodes`nxt, w`useCount
      ensures Valid() && accepted == old(open)
      ensures accepted ==> Q.CanWake(old(View()), woken) && nodes == old(nodes) + [w]
      ensures !accepted ==> nodes == old(nodes) && w.useCount == old(w.useCount)
      ensures View() == Q.Push(old(View()), w.id, woken)
    {
      accepted, woken := open, None;
      if open {
        assert Ids(nodes + [w]) == Ids(nodes) + [w.id];
        PushTail(w);
        if f :| f in waiting {
          woken := Some(f);
          waiting, notified := waiting - {f}, notified + {f};
        } else {
          assert waiting == {};
        }
      }
    }

    method Close()
      requires Valid()
      modifies this`open, this`waiting, this`notified
      ensures Valid() && View() == Q.Close(old(View()))
    {
      open := false;
      waiting, notified := {}, notified + waiting;
    }

    method Closed() returns (closed: bool)
      ensures closed == !View().open
    {
      closed := !open;
    }

    method Empty() returns (empty: bool)
      requires Valid()
      ensures empty == (View().items == [])
    {
      empty := head == null;
    }

    /** The library wakes a sleeper without being asked to. */
    method WakeUp(f: nat)
      requires Valid() && f in waiting
      modifies this`waiting, this`notified
      ensures Valid() && View() == Q.WakeUp(old(View()), f)
    {
      waiting, notified := waiting - {f}, notified + {f};
    }

    /** One pass of `pop` (or `value_pop`) by fiber `f` through its test, on entry or after a
        wake-up. */
    method Pop(f: nat) returns (r: Q.PopResult, w: Work?)
      requires Valid()
      modifies this, nodes`nxt, nodes`useCount, nodes`locals
      ensures Valid() && (View(), r) == Q.Pop(old(View()), f)
      ensures r.Got? <==> w != null
      ensures w != null ==> old(nodes) != [] && w == old(nodes[0]) && nodes == old(nodes[1..])
      ensures w != null ==> w.nxt == null && w.deallocations == 0 && w.locals == old(w.locals) + 1 && w.useCount == w.locals
      ensures w == null ==> nodes == old(nodes)
      ensures forall x | x in nodes :: x.locals == old(x.locals)
    {
      w := null;
      notified := notified - {f};
      if open && head == null {
        waiting := waiting + {f};
        r := Q.Blocked;
      } else if head == null {
        r := Q.Closed;
      } else {
        r := Q.Got(head.id);
        assert Ids(nodes)[0] == head.id && Ids(nodes[1..]) == Ids(nodes)[1..];
        w := PopHead();
      }
    }

    method TryPop() returns (r: Q.PopResult, w: Work?)
      requires Valid()
      modifies this, nodes`nxt, nodes`useCount, nodes`locals
      ensures Valid() && (View(), r) == Q.TryPop(old(View()))
      ensures r.Got? <==> w != null
      ensures w != null ==> old(nodes) != [] && w == old(nodes[0]) && nodes == old(nodes[1..])
      ensures w != null ==> w.nxt == null && w.deallocations == 0 && w.locals == old(w.locals) + 1 && w.useCount == w.locals
      ensures w == null ==> nodes == old(nodes)
      ensures forall x | x in nodes :: x.locals == old(x.locals)
    {
      w := null;
      if !open && head == null {
        r := Q.Closed;
      } else if head == null {
        r := Q.Blocked;
      } else {
        r := Q.Got(head.id);
        assert Ids(nodes)[0] == head.id && Ids(nodes[1..]) == Ids(nodes)[1..];
        w := PopHead();
      }
    }

    /** `submit_preempt` and `submit_coop`: the work is created with one temporary handle, pushed,
        and the temporary is given up whatever `push` answered.  A refused work is deallocated. */
    method Submit(id: nat) returns (w: Work, accepted: bool, woken: Option<nat>)
      requires Valid()
      modifies this, nodes`nxt
      ensures Valid() && fresh(w) && w.id == id && accepted == old(open)
      ensures accepted ==> nodes == old(nodes) + [w] && w.useCount == 1 && w.locals == 0 && w.deallocations == 0
      ensures !accepted ==> nodes == old(nodes) && w.useCount == 0 && w.deallocations == 1
      ensures accepted ==> Q.CanWake(old(View()), woken)
      ensures View() == Q.Push(old(View()), id, woken)
    {
      w := new Work(id);
      w.useCount, w.locals := w.useCount + 1, w.locals + 1;
      accepted, woken := Push(w);
      DropLocal(w);
    }

    /** Destruction of the queue: the works go in order, up to the first one somebody else holds.
        What is left of the queue has no list. */
    method Destroy() returns (ghost k: nat)
      requires Valid()
      modifies this, nodes`useCount, nodes`deallocations, nodes`nxt
      ensures k <= |old(nodes)|
      ensures forall i | 0 <= i < k :: old(nodes)[i].deallocations == 1 && old(nodes)[i].useCount == 0
      ensures forall i | k <= i < |old(nodes)| :: old(nodes)[i].deallocations == 0
      ensures k < |old(nodes)| ==> old(nodes[k].locals) >= 1
      ensures (forall x | x in old(nodes) :: old(x.locals) == 0) ==> k == |old(nodes)|
      ensures Valid() && nodes == [] && View() == old(View()).(items := [])
    {
      k := DropList();
      head, tail, nodes := null, HeadLink, [];
    }

    /** The handle in `head_` is given up. */
    method DropList() returns (ghost k: nat)
      requires Valid()
      modifies nodes`useCount, nodes`deallocations, nodes`nxt
      ensures k <= |nodes|
      ensures forall i | 0 <= i < k :: nodes[i].deallocations == 1 && nodes[i].useCount == 0
      ensures forall i | k <= i < |nodes| :: nodes[i].deallocations == 0
      ensures k < |nodes| ==> nodes[k].locals >= 1
      ensures (forall x | x in nodes :: x.locals == 0) ==> k == |nodes|
    {
      k := Release(head, nodes, 0);
    }
  }

  // ---------------------------------------------------------------- the works of one queue

  /** Every work ever submitted is in one of three places: queued, with no other handle on it; held,
      outside the list, by the one fiber that has popped it; or deallocated, once. */
  ghost predicate Tracks(q: Queue, held: map<nat, Work>, works: set<Work>)
    reads q, q.nodes, works
  {
    && q.Valid()
    && (forall x | x in q.nodes :: x in works && x.locals == 0)
    && (forall f | f in held :: held[f] in works && held[f] !in q.nodes && HeldOnce(held[f]))
    && (forall f, g | f in held && g in held && held[f] == held[g] :: f == g)
    && (forall x | x in works :: x in q.nodes || Holds(held, x) || x.deallocations == 1)
  }

  lemma TracksNothing(q: Queue, held: map<nat, Work>, works: set<Work>)
    requires q.Valid() && q.nodes == [] && held == map[] && works == {}
    ensures Tracks(q, held, works)
  {
  }

  /** The one handle on the work is a local one. */
  ghost predicate HeldOnce(w: Work)
    reads w
  {
    w.nxt == null && w.deallocations == 0 && w.useCount == w.locals == 1
  }

  ghost predicate Holds(held: map<nat, Work>, x: Work) {
    exists f | f in held :: held[f] == x
  }

  /** A submit leaves the works that were there as they are. */
  method Submit(q: Queue, id: nat, ghost held: map<nat, Work>, ghost works: set<Work>)
    returns (w: Work, accepted: bool, woken: Option<nat>)
    requires Tracks(q, held, works)
    modifies q, q.nodes
    ensures Tracks(q, held, works + {w}) && fresh(w) && w.id == id && accepted == old(q.open)
    ensures accepted ==> Q.CanWake(old(q.View()), woken)
    ensures q.View() == Q.Push(old(q.View()), id, woken)
  {
    w, accepted, woken := q.Submit(id);
  }

  /** One pass of `pop` by a fiber, or `try_pop`: the popped work is now in the fiber's hands. */
  method Take(q: Queue, f: nat, waits: bool, held: map<nat, Work>, ghost works: set<Work>)
    returns (r: Q.PopResult, held': map<nat, Work>)
    requires Tracks(q, held, works) && f !in held
    modifies q, q.nodes
    ensures Tracks(q, held', works)
    ensures (q.View(), r) == if waits then Q.Pop(old(q.View()), f) else Q.TryPop(old(q.View()))
    ensures if r.Got? then held'.Keys == held.Keys + {f} && held'[f].id == r.item else held' == held
    ensures forall g | g in held :: held'[g] == held[g]
  {
    var w;
    r, w := PopOrTry(q, f, waits);
    held' := held;
    if w != null {
      held' := held[f := w];
      StillHeld(held, f, w);
    }
  }

  lemma StillHeld(held: map<nat, Work>, f: nat, w: Work)
    requires f !in held
    ensures Holds(held[f := w], w) && forall x | Holds(held, x) :: Holds(held[f := w], x)
  {
    var held' := held[f := w];
    assert held'[f] == w;
    forall x | Holds(held, x) ensures Holds(held', x) {
      var g :| g in held && held[g] == x;
      assert held'[g] == x;
    }
  }

  lemma StillHeldWithout(held: map<nat, Work>, f: nat)
    requires f in held
    ensures forall x | Holds(held, x) && x != held[f] :: Holds(held - {f}, x)
  {
    var held' := held - {f};
    forall x | Holds(held, x) && x != held[f] ensures Holds(held', x) {
      var g :| g in held && held[g] == x;
      assert held'[g] == x;
    }
  }

  method PopOrTry(q: Queue, f: nat, waits: bool) returns (r: Q.PopResult, w: Work?)
    requires q.Valid()
    modifies q, q.nodes`nxt, q.nodes`useCount, q.nodes`locals
    ensures q.Valid()
    ensures (q.View(), r) == if waits then Q.Pop(old(q.View()), f) else Q.TryPop(old(q.View()))
    ensures r.Got? <==> w != null
    ensures w == null ==> q.nodes == old(q.nodes)
    ensures w != null ==> old(q.nodes) != [] && w == old(q.nodes[0]) && q.nodes == old(q.nodes[1..]) && w.id == r.item
    ensures w != null ==> w.nxt == null && w.deallocations == 0 && w.locals == old(w.locals) + 1 && w.useCount == w.locals
    ensures forall x | x in q.nodes :: x.locals == old(x.locals)
  {
    ghost var nodes := q.nodes;
    if waits {
      r, w := q.Pop(f);
    } else {
      r, w := q.TryPop();
    }
    assert w != null ==> Ids(nodes)[0] == w.id;
  }

  /** A fiber's handle goes out of scope: the work is deallocated. */
  method Drop(q: Queue, f: nat, held: map<nat, Work>, ghost works: set<Work>) returns (held': map<nat, Work>)
    requires Tracks(q, held, works) && f in held
    modifies held[f]
    ensures Tracks(q, held', works) && held' == held - {f} && held[f].deallocations == 1
  {
    DropLocal(held[f]);
    held' := held - {f};
    StillHeldWithout(held, f);
  }

  // ---------------------------------------------------------------- clients

  /** What the clients of one queue ask for, one call after the other.  Between taking a work and
      dropping it a fiber executes it, for as long as it likes. */
  datatype Call =
    | SubmitCall(id: nat)
    | TakeCall(fiber: nat)      // one pass of pop
    | TryTakeCall(fiber: nat)   // try_pop
    | DropCall(fiber: nat)      // the end of the loop body
    | CloseCall

  /** The queue, and the ids of the works in the hands of fibers. */
  datatype Clients = Clients(q: Q.Queue, held: map<nat, nat>)

  const NOBODY: Clients := Clients(Q.EMPTY, map[])

  /** A fiber calls when it is awake, takes when its hands are empty, and drops what it holds. */
  predicate Possible(c: Clients, call: Call) {
    match call
    case TakeCall(f) => f !in c.held && f !in c.q.waiting
    case TryTakeCall(f) => f !in c.held && f !in c.q.waiting
    case DropCall(f) => f in c.held
    case _ => true
  }

  /** The operation that a call makes on the queue, if it makes one; which sleeper a push wakes is not
      the caller's choice.  A call that is not possible does nothing. */
  predicate Makes(c: Clients, call: Call, op: Option<Q.Op>) {
    if !Possible(c, call) then op == None
    else
      match call
      case SubmitCall(id) => op.Some? && op.value.DoPush? && op.value.work == id && Q.Enabled(c.q, op.value)
      case TakeCall(f) => op == Some(Q.DoPop(f))
      case TryTakeCall(_) => op == Some(Q.DoTryPop)
      case DropCall(_) => op == None
      case CloseCall => op == Some(Q.DoClose)
  }

  function Then(c: Clients, call: Call, op: Option<Q.Op>): Clients {
    var q := if op.Some? then Q.Apply(c.q, op.value) else c.q;
    var got := if op.Some? then Q.PoppedBy(c.q, op.value) else [];
    if (call.TakeCall? || call.TryTakeCall?) && got != [] then Clients(q, c.held[call.fiber := got[0]])
    else if call.DropCall? then Clients(q, c.held - {call.fiber})
    else Clients(q, c.held)
  }

  /** Every call, in turn, does what it can. */
  predicate Logged(c: Clients, calls: seq<Call>, log: seq<Option<Q.Op>>)
    decreases |calls|
  {
    && |log| == |calls|
    && (calls == [] || (Makes(c, calls[0], log[0]) && Logged(Then(c, calls[0], log[0]), calls[1..], log[1..])))
  }

  function Finally(c: Clients, calls: seq<Call>, log: seq<Option<Q.Op>>): Clients
    requires |log| == |calls|
    decreases |calls|
  {
    if calls == [] then c else Finally(Then(c, calls[0], log[0]), calls[1..], log[1..])
  }

  function OpsOf(log: seq<Option<Q.Op>>): seq<Q.Op> {
    if log == [] then [] else (if log[0].Some? then [log[0].value] else []) + OpsOf(log[1..])
  }

  lemma {:induction false} OneMoreCall(c: Clients, calls: seq<Call>, log: seq<Option<Q.Op>>, call: Call, op: Option<Q.Op>)
    requires Logged(c, calls, log) && Makes(Finally(c, calls, log), call, op)
    ensures Logged(c, calls + [call], log + [op])
    ensures Finally(c, calls + [call], log + [op]) == Then(Finally(c, calls, log), call, op)
    decreases |calls|
  {
    var calls', log' := calls + [call], log + [op];
    if calls == [] {
      assert calls'[1..] == [] && log'[1..] == [];
    } else {
      assert calls'[1..] == calls[1..] + [call] && log'[1..] == log[1..] + [op];
      OneMoreCall(Then(c, calls[0], log[0]), calls[1..], log[1..], call, op);
    }
  }

  /** The operations of a log are a run of the queue protocol. */
  lemma {:induction false} LogIsARun(c: Clients, calls: seq<Call>, log: seq<Option<Q.Op>>)
    requires Logged(c, calls, log)
    ensures Q.Legal(c.q, OpsOf(log)) && Q.Run(c.q, OpsOf(log)) == Finally(c, calls, log).q
    decreases |calls|
  {
    if calls != [] {
      LogIsARun(Then(c, calls[0], log[0]), calls[1..], log[1..]);
      if log[0].Some? {
        assert OpsOf(log)[1..] == OpsOf(log[1..]);
      } else {
        assert OpsOf(log) == OpsOf(log[1..]);
      }
    }
  }

  /** The ids submitted by the calls, and those pushed by the operations. */
  function SubmitIds(calls: seq<Call>): seq<nat> {
    if calls == [] then []
    else (if calls[0].SubmitCall? then [calls[0].id] else []) + SubmitIds(calls[1..])
  }

  function PushIds(ops: seq<Q.Op>): seq<nat> {
    if ops == [] then [] else (if ops[0].DoPush? then [ops[0].work] else []) + PushIds(ops[1..])
  }

  /** Works are pushed in the order in which they are submitted. */
  lemma {:induction false} PushedAsSubmitted(c: Clients, calls: seq<Call>, log: seq<Option<Q.Op>>)
    requires Logged(c, calls, log)
    ensures PushIds(OpsOf(log)) == SubmitIds(calls)
    decreases |calls|
  {
    if calls != [] {
      PushedAsSubmitted(Then(c, calls[0], log[0]), calls[1..], log[1..]);
      if log[0].Some? {
        assert OpsOf(log)[1..] == OpsOf(log[1..]);
      } else {
        assert OpsOf(log) == OpsOf(log[1..]);
      }
    }
  }

  lemma {:induction false} SubmitIdsConcat(calls: seq<Call>, call: Call)
    ensures |SubmitIds(calls + [call])| == |SubmitIds(calls)| + if call.SubmitCall? then 1 else 0
  {
    var all := calls + [call];
    if calls == [] {
      assert all[1..] == [];
    } else {
      assert all[1..] == calls[1..] + [call];
      SubmitIdsConcat(calls[1..], call);
    }
  }

  function IdsHeld(held: map<nat, Work>): map<nat, nat> {
    map f | f in held :: held[f].id
  }

  lemma TakeIsThen(v: Q.Queue, held: map<nat, Work>, f: nat, waits: bool, v': Q.Queue, r: Q.PopResult, held': map<nat, Work>)
    requires f !in held && (v', r) == if waits then Q.Pop(v, f) else Q.TryPop(v)
    requires if r.Got? then held'.Keys == held.Keys + {f} && held'[f].id == r.item else held' == held
    requires forall g | g in held :: held'[g] == held[g]
    ensures var c, call := Clients(v, IdsHeld(held)), if waits then TakeCall(f) else TryTakeCall(f);
            Clients(v', IdsHeld(held')) == Then(c, call, Some(if waits then Q.DoPop(f) else Q.DoTryPop))
  {
    assert r.Got? ==> IdsHeld(held') == IdsHeld(held)[f := r.item];
  }

  ghost function ClientsOf(q: Queue, held: map<nat, Work>): Clients
    reads q
  {
    Clients(q.View(), IdsHeld(held))
  }

  method ServeTake(q: Queue, f: nat, waits: bool, held: map<nat, Work>, ghost works: set<Work>)
    returns (held': map<nat, Work>, ghost op: Option<Q.Op>)
    requires Tracks(q, held, works)
    modifies q, q.nodes
    ensures Tracks(q, held', works)
    ensures var call := if waits then TakeCall(f) else TryTakeCall(f);
            Makes(old(ClientsOf(q, held)), call, op) && ClientsOf(q, held') == Then(old(ClientsOf(q, held)), call, op)
  {
    held', op := held, None;
    if f !in held && f !in q.waiting {
      var r;
      ghost var v := q.View();
      r, held' := Take(q, f, waits, held, works);
      TakeIsThen(v, held, f, waits, q.View(), r, held');
      op := Some(if waits then Q.DoPop(f) else Q.DoTryPop);
    }
  }

  method ServeDrop(q: Queue, f: nat, held: map<nat, Work>, ghost works: set<Work>) returns (held': map<nat, Work>)
    requires Tracks(q, held, works)
    modifies works
    ensures Tracks(q, held', works)
    ensures ClientsOf(q, held') == Then(old(ClientsOf(q, held)), DropCall(f), None)
  {
    held' := held;
    if f in held {
      held' := Drop(q, f, held, works);
    }
  }

  method ServeSubmit(q: Queue, id: nat, held: map<nat, Work>, ghost works: set<Work>)
    returns (ghost op: Option<Q.Op>, ghost come: set<Work>)
    requires Tracks(q, held, works)
    modifies q, q.nodes
    ensures Tracks(q, held, works + come) && fresh(come) && |come| == 1
    ensures Makes(old(ClientsOf(q, held)), SubmitCall(id), op)
    ensures ClientsOf(q, held) == Then(old(ClientsOf(q, held)), SubmitCall(id), op)
  {
    var w, _, woken := Submit(q, id, held, works);
    op, come := Some(Q.DoPush(id, woken)), {w};
  }

  /** One call, if it is possible. */
  method Serve(q: Queue, call: Call, held: map<nat, Work>, ghost works: set<Work>)
    returns (held': map<nat, Work>, ghost op: Option<Q.Op>, ghost come: set<Work>)
    requires Tracks(q, held, works)
    modifies q, works
    ensures Tracks(q, held', works + come) && fresh(come) && |come| == if call.SubmitCall? then 1 else 0
    ensures Makes(old(ClientsOf(q, held)), call, op) && ClientsOf(q, held') == Then(old(ClientsOf(q, held)), call, op)
  {
    held', op, come := held, None, {};
    assert works + {} == works;
    match call {
      case SubmitCall(id) => op, come := ServeSubmit(q, id, held, works);
      case TakeCall(f) => held', op := ServeTake(q, f, true, held, works);
      case TryTakeCall(f) => held', op := ServeTake(q, f, false, held, works);
      case DropCall(f) => held' := ServeDrop(q, f, held, works);
      case CloseCall =>
        op := Some(Q.DoClose);
        CloseQueue(q, held, works);
    }
  }

  /** The fibers that hold a work leave their loop bodies. */
  method DropAll(q: Queue, held: map<nat, Work>, ghost works: set<Work>)
    requires Tracks(q, held, works)
    modifies works
    ensures Tracks(q, map[], works)
  {
    var left := held;
    while left != map[]
      invariant Tracks(q, left, works)
      decreases |left.Keys|
    {
      var f :| f in left;
      left := Drop(q, f, left, works);
    }
  }

  method CloseQueue(q: Queue, ghost held: map<nat, Work>, ghost works: set<Work>)
    requires Tracks(q, held, works)
    modifies q`open, q`waiting, q`notified
    ensures Tracks(q, held, works) && q.View() == Q.Close(old(q.View()))
  {
    q.Close();
  }

  /** The queue is destroyed: the works in it are deallocated, those in hands are not. */
  method DestroyQueue(q: Queue, held: map<nat, Work>, ghost works: set<Work>)
    requires Tracks(q, held, works)
    modifies q, q.nodes
    ensures Tracks(q, held, works) && q.nodes == [] && q.View() == old(q.View()).(items := [])
  {
    ghost var k := q.Destroy();
  }

  /** The end of a queue, after its fibers. */
  method End(q: Queue, held: map<nat, Work>, ghost works: set<Work>)
    requires Tracks(q, held, works)
    modifies q, works
    ensures forall x | x in works :: x.deallocations == 1
  {
    DropAll(q, held, works);
    DestroyQueue(q, map[], works);
  }

  /** One more call, as one more entry of the log. */
  method ServeNext(q: Queue, calls: seq<Call>, i: nat, held: map<nat, Work>, ghost start: Clients,
                   ghost log: seq<Option<Q.Op>>, ghost works: set<Work>)
    returns (held': map<nat, Work>, ghost log': seq<Option<Q.Op>>, ghost works': set<Work>)
    requires Tracks(q, held, works) && i < |calls|
    requires Logged(start, calls[..i], log) && ClientsOf(q, held) == Finally(start, calls[..i], log)
    requires |works| == |SubmitIds(calls[..i])|
    modifies q, works
    ensures Tracks(q, held', works') && fresh(works' - works)
    ensures Logged(start, calls[..i + 1], log') && ClientsOf(q, held') == Finally(start, calls[..i + 1], log')
    ensures |works'| == |SubmitIds(calls[..i + 1])|
  {
    ghost var op, come;
    held', op, come := Serve(q, calls[i], held, works);
    OneMoreCall(start, calls[..i], log, calls[i], op);
    SubmitIdsConcat(calls[..i], calls[i]);
    assert calls[..i + 1] == calls[..i] + [calls[i]] && |works + come| == |works| + |come|;
    log', works' := log + [op], works + come;
  }

  /** All the calls, one after the other, on a queue without works. */
  method ServeAll(q: Queue, calls: seq<Call>, ghost start: Clients)
    returns (held: map<nat, Work>, ghost log: seq<Option<Q.Op>>, ghost works: set<Work>)
    requires Tracks(q, map[], {}) && ClientsOf(q, map[]) == start
    modifies q
    ensures Tracks(q, held, works) && fresh(works)
    ensures Logged(start, calls, log) && |works| == |SubmitIds(calls)|
  {
    held, log, works := map[], [], {};
    for i := 0 to |calls|
      invariant fresh(works) && Tracks(q, held, works)
      invariant Logged(start, calls[..i], log) && ClientsOf(q, held) == Finally(start, calls[..i], log)
      invariant |works| == |SubmitIds(calls[..i])|
    {
      held, log, works := ServeNext(q, calls, i, held, start, log, works);
    }
    assert calls[..|calls|] == calls;
  }

  /** A queue from its construction to its destruction, under any calls of any fibers, each of which
      may hold the work it has popped while the others go on.  Every call does what it can; the
      operations are a run of the queue protocol that pushes what was submitted, in order; and every
      work ever submitted is deallocated exactly once. */
  method Lifetime(calls: seq<Call>) returns (ghost log: seq<Option<Q.Op>>, ghost works: set<Work>)
    ensures Logged(NOBODY, calls, log)
    ensures Q.Legal(Q.EMPTY, OpsOf(log)) && PushIds(OpsOf(log)) == SubmitIds(calls)
    ensures |works| == |SubmitIds(calls)|
    ensures forall x | x in works :: x.deallocations == 1
  {
    var q := new Queue();
    TracksNothing(q, map[], {});
    var held;
    ghost var start := ClientsOf(q, map[]);
    held, log, works := ServeAll(q, calls, start);
    LogIsARun(start, calls, log);
    PushedAsSubmitted(start, calls, log);
    End(q, held, works);
  }
}
