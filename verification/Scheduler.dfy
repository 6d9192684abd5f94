/** The scheduler: its two tables, the routing of jobs, and the shutdown of all workers. */
module Scheduler {
  import opened Options
  import opened OrderedKeys
  import opened Words

  /** A processor id or a node id: 32 bits. */
  type Id = x: nat | x < TWO32

  datatype Topo = Topo(nodeId: Id, processorId: Id)

  /** `create_topology_map`: a later entry with the same id replaces the earlier one. */
  function TopologyOf(topos: seq<Topo>): map<nat, Topo> {
    if topos == [] then map[]
    else var last := topos[|topos| - 1]; TopologyOf(topos[..|topos| - 1])[last.processorId := last]
  }

  method CreateTopologyMap(topos: seq<Topo>) returns (m: map<nat, Topo>)
    ensures m == TopologyOf(topos)
  {
    m := map[];
    for i := 0 to |topos|
      invariant m == TopologyOf(topos[..i])
    {
      assert topos[..i + 1][..i] == topos[..i];
      m := m[topos[i].processorId := topos[i]];
    }
    assert topos[..|topos|] == topos;
  }

  predicate DistinctIds(topos: seq<Topo>) {
    forall i, j | 0 <= i < j < |topos| :: topos[i].processorId != topos[j].processorId
  }

  predicate Knows(topos: seq<Topo>, id: nat) {
    exists i | 0 <= i < |topos| :: topos[i].processorId == id
  }

  lemma {:induction false} TopologyKeys(topos: seq<Topo>)
    ensures forall k :: k in TopologyOf(topos) <==> Knows(topos, k)
    ensures DistinctIds(topos) ==> forall i | 0 <= i < |topos| ::
              topos[i].processorId in TopologyOf(topos) && TopologyOf(topos)[topos[i].processorId] == topos[i]
    ensures forall k | k in TopologyOf(topos) :: TopologyOf(topos)[k].processorId == k
  {
    if topos != [] {
      var n := |topos| - 1;
      TopologyKeys(topos[..n]);
      forall k ensures k in TopologyOf(topos) <==> Knows(topos, k) {
        if Knows(topos[..n], k) {
          var i :| 0 <= i < n && topos[..n][i].processorId == k;
          assert topos[i].processorId == k;
        }
        if i :| 0 <= i < |topos| && topos[i].processorId == k {
          assert i == n || topos[..n][i].processorId == k;
        }
      }
    }
  }

  /** No later entry has the same id. */
  predicate LastOfId(topos: seq<Topo>, i: nat) {
    i < |topos| && forall j | i < j < |topos| :: topos[j].processorId != topos[i].processorId
  }

  /** The last entry of an id is the one that counts. */
  lemma {:induction false} LastEntryWins(topos: seq<Topo>, i: nat)
    requires LastOfId(topos, i)
    ensures topos[i].processorId in TopologyOf(topos) && TopologyOf(topos)[topos[i].processorId] == topos[i]
  {
    var n := |topos| - 1;
    if i < n {
      assert forall j | 0 <= j < n :: topos[..n][j] == topos[j];
      LastEntryWins(topos[..n], i);
    }
  }

  /** `std::max_element` by processor id. */
  method MaxElement(topos: seq<Topo>) returns (m: Topo)
    requires topos != []
    ensures m in topos && forall i | 0 <= i < |topos| :: topos[i].processorId <= m.processorId
  {
    m := topos[0];
    for i := 1 to |topos|
      invariant m in topos && forall j | 0 <= j < i :: topos[j].processorId <= m.processorId
    {
      if m.processorId < topos[i].processorId {
        m := topos[i];
      }
    }
  }

  function MaxId(topos: seq<Topo>): Id
    requires topos != []
    ensures Knows(topos, MaxId(topos))
    ensures forall i | 0 <= i < |topos| :: topos[i].processorId <= MaxId(topos)
  {
    var n := |topos| - 1;
    assert topos[n].processorId == topos[n].processorId;
    if n == 0 then topos[0].processorId
    else
      assert Knows(topos[..n], MaxId(topos[..n]));
      var i :| 0 <= i < n && topos[..n][i].processorId == MaxId(topos[..n]);
      assert topos[i].processorId == MaxId(topos[..n]);
      assert forall j | 0 <= j < n :: topos[..n][j] == topos[j];
      if MaxId(topos[..n]) < topos[n].processorId then topos[n].processorId else MaxId(topos[..n])
  }

  /** The length asked for: `max + 1` in 32-bit arithmetic. */
  function TableSize(topos: seq<Topo>): nat
    requires topos != []
  {
    (MaxId(topos) + 1) % TWO32
  }

  /** The table has room for every id exactly when no id is the largest 32-bit number. */
  lemma TableCoversExactly(topos: seq<Topo>)
    requires topos != []
    ensures (forall i | 0 <= i < |topos| :: topos[i].processorId < TableSize(topos)) <==> !Knows(topos, TWO32 - 1)
  {
    var i :| 0 <= i < |topos| && topos[i].processorId == MaxId(topos);
    if Knows(topos, TWO32 - 1) {
      var j :| 0 <= j < |topos| && topos[j].processorId == TWO32 - 1;
      assert MaxId(topos) == TWO32 - 1;
    }
  }

  datatype WorkerState = WorkerState(jobs: seq<nat>, joinable: bool, attempts: nat, joins: nat, joinError: Option<nat>)

  /** What one `shutdown` does to a worker: a joinable one is joined, unless its join throws. */
  function ShutOnce(s: WorkerState): WorkerState {
    var joined := s.joinable && s.joinError.None?;
    s.(attempts := s.attempts + 1, joinable := s.joinable && !joined, joins := s.joins + if joined then 1 else 0)
  }

  /** What it throws. */
  function Thrown(s: WorkerState): Option<nat> {
    if s.joinable then s.joinError else None
  }

  /** The processors whose worker has yet to be joined and whose join throws. */
  function Throwing(states: map<nat, WorkerState>): set<nat> {
    set k | k in states && Thrown(states[k]).Some?
  }

  /** A worker thread as the scheduler sees it: pinned to one processor, fed with jobs, shut down
      once.  `joinError` is what `std::thread::join` throws, if it throws. */
  class Worker {
    const topo: Topo
    const joinError: Option<nat>
    var jobs: seq<nat>
    var joinable: bool
    var attempts: nat
    var joins: nat

    constructor (topo: Topo, joinError: Option<nat>)
      ensures this.topo == topo && this.joinError == joinError
      ensures jobs == [] && joinable && attempts == 0 && joins == 0
    {
      this.topo, this.joinError := topo, joinError;
      jobs, joinable, attempts, joins := [], true, 0, 0;
    }

    method Submit(job: nat)
      modifies this`jobs
      ensures jobs == old(jobs) + [job]
    {
      jobs := jobs + [job];
    }

    function State(): WorkerState
      reads this
    {
      WorkerState(jobs, joinable, attempts, joins, joinError)
    }

    /** Notify and join; a worker that has been joined is left alone. */
    method Shutdown() returns (error: Option<nat>)
      modifies this`joinable, this`attempts, this`joins
      ensures State() == ShutOnce(old(State()))
      ensures error == if old(joinable) then joinError else None
      ensures joinable <==> old(joinable) && joinError.Some?
      ensures joins == old(joins) + if old(joinable) && joinError.None? then 1 else 0
    {
      attempts := attempts + 1;
      error := None;
      if joinable {
        if joinError.Some? {
          error := joinError;
        } else {
          joins := joins + 1;
          joinable := false;
        }
      }
    }
  }

  /** One worker for every processor of the topology, at the index of its id. */
  ghost predicate Filled(table: seq<Worker?>, topos: seq<Topo>) {
    forall k | 0 <= k < |table| ::
      if Knows(topos, k) then table[k] != null && table[k].topo in topos && table[k].topo.processorId == k
      else table[k] == null
  }

  ghost predicate New(w: Worker, id: nat, joinErrors: map<nat, nat>)
    reads w
  {
    && w.jobs == [] && w.joinable && w.attempts == 0 && w.joins == 0
    && w.joinError == if id in joinErrors then Some(joinErrors[id]) else None
  }

  method FillTable(topos: seq<Topo>, joinErrors: map<nat, nat>, size: nat) returns (table: seq<Worker?>)
    requires forall i | 0 <= i < |topos| :: topos[i].processorId < size
    ensures |table| == size && Filled(table, topos)
    ensures forall k | 0 <= k < size && table[k] != null :: fresh(table[k]) && New(table[k], k, joinErrors)
  {
    table := seq(size, _ => null);
    for i := 0 to |topos|
      invariant |table| == size && Filled(table, topos[..i])
      invariant forall k | 0 <= k < size && table[k] != null :: fresh(table[k]) && New(table[k], k, joinErrors)
    {
      var t := topos[i];
      var w := new Worker(t, if t.processorId in joinErrors then Some(joinErrors[t.processorId]) else None);
      assert topos[..i + 1][i] == t && forall x | x in topos[..i] :: x in topos[..i + 1];
      forall k | 0 <= k < size ensures Knows(topos[..i + 1], k) <==> Knows(topos[..i], k) || k == t.processorId {
        KnowsOneMore(topos, i, k);
      }
      table := table[t.processorId := w];
    }
    assert topos[..|topos|] == topos;
  }

  class Scheduler {
    var topology: map<nat, Topo>
    var workers: seq<Worker?>

    /** The two tables agree: the keys of the map are the indices that hold a worker, and that
        worker is pinned to its index. */
    ghost predicate Valid()
      reads this
    {
      && (forall k | k in topology :: k < |workers| && workers[k] != null)
      && (forall k | 0 <= k < |workers| && workers[k] != null ::
            k in topology && workers[k].topo == topology[k] && topology[k].processorId == k)
    }

    function WorkerAt(id: nat): Worker
      requires Valid() && id in topology
      reads this
    {
      workers[id]
    }

    ghost function Workers(): set<Worker>
      requires Valid()
      reads this
    {
      set k | k in topology :: WorkerAt(k)
    }

    ghost function States(): map<nat, WorkerState>
      requires Valid()
      reads this, Workers()
    {
      map k | k in topology :: WorkerAt(k).State()
    }

    /** Requires what the source asserts or takes for granted: some processors, no id twice, and
        none with the largest 32-bit id. */
    constructor (topos: seq<Topo>, joinErrors: map<nat, nat>)
      requires topos != [] && DistinctIds(topos) && !Knows(topos, TWO32 - 1)
      ensures Valid() && topology == TopologyOf(topos) && |workers| == MaxId(topos) + 1
      ensures forall k | k in topology :: fresh(workers[k]) && New(workers[k], k, joinErrors)
    {
      var m := CreateTopologyMap(topos);
      var max := MaxElement(topos);
      MaxIsMaxId(topos, max);
      TopologyKeys(topos);
      TableCoversExactly(topos);
      var table := FillTable(topos, joinErrors, (max.processorId + 1) % TWO32);
      topology, workers := m, table;
    }

    /** `topology_[id]`: an id without an entry gets a default one. */
    method Subscript(id: Id) returns (t: Topo)
      modifies this`topology
      ensures topology == if id in old(topology) then old(topology) else old(topology)[id := Topo(0, 0)]
      ensures t == topology[id]
    {
      if id !in topology {
        topology := topology[id := Topo(0, 0)];
      }
      t := topology[id];
    }

    method SubmitAt(id: Id, job: nat)
      requires Valid() && id in topology
      modifies WorkerAt(id)`jobs
      ensures States() == old(States())[id := old(States())[id].(jobs := old(States())[id].jobs + [job])]
    {
      assert forall k | k in topology && k != id :: WorkerAt(k) != WorkerAt(id);
      workers[id].Submit(job);
    }

    /** A job for a known processor goes to the worker pinned to it, in memory of that processor's
        node, and the topology stays as it was. */
    method Submit(id: Id, job: nat) returns (node: Id)
      requires Valid() && id in topology
      modifies this`topology, WorkerAt(id)`jobs
      ensures Valid() && topology == old(topology)
      ensures WorkerAt(id).topo.processorId == id && node == WorkerAt(id).topo.nodeId
      ensures States() == Sent(old(States()), [(id, job)])
    {
      var t := Subscript(id);
      node := t.nodeId;
      assert States() == old(States());
      SentOne(States(), (id, job));
      SubmitAt(id, job);
    }

    /** Any run of submits to known ids: each worker gets, in order, the jobs sent to its id. */
    method SubmitAll(submits: seq<(Id, nat)>)
      requires Valid() && forall i | 0 <= i < |submits| :: submits[i].0 in topology
      modifies this`topology, Workers()`jobs
      ensures Valid() && topology == old(topology) && workers == old(workers)
      ensures States() == Sent(old(States()), submits)
    {
      SentNothing(States());
      for i := 0 to |submits|
        invariant Valid() && topology == old(topology) && workers == old(workers)
        invariant States() == Sent(old(States()), submits[..i])
      {
        var _ := Submit(submits[i].0, submits[i].1);
        SentOneMore(old(States()), submits, i);
      }
      assert submits[..|submits|] == submits;
    }

    method ShutdownAt(id: nat) returns (error: Option<nat>)
      requires Valid() && id in topology
      modifies WorkerAt(id)
      ensures States() == old(States())[id := ShutOnce(old(States())[id])]
      ensures error == Thrown(old(States())[id])
    {
      assert forall k | k in topology && k != id :: WorkerAt(k) != WorkerAt(id);
      error := workers[id].Shutdown();
    }

    /** One round of the loop of `Shutdown`: an exception replaces the one kept so far, and the walk
        goes on to the next entry. */
    method ShutdownRound(ghost was: map<nat, WorkerState>, id: nat, except: Option<nat>)
      returns (kept: Option<nat>, next: Option<nat>)
      requires Valid() && id in topology && topology.Keys == was.Keys
      requires States() == ShutBelow(was, id) && except == LastError(was, id)
      modifies WorkerAt(id)
      ensures next.Some? ==> next.value in topology && id < next.value
      ensures States() == ShutBelow(was, From(next, |workers|)) && kept == LastError(was, From(next, |workers|))
    {
      OneMoreShut(was, id);
      kept := except;
      var error := ShutdownAt(id);
      if error.Some? {
        kept := error;
      }
      next := NextKey(topology.Keys, id);
      NoneBetween(was, id + 1, From(next, |workers|));
    }

    /** Every worker is shut down, in the order of the ids, whatever the others throw; of several
        exceptions the last one reaches the caller. */
    method Shutdown() returns (except: Option<nat>)
      requires Valid()
      modifies Workers()
      ensures Valid()
      ensures States() == ShutBelow(old(States()), |workers|)
      ensures except == LastError(old(States()), |workers|)
    {
      ghost var was := States();
      except := None;
      var key := NextKey(topology.Keys, -1);
      NoneBetween(was, 0, From(key, |workers|));
      while key.Some?
        invariant key.Some? ==> key.value in topology
        invariant States() == ShutBelow(was, From(key, |workers|))
        invariant except == LastError(was, From(key, |workers|))
        decreases |workers| - From(key, |workers|), key.Some?
      {
        except, key := ShutdownRound(was, key.value, except);
      }
    }

    /** The destructor shuts down once more, and an exception there ends the program. */
    method Destroy() returns (aborts: bool)
      requires Valid()
      modifies Workers()
      ensures Valid() && States() == ShutBelow(old(States()), |workers|)
      ensures aborts <==> LastError(old(States()), |workers|).Some?
    {
      var except := Shutdown();
      aborts := except.Some?;
    }

    /** The owner shuts down, and the scheduler is destroyed: the program ends exactly if the shutdown
        threw, because the joins that threw are tried again; a worker that was joined by the first one
        is not joined again. */
    method ShutdownAndDestroy() returns (except: Option<nat>, aborts: bool)
      requires Valid()
      modifies Workers()
      ensures Valid() && topology == old(topology) && workers == old(workers)
      ensures except.None? <==> forall k | k in topology && old(WorkerAt(k).joinable) :: WorkerAt(k).joinError.None?
      ensures aborts <==> except.Some?
      ensures forall k | k in topology ::
                WorkerAt(k).joins == old(WorkerAt(k).joins) + if old(WorkerAt(k).joinable) && WorkerAt(k).joinError.None? then 1 else 0
    {
      ghost var was := States();
      except := Shutdown();
      ghost var once := States();
      aborts := Destroy();
      SecondThrowsTheSame(was, |workers|);
      EveryWorkerIsAttempted(was, |workers|);
      EveryWorkerIsAttempted(once, |workers|);
      forall k | k in topology
        ensures old(WorkerAt(k).joinable) == was[k].joinable && was[k].joinError == WorkerAt(k).joinError
        ensures WorkerAt(k).joins == was[k].joins + if was[k].joinable && was[k].joinError.None? then 1 else 0
      {
        assert States()[k] == WorkerAt(k).State();
      }
    }
  }

  /** The id at which a walk goes on. */
  function From(key: Option<nat>, end: nat): nat {
    if key.Some? then key.value else end
  }

  /** The workers after the shutdown of those with ids below `n`. */
  function ShutBelow(states: map<nat, WorkerState>, n: nat): map<nat, WorkerState> {
    if n == 0 then states
    else
      var before := ShutBelow(states, n - 1);
      if n - 1 in states then before[n - 1 := ShutOnce(states[n - 1])] else before
  }

  /** The exception kept after the shutdown of those with ids below `n`. */
  function LastError(states: map<nat, WorkerState>, n: nat): Option<nat> {
    if n == 0 then None
    else if n - 1 in states && Thrown(states[n - 1]).Some? then Thrown(states[n - 1])
    else LastError(states, n - 1)
  }

  lemma {:induction false} NoneBetween(states: map<nat, WorkerState>, m: nat, n: nat)
    requires m <= n && forall k | m <= k < n :: k !in states
    ensures ShutBelow(states, n) == ShutBelow(states, m) && LastError(states, n) == LastError(states, m)
  {
    if m < n {
      NoneBetween(states, m, n - 1);
    }
  }

  lemma {:induction false} NotYetShut(states: map<nat, WorkerState>, n: nat)
    ensures forall k | k in states ::
              k in ShutBelow(states, n) && ShutBelow(states, n)[k] == if k < n then ShutOnce(states[k]) else states[k]
    ensures ShutBelow(states, n).Keys == states.Keys
  {
    if n != 0 {
      NotYetShut(states, n - 1);
    }
  }

  lemma OneMoreShut(states: map<nat, WorkerState>, n: nat)
    requires n in states
    ensures var before := ShutBelow(states, n);
            && n in before && before[n] == states[n]
            && ShutBelow(states, n + 1) == before[n := ShutOnce(before[n])]
    ensures LastError(states, n + 1) == if Thrown(states[n]).Some? then Thrown(states[n]) else LastError(states, n)
  {
    NotYetShut(states, n);
  }

  /** `scheduler::shutdown` attempts every worker exactly once even when some attempts throw; it
      throws exactly if one of them does, and then what the one of the largest id threw. */
  lemma {:induction false} EveryWorkerIsAttempted(states: map<nat, WorkerState>, n: nat)
    requires forall k | k in states :: k < n
    ensures ShutBelow(states, n).Keys == states.Keys
    ensures forall k | k in states ::
              var w, w' := states[k], ShutBelow(states, n)[k];
              && w'.attempts == w.attempts + 1 && w'.jobs == w.jobs && w'.joinError == w.joinError
              && w'.joins == w.joins + (if w.joinable && w.joinError.None? then 1 else 0)
              && (w'.joinable <==> w.joinable && w.joinError.Some?)
    ensures LastError(states, n).None? <==> forall k | k in states && states[k].joinable :: states[k].joinError.None?
    ensures forall k | k in states && states[k].joinable && states[k].joinError.Some?
                       && (forall j | j in states && k < j && states[j].joinable :: states[j].joinError.None?) ::
              LastError(states, n) == states[k].joinError
  {
    NotYetShut(states, n);
    LastErrorBelow(states, n);
    assert forall k | k in states && states[k].joinable && states[k].joinError.Some? :: k in Throwing(states);
  }

  lemma {:induction false} LastErrorBelow(states: map<nat, WorkerState>, n: nat)
    ensures LastError(states, n).None? ==> forall k | k in Throwing(states) :: n <= k
    ensures LastError(states, n).Some? ==>
              exists k :: k in Throwing(states) && k < n && LastError(states, n) == states[k].joinError
                          && forall j | j in Throwing(states) && k < j :: n <= j
  {
    if n != 0 {
      LastErrorBelow(states, n - 1);
    }
  }

  /** A second shutdown finds exactly the workers whose join has thrown, and throws what the first one
      threw. */
  lemma SecondThrowsTheSame(states: map<nat, WorkerState>, n: nat)
    requires forall k | k in states :: k < n
    ensures LastError(ShutBelow(states, n), n) == LastError(states, n)
  {
    var once := ShutBelow(states, n);
    EveryWorkerIsAttempted(states, n);
    LastErrorBelow(states, n);
    LastErrorBelow(once, n);
    assert Throwing(once) == Throwing(states);
  }

  /** After a shutdown that threw nothing, the one of the destructor throws nothing and joins
      nobody: it changes only the count of the attempts. */
  lemma SecondShutdownChangesNothing(states: map<nat, WorkerState>, n: nat)
    requires (forall k | k in states :: k < n) && LastError(states, n).None?
    ensures var once := ShutBelow(states, n);
            && once.Keys == states.Keys == ShutBelow(once, n).Keys
            && LastError(once, n).None?
            && forall k | k in states ::
                 && !once[k].joinable
                 && once[k].joins == states[k].joins + (if states[k].joinable then 1 else 0)
                 && ShutBelow(once, n)[k] == once[k].(attempts := once[k].attempts + 1)
  {
    var once := ShutBelow(states, n);
    EveryWorkerIsAttempted(states, n);
    EveryWorkerIsAttempted(once, n);
  }

  /** The jobs that a run of submits sends to one id. */
  function JobsFor(submits: seq<(Id, nat)>, id: nat): seq<nat> {
    if submits == [] then []
    else
      var last := submits[|submits| - 1];
      JobsFor(submits[..|submits| - 1], id) + if last.0 == id then [last.1] else []
  }

  /** The workers after a run of submits: each has, in order, the jobs sent to its id. */
  function Sent(states: map<nat, WorkerState>, submits: seq<(Id, nat)>): map<nat, WorkerState> {
    map k | k in states :: states[k].(jobs := states[k].jobs + JobsFor(submits, k))
  }

  lemma SentNothing(states: map<nat, WorkerState>)
    ensures Sent(states, []) == states
  {
    assert forall k | k in states :: states[k].jobs + [] == states[k].jobs;
  }

  lemma SentOne(states: map<nat, WorkerState>, submit: (Id, nat))
    requires submit.0 in states
    ensures Sent(states, [submit]) ==
              states[submit.0 := states[submit.0].(jobs := states[submit.0].jobs + [submit.1])]
  {
    var one := [submit];
    forall k ensures JobsFor(one, k) == if submit.0 == k then [submit.1] else [] {
      assert one[..|one| - 1] == [];
      assert JobsFor(one[..|one| - 1], k) == [];
    }
    assert forall k | k in states :: states[k].jobs + [] == states[k].jobs;
  }

  lemma SentOneMore(states: map<nat, WorkerState>, submits: seq<(Id, nat)>, i: nat)
    requires i < |submits| && submits[i].0 in states
    ensures Sent(states, submits[..i + 1]) == Sent(Sent(states, submits[..i]), [submits[i]])
  {
    SentOne(Sent(states, submits[..i]), submits[i]);
    assert submits[..i + 1][..i] == submits[..i];
    forall k | k in states
      ensures states[k].jobs + JobsFor(submits[..i + 1], k) ==
              states[k].jobs + JobsFor(submits[..i], k) + if submits[i].0 == k then [submits[i].1] else []
    {
    }
  }

  lemma MaxIsMaxId(topos: seq<Topo>, m: Topo)
    requires m in topos && forall i | 0 <= i < |topos| :: topos[i].processorId <= m.processorId
    ensures m.processorId == MaxId(topos)
  {
    var i :| 0 <= i < |topos| && topos[i].processorId == MaxId(topos);
    var j :| 0 <= j < |topos| && topos[j] == m;
  }

  lemma KnowsOneMore(topos: seq<Topo>, i: nat, k: nat)
    requires i < |topos|
    ensures Knows(topos[..i + 1], k) <==> Knows(topos[..i], k) || k == topos[i].processorId
  {
    if Knows(topos[..i], k) {
      var j :| 0 <= j < i && topos[..i][j].processorId == k;
      assert topos[..i + 1][j].processorId == k;
    }
    if k == topos[i].processorId {
      assert topos[..i + 1][i].processorId == k;
    }
    if Knows(topos[..i + 1], k) {
      var last := topos[..i + 1];
      var j :| 0 <= j < |last| && last[j].processorId == k;
      assert j == i || topos[..i][j].processorId == k;
    }
  }
}
