/** Lists of sets in which, for every element, the last set that has it counts: who shares with
    whom, and exactly when sharing goes both ways. */
module CacheSharing {

  /** The last set that has `a`, or nothing. */
  function LastOf(sets: seq<set<nat>>, a: nat): set<nat> {
    if sets == [] then {}
    else if a in sets[|sets| - 1] then sets[|sets| - 1]
    else LastOf(sets[..|sets| - 1], a)
  }

  predicate Shares(sets: seq<set<nat>>, a: nat, b: nat) {
    b != a && b in LastOf(sets, a)
  }

  ghost predicate IsLast(sets: seq<set<nat>>, a: nat, i: nat) {
    i < |sets| && a in sets[i] && forall j | i < j < |sets| :: a !in sets[j]
  }

  ghost predicate InLater(sets: seq<set<nat>>, i: nat, a: nat) {
    exists j | i < j < |sets| :: a in sets[j]
  }

  /** No later set has anything of set `i`, or the later sets have all of it. */
  ghost predicate AllOrNothing(sets: seq<set<nat>>, i: nat)
    requires i < |sets|
  {
    (forall a | a in sets[i] :: !InLater(sets, i, a)) || (forall a | a in sets[i] :: InLater(sets, i, a))
  }

  lemma {:induction false} LastOfIs(sets: seq<set<nat>>, a: nat, i: nat)
    requires IsLast(sets, a, i)
    ensures LastOf(sets, a) == sets[i]
  {
    var n := |sets| - 1;
    if i < n {
      assert forall j | 0 <= j < n :: sets[..n][j] == sets[j];
      LastOfIs(sets[..n], a, i);
    }
  }

  lemma {:induction false} SomeLast(sets: seq<set<nat>>, a: nat, k: nat) returns (i: nat)
    requires k < |sets| && a in sets[k]
    ensures k <= i && IsLast(sets, a, i)
    decreases |sets| - k
  {
    i := k;
    if j :| k < j < |sets| && a in sets[j] {
      i := SomeLast(sets, a, j);
    }
  }

  lemma {:induction false} LastOfHas(sets: seq<set<nat>>, a: nat) returns (i: nat)
    requires LastOf(sets, a) != {}
    ensures IsLast(sets, a, i) && LastOf(sets, a) == sets[i]
  {
    var n := |sets| - 1;
    if a in sets[n] {
      i := n;
    } else {
      i := LastOfHas(sets[..n], a);
      assert forall j | 0 <= j < n :: sets[..n][j] == sets[j];
    }
  }

  /** Under the condition, whoever `a` shares with has the same last set as `a`. */
  lemma SameLast(sets: seq<set<nat>>, a: nat, b: nat)
    requires forall i: nat | i < |sets| :: AllOrNothing(sets, i)
    requires b in LastOf(sets, a)
    ensures a in LastOf(sets, b) && LastOf(sets, b) == LastOf(sets, a)
  {
    var i := LastOfHas(sets, a);
    assert AllOrNothing(sets, i) && !InLater(sets, i, a);
    assert !InLater(sets, i, b);
    LastOfIs(sets, b, i);
  }

  /** Otherwise there are two of which one shares with the other and not the other way. */
  lemma OneWay(sets: seq<set<nat>>, i: nat) returns (a: nat, b: nat)
    requires i < |sets| && !AllOrNothing(sets, i)
    ensures Shares(sets, a, b) && !Shares(sets, b, a)
  {
    a :| a in sets[i] && !InLater(sets, i, a);
    b :| b in sets[i] && InLater(sets, i, b);
    LastOfIs(sets, a, i);
    var j :| i < j < |sets| && b in sets[j];
    var k := SomeLast(sets, b, j);
    LastOfIs(sets, b, k);
  }

  /** Sharing goes both ways exactly if the later sets have all or nothing of each set, and then it
      also carries over. */
  lemma SymmetricExactly(sets: seq<set<nat>>)
    ensures (forall a, b | Shares(sets, a, b) :: Shares(sets, b, a))
       <==> (forall i: nat | i < |sets| :: AllOrNothing(sets, i))
    ensures (forall a, b | Shares(sets, a, b) :: Shares(sets, b, a)) ==>
              forall a, b, c | Shares(sets, a, b) && Shares(sets, b, c) && c != a :: Shares(sets, a, c)
  {
    if forall i: nat | i < |sets| :: AllOrNothing(sets, i) {
      forall a, b | Shares(sets, a, b)
        ensures Shares(sets, b, a) && forall c | Shares(sets, b, c) && c != a :: Shares(sets, a, c)
      {
        SameLast(sets, a, b);
      }
    } else {
      var i: nat :| i < |sets| && !AllOrNothing(sets, i);
      var a, b := OneWay(sets, i);
    }
  }
}
