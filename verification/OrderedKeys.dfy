/** Walking the keys of an ordered map from below. */
module OrderedKeys {
  import opened Options

  /** `next` is the least key above `after`, if there is one. */
  predicate IsNext(keys: set<nat>, after: int, next: Option<nat>) {
    match next
    case None => forall k | k in keys :: k <= after
    case Some(m) => m in keys && after < m && forall k | k in keys && after < k :: m <= k
  }

  method NextKey(keys: set<nat>, after: int) returns (next: Option<nat>)
    ensures IsNext(keys, after, next)
  {
    var todo := keys;
    next := None;
    while todo != {}
      invariant todo <= keys
      invariant next.Some? ==> next.value in keys && after < next.value
      invariant forall k | k in keys && k !in todo && after < k :: next.Some? && next.value <= k
      decreases |todo|
    {
      var k :| k in todo;
      if after < k && (next.None? || k < next.value) {
        next := Some(k);
      }
      todo := todo - {k};
    }
  }

  lemma {:induction false} SomeNext(keys: set<nat>, after: int) returns (next: Option<nat>)
    ensures IsNext(keys, after, next)
    decreases |keys|
  {
    if keys == {} {
      next := None;
    } else {
      var k :| k in keys;
      next := SomeNext(keys - {k}, after);
      assert forall j | j in keys :: j == k || j in keys - {k};
      if after < k && (next.None? || k < next.value) {
        next := Some(k);
      }
    }
  }
}
