/** Bit masks as natural numbers. */
module Bits {

  function Pow2(n: nat): (p: nat)
    ensures p > 0
  {
    if n == 0 then 1 else 2 * Pow2(n - 1)
  }

  /** `mask & (1 << i)` is not zero. */
  predicate Bit(mask: nat, i: nat) {
    mask / Pow2(i) % 2 == 1
  }

  /** The bitwise or of the masks, cut to `n` bits. */
  ghost function Or(masks: set<nat>, n: nat): nat {
    if n == 0 then 0
    else Or(masks, n - 1) + if exists m | m in masks :: Bit(m, n - 1) then Pow2(n - 1) else 0
  }

  lemma QuotientAndRemainder(q: nat, d: nat, r: nat)
    requires r < d
    ensures (q * d + r) / d == q && (q * d + r) % d == r
  {
    var m := q * d + r;
    var q', r' := m / d, m % d;
    assert m == q' * d + r';
    SameQuotient(q, q', d, r, r');
  }

  lemma SameQuotient(q: nat, q': nat, d: nat, r: nat, r': nat)
    requires r < d && r' < d && q * d + r == q' * d + r'
    ensures q == q' && r == r'
  {
    if q' < q {
      assert (q - q') * d == q * d - q' * d;
      Multiple(q - q', d);
    } else if q < q' {
      assert (q' - q) * d == q' * d - q * d;
      Multiple(q' - q, d);
    }
  }

  lemma {:induction false} Multiple(k: nat, d: nat)
    requires k > 0
    ensures k * d >= d
  {
    if k > 1 {
      Multiple(k - 1, d);
      assert k * d == (k - 1) * d + d;
    }
  }

  lemma LowBits(m: nat, n: nat)
    ensures m % Pow2(n + 1) == m % Pow2(n) + if Bit(m, n) then Pow2(n) else 0
  {
    var p := Pow2(n);
    var q, r := m / p, m % p;
    var b := q % 2;
    assert m == q * p + r;
    assert q == 2 * (q / 2) + b;
    assert q * p == (q / 2) * (2 * p) + b * p by {
      assert (2 * (q / 2)) * p == (q / 2) * (2 * p);
    }
    assert b * p + r < 2 * p;
    QuotientAndRemainder(q / 2, 2 * p, b * p + r);
  }

  lemma {:induction false} PowerDivides(i: nat, j: nat)
    requires i <= j
    ensures Pow2(j) == Pow2(j - i) * Pow2(i)
  {
    if i < j {
      PowerDivides(i, j - 1);
    }
  }

  lemma {:induction false} PowerGrows(i: nat, j: nat)
    requires i < j
    ensures Pow2(i) < Pow2(j)
  {
    if i + 1 < j {
      PowerGrows(i, j - 1);
    }
  }

  lemma BitOfPower(j: nat, i: nat)
    ensures Bit(Pow2(j), i) <==> i == j
  {
    var p, q := Pow2(i), Pow2(j);
    if i <= j {
      PowerDivides(i, j);
      var r := Pow2(j - i);
      assert q == r * p + 0;
      QuotientAndRemainder(r, p, 0);
      assert r % 2 == 1 <==> i == j;
    } else {
      PowerGrows(j, i);
      assert q == 0 * p + q;
      QuotientAndRemainder(0, p, q);
    }
  }

  /** A mask is the union of the masks that have, between them, exactly its bits. */
  lemma {:induction false} OrDetermined(masks: set<nat>, mask: nat, n: nat)
    requires forall i | 0 <= i < n :: Bit(mask, i) <==> exists m | m in masks :: Bit(m, i)
    ensures Or(masks, n) == mask % Pow2(n)
  {
    if n != 0 {
      OrDetermined(masks, mask, n - 1);
      LowBits(mask, n - 1);
      assert Bit(mask, n - 1) <==> exists m | m in masks :: Bit(m, n - 1);
    }
  }
}
