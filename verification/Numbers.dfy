/** Bounds and saturating operations of the fixed-width integers. */
module Numbers {

  const U64_MAX: nat := 0xFFFF_FFFF_FFFF_FFFF

  function SaturatingSub(a: nat, b: nat): nat {
    if a >= b then a - b else 0
  }

  /** `k` delays of `d` each. */
  function Times(k: nat, d: nat): nat {
    if k == 0 then 0 else Times(k - 1, d) + d
  }

  lemma OneMore(n: nat, d: nat)
    ensures (n + 1) * d == n * d + d
  {
  }

  lemma {:induction false} TimesIsProduct(k: nat, d: nat)
    ensures Times(k, d) == k * d
  {
    if k > 0 {
      TimesIsProduct(k - 1, d);
      OneMore(k - 1, d);
    }
  }

  lemma {:induction false} TimesMonotone(k: nat, m: nat, d: nat)
    requires k <= m
    ensures Times(k, d) <= Times(m, d)
    decreases m
  {
    if k < m { TimesMonotone(k, m - 1, d); }
  }
}
