/**
 * Exact arithmetic helpers standing for the JavaScript `Math` functions the
 * ledger uses. Money is an exact `real`, so `Math.max`, `Math.ceil` and
 * `Math.floor` are stated by what they mean rather than by floating point.
 */
module Numeric {

  /** `Math.max(0, x)`: the part of `x` above zero. */
  function Max0(x: real): (r: real)
    ensures r >= 0.0 && r >= x
    ensures r == x || r == 0.0
  {
    if x > 0.0 then x else 0.0
  }

  /** `Math.min(a, b)` on integers. */
  function MinInt(a: int, b: int): (r: int)
    ensures r <= a && r <= b
    ensures r == a || r == b
  {
    if a <= b then a else b
  }

  /** `Math.floor`: the greatest integer not above `x`. */
  function Floor(x: real): (r: int)
    ensures r as real <= x < r as real + 1.0
  {
    x.Floor
  }

  /** `Math.ceil`: the least integer not below `x`. */
  function Ceil(x: real): (r: int)
    ensures x <= r as real < x + 1.0
  {
    -((-x).Floor)
  }

  /** Multiplying by a positive factor keeps order. */
  lemma MulMonotone(a: real, b: real, t: real)
    requires a <= b && t > 0.0
    ensures a * t <= b * t
  {
  }

  /** Multiplying by a positive factor keeps strict order. */
  lemma StrictMulMonotone(a: real, b: real, t: real)
    requires a < b && t > 0.0
    ensures a * t < b * t
  {
  }

  /** A positive factor can be cancelled from a strict inequality. */
  lemma StrictMulCancel(a: real, b: real, t: real)
    requires a * t < b * t && t > 0.0
    ensures a < b
  {
    if a >= b {
      MulMonotone(b, a, t);
    }
  }

  /** Dividing by a non-zero amount and multiplying back gives the amount. */
  lemma DivMulCancel(b: real, w: real)
    requires w != 0.0
    ensures (b / w) * w == b
  {
  }

  /** Sharing an amount among at least one part gives each part no more than the amount, and no less than zero when the amount is not negative. */
  lemma ShareAtMost(b: real, w: real)
    requires w >= 1.0
    ensures b >= 0.0 ==> 0.0 <= b / w <= b
    ensures b > 0.0 ==> b / w > 0.0
  {
    DivMulCancel(b, w);
    if b > 0.0 {
      StrictMulCancel(0.0, b / w, w);
      MulMonotone(1.0, w, b / w);
    }
  }

  /**
   * `m` of `d` equal parts of `total`: their sum is `m / d` of the total, at
   * most the total when the total is not negative, and the whole total when
   * `m == d`.
   */
  lemma ShareOfParts(m: real, d: real, t: real, total: real)
    requires t * d == total && m <= d && d >= 1.0
    ensures (m * t) * d == m * total
    ensures total >= 0.0 ==> m * t <= total
    ensures m == d ==> m * t == total
  {
    assert (m * t) * d == m * (t * d);
    if total >= 0.0 {
      if t < 0.0 {
        StrictMulMonotone(t, 0.0, d);
        assert false;
      } else if t > 0.0 {
        MulMonotone(m, d, t);
      }
    }
  }

  /** `floor(p / t) * t <= p < (floor(p / t) + 1) * t` for a positive `t`. */
  lemma FloorOfQuotient(p: real, t: real)
    requires t > 0.0
    ensures Floor(p / t) as real * t <= p < (Floor(p / t) + 1) as real * t
  {
    var q := p / t;
    var k := Floor(q);
    assert q * t == p;
    assert (k + 1) as real == k as real + 1.0;
    MulMonotone(k as real, q, t);
    assert k as real * t <= p;
    StrictMulMonotone(q, (k + 1) as real, t);
    assert q * t < (k + 1) as real * t;
    assert p < (k + 1) as real * t;
  }

  /** `(ceil(p / t) - 1) * t < p <= ceil(p / t) * t` for a positive `t`. */
  lemma CeilOfQuotient(p: real, t: real)
    requires t > 0.0
    ensures (Ceil(p / t) - 1) as real * t < p <= Ceil(p / t) as real * t
  {
    var q := p / t;
    var k := Ceil(q);
    assert q * t == p;
    MulMonotone(q, k as real, t);
    assert p <= k as real * t;
    assert (k - 1) as real == k as real - 1.0;
    StrictMulMonotone((k - 1) as real, q, t);
    assert (k - 1) as real * t < q * t;
    assert (k - 1) as real * t < p;
  }

  /** A quotient bounded by `m` has its ceiling bounded by `m`. */
  lemma CeilAtMost(p: real, t: real, m: int)
    requires t > 0.0 && p <= m as real * t
    ensures Ceil(p / t) <= m
  {
    CeilOfQuotient(p, t);
    var k := Ceil(p / t);
    assert (k - 1) as real * t < m as real * t;
    StrictMulCancel((k - 1) as real, m as real, t);
  }

  /** When `k` whole targets fit in `p` and `k + 1` do not, `k` reaches `d` exactly when `p` reaches `d` targets. */
  lemma WholeTargetsReach(p: real, t: real, k: int, d: int)
    requires t > 0.0 && k as real * t <= p < (k + 1) as real * t
    ensures k >= d <==> p >= d as real * t
  {
    if k >= d {
      MulMonotone(d as real, k as real, t);
    } else {
      MulMonotone((k + 1) as real, d as real, t);
    }
  }

  /**
   * The rounded-up number of targets in a positive shortfall `due - paid`,
   * and zero when there is none, is the fewest whole targets that bring
   * `paid` up to `due`.
   */
  lemma CatchUpIsCeil(paid: real, due: real, t: real)
    requires t > 0.0
    ensures var k := if due - paid <= 0.0 then 0 else Ceil((due - paid) / t);
      && paid + k as real * t >= due
      && (k > 0 ==> paid + (k - 1) as real * t < due)
      && (k == 0 <==> paid >= due)
  {
    if due - paid > 0.0 {
      CeilOfQuotient(due - paid, t);
    }
  }
}
