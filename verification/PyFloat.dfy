/** Python's `float(n)` for integers: IEEE 754 binary64, round half to even, with the
    OverflowError beyond the largest double. Every double reached from an integer is an integer. */
module PyFloat {
  import opened Text

  const TWO_53: nat := 9007199254740992

  function Pow2(k: nat): (p: nat)
    ensures p > 0
  {
    if k == 0 then 1 else 2 * Pow2(k - 1)
  }

  /** The exponent of the last place: the number of low bits of `n` that a double drops. */
  function DroppedBits(n: nat): nat {
    if n < TWO_53 then 0 else 1 + DroppedBits(n / 2)
  }

  /** The multiple of 2^k nearest to `n`, ties to the even multiple. */
  function RoundAt(n: nat, k: nat): nat {
    RoundTo(n, Pow2(k))
  }

  function RoundTo(n: nat, p: nat): nat
    requires p > 0
  {
    Nearest(n / p, n % p, p) * p
  }

  /** The quotient `q` or its successor, whichever is nearer for remainder `r` of `p`. */
  function Nearest(q: nat, r: nat, p: nat): nat {
    if 2 * r > p || (2 * r == p && q % 2 == 1) then q + 1 else q
  }

  function NatToFloat(n: nat): nat {
    RoundAt(n, DroppedBits(n))
  }

  /** `float(n)`; `None` is OverflowError. */
  function ToFloat(n: int): Option<int> {
    var f := if n < 0 then -(NatToFloat(-n) as int) else NatToFloat(n);
    if NatToFloat(if n < 0 then -n else n) >= Pow2(1024) then None else Some(f)
  }

  lemma {:induction false} DroppedBitsBound(n: nat)
    ensures n < TWO_53 * Pow2(DroppedBits(n))
    ensures DroppedBits(n) > 0 ==> TWO_53 * Pow2(DroppedBits(n) - 1) <= n
  {
    if n >= TWO_53 {
      DroppedBitsBound(n / 2);
      if n / 2 < TWO_53 {
        assert Pow2(0) == 1 && Pow2(1) == 2 * Pow2(0);
      }
    }
  }

  lemma {:induction false} DroppedBitsMonotone(m: nat, n: nat)
    requires m <= n
    ensures DroppedBits(m) <= DroppedBits(n)
  {
    if m >= TWO_53 {
      DroppedBitsMonotone(m / 2, n / 2);
    }
  }

  lemma {:induction false} Pow2Monotone(j: nat, k: nat)
    requires j <= k
    ensures Pow2(j) <= Pow2(k)
    decreases k
  {
    if j < k {
      Pow2Monotone(j, k - 1);
    }
  }

  lemma MulMonotone(a: nat, b: nat, p: nat)
    requires a <= b
    ensures a * p <= b * p
  {
  }

  lemma DivModMonotone(m: nat, n: nat, p: nat)
    requires m <= n && p > 0
    ensures m / p <= n / p
    ensures m / p == n / p ==> m % p <= n % p
  {
    if n / p < m / p {
      MulMonotone(n / p + 1, m / p, p);
      assert false;
    }
  }

  lemma RoundAtMonotone(m: nat, n: nat, k: nat)
    requires m <= n
    ensures RoundAt(m, k) <= RoundAt(n, k)
  {
    RoundToMonotone(m, n, Pow2(k));
  }

  lemma RoundToMonotone(m: nat, n: nat, p: nat)
    requires m <= n && p > 0
    ensures RoundTo(m, p) <= RoundTo(n, p)
  {
    DivModMonotone(m, n, p);
    var a, b := Nearest(m / p, m % p, p), Nearest(n / p, n % p, p);
    assert a <= b by { NearestMonotone(m / p, m % p, n / p, n % p, p); }
    MulMonotone(a, b, p);
  }

  lemma NearestMonotone(q: nat, r: nat, q': nat, r': nat, p: nat)
    requires q <= q' && (q == q' ==> r <= r')
    ensures Nearest(q, r, p) <= Nearest(q', r', p)
  {
  }

  /** Rounding never leaves the interval between two multiples of the rounding unit. */
  lemma RoundAtBounds(n: nat, k: nat, lo: nat, hi: nat)
    requires lo * Pow2(k) <= n <= hi * Pow2(k)
    ensures lo * Pow2(k) <= RoundAt(n, k) <= hi * Pow2(k)
  {
    RoundAtMonotone(lo * Pow2(k), n, k);
    RoundAtMonotone(n, hi * Pow2(k), k);
    RoundMultiple(lo, k);
    RoundMultiple(hi, k);
  }

  lemma RoundMultiple(q: nat, k: nat)
    ensures RoundAt(q * Pow2(k), k) == q * Pow2(k)
  {
    var p := Pow2(k);
    DivOfMultiple(q, p);
  }

  lemma DivOfMultiple(q: nat, p: nat)
    requires p > 0
    ensures (q * p) / p == q && (q * p) % p == 0
  {
    var n := q * p;
    if n / p < q {
      MulMonotone(n / p + 1, q, p);
      assert false;
    } else if q < n / p {
      MulMonotone(q + 1, n / p, p);
      assert false;
    }
  }

  lemma NatToFloatMonotone(m: nat, n: nat)
    requires m <= n
    ensures NatToFloat(m) <= NatToFloat(n)
  {
    var j, k := DroppedBits(m), DroppedBits(n);
    DroppedBitsMonotone(m, n);
    if j == k {
      RoundAtMonotone(m, n, k);
    } else {
      // 2^(53+k-1) separates the two: m rounds to at most it, n to at least it.
      DroppedBitsBound(m);
      DroppedBitsBound(n);
      Pow2Monotone(j, k - 1);
      MulMonotone(Pow2(j), Pow2(k - 1), TWO_53);
      RoundAtBounds(m, j, 0, TWO_53);
      var half := TWO_53 / 2;
      assert half * Pow2(k) == TWO_53 * Pow2(k - 1);
      RoundAtBounds(n, k, half, TWO_53);
    }
  }

  /** Converting integers to doubles is monotone. */
  lemma ToFloatMonotone(m: int, n: int)
    requires m <= n && ToFloat(m).Some? && ToFloat(n).Some?
    ensures ToFloat(m).value <= ToFloat(n).value
  {
    if n < 0 {
      NatToFloatMonotone(-n, -m);
    } else if m >= 0 {
      NatToFloatMonotone(m, n);
    }
  }

  /** Up to 2^53 in magnitude the conversion is exact. */
  lemma ToFloatExact(n: int)
    requires n <= TWO_53 && -n <= TWO_53
    ensures ToFloat(n) == Some(n)
  {
    var a := if n < 0 then -n else n;
    if a == TWO_53 {
      assert TWO_53 / 2 < TWO_53 && DroppedBits(TWO_53 / 2) == 0;
      assert DroppedBits(a) == 1 && Pow2(1) == 2 * Pow2(0);
    }
    assert NatToFloat(a) == a;
    Pow2Monotone(60, 1024);
    assert Pow2(60) > TWO_53 by { Pow2Sixty(); }
  }

  lemma Pow2Sixty()
    ensures Pow2(60) == 1152921504606846976
  {
    assert Pow2(10) == 1024;
    assert Pow2(20) == 1024 * 1024;
    assert Pow2(30) == 1024 * 1024 * 1024;
    assert Pow2(40) == 1024 * 1024 * 1024 * 1024;
    assert Pow2(50) == 1024 * 1024 * 1024 * 1024 * 1024;
  }

  /** Above 2^53 it is not injective: neighbouring integers can share a double. */
  lemma ToFloatNotInjective()
    ensures ToFloat(TWO_53 + 1) == ToFloat(TWO_53)
  {
    ToFloatExact(TWO_53);
    var n := TWO_53 + 1;
    assert n / 2 < TWO_53 && DroppedBits(n / 2) == 0;
    assert DroppedBits(n) == 1 && Pow2(1) == 2 * Pow2(0);
    assert NatToFloat(n) == TWO_53;
    ToFloatExact(TWO_53);
  }

  // ---------- Nearest ----------

  function Distance(a: int, b: int): nat {
    if a < b then b - a else a - b
  }

  /** A number that a double holds exactly, among the non-negative integers. */
  ghost predicate IsDouble(x: nat) {
    exists q: nat, e: nat :: IsScaled(x, q, e)
  }

  predicate IsScaled(x: nat, q: nat, e: nat) {
    q <= TWO_53 && x == q * Pow2(e)
  }

  lemma NatToFloatIsDouble(n: nat)
    ensures IsDouble(NatToFloat(n))
  {
    var k := DroppedBits(n);
    DroppedBitsBound(n);
    RoundAtBounds(n, k, 0, TWO_53);
    var q := Nearest(n / Pow2(k), n % Pow2(k), Pow2(k));
    if q > TWO_53 {
      MulMonotone(TWO_53 + 1, q, Pow2(k));
    }
    assert IsScaled(NatToFloat(n), q, k);
  }

  /** Among the multiples of `p` none is nearer, and of two equally near ones the even one is taken. */
  lemma RoundToNearest(n: nat, p: nat, m: nat)
    requires p > 0
    ensures Distance(RoundTo(n, p), n) <= Distance(m * p, n)
    ensures Distance(RoundTo(n, p), n) == Distance(m * p, n) ==> RoundTo(n, p) == m * p || (RoundTo(n, p) / p) % 2 == 0
  {
    var q, r := n / p, n % p;
    assert n == q * p + r;
    var c := Nearest(q, r, p);
    DivOfMultiple(c, p);
    if m <= q {
      MulMonotone(m, q, p);
      MultipleBelow(m, q, p);
    } else {
      MulMonotone(q + 1, m, p);
      MultipleBelow(q + 1, m, p);
    }
    assert (q + 1) * p == q * p + p;
  }

  lemma MultipleBelow(a: nat, b: nat, p: nat)
    requires a <= b && p > 0
    ensures a * p == b * p || a * p + p <= b * p
  {
    if a < b {
      MulMonotone(a + 1, b, p);
      assert (a + 1) * p == a * p + p;
    }
  }

  lemma {:induction false} Pow2Sum(a: nat, b: nat)
    ensures Pow2(a + b) == Pow2(a) * Pow2(b)
  {
    if a > 0 {
      Pow2Sum(a - 1, b);
      assert Pow2(a + b) == 2 * Pow2(a - 1 + b);
      MulAssociates(2, Pow2(a - 1), Pow2(b));
    }
  }

  lemma MulAssociates(a: nat, b: nat, c: nat)
    ensures (a * b) * c == a * (b * c)
  {
  }

  /** A double with a coarser last place is a multiple of this one. */
  lemma CoarserIsMultiple(x: nat, q: nat, e: nat, k: nat)
    requires IsScaled(x, q, e) && k <= e
    ensures x == (q * Pow2(e - k)) * Pow2(k)
  {
    Pow2Sum(e - k, k);
    MulAssociates(q, Pow2(e - k), Pow2(k));
  }

  /** One with a finer last place lies at or below the power of two where the doubles around `n` begin. */
  lemma FinerIsBelow(n: nat, x: nat, q: nat, e: nat)
    requires IsScaled(x, q, e) && e < DroppedBits(n)
    ensures x <= (TWO_53 / 2) * Pow2(DroppedBits(n)) <= n
  {
    var k := DroppedBits(n);
    DroppedBitsBound(n);
    Pow2Monotone(e, k - 1);
    assert Pow2(k) == 2 * Pow2(k - 1);
    hide Pow2, DroppedBits;
    HalfDouble(Pow2(k - 1));
    ScaledBelow(q, Pow2(e), Pow2(k - 1));
  }

  lemma HalfDouble(p: nat)
    ensures (TWO_53 / 2) * (2 * p) == TWO_53 * p
  {
  }

  lemma ScaledBelow(q: nat, a: nat, b: nat)
    requires q <= TWO_53 && a <= b
    ensures q * a <= TWO_53 * b
  {
    MulMonotone(q, TWO_53, a);
    MulMonotone(a, b, TWO_53);
    assert a * TWO_53 == TWO_53 * a && b * TWO_53 == TWO_53 * b;
  }

  /** No double is nearer to an integer than the one it is converted to. */
  lemma NoDoubleIsNearer(n: nat, x: nat)
    requires IsDouble(x)
    ensures Distance(NatToFloat(n), n) <= Distance(x, n)
  {
    var k := DroppedBits(n);
    var q: nat, e: nat :| IsScaled(x, q, e);
    hide IsScaled, RoundTo, DroppedBits, Pow2;
    if e >= k {
      CoarserIsMultiple(x, q, e, k);
      RoundToNearest(n, Pow2(k), q * Pow2(e - k));
    } else {
      FinerIsBelow(n, x, q, e);
      RoundToNearest(n, Pow2(k), TWO_53 / 2);
    }
  }

  /** `float(n)` is a double, no double is nearer, the sign goes along, and it fails exactly when the nearest
      double would lie at 2^1024 or beyond. */
  lemma ToFloatNearest(n: int, x: nat)
    requires IsDouble(x)
    ensures ToFloat(n).Some? <==> NatToFloat(Distance(n, 0)) < Pow2(1024)
    ensures ToFloat(n).Some? ==>
              var f := ToFloat(n).value;
              && IsDouble(Distance(f, 0)) && (f == 0 || (f < 0 <==> n < 0))
              && Distance(Distance(f, 0), Distance(n, 0)) <= Distance(x, Distance(n, 0))
  {
    NatToFloatIsDouble(Distance(n, 0));
    NoDoubleIsNearer(Distance(n, 0), x);
    hide NatToFloat, Pow2, IsDouble;
  }
}
