/** Divisibility facts, each proved in isolation so that no other proof meets nonlinear arithmetic. */
module Congruence {

  lemma MulBounds(d: int, n: int)
    requires n > 0
    ensures d >= 1 ==> d * n >= n
    ensures d <= -1 ==> d * n <= -n
  {
    if d >= 1 {
      MulNonNegative(d - 1, n);
      assert d * n == (d - 1) * n + n;
    } else if d <= -1 {
      MulNonNegative(-d - 1, n);
      assert d * n == -((-d - 1) * n) - n;
    }
  }

  lemma MulNonNegative(a: int, b: int)
    requires a >= 0 && b >= 0
    ensures a * b >= 0
  {
  }

  lemma Distribute(a: int, b: int, n: int)
    ensures (a + b) * n == a * n + b * n
    ensures (a - b) * n == a * n - b * n
  {
  }

  lemma Associate(a: int, b: int, n: int)
    ensures (a * b) * n == a * (b * n)
    ensures (a * b) * n == (a * n) * b
  {
  }

  lemma DivMod(a: int, n: int)
    requires n > 0
    ensures a == (a / n) * n + a % n && 0 <= a % n < n
  {
  }

  lemma RemainderUnique(a: int, k: int, r: int, n: int)
    requires n > 0 && a == k * n + r && 0 <= r < n
    ensures a % n == r && a / n == k
  {
    DivMod(a, n);
    Distribute(a / n, k, n);
    MulBounds(a / n - k, n);
  }

  lemma MultipleIsZero(k: int, n: int)
    requires n > 0
    ensures (k * n) % n == 0
  {
    RemainderUnique(k * n, k, 0, n);
  }

  lemma SmallMultiple(z: int, n: int)
    requires n > 0 && z % n == 0 && -n < z < n
    ensures z == 0
  {
    DivMod(z, n);
    MulBounds(z / n, n);
  }

  lemma ZeroSum(a: int, b: int, n: int)
    requires n > 0 && a % n == 0 && b % n == 0
    ensures (a + b) % n == 0 && (a - b) % n == 0
  {
    DivMod(a, n);
    DivMod(b, n);
    Distribute(a / n, b / n, n);
    MultipleIsZero(a / n + b / n, n);
    MultipleIsZero(a / n - b / n, n);
  }

  lemma ZeroProduct(a: int, k: int, n: int)
    requires n > 0 && a % n == 0
    ensures (a * k) % n == 0 && (k * a) % n == 0
  {
    DivMod(a, n);
    Associate(a / n, k, n);
    MultipleIsZero((a / n) * k, n);
  }

  // Equal remainders mean a divisible difference.
  lemma SameRemainder(a: int, b: int, n: int)
    requires n > 0
    ensures a % n == b % n <==> (a - b) % n == 0
  {
    DivMod(a, n);
    DivMod(b, n);
    Distribute(a / n, b / n, n);
    if a % n == b % n {
      MultipleIsZero(a / n - b / n, n);
    }
    if (a - b) % n == 0 {
      DivMod(a - b, n);
      Distribute(b / n, (a - b) / n, n);
      RemainderUnique(a, b / n + (a - b) / n, b % n, n);
    }
  }

  // The shift that moves `from` up to the next number congruent to `to`.
  lemma NextCongruent(from: int, to: int, n: int)
    requires n > 0
    ensures (from + (to - from) % n - to) % n == 0
  {
    DivMod(to - from, n);
    MultipleIsZero(-((to - from) / n), n);
    assert from + (to - from) % n - to == (-((to - from) / n)) * n by {
      Distribute(0, (to - from) / n, n);
    }
  }

  // Reducing one summand first makes no difference.
  lemma ReduceFirst(h: int, rest: int, n: int)
    requires n > 0
    ensures (h % n + rest) % n == (h + rest) % n
  {
    DivMod(h, n);
    MultipleIsZero(h / n, n);
    SameRemainder(h + rest, h % n + rest, n);
  }

  lemma ReachRemainder(from: int, k: int, n: int) returns (step: nat)
    requires 0 <= k < n
    ensures step < n && (from + step) % n == k
  {
    step := (k - from) % n;
    NextCongruent(from, k, n);
    SameRemainder(from + step, k, n);
    RemainderUnique(k, 0, k, n);
  }

  // ---------- greatest common divisor ----------

  function Gcd(a: nat, b: nat): (d: nat)
    requires a > 0 || b > 0
    ensures d > 0
    decreases b
  {
    if b == 0 then a else Gcd(b, a % b)
  }

  lemma BezoutStep(a: int, b: int, u: int, v: int, q: int, r: int)
    requires a == q * b + r
    ensures a * v + b * (u - q * v) == b * u + r * v
  {
    Distribute(q * b, r, v);
    Associate(q, b, v);
    Distribute(u, q * v, b);
  }

  lemma {:induction false} Bezout(a: nat, b: nat) returns (x: int, y: int)
    requires a > 0 || b > 0
    ensures a * x + b * y == Gcd(a, b)
    decreases b
  {
    if b == 0 {
      x, y := 1, 0;
    } else {
      var u, v := Bezout(b, a % b);
      x, y := v, u - (a / b) * v;
      DivMod(a, b);
      BezoutStep(a, b, u, v, a / b, a % b);
    }
  }

  lemma {:induction false} GcdDivides(a: nat, b: nat)
    requires a > 0 || b > 0
    ensures a % Gcd(a, b) == 0 && b % Gcd(a, b) == 0
    decreases b
  {
    if b == 0 {
      MultipleIsZero(1, a);
      MultipleIsZero(0, a);
    } else {
      GcdDivides(b, a % b);
      var d := Gcd(b, a % b);
      DivMod(a, b);
      ZeroProduct(b, a / b, d);
      ZeroSum((a / b) * b, a % b, d);
    }
  }

  // Multiplying by a number coprime to n is cancellable modulo n.
  lemma CoprimeCancels(a: nat, d: int, n: nat)
    requires a > 0 && n > 0 && Gcd(a, n) == 1 && (d * a) % n == 0
    ensures d % n == 0
  {
    var x, y := Bezout(a, n);
    ZeroProduct(d * a, x, n);
    MultipleIsZero(d * y, n);
    ZeroSum((d * a) * x, (d * y) * n, n);
    assert (d * a) * x + (d * y) * n == d * (a * x + n * y) by {
      Associate(d, a, x);
      Associate(d, y, n);
      Distribute(a * x, n * y, d);
    }
  }

  // ... and reaches every remainder.
  lemma CoprimeSolves(a: nat, want: int, n: nat) returns (e: int)
    requires a > 0 && n > 0 && Gcd(a, n) == 1
    ensures (e * a - want) % n == 0
  {
    var x, y := Bezout(a, n);
    e := x * want;
    MultipleIsZero(-(want * y), n);
    assert e * a - want == (-(want * y)) * n by {
      Associate(x, want, a);
      assert x * (want * a) == want * (a * x) by { Associate(want, a, x); Associate(x, want, a); }
      assert a * x == 1 - n * y;
      Distribute(1, n * y, want);
      Associate(want, y, n);
      Distribute(0, want * y, n);
    }
  }

  lemma ProperFraction(n: nat, d: nat)
    requires n > 0 && d > 1 && n % d == 0
    ensures 0 < n / d < n
  {
    var q := n / d;
    DivMod(n, d);
    if q <= 0 {
      MulNonNegative(-q, d);
      Distribute(0, q, d);
    } else {
      MulBounds(d - 1, q);
      Distribute(d, 1, q);
    }
  }

  lemma CrossMultiply(p: int, q: int, d: int)
    ensures q * (p * d) == p * (q * d)
  {
    Associate(q, p, d);
    Associate(p, q, d);
  }

  // With a common divisor, some proper fraction of n already is a period of multiplication by a.
  lemma SharedPeriod(a: nat, n: nat) returns (q: nat)
    requires a > 0 && n > 0 && Gcd(a, n) > 1
    ensures 0 < q < n && (q * a) % n == 0
  {
    var d := Gcd(a, n);
    GcdDivides(a, n);
    ProperFraction(n, d);
    q := n / d;
    DivMod(a, d);
    DivMod(n, d);
    CrossMultiply(a / d, q, d);
    MultipleIsZero(a / d, n);
  }
}
