// Facts about products, quotients and remainders of naturals.
module Arithmetic {

  function Min(a: nat, b: nat): nat { if b < a then b else a }
  function Max(a: nat, b: nat): nat { if b > a then b else a }

  // One more digit of a number with mixed radices.
  function Radix(a: nat, m: nat, b: nat): nat { a * m + b }

  lemma MulMonotone(a: nat, b: nat, c: nat)
    requires a <= b
    ensures a * c <= b * c
    ensures a < b ==> a * c + c <= b * c
  {
    assert b * c == a * c + (b - a) * c;
    if a < b { assert (b - a) * c == c + (b - a - 1) * c; }
  }

  lemma Successor(ptr: nat, n: nat)
    requires ptr < n
    ensures (ptr + 1) % n == if ptr + 1 < n then ptr + 1 else 0
  {}

  // A quotient and a remainder in range are the only ones.
  lemma DivUnique(a: nat, b: nat, q: nat, r: nat)
    requires r < b && a == q * b + r
    ensures a / b == q && a % b == r
  {
    var q', r' := a / b, a % b;
    assert a == q' * b + r';
    if q' < q {
      MulMonotone(q', q, b);
    } else if q < q' {
      MulMonotone(q, q', b);
    }
  }

  lemma QuotientRemainder(a: nat, d: nat)
    requires d > 0
    ensures a == a / d * d + a % d && a % d < d
  {}

  lemma DivBelow(a: nat, m: nat, d: nat)
    requires d > 0 && a < m * d
    ensures a / d < m
  {
    if m <= a / d { MulMonotone(m, a / d, d); }
  }

  lemma DivAtLeast(a: nat, m: nat, d: nat)
    requires d > 0 && a >= m * d
    ensures a / d >= m
  {
    if a / d < m { MulMonotone(a / d, m, d); }
  }

  lemma DivMulBack(m: nat, d: nat)
    requires d > 0
    ensures m * d / d == m && m * d % d == 0
  {
    DivUnique(m * d, d, m, 0);
  }

  // One more than a multiple's worth of slots still fits.
  lemma SlotBelow(i: nat, n: nat, j: nat, m: nat)
    requires i < n && j < m
    ensures i * m + j < n * m
  {
    MulMonotone(i, n, m);
  }

  // Dividing in two steps.
  lemma DivTwice(a: nat, b: nat, c: nat)
    requires b > 0 && c > 0
    ensures b * c > 0
    ensures a / (b * c) == a / b / c
    ensures a % (b * c) == (a / b % c) * b + a % b
  {
    TwoSteps(a, b, c, a / b, a % b, a / b / c, a / b % c);
  }

  lemma TwoSteps(a: nat, b: nat, c: nat, q: nat, r: nat, q2: nat, r2: nat)
    requires a == q * b + r && r < b && q == q2 * c + r2 && r2 < c
    ensures b * c > 0 && a / (b * c) == q2 && a % (b * c) == r2 * b + r
  {
    MulMonotone(1, b, c);
    Distribute(q2, c, r2, b);
    SlotBelow(r2, c, r, b);
    Commute(b, c);
    DivUnique(a, b * c, q2, r2 * b + r);
  }

  lemma Distribute(x: nat, y: nat, z: nat, w: nat)
    ensures (x * y + z) * w == x * (w * y) + z * w
  {
    assert (x * y + z) * w == x * y * w + z * w;
    assert x * y * w == x * (w * y);
  }

  // One more, and the remainder moves on by one.
  lemma ModNext(j: nat, n: nat)
    requires n > 0
    ensures (j + 1) % n == (j % n + 1) % n
  {
    var a, b := j / n, j % n;
    QuotientRemainder(j, n);
    Successor(b, n);
    if b + 1 < n {
      DivUnique(j + 1, n, a, b + 1);
    } else {
      assert (a + 1) * n == a * n + n;
      DivUnique(j + 1, n, a + 1, 0);
    }
  }

  // Scaling a remainder.
  lemma ModScale(e: nat, x: nat, y: nat)
    requires e > 0 && y > 0
    ensures e * y > 0 && (e * x) % (e * y) == e * (x % y)
  {
    var q, r := x / y, x % y;
    Distribute(q, y, r, e);
    MulMonotone(r, y, e);
    MulMonotone(1, y, e);
    Commute(e, x);
    Commute(e, y);
    Commute(e, r);
    DivUnique(e * x, e * y, q, r * e);
  }

  lemma Commute(a: nat, b: nat)
    ensures a * b == b * a
  {}
}
