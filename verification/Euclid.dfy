/** Euclidean division on the integers: monotonicity and corner bounds. */
module Euclid {

  lemma ScaleLe(b: int, c: int, k: int)
    requires b <= c
    ensures k >= 0 ==> b * k <= c * k && k * b <= k * c
    ensures k <= 0 ==> c * k <= b * k && k * c <= k * b
  {
    assert (c - b) * k == c * k - b * k;
    if k >= 0 { assert (c - b) * k >= 0; } else { assert (c - b) * k <= 0; }
  }

  /** A quotient is bounded above by `q` exactly when the dividend is below `b * (q + 1)`. */
  lemma DivBelow(x: int, b: int, q: int)
    requires b > 0
    ensures x / b <= q <==> x < b * (q + 1)
  {
    var d := x / b;
    assert x == b * d + x % b;
    if d <= q {
      ScaleLe(d, q, b);
      assert b * (q + 1) == b * q + b;
    } else {
      ScaleLe(q + 1, d, b);
    }
  }

  lemma DivMono(x: int, y: int, b: int)
    requires b > 0 && x <= y
    ensures x / b <= y / b
  {
    DivBelow(y, b, y / b);
    DivBelow(x, b, y / b);
  }

  lemma DivNeg(x: int, b: int)
    requires b < 0
    ensures x / b == -(x / -b)
  {
    var q, r := x / b, x % b;
    assert x == b * q + r;
    assert b * q == (-b) * (-q);
    DivBelow(x, -b, -q);
    DivBelow(x, -b, -q - 1);
    assert (-b) * (-q + 1) == (-b) * (-q) + -b;
    assert (-b) * (-q - 1 + 1) == (-b) * (-q);
  }

  lemma DivSign(x: int, b: int)
    requires b > 0
    ensures x / b >= 0 <==> x >= 0
  {
    DivBelow(x, b, -1);
  }

  /** Dividing a non-negative number by more gives less, a negative one more. */
  lemma DivByMore(x: int, b: int, c: int)
    requires 0 < b <= c
    ensures x >= 0 ==> x / c <= x / b
    ensures x < 0 ==> x / b <= x / c
  {
    if x >= 0 {
      var q := x / b;
      DivSign(x, b);
      DivBelow(x, b, q);
      ScaleLe(b, c, q + 1);
      DivBelow(x, c, q);
    } else {
      var q := x / c;
      DivSign(x, c);
      DivBelow(x, c, q);
      ScaleLe(b, c, q + 1);
      DivBelow(x, b, q);
    }
  }

  predicate Between(x: int, lo: int, hi: int) { lo <= x <= hi || hi <= x <= lo }

  lemma DivBetween(x: int, lo: int, hi: int, b: int)
    requires lo <= x <= hi && b != 0
    ensures b > 0 ==> lo / b <= x / b <= hi / b
    ensures b < 0 ==> hi / b <= x / b <= lo / b
  {
    if b > 0 {
      DivMono(lo, x, b);
      DivMono(x, hi, b);
    } else {
      DivNeg(x, b);
      DivNeg(lo, b);
      DivNeg(hi, b);
      DivMono(lo, x, -b);
      DivMono(x, hi, -b);
    }
  }

  lemma DivisorBetween(x: int, b1: int, b2: int, y: int)
    requires b1 <= y <= b2 && (b1 > 0 || b2 < 0)
    ensures Between(x / y, x / b1, x / b2)
  {
    if b1 > 0 {
      DivByMore(x, b1, y);
      DivByMore(x, y, b2);
    } else {
      DivNeg(x, b1);
      DivNeg(x, y);
      DivNeg(x, b2);
      DivByMore(x, -b2, -y);
      DivByMore(x, -y, -b1);
    }
  }

  /** A quotient is no further from zero than the dividend. */
  lemma DivShrinks(x: int, b: int)
    requires b != 0
    ensures b > 0 ==> (x >= 0 ==> 0 <= x / b <= x) && (x < 0 ==> x <= x / b < 0)
    ensures b < 0 ==> (x >= 0 ==> -x <= x / b <= 0) && (x < 0 ==> 0 < x / b <= -x)
    ensures b < -1 && x < -1 ==> x / b < -x
  {
    var c := if b > 0 then b else -b;
    DivByMore(x, 1, c);
    DivBelow(x, c, -1);
    if b < 0 { DivNeg(x, b); }
    if b < -1 && x < -1 {
      DivByMore(x, 2, c);
      assert x / 2 > x;
    }
  }

  // ---- residues ----

  lemma MultipleMod(k: int, n: int)
    requires n > 0
    ensures (n * k) % n == 0
  {
    AddMultiple(0, k, n);
    assert 0 + k * n == n * k;
  }

  lemma AddMultiple(a: int, k: int, n: int)
    requires n > 0
    ensures (a + k * n) % n == a % n
  {
    var b := a + k * n;
    var q, p := a / n, b / n;
    assert a == n * q + a % n && b == n * p + b % n;
    assert n * (p - q - k) == a % n - b % n by {
      assert n * (p - q - k) == n * p - n * q - n * k;
    }
    SmallMultiple(p - q - k, n, a % n - b % n);
  }

  lemma SmallMultiple(d: int, n: int, r: int)
    requires n > 0 && n * d == r && -n < r < n
    ensures d == 0 && r == 0
  {
    if d >= 1 { ScaleLe(1, d, n); }
    if d <= -1 { ScaleLe(d, -1, n); }
  }
}
