/** Which residues the multiples of a number reach. */
module Residues {

  function Gcd(a: nat, b: nat): (g: nat)
    requires a > 0 || b > 0
    ensures g > 0
    decreases b
  {
    if b == 0 then a else Gcd(b, a % b)
  }

  /** The greatest common divisor divides both numbers and is a combination of them. */
  lemma {:induction false} Bezout(a: nat, b: nat) returns (x: int, y: int, p: nat, q: nat)
    requires a > 0 || b > 0
    ensures x * a + y * b == Gcd(a, b) && a == p * Gcd(a, b) && b == q * Gcd(a, b)
    decreases b
  {
    if b == 0 {
      x, y, p, q := 1, 0, 1, 0;
    } else {
      var u, v, r, s := Bezout(b, a % b);
      x, y, p, q := v, u - v * (a / b), s + a / b * r, r;
      Combine(a, b, u, v, Gcd(a, b));
      Multiple(a, b, r, s, Gcd(a, b));
    }
  }

  /** A proper divisor of a number is its greatest common divisor with it. */
  lemma EvenGcd(k: nat, q: nat, n: nat)
    requires q >= 2 && k * q == n > 0
    ensures 1 <= k < n && Gcd(k, n) == k
  {
    Proper(k, q, n);
    ResidueIs(n, 0, q, k);
    GcdOfMultiple(k, n);
  }

  lemma Proper(k: nat, q: nat, n: nat)
    requires q >= 2 && k * q == n > 0
    ensures 1 <= k < n && n == 0 + q * k
  {
    if k > 0 {
      AtLeastOnce(q - 1, k);
      assert k * q == k + (q - 1) * k;
    }
  }

  lemma GcdOfMultiple(k: nat, n: nat)
    requires 0 < k < n && n % k == 0
    ensures Gcd(k, n) == k
  {
    ResidueIs(k, k, 0, n);
    GcdStep(k, n, k);
    GcdStep(n, k, 0);
  }

  lemma GcdStep(a: nat, b: nat, rest: nat)
    requires b > 0 && a % b == rest
    ensures Gcd(a, b) == Gcd(b, rest)
  {
  }

  lemma Combine(a: nat, b: nat, u: int, v: int, g: int)
    requires b > 0 && u * b + v * (a % b) == g
    ensures v * a + (u - v * (a / b)) * b == g
  {
    var d := a / b;
    assert a == d * b + a % b;
    assert v * a == v * (d * b) + v * (a % b);
    assert v * (d * b) == v * d * b;
    assert (u - v * d) * b == u * b - v * d * b;
  }

  lemma Multiple(a: nat, b: nat, r: nat, s: nat, g: nat)
    requires b > 0 && b == r * g && a % b == s * g
    ensures a == (s + a / b * r) * g
  {
    var d := a / b;
    assert a == d * b + a % b;
    assert d * (r * g) == d * r * g;
    assert (s + d * r) * g == s * g + d * r * g;
  }

  lemma ResidueIs(n: nat, m: nat, z: int, modulus: nat)
    requires m < modulus && n == m + z * modulus
    ensures n % modulus == m
  {
    var d, r := n / modulus, n % modulus;
    assert n == d * modulus + r;
    assert (d - z) * modulus == d * modulus - z * modulus;
    assert (z - d) * modulus == z * modulus - d * modulus;
    if d > z {
      AtLeastOnce(d - z, modulus);
    } else if d < z {
      AtLeastOnce(z - d, modulus);
    }
  }

  lemma AtLeastOnce(times: nat, n: nat)
    requires times >= 1
    ensures times * n >= n
  {
    assert times * n == (times - 1) * n + n;
  }

  /** The largest number under the modulus that leaves the same rest as `a` when divided by
      the greatest common divisor of step and modulus. */
  function Largest(a: nat, step: nat, modulus: nat): nat
    requires modulus > 0
  {
    var g := Gcd(step, modulus);
    if g <= modulus then modulus - g + a % g else 0
  }

  /** For a step that divides the modulus, counting from one. */
  lemma LargestEven(k: nat, q: nat, n: nat)
    requires q >= 2 && k * q == n > 0
    ensures 1 <= k < n && Largest(1, k, n) == n - k + if k == 1 then 0 else 1
  {
    EvenGcd(k, q, n);
    OneRest(k);
  }

  lemma OneRest(k: nat)
    requires k >= 1
    ensures 1 % k == if k == 1 then 0 else 1
  {
    if k > 1 {
      ResidueIs(1, 1, 0, k);
    }
  }

  /** No residue of an arithmetic progression is above it. */
  lemma ProgressionBelow(a: nat, step: nat, modulus: nat, j: nat)
    requires modulus > 0
    ensures (a + j * step) % modulus <= Largest(a, step, modulus) < modulus
  {
    var g := Gcd(step, modulus);
    var _, _, p, q := Bezout(step, modulus);
    AtLeastOnce(q, g);
    var n := a + j * step;
    var r := n % modulus;
    SameRest(a, j, p, q, g, n, step, modulus);
    UnderCap(r, a % g, q, g);
  }

  lemma SameRest(a: nat, j: nat, p: nat, q: nat, g: nat, n: nat, step: nat, modulus: nat)
    requires g > 0 && modulus > 0 && step == p * g && modulus == q * g && n == a + j * step
    ensures n % modulus % g == a % g
  {
    var r, d := n % modulus, n / modulus;
    var z := a / g + j * p - d * q;
    assert n == d * modulus + r;
    assert a == a / g * g + a % g;
    assert j * (p * g) == j * p * g && d * (q * g) == d * q * g;
    assert z * g == a / g * g + j * p * g - d * q * g;
    ResidueIs(r, a % g, z, g);
  }

  lemma Under(d: nat, q: nat, g: nat, rest: nat)
    requires d * g + rest < q * g
    ensures d * g + g <= q * g
  {
    if d >= q {
      assert d * g == q * g + (d - q) * g;
    } else {
      AtLeastOnce(q - d, g);
      assert q * g == d * g + (q - d) * g;
    }
  }

  lemma UnderCap(r: nat, rest: nat, q: nat, g: nat)
    requires g > 0 && r < q * g && r % g == rest
    ensures r <= q * g - g + rest
  {
    var d := r / g;
    assert r == d * g + rest;
    Under(d, q, g, rest);
  }

  /** And some residue reaches it. */
  lemma ProgressionReaches(a: nat, step: nat, modulus: nat) returns (j: nat)
    requires modulus > 0
    ensures (a + j * step) % modulus == Largest(a, step, modulus)
  {
    var g := Gcd(step, modulus);
    var x, y, p, q := Bezout(step, modulus);
    AtLeastOnce(q, g);
    var t := Steps(a, q, g);
    var d: int;
    d, j := Divided(t * x, modulus);
    Reaching(j, d, t, x, y, g, step, modulus);
    ResidueIs(a + j * step, Largest(a, step, modulus), -(t * y + d * step), modulus);
  }

  lemma Steps(a: nat, q: nat, g: nat) returns (t: int)
    requires g > 0
    ensures a + t * g == q * g - g + a % g
  {
    var d := a / g;
    t := q - 1 - d;
    assert a == d * g + a % g;
    assert (q - 1 - d) * g == q * g - g - d * g;
  }

  lemma Divided(v: int, modulus: nat) returns (d: int, j: nat)
    requires modulus > 0
    ensures v == d * modulus + j
  {
    d, j := v / modulus, v % modulus;
  }

  lemma Reaching(j: nat, d: int, t: int, x: int, y: int, g: nat, step: nat, modulus: nat)
    requires modulus > 0 && x * step + y * modulus == g && t * x == d * modulus + j
    ensures j * step == t * g + -(t * y + d * step) * modulus
  {
    assert t * x * step == (d * modulus + j) * step == d * modulus * step + j * step;
    assert t * (x * step + y * modulus) == t * x * step + t * y * modulus;
    assert d * modulus * step == d * step * modulus;
    assert (t * y + d * step) * modulus == t * y * modulus + d * step * modulus;
  }
}
