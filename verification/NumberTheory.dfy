/** Divisibility, gcd, Fermat's little theorem and the identity behind RSA. */
module NumberTheory {

  // ---------------------------------------------------------------- divisibility

  predicate Multiple(d: int, k: int, x: int) { d * k == x }

  ghost predicate Divides(d: int, x: int) { exists k: int :: Multiple(d, k, x) }

  /** x and y are congruent modulo m; modulo 0 that is equality. */
  ghost predicate Congruent(x: int, y: int, m: int) { Divides(m, x - y) }

  lemma DividesBy(d: int, k: int, x: int)
    requires d * k == x
    ensures Divides(d, x)
  {
    assert Multiple(d, k, x);
  }

  lemma DividesSum(d: int, x: int, y: int)
    requires Divides(d, x) && Divides(d, y)
    ensures Divides(d, x + y) && Divides(d, x - y)
  {
    var i :| Multiple(d, i, x);
    var j :| Multiple(d, j, y);
    DividesBy(d, i + j, x + y);
    DividesBy(d, i - j, x - y);
  }

  lemma DividesProduct(d: int, x: int, y: int)
    requires Divides(d, x)
    ensures Divides(d, x * y)
  {
    var k :| Multiple(d, k, x);
    DividesBy(d, k * y, (d * k) * y);
  }

  lemma DividesMod(d: int, x: int)
    requires d > 0
    ensures Divides(d, x) <==> x % d == 0
  {
    if x % d == 0 { DividesBy(d, x / d, x); }
    if Divides(d, x) {
      var k :| Multiple(d, k, x);
      RemainderUnique(x, d, k, 0);
    }
  }

  lemma Monotone(d: nat, x: int, y: int)
    ensures x <= y ==> d * x <= d * y
  {}

  lemma RemainderUnique(x: int, d: int, k: int, r: int)
    requires d > 0 && x == d * k + r && 0 <= r < d
    ensures x % d == r && x / d == k
  {
    var q := x / d;
    assert x == d * q + x % d;
    Monotone(d, k + 1, q);
    Monotone(d, q + 1, k);
  }

  lemma CongruentMod(x: int, y: int, m: int)
    requires m > 0
    ensures Congruent(x, y, m) <==> x % m == y % m
  {
    assert x == m * (x / m) + x % m && y == m * (y / m) + y % m;
    if x % m == y % m { DividesBy(m, x / m - y / m, x - y); }
    if Congruent(x, y, m) {
      var k :| Multiple(m, k, x - y);
      assert x == m * (y / m + k) + y % m;
      RemainderUnique(x, m, y / m + k, y % m);
    }
  }

  lemma CongruentTrans(x: int, y: int, z: int, m: int)
    requires Congruent(x, y, m) && Congruent(y, z, m)
    ensures Congruent(x, z, m)
  {
    DividesSum(m, x - y, y - z);
  }

  lemma CongruentTimes(x: int, y: int, z: int, m: int)
    requires Congruent(x, y, m)
    ensures Congruent(x * z, y * z, m)
  {
    DividesProduct(m, x - y, z);
    assert (x - y) * z == x * z - y * z;
  }

  // ---------------------------------------------------------------- gcd

  function Gcd(a: nat, b: nat): nat
    decreases b
  {
    if b == 0 then a else Gcd(b, a % b)
  }

  /** Gcd is a common divisor, and every common divisor divides it. */
  lemma {:induction false} GcdIsGreatest(a: nat, b: nat)
    ensures Divides(Gcd(a, b), a) && Divides(Gcd(a, b), b)
    ensures forall d: int :: Divides(d, a) && Divides(d, b) ==> Divides(d, Gcd(a, b))
    decreases b
  {
    if b == 0 {
      DividesBy(a, 1, a);
      DividesBy(a, 0, 0);
    } else {
      GcdIsGreatest(b, a % b);
      var g := Gcd(b, a % b);
      assert a == b * (a / b) + a % b;
      DividesProduct(g, b, a / b);
      DividesSum(g, b * (a / b), a % b);
      forall d: int | Divides(d, a) && Divides(d, b)
        ensures Divides(d, g)
      {
        DividesProduct(d, b, a / b);
        DividesSum(d, a, b * (a / b));
      }
    }
  }

  lemma GcdSymmetric(a: nat, b: nat)
    ensures Gcd(a, b) == Gcd(b, a)
  {
    GcdIsGreatest(a, b);
    GcdIsGreatest(b, a);
    DividesEachOther(Gcd(a, b), Gcd(b, a));
  }

  lemma DividesEachOther(x: nat, y: nat)
    requires Divides(x, y) && Divides(y, x)
    ensures x == y
  {
    var i :| Multiple(x, i, y);
    var j :| Multiple(y, j, x);
    if x > 0 && y > 0 {
      assert i >= 1 && j >= 1;
      assert x * i >= x && y * j >= y;
    }
  }

  /** Bezout: coprime numbers have an inverse. */
  lemma {:induction false} Bezout(a: nat, b: nat) returns (x: int, y: int)
    ensures a * x + b * y == Gcd(a, b)
    decreases b
  {
    if b == 0 {
      x, y := 1, 0;
    } else {
      var u, v := Bezout(b, a % b);
      x, y := v, u - (a / b) * v;
      calc {
        a * x + b * y;
        a * v + b * u - b * ((a / b) * v);
        { assert b * ((a / b) * v) == (b * (a / b)) * v; assert b * (a / b) == a - a % b; }
        a * v + b * u - (a - a % b) * v;
        b * u + (a % b) * v;
      }
    }
  }

  // ---------------------------------------------------------------- primes

  ghost predicate Prime(p: nat) {
    p >= 2 && forall d: nat :: Divides(d, p) ==> d == 1 || d == p
  }

  lemma CoprimeToPrime(a: nat, p: nat)
    requires Prime(p) && !Divides(p, a)
    ensures Gcd(a, p) == 1
  {
    GcdIsGreatest(a, p);
  }

  /** Euclid's lemma. */
  lemma PrimeDividesProduct(p: nat, a: nat, b: int)
    requires Prime(p) && Divides(p, a * b) && !Divides(p, a)
    ensures Divides(p, b)
  {
    CoprimeToPrime(a, p);
    var x, y := Bezout(a, p);
    DividesProduct(p, a * b, x);
    DividesBy(p, y * b, p * (y * b));
    DividesSum(p, (a * b) * x, p * (y * b));
    calc {
      (a * b) * x + p * (y * b);
      (a * x) * b + (p * y) * b;
      (a * x + p * y) * b;
      b;
    }
  }

  /** Two different primes dividing x: their product divides x. */
  lemma PrimesDivide(p: nat, q: nat, x: int)
    requires Prime(p) && Prime(q) && p != q && Divides(p, x) && Divides(q, x)
    ensures Divides(p * q, x)
  {
    var k :| Multiple(p, k, x);
    assert !Divides(q, p);
    PrimeDividesProduct(q, p, k);
    var j :| Multiple(q, j, k);
    DividesBy(p * q, j, p * (q * j));
  }

  // ---------------------------------------------------------------- powers

  function Pow(b: int, e: nat): int { if e == 0 then 1 else b * Pow(b, e - 1) }

  lemma {:induction false} PowNonNegative(b: nat, e: nat)
    ensures Pow(b, e) >= 0
  {
    if e > 0 { PowNonNegative(b, e - 1); }
  }

  lemma {:induction false} PowAdd(b: int, i: nat, j: nat)
    ensures Pow(b, i + j) == Pow(b, i) * Pow(b, j)
  {
    if i > 0 {
      PowAdd(b, i - 1, j);
      assert b * (Pow(b, i - 1) * Pow(b, j)) == (b * Pow(b, i - 1)) * Pow(b, j);
    }
  }

  lemma {:induction false} PowMul(b: int, i: nat, j: nat)
    ensures Pow(b, i * j) == Pow(Pow(b, i), j)
  {
    if j > 0 {
      PowMul(b, i, j - 1);
      PowAdd(b, i, i * (j - 1));
      assert i * j == i + i * (j - 1);
    } else {
      assert i * j == 0;
    }
  }

  lemma {:induction false} PowCongruent(x: int, y: int, e: nat, m: int)
    requires Congruent(x, y, m)
    ensures Congruent(Pow(x, e), Pow(y, e), m)
  {
    if e == 0 {
      DividesBy(m, 0, 0);
    } else {
      PowCongruent(x, y, e - 1, m);
      CongruentTimes(Pow(x, e - 1), Pow(y, e - 1), x, m);
      CongruentTimes(x, y, Pow(y, e - 1), m);
      CongruentTrans(Pow(x, e - 1) * x, Pow(y, e - 1) * x, Pow(y, e), m);
    }
  }

  // ---------------------------------------------------------------- Fermat

  function Choose(n: nat, k: nat): nat {
    if k == 0 then 1 else if n == 0 then 0 else Choose(n - 1, k - 1) + Choose(n - 1, k)
  }

  lemma {:induction false} ChooseAbove(n: nat, k: nat)
    requires k > n
    ensures Choose(n, k) == 0
  {
    if n > 0 { ChooseAbove(n - 1, k - 1); ChooseAbove(n - 1, k); }
  }

  lemma {:induction false} ChooseDiagonal(n: nat)
    ensures Choose(n, n) == 1
  {
    if n > 0 { ChooseDiagonal(n - 1); ChooseAbove(n - 1, n); }
  }

  /** k * C(n, k) = n * C(n-1, k-1). */
  lemma {:induction false} ChooseAbsorb(n: nat, k: nat)
    requires n > 0 && k > 0
    ensures k * Choose(n, k) == n * Choose(n - 1, k - 1)
  {
    if n == 1 {
      if k > 1 { ChooseAbove(1, k); ChooseAbove(0, k - 1); }
    } else if k == 1 {
      ChooseAbsorb(n - 1, 1);
    } else {
      ChooseAbsorb(n - 1, k - 1);
      ChooseAbsorb(n - 1, k);
      AbsorbSum(n, k, Choose(n - 2, k - 2), Choose(n - 2, k - 1), Choose(n - 1, k - 1), Choose(n - 1, k));
    }
  }

  lemma AbsorbSum(n: int, k: int, c: int, d: int, x: int, y: int)
    requires x == c + d && (k - 1) * x == (n - 1) * c && k * y == (n - 1) * d
    ensures k * (x + y) == n * x
  {
    assert (n - 1) * x == (n - 1) * c + (n - 1) * d;
    assert k * (x + y) == (k - 1) * x + x + k * y;
  }

  lemma PrimeDividesChoose(p: nat, k: nat)
    requires Prime(p) && 0 < k < p
    ensures Divides(p, Choose(p, k))
  {
    ChooseAbsorb(p, k);
    DividesBy(p, Choose(p - 1, k - 1), k * Choose(p, k));
    if Divides(p, k) {
      var j :| Multiple(p, j, k);
      Monotone(p, 1, j);
      Monotone(p, j, 0);
      assert false;
    }
    PrimeDividesProduct(p, k, Choose(p, k));
  }

  /** The first k terms of the binomial expansion of (a + 1)^n. */
  function Binomial(n: nat, k: nat, a: int): int {
    if k == 0 then 0 else Binomial(n, k - 1, a) + Choose(n, k - 1) * Pow(a, k - 1)
  }

  lemma {:induction false} BinomialStep(n: nat, k: nat, a: int)
    ensures Binomial(n + 1, k + 1, a) == Binomial(n, k + 1, a) + a * Binomial(n, k, a)
  {
    if k > 0 {
      BinomialStep(n, k - 1, a);
      var x, y, w := Choose(n, k), Choose(n, k - 1), Pow(a, k - 1);
      assert Pow(a, k) == a * w;
      assert Binomial(n + 1, k + 1, a) == Binomial(n + 1, k, a) + (y + x) * (a * w);
      TermSum(x, y, a, w, Binomial(n, k - 1, a));
    } else {
      assert Binomial(n + 1, 1, a) == 1 && Binomial(n, 1, a) == 1;
    }
  }

  lemma TermSum(x: int, y: int, a: int, w: int, b: int)
    ensures a * b + (y + x) * (a * w) == x * (a * w) + a * (b + y * w)
  {
    assert y * (a * w) == a * (y * w);
  }

  lemma {:induction false} BinomialTheorem(n: nat, a: int)
    ensures Pow(a + 1, n) == Binomial(n, n + 1, a)
  {
    if n > 0 {
      BinomialTheorem(n - 1, a);
      BinomialStep(n - 1, n, a);
      ChooseAbove(n - 1, n);
      var b := Binomial(n - 1, n, a);
      assert Binomial(n - 1, n + 1, a) == b;
      assert Pow(a + 1, n) == (a + 1) * b == b + a * b;
    } else {
      assert Binomial(0, 1, a) == Choose(0, 0) * Pow(a, 0) == 1;
    }
  }

  lemma {:induction false} BinomialModPrime(p: nat, k: nat, a: int)
    requires Prime(p) && 1 <= k <= p
    ensures Congruent(Binomial(p, k, a), 1, p)
  {
    if k == 1 {
      assert Binomial(p, 1, a) == 1;
      DividesBy(p, 0, 0);
    } else {
      BinomialModPrime(p, k - 1, a);
      PrimeDividesChoose(p, k - 1);
      DividesProduct(p, Choose(p, k - 1), Pow(a, k - 1));
      DividesSum(p, Binomial(p, k - 1, a) - 1, Choose(p, k - 1) * Pow(a, k - 1));
    }
  }

  /** (a + 1)^p = a^p + 1 modulo a prime p. */
  lemma PrimePowerOfSum(p: nat, a: nat)
    requires Prime(p)
    ensures Congruent(Pow(a + 1, p), Pow(a, p) + 1, p)
  {
    BinomialTheorem(p, a);
    BinomialModPrime(p, p, a);
    ChooseDiagonal(p);
    assert Pow(a + 1, p) - (Pow(a, p) + 1) == Binomial(p, p, a) - 1;
  }

  /** Fermat's little theorem. */
  lemma {:induction false} Fermat(p: nat, a: nat)
    requires Prime(p)
    ensures Congruent(Pow(a, p), a, p)
  {
    if a == 0 {
      assert Pow(0, p) == 0 * Pow(0, p - 1) == 0;
      DividesBy(p, 0, 0);
    } else {
      Fermat(p, a - 1);
      PrimePowerOfSum(p, a - 1);
      DividesSum(p, Pow(a, p) - (Pow(a - 1, p) + 1), Pow(a - 1, p) - (a - 1));
    }
  }

  lemma FermatUnit(p: nat, m: nat)
    requires Prime(p) && !Divides(p, m)
    ensures Congruent(Pow(m, p - 1), 1, p)
  {
    Fermat(p, m);
    var f := Pow(m, p - 1);
    assert Pow(m, p) - m == m * (f - 1);
    PrimeDividesProduct(p, m, f - 1);
  }

  lemma UnitPower(m: nat, k: nat, t: nat, n: int)
    requires Congruent(Pow(m, k), 1, n)
    ensures Congruent(Pow(m, t * k), 1, n)
  {
    PowCongruent(Pow(m, k), 1, t, n);
    PowOne(t);
    PowMul(m, k, t);
    assert t * k == k * t;
  }

  /** m^(1 + t(p-1)) = m modulo a prime p, also when p divides m. */
  lemma PrimeExponent(p: nat, m: nat, x: nat, t: nat)
    requires Prime(p) && x == 1 + t * (p - 1)
    ensures Congruent(Pow(m, x), m, p)
  {
    var y := Pow(m, x - 1);
    assert Pow(m, x) == m * y == y * m;
    if Divides(p, m) {
      DividesProduct(p, m, y);
      DividesSum(p, m * y, m);
    } else {
      FermatUnit(p, m);
      UnitPower(m, p - 1, t, p);
      CongruentTimes(y, 1, m, p);
    }
  }

  lemma {:induction false} PowOne(e: nat)
    ensures Pow(1, e) == 1
  {
    if e > 0 { PowOne(e - 1); }
  }

  /** Raising to e and to d cancel modulo p*q when e*d is 1 modulo (p-1)(q-1). */
  lemma RsaIdentity(p: nat, q: nat, e: nat, d: nat, m: nat)
    requires Prime(p) && Prime(q) && p != q
    requires Congruent(e * d, 1, (p - 1) * (q - 1)) && e * d > 0
    ensures Congruent(Pow(Pow(m, d), e), m, p * q)
  {
    var x := e * d;
    var i, j := TotientMultiples(p, q, x);
    PowMul(m, d, e);
    assert Pow(Pow(m, d), e) == Pow(m, x) by { assert d * e == x; }
    PrimeExponent(p, m, x, i);
    PrimeExponent(q, m, x, j);
    PrimesDivide(p, q, Pow(m, x) - m);
  }

  lemma TotientMultiples(p: nat, q: nat, x: nat) returns (i: nat, j: nat)
    requires p >= 1 && q >= 1 && x > 0
    requires Congruent(x, 1, (p - 1) * (q - 1))
    ensures x == 1 + i * (p - 1) == 1 + j * (q - 1)
  {
    var phi := (p - 1) * (q - 1);
    var k :| Multiple(phi, k, x - 1);
    Monotone(phi, k, -1);
    var t: nat := if phi == 0 then 0 else k;
    Commute(p - 1, q - 1, t);
    i, j := t * (q - 1), t * (p - 1);
  }

  lemma Commute(x: int, y: int, t: int)
    ensures (x * y) * t == (t * y) * x == (t * x) * y
  {}
}
