/** Integer division by way of doubles (compiler/lowering.go): truncating the correctly rounded
    quotient of two integers below 2^53 in size gives the truncated quotient. */
module Quotients {
  import opened WideIntegers

  const LIMIT: int := 0x20_0000_0000_0000

  /** 2^e. */
  ghost function Power(e: int): (r: real)
    ensures r > 0.0
    decreases if e < 0 then -e else e
  {
    if e == 0 then 1.0 else if e > 0 then 2.0 * Power(e - 1) else Power(e + 1) / 2.0
  }

  ghost function Double(m: int, e: int): real
  {
    Mul(m as real, Power(e))
  }

  /** The values a double can have, without the bounds on the exponent; both are far away here. */
  ghost predicate Representable(r: real)
  {
    exists m: int, e: int :: m <= LIMIT && -m <= LIMIT && r == Double(m, e)
  }

  function Distance(a: real, b: real): real
  {
    if a <= b then b - a else a - b
  }

  /** `r` is `q` correctly rounded: no representable value is nearer. */
  ghost predicate Rounded(q: real, r: real)
  {
    Representable(r) && forall s :: Representable(s) ==> Distance(r, q) <= Distance(s, q)
  }

  /** Math.trunc. */
  function Trunc(r: real): int
  {
    if r >= 0.0 then r.Floor else -((-r).Floor)
  }

  /** Go's quotient of integers, rounded toward zero. */
  function Quotient(a: int, b: int): int
    requires b != 0
  {
    var size := (if a < 0 then -a else a) / (if b < 0 then -b else b);
    if (a < 0) == (b < 0) then size else -size
  }

  // ----- arithmetic on reals -----

  ghost function Mul(x: real, y: real): real
  {
    x * y
  }

  lemma {:induction false} Commute(x: real, y: real)
    ensures Mul(x, y) == Mul(y, x)
  {
  }

  lemma {:induction false} Sum(x: real, y: real, z: real)
    ensures Mul(x + y, z) == Mul(x, z) + Mul(y, z) && Mul(x - y, z) == Mul(x, z) - Mul(y, z)
  {
  }

  lemma {:induction false} Regroup(x: real, y: real, z: real)
    ensures Mul(Mul(x, y), z) == Mul(x, Mul(y, z))
  {
  }

  lemma {:induction false} Ones(x: real)
    ensures Mul(1.0, x) == x && Mul(x, 1.0) == x
  {
  }

  lemma {:induction false} Less(x: real, y: real, z: real)
    requires x < y && z > 0.0
    ensures Mul(x, z) < Mul(y, z)
  {
    assert (y - x) * z > 0.0;
  }

  lemma {:induction false} AtMost(x: real, y: real, z: real)
    requires x <= y && z >= 0.0
    ensures Mul(x, z) <= Mul(y, z)
  {
    assert (y - x) * z >= 0.0;
  }

  lemma {:induction false} CastProduct(x: int, y: int)
    ensures (x * y) as real == Mul(x as real, y as real)
  {
  }

  lemma {:induction false} CastQuotient(x: int, y: int)
    requires y != 0
    ensures Mul(x as real / y as real, y as real) == x as real
  {
  }

  lemma {:induction false} PowerStep(e: int)
    ensures Power(e + 1) == 2.0 * Power(e)
  {
  }

  lemma {:induction false} PowerInverse(n: nat)
    ensures Mul(Power(0 - n as int), Pow2(n) as real) == 1.0
  {
    if n == 0 {
      Ones(1.0);
    } else {
      hide Mul, Power;
      var p, w := Power(0 - n as int), Pow2(n - 1) as real;
      PowerInverse(n - 1);
      PowerStep(0 - n as int);
      Sum(p, p, w);
      Commute(p, w);
      Commute(p, w + w);
      Sum(w, w, p);
      assert Pow2(n) as real == w + w;
    }
  }

  lemma {:induction false} LimitIs()
    ensures Pow2(53) == LIMIT && Pow2(52) == LIMIT / 2
  {
    hide Pow2;
    Pow2Is32();
    Pow2Add(32, 20);
    Pow2Add(10, 10);
    Pow2Add(1, 52);
    SmallPowers();
  }

  lemma {:induction false} SmallPowers()
    ensures Pow2(1) == 2 && Pow2(10) == 1024
  {
    Pow2Add(5, 5);
    assert Pow2(5) == 32;
  }

  lemma {:induction false} PowerShift(k: nat, n: nat)
    requires k <= n
    ensures Power(k as int - n as int) == Mul(Pow2(k) as real, Power(0 - n as int))
  {
    hide Mul, Power;
    var v := Power(0 - n as int);
    if k == 0 {
      Ones(v);
    } else {
      var w := Pow2(k - 1) as real;
      PowerShift(k - 1, n);
      PowerStep(k as int - 1 - n as int);
      Sum(w, w, v);
      assert Pow2(k) as real == w + w;
    }
  }

  // ----- the nearest double stays between neighbouring integers -----

  /** The power of two at or below t. */
  lemma {:induction false} Magnitude(t: nat, k0: nat) returns (k: nat)
    requires Pow2(k0) <= t
    ensures k >= k0 && Pow2(k) <= t < Pow2(k + 1)
    decreases t - Pow2(k0)
  {
    if t < Pow2(k0 + 1) { k := k0; } else { k := Magnitude(t, k0 + 1); }
  }

  lemma {:induction false} IntegerRepresentable(t: nat)
    requires t <= LIMIT
    ensures Representable(t as real)
  {
    Ones(t as real);
    assert Double(t, 0) == t as real;
  }

  /** A representable value just below t + 1, so near that the quotient cannot lie beyond its
      middle to t + 1. */
  lemma {:induction false} Neighbour(a: nat, b: nat, t: nat) returns (u: real)
    requires a < LIMIT && 0 < b < LIMIT && t * b <= a
    ensures u > 0.0 && Representable((t + 1) as real - u) && Mul(b as real, u) < 2.0
  {
    hide Mul, Pow2, Power, Representable;
    LimitIs();
    if t == 0 {
      u := Power(-53);
      PowerInverse(53);
      Commute(u, LIMIT as real);
      assert 0 - 53 as int == -53;
      Sum(LIMIT as real, 1.0, u);
      Ones(u);
      RepresentableBy(LIMIT - 1, -53, 1.0 - u);
      Less(b as real, LIMIT as real, u);
    } else {
      MulMono(1, b, t);
      assert Pow2(0) == 1 by { One(); }
      var k := Magnitude(t, 0);
      if k > 52 { Pow2Mono(53, k); }
      u := Power(k as int - 52);
      Grid(t, k, u);
      MulMono(Pow2(k), t, b);
      UnitSmall(b, k, u);
    }
  }

  lemma {:induction false} RepresentableBy(m: int, e: int, r: real)
    requires m <= LIMIT && -m <= LIMIT && r == Mul(m as real, Power(e))
    ensures Representable(r)
  {
    assert r == Double(m, e);
  }

  lemma {:induction false} One()
    ensures Pow2(0) == 1
  {
  }

  /** The multiple of the unit just below t + 1. */
  lemma {:induction false} Grid(t: nat, k: nat, u: real)
    requires k <= 52 && t < Pow2(k + 1) && u == Power(k as int - 52)
    ensures Representable((t + 1) as real - u)
  {
    hide Mul, Pow2, Power, Representable;
    var p := Pow2(52 - k);
    LimitIs();
    PowerInverse(52 - k);
    assert 0 - (52 - k) as int == k as int - 52;
    Pow2Add(k + 1, 52 - k);
    MulMono(t + 1, Pow2(k + 1), p);
    Spread(t + 1, p, u);
    RepresentableBy((t + 1) * p - 1, k as int - 52, (t + 1) as real - u);
  }

  lemma {:induction false} Spread(t: nat, p: nat, u: real)
    requires Mul(u, p as real) == 1.0
    ensures Mul((t * p - 1) as real, u) == t as real - u
  {
    hide Mul;
    CastProduct(t, p);
    var x, y := t as real, p as real;
    assert (t * p - 1) as real == Mul(x, y) - 1.0;
    Sum(Mul(x, y), 1.0, u);
    Regroup(x, y, u);
    Commute(u, y);
    Ones(u);
    Ones(x);
  }

  lemma {:induction false} UnitSmall(b: nat, k: nat, u: real)
    requires k <= 52 && Pow2(k) * b < LIMIT && u == Power(k as int - 52)
    ensures u > 0.0 && Mul(b as real, u) < 2.0
  {
    hide Mul, Pow2, Power;
    var v, half := Power(0 - 52 as int), (LIMIT / 2) as real;
    var x, y := Pow2(k) as real, b as real;
    PowerShift(k, 52);
    PowerInverse(52);
    LimitIs();
    CastProduct(Pow2(k), b);
    Less((Pow2(k) * b) as real, half + half, v);
    Sum(half, half, v);
    Commute(v, half);
    Commute(x, y);
    Regroup(y, x, v);
  }

  lemma {:induction false} MulMono(x: nat, y: nat, z: nat)
    requires x <= y
    ensures x * z <= y * z && z * x <= z * y
  {
    assert (y - x) * z >= 0;
  }

  lemma {:induction false} AtMostDividend(a: nat, b: nat)
    requires b > 0
    ensures 0 <= a / b <= a && (b > 1 && a > 0 ==> a / b < a)
  {
    DivFacts(a, b);
    MulMono(1, b, a / b);
    if b > 1 { MulMono(2, b, a / b); }
  }

  lemma {:induction false} NotBelow(q: real, r: real, t: real)
    requires Rounded(q, r) && Representable(t) && t <= q
    ensures t <= r
  {
    assert Distance(r, q) <= Distance(t, q);
  }

  lemma {:induction false} NotAbove(q: real, r: real, t: real, u: real)
    requires Rounded(q, r) && Representable(t - u) && u > 0.0 && q < t && (t - q) + (t - q) > u
    ensures r < t
  {
    assert Distance(r, q) <= Distance(t - u, q);
  }

  /** The rounded quotient stays between the integers the quotient lies between. */
  lemma {:induction false} RoundedBetween(a: nat, b: nat, q: real, r: real)
    requires a < LIMIT && 0 < b < LIMIT && Mul(q, b as real) == a as real && Rounded(q, r)
    ensures (a / b) as real <= r < (a / b + 1) as real
  {
    hide Mul, Rounded, Representable;
    var t := a / b;
    IntegerBounds(a, b);
    AtMostDividend(a, b);
    QuotientBounds(a, b, t, q);
    IntegerRepresentable(t);
    NotBelow(q, r, t as real);
    var u := Neighbour(a, b, t);
    TooNear(b as real, (t + 1) as real - q, u);
    NotAbove(q, r, (t + 1) as real, u);
  }

  lemma {:induction false} IntegerBounds(a: nat, b: nat)
    requires b > 0
    ensures a / b * b <= a && a + 1 <= (a / b + 1) * b
  {
    DivFacts(a, b);
    assert (a / b + 1) * b == a / b * b + b;
  }

  lemma {:induction false} QuotientBounds(a: nat, b: nat, t: nat, q: real)
    requires b > 0 && Mul(q, b as real) == a as real && t * b <= a && a + 1 <= (t + 1) * b
    ensures t as real <= q && Mul((t + 1) as real - q, b as real) >= 1.0 && q < (t + 1) as real
  {
    hide Mul;
    var y := b as real;
    CastProduct(t, b);
    CastProduct(t + 1, b);
    if q < t as real { Less(q, t as real, y); }
    Sum((t + 1) as real, q, y);
    if q >= (t + 1) as real { AtMost((t + 1) as real, q, y); }
  }

  lemma {:induction false} TooNear(b: real, d: real, u: real)
    requires b > 0.0 && Mul(d, b) >= 1.0 && Mul(b, u) < 2.0
    ensures d + d > u
  {
    hide Mul;
    Commute(b, u);
    Sum(d, d, b);
    if d + d <= u { AtMost(d + d, u, b); }
  }

  // ----- signs -----

  lemma {:induction false} RoundedNegates(q: real, r: real)
    requires Rounded(q, r)
    ensures Rounded(-q, -r)
  {
    NegateRepresentable(r);
    forall s | Representable(s) ensures Distance(-r, -q) <= Distance(s, -q) {
      NegateRepresentable(s);
      assert Distance(r, q) <= Distance(-s, q);
    }
  }

  lemma {:induction false} NegateRepresentable(r: real)
    requires Representable(r)
    ensures Representable(-r)
  {
    hide Mul, Power;
    var m: int, e: int :| m <= LIMIT && -m <= LIMIT && r == Double(m, e);
    Signs(m as real, Power(e));
    assert (-m) as real == -(m as real);
    assert Double(-m, e) == -r;
  }

  lemma {:induction false} TruncBetween(r: real, t: nat)
    requires t as real <= r < (t + 1) as real
    ensures Trunc(r) == t && Trunc(-r) == 0 - t as int
  {
  }

  lemma {:induction false} Positive(x: nat, y: nat, q: real, r: real)
    requires x < LIMIT && 0 < y < LIMIT && Mul(q, y as real) == x as real && Rounded(q, r)
    ensures Trunc(r) == x / y && Trunc(-r) == 0 - (x / y) as int
  {
    hide Rounded, Mul;
    RoundedBetween(x, y, q, r);
    AtMostDividend(x, y);
    TruncBetween(r, x / y);
  }

  lemma {:induction false} Signs(q: real, y: real)
    ensures Mul(-q, y) == -Mul(q, y) && Mul(q, -y) == -Mul(q, y)
  {
  }

  /** Math.trunc of the rounded quotient is Go's quotient, for all operands below 2^53 in size. */
  lemma {:induction false} TruncatedQuotient(a: int, b: int, r: real)
    requires -LIMIT < a < LIMIT && b != 0 && -LIMIT < b < LIMIT
    requires Rounded(a as real / b as real, r)
    ensures Trunc(r) == Quotient(a, b)
  {
    CastQuotient(a, b);
    BySigns(a, b, a as real / b as real, r);
  }

  lemma {:induction false} BySigns(a: int, b: int, q: real, r: real)
    requires -LIMIT < a < LIMIT && b != 0 && -LIMIT < b < LIMIT
    requires Mul(q, b as real) == a as real && Rounded(q, r)
    ensures Trunc(r) == Quotient(a, b)
  {
    hide Rounded, Trunc, Mul;
    var x, y := if a < 0 then -a else a, if b < 0 then -b else b;
    Signs(q, b as real);
    Signs(q, y as real);
    if (a < 0) == (b < 0) {
      Positive(x, y, q, r);
    } else {
      RoundedNegates(q, r);
      Positive(x, y, -q, -r);
    }
  }

  // ----- types of fixed width -----

  /** ToUint32, what `>>> 0` does to a number. */
  function ToUint32(r: real): nat
  {
    Trunc(r) % 0x1_0000_0000
  }

  /** For unsigned types of up to 32 bits the `>>> 0` form gives the quotient too. */
  lemma {:induction false} UnsignedQuotient(a: nat, b: nat, r: real)
    requires a < 0x1_0000_0000 && 0 < b < 0x1_0000_0000 && Rounded(a as real / b as real, r)
    ensures ToUint32(r) == a / b
  {
    hide Rounded, Trunc;
    TruncatedQuotient(a, b, r);
    AtMostDividend(a, b);
    assert Quotient(a, b) == a / b;
  }

  /** Wrapping to a signed type of `bits` bits. */
  function Wrap(i: int, bits: nat): int
    requires bits > 0
  {
    (i + Pow2(bits - 1)) % Pow2(bits) - Pow2(bits - 1)
  }

  /** The quotient leaves its type, so that Go wraps it and Math.trunc does not, exactly for the
      most negative value divided by -1. */
  lemma {:induction false} OverflowExactly(a: int, b: int, bits: nat)
    requires 0 < bits && b != 0
    requires var h: int := Pow2(bits - 1); -h <= a < h && -h <= b < h
    ensures var h: int := Pow2(bits - 1); Wrap(Quotient(a, b), bits) == Quotient(a, b) <==> !(a == -h && b == -1)
  {
    var h: int := Pow2(bits - 1);
    var x, y := if a < 0 then -a else a, if b < 0 then -b else b;
    var i := Quotient(a, b);
    AtMostDividend(x, y);
    if a == -h && b == -1 {
      assert x / y == h by { ModUnique(x, x, 0, 1); }
      ModUnique(2 * h, 1, 0, 2 * h);
    } else {
      InRange(a, b, h);
      ModUnique(i + h, 0, i + h, 2 * h);
    }
  }

  lemma {:induction false} InRange(a: int, b: int, h: int)
    requires h > 0 && b != 0 && -h <= a < h && !(a == -h && b == -1)
    ensures -h <= Quotient(a, b) < h
  {
    var x, y := if a < 0 then -a else a, if b < 0 then -b else b;
    AtMostDividend(x, y);
  }
}
