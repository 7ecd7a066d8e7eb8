/** Integer arithmetic that the compiler rewrites (compiler/lowering.go): 64-bit shifts and ors
    as multiplications and additions, and quotients as divisions of doubles. */
module WideIntegers {

  function Pow2(n: nat): (r: nat)
    ensures r >= 1
  {
    if n == 0 then 1 else 2 * Pow2(n - 1)
  }

  const MODULUS: nat := 0x1_0000_0000_0000_0000

  lemma {:induction false} Pow2Add(m: nat, n: nat)
    ensures Pow2(m + n) == Pow2(m) * Pow2(n)
  {
    if m > 0 { Pow2Add(m - 1, n); }
  }

  lemma {:induction false} Pow2Mono(m: nat, n: nat)
    requires m <= n
    ensures Pow2(m) <= Pow2(n)
    decreases n
  {
    if m < n { Pow2Mono(m, n - 1); }
  }

  lemma {:induction false} ModulusIsPow()
    ensures Pow2(64) == MODULUS
  {
    hide Pow2;
    Pow2Is32();
    Pow2Add(32, 32);
  }

  lemma {:induction false} Pow2Is32()
    ensures Pow2(32) == 0x1_0000_0000
  {
    Pow2Add(16, 16);
    Pow2Add(8, 8);
    assert Pow2(8) == 256 by { Pow2Add(4, 4); assert Pow2(4) == 16; }
  }

  // ----- the meaning of the operators on uint64 -----

  /** Bitwise or. */
  function Or(a: nat, b: nat): nat
  {
    if a == 0 then b else if b == 0 then a
    else 2 * Or(a / 2, b / 2) + (if a % 2 == 1 || b % 2 == 1 then 1 else 0)
  }

  /** x << s on uint64. */
  function Shl(x: nat, s: nat): nat
  {
    (x * Pow2(s)) % MODULUS
  }

  // ----- the runtime helpers the emitted code calls -----

  /** uint64Mul and uint64Add: exact arithmetic, then the low 64 bits. */
  function Mul64(a: int, b: int): nat
  {
    (a * b) % MODULUS
  }

  function Add64(a: int, b: int): nat
  {
    (a + b) % MODULUS
  }

  /** Conversion of a signed integer to uint64. */
  function ToUint64(i: int): nat
  {
    i % MODULUS
  }

  // ----- which form is emitted -----

  /** The right operand of an or: whether it is a call with one argument, the width of the
      argument's type if that is an integer type, and the width of its own type. */
  datatype Operand = Operand(call: bool, argumentBits: int, ownBits: nat)

  /** lowIntegerBits. A width of -1 stands for a type that is no integer type. */
  function LowBits(y: Operand): nat
  {
    if y.call && y.argumentBits >= 0 then y.argumentBits else y.ownBits
  }

  datatype Form = AsOr | AsAdd

  /** How `(x << s) | y` on unsigned operands is emitted. */
  function OrForm(s: nat, y: Operand): Form
  {
    if 32 <= s <= 64 && LowBits(y) <= s then AsAdd else AsOr
  }

  function Emitted(form: Form, left: nat, right: nat): nat
  {
    match form
    case AsOr => Or(left, right)
    case AsAdd => Add64(left, right)
  }

  /** How `x << s` by a constant is emitted when x is the conversion of the signed integer i: the
      conversion is dropped and the shift becomes a multiplication. */
  function EmittedShift(i: int, s: nat): nat
  {
    if s >= 32 then Mul64(i, Pow2(s)) else Shl(ToUint64(i), s)
  }

  // ----- shifts -----

  lemma {:induction false} ModMul(a: int, b: int, m: nat)
    requires m > 0
    ensures (a % m * b) % m == (a * b) % m
  {
    var q := a / m;
    assert a == q * m + a % m;
    assert a * b == q * b * m + a % m * b by { assert (q * m) * b == q * b * m; }
    ModMultiple(q * b, a % m * b, m);
  }

  lemma {:induction false} ModMultiple(k: int, x: int, m: nat)
    requires m > 0
    ensures (k * m + x) % m == x % m
  {
    var r := x % m;
    var q := x / m;
    assert x == q * m + r;
    assert k * m + x == (k + q) * m + r;
    ModUnique(k * m + x, k + q, r, m);
  }

  lemma {:induction false} ModUnique(x: int, q: int, r: nat, m: nat)
    requires x == q * m + r && r < m
    ensures x % m == r && x / m == q
  {
    DivFacts(x, m);
    var d, r1 := q - x / m, x % m;
    assert d * m == r1 - r by { Distribute(q, x / m, m); }
    if d >= 1 { AtLeastOnce(d, m); }
    if d <= -1 { AtLeastOnce(-d, m); }
  }

  lemma {:induction false} DivFacts(x: int, m: nat)
    requires m > 0
    ensures x == x / m * m + x % m && 0 <= x % m < m
  {
  }

  lemma {:induction false} Distribute(a: int, b: int, m: int)
    ensures (a - b) * m == a * m - b * m
  {
  }

  lemma {:induction false} AtLeastOnce(d: int, m: nat)
    requires d >= 1
    ensures d * m >= m && (-d) * m <= 0 - m
  {
  }

  /** The multiplication is the shift, for every shift from 32 on and with the conversion dropped. */
  lemma {:induction false} ShiftIsMultiplication(i: int, s: nat)
    ensures EmittedShift(i, s) == Shl(ToUint64(i), s)
  {
    ModMul(i, Pow2(s), MODULUS);
  }

  // ----- or as addition -----

  lemma {:induction false} DivPow(a: nat, s: nat)
    requires s > 0
    ensures a * Pow2(s) / 2 == a * Pow2(s - 1) && a * Pow2(s) % 2 == 0
  {
    assert a * Pow2(s) == 2 * (a * Pow2(s - 1));
  }

  /** Bits below and bits above position s do not meet. */
  lemma {:induction false} OrIsSum(a: nat, y: nat, s: nat)
    requires y < Pow2(s)
    ensures Or(a * Pow2(s), y) == a * Pow2(s) + y
    decreases s
  {
    if a != 0 && y != 0 {
      assert s > 0;
      DivPow(a, s);
      OrIsSum(a, y / 2, s - 1);
      assert a * Pow2(s) != 0;
    }
  }

  lemma {:induction false} ShlIsMultiple(x: nat, s: nat) returns (a: nat)
    requires s <= 64
    ensures Shl(x, s) == a * Pow2(s) && a * Pow2(s) + Pow2(s) <= MODULUS
  {
    hide Pow2;
    ModulusIsPow();
    Pow2Add(64 - s, s);
    var p, q := Pow2(s), Pow2(64 - s);
    a := x % q;
    DivFacts(x, q);
    Scale(x / q, q, a, p);
    Within(a, q, p);
    ModMultiple(x / q, a * p, MODULUS);
    ModUnique(a * p, 0, a * p, MODULUS);
  }

  lemma {:induction false} Scale(h: int, q: nat, a: nat, p: nat)
    ensures (h * q + a) * p == h * (q * p) + a * p
  {
    assert h * q * p == h * (q * p);
  }

  lemma {:induction false} Within(a: nat, q: nat, p: nat)
    requires a < q
    ensures a * p + p <= q * p
  {
    Distribute(q, a + 1, p);
    assert (a + 1) * p == a * p + p;
    assert (q - (a + 1)) * p >= 0;
  }

  /** A right operand that fits below the shifted bits is added, for every x. */
  lemma {:induction false} AddIsOr(x: nat, s: nat, y: nat)
    requires s <= 64 && y < Pow2(s)
    ensures Add64(Shl(x, s), y) == Or(Shl(x, s), y)
  {
    var a := ShlIsMultiple(x, s);
    OrIsSum(a, y, s);
    ModUnique(a * Pow2(s) + y, 0, a * Pow2(s) + y, MODULUS);
  }

  /** With the bit at position s set on the left, a right operand at or above 2^s makes a difference. */
  lemma {:induction false} OrBelow(a: nat, b: nat)
    ensures Or(a, b) <= a + b
  {
    if a != 0 && b != 0 { OrBelow(a / 2, b / 2); }
  }

  lemma {:induction false} OrShared(a: nat, b: nat, k: nat)
    requires a / Pow2(k) % 2 == 1 && b / Pow2(k) % 2 == 1
    ensures Or(a, b) < a + b
    decreases k
  {
    assert a != 0 && b != 0 by { ZeroBits(k); }
    if k > 0 {
      HalveDiv(a, k);
      HalveDiv(b, k);
      OrShared(a / 2, b / 2, k - 1);
    } else {
      OrBelow(a / 2, b / 2);
    }
  }

  lemma {:induction false} ZeroBits(k: nat)
    ensures 0 / Pow2(k) % 2 == 0
  {
    ModUnique(0, 0, 0, Pow2(k));
  }

  lemma {:induction false} HalveDiv(a: nat, k: nat)
    requires k > 0
    ensures a / Pow2(k) == a / 2 / Pow2(k - 1)
  {
    var p := Pow2(k - 1);
    var q, r := a / 2 / p, a / 2 % p;
    assert a / 2 == q * p + r;
    assert a == 2 * (a / 2) + a % 2;
    assert a == q * (2 * p) + (2 * r + a % 2) by { assert 2 * (q * p) == q * (2 * p); }
    ModUnique(a, q, 2 * r + a % 2, 2 * p);
  }

  /** A number with a bit at or above position s. */
  lemma {:induction false} TopBit(y: nat, s: nat) returns (k: nat)
    requires y >= Pow2(s)
    ensures k >= s && y / Pow2(k) == 1 && Pow2(k) <= y
    decreases y - Pow2(s)
  {
    if y < 2 * Pow2(s) {
      k := s;
      ModUnique(y, 1, y - Pow2(s), Pow2(s));
    } else {
      assert Pow2(s + 1) == 2 * Pow2(s);
      k := TopBit(y, s + 1);
    }
  }

  /** The addition is the or for every x exactly when the right operand is below 2^s. */
  lemma {:induction false} AddIsOrExactly(s: nat, y: nat)
    requires s <= 64 && y < MODULUS
    ensures (forall x: nat :: Add64(Shl(x, s), y) == Or(Shl(x, s), y)) <==> y < Pow2(s)
  {
    if y < Pow2(s) {
      forall x: nat ensures Add64(Shl(x, s), y) == Or(Shl(x, s), y) { AddIsOr(x, s, y); }
    } else {
      var x := Clash(s, y);
      assert Add64(Shl(x, s), y) != Or(Shl(x, s), y);
    }
  }

  lemma {:induction false} Clash(s: nat, y: nat) returns (x: nat)
    requires s <= 64 && Pow2(s) <= y < MODULUS
    ensures Add64(Shl(x, s), y) != Or(Shl(x, s), y)
  {
    var k := TopBit(y, s);
    x := Pow2(k - s);
    Pow2Add(k - s, s);
    var left := Pow2(k);
    assert Shl(x, s) == left by { ModUnique(left, 0, left, MODULUS); }
    ModUnique(left, 1, 0, Pow2(k));
    OrShared(left, y, k);
    OrAtLeast(left, y);
    if left + y < MODULUS {
      ModUnique(left + y, 0, left + y, MODULUS);
    } else {
      ModUnique(left + y, 1, left + y - MODULUS, MODULUS);
    }
  }

  lemma {:induction false} OrAtLeast(a: nat, b: nat)
    ensures Or(a, b) >= b
  {
    if a != 0 && b != 0 { OrAtLeast(a / 2, b / 2); }
  }

  /** An addition is emitted for shifts from 32 on that leave room for the width of the operand:
      that of the argument of an integer call, and the operand's own otherwise. */
  lemma {:induction false} AddedExactly(s: nat, y: Operand)
    ensures y.call && y.argumentBits >= 0 ==> (OrForm(s, y) == AsAdd <==> 32 <= s <= 64 && y.argumentBits <= s)
    ensures !y.call || y.argumentBits < 0 ==> (OrForm(s, y) == AsAdd <==> 32 <= s <= 64 && y.ownBits <= s)
  {
  }

  /** What is emitted for `(x << s) | y` is the or for every x: when y is a call with an unsigned
      argument that it widens, and when it is no call with an integer argument, for every value of
      its type. */
  lemma {:induction false} OrFormCorrect(x: nat, s: nat, y: Operand, value: nat)
    requires y.call && y.argumentBits >= 0 ==> value < Pow2(y.argumentBits)
    requires !y.call || y.argumentBits < 0 ==> value < Pow2(y.ownBits)
    ensures Emitted(OrForm(s, y), Shl(x, s), value) == Or(Shl(x, s), value)
  {
    hide Or, Shl, Pow2;
    AddedExactly(s, y);
    if OrForm(s, y) == AsAdd {
      Pow2Mono(if y.call && y.argumentBits >= 0 then y.argumentBits else y.ownBits, s);
      AddIsOr(x, s, value);
    }
  }

  /** For every operand: what is emitted is the or for all x if and only if the shift is below 32 or
      leaves no room for the width that the lowering looks at, or the value has no more bits than
      the shift. Any call with one argument is looked at by the type of its argument, so a
      conversion from a signed type and a function from uint32 to uint64 can both give a value with
      more bits. */
  lemma {:induction false} OrFormExactly(s: nat, y: Operand, value: nat)
    requires s <= 64 && value < MODULUS
    ensures (forall x: nat :: Emitted(OrForm(s, y), Shl(x, s), value) == Or(Shl(x, s), value)) <==>
      s < 32 || s < (if y.call && y.argumentBits >= 0 then y.argumentBits else y.ownBits) || value < Pow2(s)
  {
    hide Or, Shl, Pow2, Add64;
    AddIsOrExactly(s, value);
    AddedExactly(s, y);
    forall x: nat
      ensures Emitted(OrForm(s, y), Shl(x, s), value) ==
        if OrForm(s, y) == AsOr then Or(Shl(x, s), value) else Add64(Shl(x, s), value) { }
  }

  /** The width of the argument says nothing when the argument is signed: -1 as an int32 widens
      to all ones, and the addition carries. */
  lemma {:induction false} SignedOperandCarries()
    ensures var y, value := Operand(true, 32, 64), ToUint64(-1);
      OrForm(32, y) == AsAdd && Emitted(AsAdd, Shl(1, 32), value) != Or(Shl(1, 32), value)
  {
    var value := ToUint64(-1);
    assert value == MODULUS - 1 by { ModUnique(-1, -1, MODULUS - 1, MODULUS); }
    Pow2Is32();
    assert Shl(1, 32) == Pow2(32);
    OrAtLeast(Shl(1, 32), value);
    ModUnique(Pow2(32) + value, 1, Pow2(32) - 1, MODULUS);
  }
}
