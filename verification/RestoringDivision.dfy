/** The 32-step division the kernel performs for a missing instruction, in wrapping 32-bit arithmetic. */
module RestoringDivision {
  const WORD := 0x1_0000_0000
  const HALF := 0x8000_0000
  const MIN := -0x8000_0000

  predicate IsInt(a: int) { MIN <= a < HALF }

  /** The signed value of the low 32 bits. */
  function Wrap(a: int): (w: int)
    ensures IsInt(w)
  {
    var m := a % WORD;
    if m < HALF then m else m - WORD
  }

  function Abs(a: int): int { if a < 0 then -a else a }

  /** Truncating division: the remainder is smaller than the divisor and has the dividend's sign. */
  predicate Divides(a: int, b: int, q: int, r: int) {
    a == b * q + r && Abs(r) < Abs(b) && (r == 0 || (r < 0) == (a < 0))
  }

  /** When every register holds what it must. */
  predicate InRange(a: int, b: int) {
    b != MIN && (a == MIN ==> b != -1 && Abs(b) <= HALF / 2)
  }

  // ---- The loop ----

  /** The dividend being shifted out, the quotient so far, and the remainder so far. */
  datatype Regs = Regs(a: int, q: int, r: int)

  function TopBit(a: int): int { if a < 0 then 1 else 0 }

  function Step(s: Regs, b: int): Regs {
    var r := Wrap(2 * s.r) + TopBit(s.a);
    var q := Wrap(2 * s.q);
    if r >= b then Regs(Wrap(2 * s.a), q + 1, Wrap(r - b)) else Regs(Wrap(2 * s.a), q, r)
  }

  function Steps(a: int, b: int, k: nat): Regs {
    if k == 0 then Regs(a, 0, 0) else Step(Steps(a, b, k - 1), b)
  }

  function Magnitude(a: int): int { if a < 0 then Wrap(-a) else a }

  /** Quotient and remainder, with the signs put back. */
  function Quotient(a: int, b: int): int {
    var q := Steps(Magnitude(a), Magnitude(b), 32).q;
    if (a < 0) != (b < 0) then Wrap(-q) else q
  }

  function Remainder(a: int, b: int): int {
    var r := Steps(Magnitude(a), Magnitude(b), 32).r;
    if a < 0 then Wrap(-r) else r
  }

  method Divmod(a: int, b: int) returns (ret: int, q: int, r: int)
    requires IsInt(a) && IsInt(b)
    ensures ret == (if b == 0 then -1 else 0)
    ensures b != 0 ==> q == Quotient(a, b) && r == Remainder(a, b)
    ensures b != 0 ==> (Divides(a, b, q, r) <==> InRange(a, b))
  {
    if b == 0 { return -1, 0, 0; }
    RightIff(a, b);
    hide Wrap, Divides, InRange;
    var signDiv, signMod := 1, 1;
    var x, y := a, b;
    if x < 0 {
      signDiv, signMod := -signDiv, -1;
      x := Wrap(-x);
    }
    if y < 0 {
      signDiv := -signDiv;
      y := Wrap(-y);
    }
    ghost var n := x;
    r, q := 0, 0;
    var i := 0;
    while i < 32
      invariant 0 <= i <= 32 && Regs(x, q, r) == Steps(n, y, i)
    {
      r := Wrap(2 * r) + TopBit(x);
      x := Wrap(2 * x);
      q := Wrap(2 * q);
      if r >= y {
        q := q + 1;
        r := Wrap(r - y);
      }
      i := i + 1;
    }
    if signDiv == -1 { q := Wrap(-q); }
    if signMod == -1 { r := Wrap(-r); }
    ret := 0;
  }

  // ---- What the registers hold ----

  function Scaled(n: int, k: nat): int { if k == 0 then n else 2 * Scaled(n, k - 1) }

  lemma {:induction false} ScaledGrows(n: int, k: nat)
    requires n >= 0 && k <= 32
    ensures 0 <= n <= Scaled(n, k) <= Scaled(n, 32)
    ensures k < 32 ==> 2 * Scaled(n, k) <= Scaled(n, 32)
    decreases 32 - k
  {
    if k < 32 { ScaledGrows(n, k + 1); }
    ScaledAtLeast(n, k);
  }

  lemma {:induction false} ScaledAtLeast(n: int, k: nat)
    requires n >= 0
    ensures Scaled(n, k) >= n
  {
    if k > 0 { ScaledAtLeast(n, k - 1); }
  }

  lemma {:induction false} ScaledBy(n: int, k: nat)
    ensures Scaled(n, k) == n * Scaled(1, k)
  {
    if k > 0 {
      ScaledBy(n, k - 1);
      assert 2 * (n * Scaled(1, k - 1)) == n * (2 * Scaled(1, k - 1));
    }
  }

  lemma ScaledOnes()
    ensures Scaled(1, 30) == HALF / 2 && Scaled(1, 32) == WORD
  {
    assert Scaled(1, 8) == 0x100;
    assert Scaled(1, 16) == 0x1_0000;
    assert Scaled(1, 24) == 0x100_0000;
  }

  lemma ScaledEnds(n: int)
    ensures Scaled(n, 32) == n * WORD
  {
    ScaledBy(n, 32);
    ScaledOnes();
  }

  /** The bits of a register, as a number without sign. */
  function Bits(a: int): int { if a < 0 then a + WORD else a }

  /** After k steps the bits shifted out are divided, and the others are still to come. */
  ghost predicate Divided(n: int, b: int, k: nat, s: Regs, p: int, q: int) {
    && p * WORD + Bits(s.a) == Scaled(n, k) && IsInt(s.a)
    && q * b + s.r == p && 0 <= s.r < b && 0 <= q <= p && s.q == Wrap(q)
  }

  lemma QuotientStep(q: int, b: int, r: int, p: int, bit: int)
    requires q * b + r == p
    ensures (2 * q) * b + (2 * r + bit) == 2 * p + bit
    ensures (2 * q + 1) * b + (2 * r + bit - b) == 2 * p + bit
  {
  }

  lemma QuotientSmall(q: int, b: int, r: int, p: int)
    requires q * b + r == p && b >= 1 && r >= 0 && q >= 0
    ensures q <= p
  {
    assert q * b >= q;
  }

  lemma {:induction false} LoopDivides(n: int, b: int, k: nat) returns (p: int, q: int)
    requires 0 <= n <= HALF && 1 <= b < HALF && (n == HALF ==> b <= HALF / 2) && k <= 32
    ensures Divided(n, b, k, Steps(Wrap(n), b, k), p, q)
    decreases k
  {
    if k == 0 {
      p, q := 0, 0;
    } else {
      var p0, q0 := LoopDivides(n, b, k - 1);
      var s := Steps(Wrap(n), b, k - 1);
      ScaledGrows(n, k - 1);
      ScaledEnds(n);
      p, q := DividedStep(n, b, k - 1, s, p0, q0);
    }
  }

  lemma DividedStep(n: int, b: int, k: nat, s: Regs, p0: int, q0: int) returns (p: int, q: int)
    requires 0 <= n <= HALF && 1 <= b < HALF && (n == HALF ==> b <= HALF / 2)
    requires Divided(n, b, k, s, p0, q0) && 2 * Scaled(n, k) <= n * WORD
    ensures Divided(n, b, k + 1, Step(s, b), p, q)
  {
    var bit := TopBit(s.a);
    var r := 2 * s.r + bit;
    p := 2 * p0 + bit;
    WrapDoubles(s.a);
    assert p * WORD + Bits(Wrap(2 * s.a)) == Scaled(n, k + 1);
    hide Scaled, Wrap;
    assert p <= n;
    QuotientStep(q0, b, s.r, p0, bit);
    assert r <= p by { assert q0 * b >= 0; }
    assert r < HALF;
    q := if r >= b then 2 * q0 + 1 else 2 * q0;
    QuotientSmall(q, b, if r >= b then r - b else r, p);
    StepIs(s, b, q0, r);
    assert q * b + Step(s, b).r == p;
  }

  lemma WrapDoubles(a: int)
    requires IsInt(a)
    ensures Bits(Wrap(2 * a)) == 2 * Bits(a) - WORD * TopBit(a) && 0 <= Bits(Wrap(2 * a)) < WORD
  {
  }

  lemma StepIs(s: Regs, b: int, q: int, r: int)
    requires r == 2 * s.r + TopBit(s.a) && 0 <= s.r && r < HALF && 1 <= b < HALF && 0 <= q <= HALF / 2 && s.q == Wrap(q)
    ensures var t := Step(s, b);
      t.a == Wrap(2 * s.a) && t.r == (if r >= b then r - b else r) && t.q == Wrap(if r >= b then 2 * q + 1 else 2 * q)
  {
  }

  /** In range, the magnitudes are divided exactly, and the signs put back fit. */
  lemma RightInRange(a: int, b: int)
    requires IsInt(a) && IsInt(b) && b != 0 && InRange(a, b)
    ensures Divides(a, b, Quotient(a, b), Remainder(a, b))
  {
    var n, d := Abs(a), Abs(b);
    assert Magnitude(a) == Wrap(n) && Magnitude(b) == d;
    var p, q := LoopDivides(n, d, 32);
    var s := Steps(Wrap(n), d, 32);
    ScaledEnds(n);
    hide Scaled, Steps, Wrap;
    assert p == n;
    SignsBack(a, b, q, s.r);
    QuotientFits(a, b, q, s.r);
    WrapStays(if (a < 0) != (b < 0) then -q else q);
    WrapStays(if a < 0 then -s.r else s.r);
    WrapNegates(q);
  }

  lemma QuotientFits(a: int, b: int, q: int, r: int)
    requires IsInt(a) && b != 0 && InRange(a, b) && q * Abs(b) + r == Abs(a) && 0 <= r < Abs(b) && 0 <= q
    ensures 0 <= q <= HALF && IsInt(if (a < 0) != (b < 0) then -q else q)
  {
    if Abs(b) >= 2 { QuotientHalf(q, Abs(b), r, Abs(a)); } else { assert q == Abs(a); }
  }

  lemma WrapStays(a: int)
    ensures IsInt(a) ==> Wrap(a) == a
  {
  }

  lemma WrapNegates(a: int)
    requires 0 <= a <= HALF
    ensures Wrap(-Wrap(a)) == Wrap(-a)
  {
  }

  /** Only a divisor of magnitude one has a quotient as large as the dividend. */
  lemma QuotientHalf(q: int, b: int, r: int, p: int)
    requires q * b + r == p && b >= 2 && 0 <= r && 0 <= q
    ensures 2 * q <= p
  {
    assert q * b >= 2 * q;
  }

  lemma SignsBack(a: int, b: int, q: int, r: int)
    requires q * Abs(b) + r == Abs(a) && 0 <= r < Abs(b)
    ensures Divides(a, b, if (a < 0) != (b < 0) then -q else q, if a < 0 then -r else r)
  {
    assert (-q) * b == -(q * b) && q * (-b) == -(q * b);
  }

  /** With the least divisor every comparison succeeds, and the quotient is all ones. */
  lemma {:induction false} AllOnes(a: int, k: nat)
    requires IsInt(a) && k <= 32
    ensures IsInt(Steps(a, MIN, k).r) && Steps(a, MIN, k).q == Wrap(Ones(k))
  {
    if k > 0 {
      AllOnes(a, k - 1);
      OnesBound(k - 1);
      OnesEnd();
      OnesDouble(Ones(k - 1));
    }
  }

  function Ones(k: nat): int { if k == 0 then 0 else 2 * Ones(k - 1) + 1 }

  lemma {:induction false} OnesBound(k: nat)
    requires k < 32
    ensures 0 <= Ones(k) && 2 * Ones(k) + 1 <= Ones(32)
    decreases 32 - k
  {
    OnesPositive(k);
    if k < 31 { OnesBound(k + 1); }
  }

  lemma {:induction false} OnesPositive(k: nat)
    ensures Ones(k) >= 0
  {
    if k > 0 { OnesPositive(k - 1); }
  }

  lemma OnesDouble(q: int)
    requires 0 <= q < HALF
    ensures Wrap(2 * Wrap(q)) + 1 == Wrap(2 * q + 1)
  {
  }

  lemma OnesEnd()
    ensures Ones(32) == WORD - 1
  {
    assert Ones(8) == 0xFF;
    assert Ones(16) == 0xFFFF;
    assert Ones(24) == 0xFF_FFFF;
  }

  /** The least dividend's one bit travels up the remainder until a large divisor no longer fits. */
  lemma {:induction false} BitTravels(b: int, k: nat)
    requires HALF / 2 < b < HALF && 1 <= k <= 31
    ensures Steps(MIN, b, k) == Regs(0, 0, Scaled(1, k - 1)) && 1 <= Scaled(1, k - 1) <= HALF / 2
  {
    TravelBound(k - 1);
    assert Scaled(1, 30) == HALF / 2 by { ScaledOnes(); }
    if k > 1 {
      BitTravels(b, k - 1);
      TravelStep(Scaled(1, k - 2), b);
    } else {
      assert Steps(MIN, b, 0) == Regs(MIN, 0, 0);
      assert Wrap(2 * MIN) == 0;
    }
  }

  lemma TravelStep(r: int, b: int)
    requires 1 <= 2 * r <= HALF / 2 < b
    ensures Step(Regs(0, 0, r), b) == Regs(0, 0, 2 * r)
  {
  }

  lemma {:induction false} TravelBound(k: nat)
    requires k <= 30
    ensures 1 <= Scaled(1, k) <= Scaled(1, 30)
    decreases 30 - k
  {
    ScaledAtLeast(1, k);
    if k < 30 { TravelBound(k + 1); }
  }

  lemma WrongForLeastDivisor(a: int)
    requires IsInt(a)
    ensures !Divides(a, MIN, Quotient(a, MIN), Remainder(a, MIN))
  {
    AllOnes(Magnitude(a), 32);
    OnesEnd();
    assert Magnitude(MIN) == MIN && Wrap(WORD - 1) == -1 && Wrap(1) == 1;
    assert Quotient(a, MIN) == if a < 0 then -1 else 1;
    hide Quotient, Remainder, Steps;
    TooFar(a, Quotient(a, MIN), Remainder(a, MIN));
  }

  lemma TooFar(a: int, q: int, r: int)
    requires IsInt(a) && q == (if a < 0 then -1 else 1)
    ensures !Divides(a, MIN, q, r)
  {
  }

  lemma WrongForLargeDivisor(b: int)
    requires IsInt(b) && b != MIN && Abs(b) > HALF / 2
    ensures !Divides(MIN, b, Quotient(MIN, b), Remainder(MIN, b))
  {
    var d := Magnitude(b);
    assert d == Abs(b) && Magnitude(MIN) == MIN;
    BitTravels(d, 31);
    ScaledOnes();
    assert Steps(MIN, d, 32) == Step(Steps(MIN, d, 31), d);
  }

  lemma WrongForMinusOne()
    ensures !Divides(MIN, -1, Quotient(MIN, -1), Remainder(MIN, -1))
  {
    var p, q := LoopDivides(HALF, 1, 32);
    ScaledEnds(HALF);
    assert Wrap(HALF) == MIN && Magnitude(MIN) == MIN && Magnitude(-1) == 1;
    assert q == HALF;
  }

  /** The quotient and remainder are right exactly in range. */
  lemma RightIff(a: int, b: int)
    requires IsInt(a) && IsInt(b) && b != 0
    ensures Divides(a, b, Quotient(a, b), Remainder(a, b)) <==> InRange(a, b)
  {
    hide Quotient, Remainder;
    if InRange(a, b) {
      RightInRange(a, b);
    } else if b == MIN {
      WrongForLeastDivisor(a);
    } else if b == -1 {
      WrongForMinusOne();
    } else {
      WrongForLargeDivisor(b);
    }
  }
}
