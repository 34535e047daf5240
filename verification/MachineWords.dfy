/** When the machine's bitwise operators are the logical ones, over all 32-bit words. */
module MachineWords {
  import opened Tac
  import opened DecafTree
  import opened TacVM

  ghost predicate IsWord(v: int) { -TWO31 <= v < TWO31 }

  predicate IsBit(v: int) { v == 0 || v == 1 }

  lemma BitsOfInt(n: int)
    requires 0 <= n < TWO32
    ensures n as bv32 == 0 <==> n == 0
    ensures n as bv32 == 1 <==> n == 1
  {
  }

  lemma IntOfBits(b: bv32)
    ensures b as int == 0 <==> b == 0
    ensures b as int == 1 <==> b == 1
  {
  }

  lemma BitsOf(v: int)
    requires IsWord(v)
    ensures ToBits(v) == 0 <==> v == 0
    ensures ToBits(v) == 1 <==> v == 1
  {
    BitsOfInt(v % TWO32);
  }

  lemma WordOf(b: bv32)
    ensures FromBits(b) == 0 <==> b == 0
    ensures FromBits(b) == 1 <==> b == 1
  {
    IntOfBits(b);
    WrapIsSmall(b as int);
  }

  lemma WrapIsSmall(n: int)
    requires 0 <= n < TWO32
    ensures (Wrap(n) == 0 <==> n == 0) && (Wrap(n) == 1 <==> n == 1)
  {
  }

  lemma AndWithZero(b: bv32)
    ensures 0 & b == 0 && b & 0 == 0
  {
  }

  lemma OrIsSmall(a: bv32, b: bv32)
    ensures a | b == 0 <==> a == 0 && b == 0
    ensures a | b == 1 <==> (a == 0 || a == 1) && (b == 0 || b == 1) && (a == 1 || b == 1)
  {
  }

  /** The AND of two words is the logical one exactly if an operand is 0 or they share their last bit and no other. */
  lemma AndIsLogicalIff(a: int, b: int)
    requires IsWord(a) && IsWord(b)
    ensures Alu3(LAND, a, b) == Some(Bool(a != 0 && b != 0)) <==> a == 0 || b == 0 || ToBits(a) & ToBits(b) == 1
    ensures Alu3(LAND, a, b) == Some(0) <==> ToBits(a) & ToBits(b) == 0
  {
    BitsOf(a);
    BitsOf(b);
    AndWithZero(ToBits(a));
    AndWithZero(ToBits(b));
    WordOf(ToBits(a) & ToBits(b));
  }

  lemma OrIsLogicalIff(a: int, b: int)
    requires IsWord(a) && IsWord(b)
    ensures Alu3(LOR, a, b) == Some(Bool(a != 0 || b != 0)) <==> IsBit(a) && IsBit(b)
  {
    BitsOf(a);
    BitsOf(b);
    OrIsSmall(ToBits(a), ToBits(b));
    WordOf(ToBits(a) | ToBits(b));
  }

  /** Including the word whose complement to 1 leaves 32 bits. */
  lemma NotIsLogicalIff(a: int)
    requires IsWord(a)
    ensures Alu2(LNOT, a) == Bool(a == 0) <==> IsBit(a)
  {
  }

  /** The easy half of AndIsLogicalIff, for all integers. */
  lemma AndIsLogicalIf(a: int, b: int)
    requires a == 0 || b == 0 || ToBits(a) & ToBits(b) == 1
    ensures Alu3(LAND, a, b) == Some(Bool(a != 0 && b != 0))
  {
    AndWithZero(ToBits(a));
    AndWithZero(ToBits(b));
    WordOf(ToBits(a) & ToBits(b));
    ToBitsOfZero();
    hide ToBits, FromBits;
  }

  lemma ToBitsOfZero()
    ensures ToBits(0) == 0
  {
  }

  // ----- Arithmetic -----

  ghost predicate Congruent(a: int, b: int) { (a - b) % TWO32 == 0 }

  /** The one word congruent to n. */
  lemma WrapIs(n: int, w: int)
    ensures IsWord(Wrap(n)) && Congruent(Wrap(n), n)
    ensures IsWord(w) && Congruent(w, n) ==> w == Wrap(n)
  {
  }

  /** Sum, difference, product and opposite are right modulo 2^32, and exact whenever that is a word. */
  lemma ArithmeticIs(a: int, b: int)
    ensures Alu3(ADD, a, b).Some? && IsTheWord(Alu3(ADD, a, b).value, a + b)
    ensures Alu3(SUB, a, b).Some? && IsTheWord(Alu3(SUB, a, b).value, a - b)
    ensures Alu3(MUL, a, b).Some? && IsTheWord(Alu3(MUL, a, b).value, a * b)
    ensures IsTheWord(Alu2(NEG, a), -a) && Alu2(ASSIGN, a) == a
  {
    WrapIs(a + b, a + b);
    WrapIs(a - b, a - b);
    WrapIs(a * b, a * b);
    WrapIs(-a, -a);
    hide Wrap;
  }

  ghost predicate IsTheWord(w: int, n: int) { IsWord(w) && Congruent(w, n) && (IsWord(n) ==> w == n) }

  function Abs(n: int): nat { if n < 0 then -n else n }

  /** Quotient and remainder as the division of naturals has them. */
  lemma NaturalDivision(a: nat, b: nat)
    requires b > 0
    ensures a == b * (a / b) + a % b && 0 <= a % b < b && 0 <= a / b <= a
  {
    var q := a / b;
    assert b * q >= q by { ProductAtLeast(b, q); }
  }

  lemma ProductAtLeast(b: nat, q: nat)
    requires b > 0
    ensures b * q >= q
  {
    if b > 1 { assert b * q == (b - 1) * q + q; }
  }

  lemma TruncIs(a: int, b: int)
    requires b != 0
    ensures a == b * TruncDiv(a, b) + TruncMod(a, b)
    ensures Abs(TruncMod(a, b)) < Abs(b) && (TruncMod(a, b) == 0 || (TruncMod(a, b) < 0 <==> a < 0))
    ensures Abs(TruncDiv(a, b)) <= Abs(a)
  {
    var q := Abs(a) / Abs(b);
    NaturalDivision(Abs(a), Abs(b));
    assert TruncDiv(a, b) == if (a < 0) == (b < 0) then q else -q;
    SignsMultiply(b, q);
    hide TruncDiv;
    assert TruncMod(a, b) == if a < 0 then -(Abs(a) - Abs(b) * q) else Abs(a) - Abs(b) * q;
  }

  lemma SignsMultiply(b: int, q: int)
    ensures b * -q == -(b * q)
    ensures Abs(b) * q == if b < 0 then -(b * q) else b * q
  {
  }

  /** Division by zero is an error; any other leaves the quotient truncated toward zero and a remainder smaller than the
      divisor, signed like the dividend. The least word over -1 is its own quotient, and the only case that wraps. */
  lemma DivisionIs(a: int, b: int)
    requires IsWord(a) && IsWord(b)
    ensures Alu3(DIV, a, b) == None <==> b == 0
    ensures Alu3(MOD, a, b) == None <==> b == 0
    ensures b != 0 ==>
      var q, r := Alu3(DIV, a, b).value, Alu3(MOD, a, b).value;
      && IsWord(q) && Abs(r) < Abs(b) && (r == 0 || (r < 0 <==> a < 0))
      && Congruent(b * q + r, a) && (b * q + r == a <==> !(a == -TWO31 && b == -1))
  {
    if b != 0 {
      TruncIs(a, b);
      var q, r := TruncDiv(a, b), TruncMod(a, b);
      WrapIs(q, q);
      WrapIs(r, r);
      if !IsWord(q) { OnlyLeastWraps(a, b, q, r); }
      hide TruncDiv, TruncMod;
    }
  }

  lemma OnlyLeastWraps(a: int, b: int, q: int, r: int)
    requires IsWord(a) && IsWord(b) && b != 0 && a == b * q + r && Abs(r) < Abs(b) && Abs(q) <= Abs(a) && !IsWord(q)
    requires r == 0 || (r < 0 <==> a < 0)
    ensures a == -TWO31 && b == -1 && q == TWO31 && r == 0
  {
    assert q == TWO31 && a == -TWO31;
  }

  lemma ComparisonsAre(a: int, b: int)
    ensures Alu3(EQU, a, b) == Some(1) <==> a == b
    ensures Alu3(LES, a, b) == Some(1) <==> a < b
    ensures Alu3(LEQ, a, b) == Some(1) <==> a <= b
    ensures Alu3(GTR, a, b) == Some(1) <==> b < a
    ensures Alu3(GEQ, a, b) == Some(1) <==> b <= a
    ensures Alu3(NEQ, a, b) == Some(1) <==> a != b
    ensures forall op :: op in {EQU, LES, LEQ, GTR, GEQ, NEQ} ==> Alu3(op, a, b) == Some(0) || Alu3(op, a, b) == Some(1)
  {
  }

  // ----- Runs in which every operator is -----

  /** Where the machine's operator is the one of the source. */
  predicate Meets(op: BinOp, a: int, b: int) {
    match op
    case And => a == 0 || b == 0 || ToBits(a) & ToBits(b) == 1
    case Or => IsBit(a) && IsBit(b)
    case _ => true
  }

  /** No operator evaluated in e meets a word that it treats otherwise than the source does. */
  predicate Tame(e: Expr, store: Store) {
    match e
    case Unary(op, e) => Tame(e, store) && (op == Not && Eval(e, store).Some? ==> IsBit(Eval(e, store).value))
    case Binary(op, l, r) =>
      && Tame(l, store)
      && (Eval(l, store).Some? ==> Tame(r, store))
      && (Eval(l, store).Some? && Eval(r, store).Some? ==> Meets(op, Eval(l, store).value, Eval(r, store).value))
    case _ => true
  }

  /** Nor does any in a run of s, as far as the fuel goes. */
  predicate TameRun(s: Stmt, st: State, fuel: nat)
    decreases fuel, s, 2
  {
    match s
    case Assign(_, e) => Tame(e, st.store)
    case Print(e) => Tame(e, st.store)
    case ReturnVal(e) => Tame(e, st.store)
    case Seq(a, b) =>
      var r := Exec(a, st, fuel);
      TameRun(a, st, fuel) && (r.end == Normal ==> TameRun(b, r.st, fuel))
    case IfThen(c, t) =>
      var v := Eval(c, st.store);
      Tame(c, st.store) && (v.Some? && v.value != 0 ==> TameRun(t, st, fuel))
    case IfElse(c, t, e) =>
      var v := Eval(c, st.store);
      Tame(c, st.store) && (v.Some? ==> if v.value != 0 then TameRun(t, st, fuel) else TameRun(e, st, fuel))
    case While(_, _) => TameLoop(s, st, fuel)
    case For(i, _, _, _) =>
      var r := Exec(i, st, fuel);
      TameRun(i, st, fuel) && (r.end == Normal ==> TameLoop(s, r.st, fuel))
    case _ => true
  }

  predicate TameLoop(s: Stmt, st: State, fuel: nat)
    requires s.While? || s.For?
    decreases fuel, s, 1
  {
    fuel > 0 ==>
      var v, r := Eval(s.cond, st.store), Exec(s.body, st, fuel);
      && Tame(s.cond, st.store)
      && (v.Some? && v.value != 0 ==>
           && TameRun(s.body, st, fuel)
           && (r.end == Normal ==> if s.While? then TameLoop(s, r.st, fuel - 1) else TameAgain(s, r.st, fuel)))
  }

  /** The update of a for statement and what comes after. */
  predicate TameAgain(s: Stmt, st: State, fuel: nat)
    requires s.For? && fuel > 0
    decreases fuel, s, 0
  {
    var u := Exec(s.update, st, fuel);
    TameRun(s.update, st, fuel) && (u.end == Normal ==> TameLoop(s, u.st, fuel - 1))
  }
}
