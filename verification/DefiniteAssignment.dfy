/** Definite assignment of boolean variables, and why no stray word then meets an operator. */
module DefiniteAssignment {
  import opened Tac
  import opened DecafTree
  import opened MachineWords

  // ----- The analysis -----

  /** Whether a statement ever completes normally, and which symbols have certainly been assigned when it does. */
  datatype Flow = Leaves | Goes(known: set<Sym>)

  function Either(f: Flow, g: Flow): Flow {
    if f.Leaves? then g else if g.Leaves? then f else Goes(f.known * g.known)
  }

  /** Every boolean symbol read in e is known to be assigned. */
  predicate Covers(known: set<Sym>, e: Expr) {
    match e
    case Ident(x) => x.ty == BoolTy ==> x in known
    case Unary(_, e) => Covers(known, e)
    case Binary(_, l, r) => Covers(known, l) && Covers(known, r)
    case _ => true
  }

  function After(s: Stmt, known: set<Sym>): Flow {
    match s
    case Assign(x, _) => Goes(known + {x})
    case Seq(a, b) =>
      (match After(a, known)
       case Leaves => Leaves
       case Goes(k) => After(b, k))
    case IfElse(_, t, e) => Either(After(t, known), After(e, known))
    case For(i, _, _, _) => After(i, known)
    case Break | ReturnVal(_) | ReturnVoid => Leaves
    case _ => Goes(known)
  }

  /** No boolean symbol is read before it has certainly been assigned. */
  predicate Assigned(s: Stmt, known: set<Sym>) {
    match s
    case Assign(_, e) => Covers(known, e)
    case Print(e) => Covers(known, e)
    case ReturnVal(e) => Covers(known, e)
    case Seq(a, b) => Assigned(a, known) && (After(a, known).Goes? ==> Assigned(b, After(a, known).known))
    case IfThen(c, t) => Covers(known, c) && Assigned(t, known)
    case IfElse(c, t, e) => Covers(known, c) && Assigned(t, known) && Assigned(e, known)
    case While(c, b) => Covers(known, c) && Assigned(b, known)
    case For(i, c, u, b) =>
      && Assigned(i, known)
      && (After(i, known).Goes? ==>
           var k := After(i, known).known;
           && Covers(k, c) && Assigned(b, k)
           && (After(b, k).Goes? ==> Assigned(u, After(b, k).known)))
    case _ => true
  }

  // ----- What it is good for -----

  /** Known boolean symbols hold 0 or 1. */
  ghost predicate Bits(known: set<Sym>, store: Store) {
    forall x :: x in known && x.ty == BoolTy ==> IsBit(Read(store, x))
  }

  lemma {:induction false} CoveredIsTame(e: Expr, known: set<Sym>, store: Store)
    requires TypeOf(e).Some? && Covers(known, e) && Bits(known, store)
    ensures Tame(e, store)
    ensures TypeOf(e) == Some(BoolTy) && Eval(e, store).Some? ==> IsBit(Eval(e, store).value)
  {
    match e
    case Unary(_, e) => CoveredIsTame(e, known, store);
    case Binary(_, l, r) =>
      CoveredIsTame(l, known, store);
      CoveredIsTame(r, known, store);
      hide Bits;
      if e.bop == And && Eval(l, store).Some? && Eval(r, store).Some? { BitsMeet(Eval(l, store).value, Eval(r, store).value); }
    case _ =>
  }

  lemma BitsMeet(a: int, b: int)
    requires IsBit(a) && IsBit(b)
    ensures Meets(And, a, b)
  {
    BitsOf(a);
    BitsOf(b);
    assert 1 as bv32 & 1 == 1;
  }

  lemma AssignKeeps(known: set<Sym>, store: Store, x: Sym, v: int)
    requires Bits(known, store) && (x.ty == BoolTy ==> IsBit(v))
    ensures Bits(known, store[x := v]) && Bits(known + {x}, store[x := v])
  {
  }

  lemma FewerBits(known: set<Sym>, more: set<Sym>, store: Store)
    requires Bits(more, store) && known <= more
    ensures Bits(known, store)
  {
  }

  lemma {:induction false} AfterGrows(s: Stmt, known: set<Sym>)
    ensures After(s, known).Goes? ==> known <= After(s, known).known
  {
    match s
    case Seq(a, b) =>
      AfterGrows(a, known);
      if After(a, known).Goes? { AfterGrows(b, After(a, known).known); }
    case IfElse(_, t, e) =>
      AfterGrows(t, known);
      AfterGrows(e, known);
    case For(i, _, _, _) => AfterGrows(i, known);
    case _ =>
  }

  /** The outcome of a statement keeps what was known, and a normal one has assigned what the analysis says. */
  ghost predicate Keeps(s: Stmt, known: set<Sym>, r: Outcome) {
    && Bits(known, r.st.store)
    && (r.end == Normal ==> After(s, known).Goes? && Bits(After(s, known).known, r.st.store))
  }

  /** A statement that reads no boolean symbol before assigning it runs tame, whatever the others hold. */
  lemma {:induction false} AssignedIsTame(s: Stmt, declared: set<Sym>, inLoop: bool, known: set<Sym>, st: State, fuel: nat)
    requires WellFormed(s, declared, inLoop) == true && Assigned(s, known) && Bits(known, st.store)
    ensures TameRun(s, st, fuel) && Keeps(s, known, Exec(s, st, fuel))
    decreases fuel, s, 1
  {
    hide Bits;
    match s
    case Assign(x, e) =>
      CoveredIsTame(e, known, st.store);
      if Eval(e, st.store).Some? { AssignKeeps(known, st.store, x, Eval(e, st.store).value); }
    case Print(e) => CoveredIsTame(e, known, st.store);
    case ReturnVal(e) => CoveredIsTame(e, known, st.store);
    case Seq(a, b) =>
      AssignedIsTame(a, declared, inLoop, known, st, fuel);
      var r := Exec(a, st, fuel);
      if r.end == Normal {
        var k := After(a, known).known;
        AssignedIsTame(b, declared + Declares(a), inLoop, k, r.st, fuel);
        AfterGrows(a, known);
        FewerBits(known, k, Exec(b, r.st, fuel).st.store);
      }
    case IfThen(c, t) =>
      CoveredIsTame(c, known, st.store);
      AssignedIsTame(t, declared, inLoop, known, st, fuel);
    case IfElse(c, t, e) => BranchesTame(s, declared, inLoop, known, st, fuel);
    case While(c, b) => LoopIsTame(s, declared, known, st, fuel);
    case For(i, c, u, b) =>
      AssignedIsTame(i, declared, inLoop, known, st, fuel);
      var r := Exec(i, st, fuel);
      if r.end == Normal {
        var k := After(i, known).known;
        LoopIsTame(s, declared, k, r.st, fuel);
        AfterGrows(i, known);
        FewerBits(known, k, ExecLoop(s, r.st, fuel).st.store);
      }
    case _ =>
  }

  lemma {:induction false} BranchesTame(s: Stmt, declared: set<Sym>, inLoop: bool, known: set<Sym>, st: State, fuel: nat)
    requires s.IfElse? && WellFormed(s, declared, inLoop) == true && Assigned(s, known) && Bits(known, st.store)
    ensures TameRun(s, st, fuel) && Keeps(s, known, Exec(s, st, fuel))
    decreases fuel, s, 0
  {
    hide Bits;
    CoveredIsTame(s.cond, known, st.store);
    AssignedIsTame(s.thn, declared, inLoop, known, st, fuel);
    AssignedIsTame(s.els, declared + Declares(s.thn), inLoop, known, st, fuel);
    var r, after := Exec(s, st, fuel), After(s, known);
    if r.end == Normal {
      var v := Eval(s.cond, st.store).value;
      var taken := After(if v != 0 then s.thn else s.els, known);
      FewerBits(after.known, taken.known, r.st.store);
    }
  }

  lemma {:induction false} LoopIsTame(s: Stmt, declared: set<Sym>, known: set<Sym>, st: State, fuel: nat)
    requires s.While? || s.For?
    requires GoodExpr(s.cond, BoolTy, declared) && WellFormed(s.body, declared, true) == true
    requires s.For? ==> WellFormed(s.update, declared, true) == true && Simple(s.update)
    requires Covers(known, s.cond) && Assigned(s.body, known) && Bits(known, st.store)
    requires s.For? && After(s.body, known).Goes? ==> Assigned(s.update, After(s.body, known).known)
    ensures TameLoop(s, st, fuel) && Bits(known, ExecLoop(s, st, fuel).st.store)
    decreases fuel, s, 0
  {
    hide Bits;
    if fuel > 0 {
      CoveredIsTame(s.cond, known, st.store);
      AssignedIsTame(s.body, declared, true, known, st, fuel);
      var r := Exec(s.body, st, fuel);
      if r.end == Normal {
        if s.While? {
          LoopIsTame(s, declared, known, r.st, fuel - 1);
        } else {
          var k := After(s.body, known).known;
          AssignedIsTame(s.update, declared, true, k, r.st, fuel);
          AfterGrows(s.body, known);
          var u := Exec(s.update, r.st, fuel);
          FewerBits(known, k, u.st.store);
          if u.end == Normal { LoopIsTame(s, declared, known, u.st, fuel - 1); }
        }
      }
    }
  }

  /** Nothing needs to be assigned first when every symbol is known from the start. */
  lemma {:induction false} KnownIsAssigned(s: Stmt, declared: set<Sym>, inLoop: bool, known: set<Sym>)
    requires WellFormed(s, declared, inLoop) == true && declared + Declares(s) <= known
    ensures Assigned(s, known) && (After(s, known).Goes? ==> After(s, known).known == known)
  {
    match s
    case Assign(_, e) => UsedIsCovered(e, declared, known);
    case Print(e) => UsedIsCovered(e, declared, known);
    case ReturnVal(e) => UsedIsCovered(e, declared, known);
    case Seq(a, b) =>
      KnownIsAssigned(a, declared, inLoop, known);
      KnownIsAssigned(b, declared + Declares(a), inLoop, known);
    case IfThen(c, t) =>
      UsedIsCovered(c, declared, known);
      KnownIsAssigned(t, declared, inLoop, known);
    case IfElse(c, t, e) =>
      UsedIsCovered(c, declared, known);
      KnownIsAssigned(t, declared, inLoop, known);
      KnownIsAssigned(e, declared + Declares(t), inLoop, known);
    case While(c, b) =>
      UsedIsCovered(c, declared, known);
      KnownIsAssigned(b, declared, true, known);
    case For(i, c, u, b) =>
      UsedIsCovered(c, declared, known);
      KnownIsAssigned(i, declared, inLoop, known);
      KnownIsAssigned(u, declared, inLoop, known);
      KnownIsAssigned(b, declared, true, known);
    case _ =>
  }

  lemma {:induction false} UsedIsCovered(e: Expr, declared: set<Sym>, known: set<Sym>)
    requires UsesOnly(e, declared) && declared <= known
    ensures Covers(known, e)
  {
    match e
    case Unary(_, e) => UsedIsCovered(e, declared, known);
    case Binary(_, l, r) =>
      UsedIsCovered(l, declared, known);
      UsedIsCovered(r, declared, known);
    case _ =>
  }
}
