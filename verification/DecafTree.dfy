/** Abstract syntax and reference semantics of the Decaf statements whose translation is verified. */
module DecafTree {
  import opened Tac

  datatype Ty = IntTy | BoolTy

  /** A local variable or parameter symbol; like the compiler's symbol objects it carries its declared type. */
  datatype Sym = Sym(id: nat, ty: Ty)

  datatype BinOp = Plus | Minus | Times | Divide | Modulo | And | Or | Lt | Le | Gt | Ge | Eq | Ne
  datatype UnOp = Negate | Not

  datatype Expr =
    | IntLit(n: int)
    | BoolLit(b: bool)
    | Ident(x: Sym)
    | Unary(uop: UnOp, e: Expr)
    | Binary(bop: BinOp, left: Expr, right: Expr)

  /** An absent loop initialiser or update is Skip; a block is its statements joined by Seq. */
  datatype Stmt =
    | Skip
    | VarDef(x: Sym)
    | Assign(x: Sym, e: Expr)
    | Print(e: Expr)
    | Seq(first: Stmt, second: Stmt)
    | IfThen(cond: Expr, thn: Stmt)
    | IfElse(cond: Expr, thn: Stmt, els: Stmt)
    | While(cond: Expr, body: Stmt)
    | For(init: Stmt, cond: Expr, update: Stmt, body: Stmt)
    | Break
    | ReturnVal(e: Expr)
    | ReturnVoid

  // ----- What the type checker accepts -----

  function TypeOf(e: Expr): Option<Ty> {
    match e
    case IntLit(_) => Some(IntTy)
    case BoolLit(_) => Some(BoolTy)
    case Ident(x) => Some(x.ty)
    case Unary(Negate, e) => if TypeOf(e) == Some(IntTy) then Some(IntTy) else None
    case Unary(Not, e) => if TypeOf(e) == Some(BoolTy) then Some(BoolTy) else None
    case Binary(op, l, r) =>
      var tl, tr := TypeOf(l), TypeOf(r);
      match op
      case Plus | Minus | Times | Divide | Modulo =>
        if tl == Some(IntTy) == tr then Some(IntTy) else None
      case Lt | Le | Gt | Ge =>
        if tl == Some(IntTy) == tr then Some(BoolTy) else None
      case And | Or =>
        if tl == Some(BoolTy) == tr then Some(BoolTy) else None
      case Eq | Ne =>
        if tl.Some? && tl == tr then Some(BoolTy) else None
  }

  predicate UsesOnly(e: Expr, declared: set<Sym>) {
    match e
    case IntLit(_) | BoolLit(_) => true
    case Ident(x) => x in declared
    case Unary(_, e) => UsesOnly(e, declared)
    case Binary(_, l, r) => UsesOnly(l, declared) && UsesOnly(r, declared)
  }

  predicate GoodExpr(e: Expr, ty: Ty, declared: set<Sym>) {
    TypeOf(e) == Some(ty) && UsesOnly(e, declared)
  }

  /** The symbols a statement declares. */
  function Declares(s: Stmt): set<Sym> {
    match s
    case VarDef(x) => {x}
    case Seq(a, b) => Declares(a) + Declares(b)
    case IfThen(_, t) => Declares(t)
    case IfElse(_, t, e) => Declares(t) + Declares(e)
    case While(_, b) => Declares(b)
    case For(i, _, u, b) => Declares(i) + Declares(u) + Declares(b)
    case _ => {}
  }

  predicate Simple(s: Stmt) { s.Skip? || s.Assign? }

  /** Every use is declared before it and well typed, no symbol is declared twice, and
      break occurs only inside a loop. */
  predicate WellFormed(s: Stmt, declared: set<Sym>, inLoop: bool) {
    match s
    case Skip | ReturnVoid => true
    case VarDef(x) => x !in declared
    case Assign(x, e) => x in declared && GoodExpr(e, x.ty, declared)
    case Print(e) => TypeOf(e).Some? && UsesOnly(e, declared)
    case Seq(a, b) => WellFormed(a, declared, inLoop) && WellFormed(b, declared + Declares(a), inLoop)
    case IfThen(c, t) => GoodExpr(c, BoolTy, declared) && WellFormed(t, declared, inLoop)
    case IfElse(c, t, e) =>
      GoodExpr(c, BoolTy, declared) && WellFormed(t, declared, inLoop) && WellFormed(e, declared + Declares(t), inLoop)
    case While(c, b) => GoodExpr(c, BoolTy, declared) && WellFormed(b, declared, true)
    case For(i, c, u, b) =>
      && Simple(i) && WellFormed(i, declared, inLoop)
      && GoodExpr(c, BoolTy, declared)
      && Simple(u) && WellFormed(u, declared, inLoop)
      && WellFormed(b, declared, true)
    case Break => inLoop
    case ReturnVal(e) => TypeOf(e).Some? && UsesOnly(e, declared)
  }

  // ----- 32-bit arithmetic -----

  const TWO31 := 0x8000_0000
  const TWO32 := 0x1_0000_0000

  /** The value of an integer after two's complement truncation to 32 bits. */
  function Wrap(n: int): int {
    var m := n % TWO32;
    if m < TWO31 then m else m - TWO32
  }

  /** Division truncating toward zero. */
  function TruncDiv(a: int, b: int): int
    requires b != 0
  {
    var q := (if a < 0 then -a else a) / (if b < 0 then -b else b);
    if (a < 0) == (b < 0) then q else -q
  }

  function TruncMod(a: int, b: int): int
    requires b != 0
  {
    a - b * TruncDiv(a, b)
  }

  function Bool(b: bool): int { if b then 1 else 0 }

  // ----- Big-step semantics -----

  type Store = map<Sym, int>

  datatype Item = IntItem(n: int) | BoolItem(b: bool)

  datatype State = State(store: Store, out: seq<Item>)

  /** None is the arithmetic trap of a zero divisor. && and || are logical, on operands that are both evaluated. */
  function EvalBin(op: BinOp, a: int, b: int): Option<int> {
    match op
    case Plus => Some(Wrap(a + b))
    case Minus => Some(Wrap(a - b))
    case Times => Some(Wrap(a * b))
    case Divide => if b == 0 then None else Some(Wrap(TruncDiv(a, b)))
    case Modulo => if b == 0 then None else Some(Wrap(TruncMod(a, b)))
    case And => Some(Bool(a != 0 && b != 0))
    case Or => Some(Bool(a != 0 || b != 0))
    case Lt => Some(Bool(a < b))
    case Le => Some(Bool(a <= b))
    case Gt => Some(Bool(a > b))
    case Ge => Some(Bool(a >= b))
    case Eq => Some(Bool(a == b))
    case Ne => Some(Bool(a != b))
  }

  /** A symbol outside the store reads 0; well-formed statements never do that. */
  function Read(store: Store, x: Sym): int {
    if x in store then store[x] else 0
  }

  function Eval(e: Expr, store: Store): Option<int> {
    match e
    case IntLit(n) => Some(n)
    case BoolLit(b) => Some(Bool(b))
    case Ident(x) => Some(Read(store, x))
    case Unary(op, e) =>
      var v := Eval(e, store);
      if v.None? then None
      else if op == Negate then Some(Wrap(-v.value)) else Some(Bool(v.value == 0))
    case Binary(op, l, r) =>
      var a := Eval(l, store);
      if a.None? then None else
      var b := Eval(r, store);
      if b.None? then None else EvalBin(op, a.value, b.value)
  }

  /** How a statement ends. Trapped is a zero divisor; OutOfFuel means some loop ran through `fuel` iterations. */
  datatype Ending = Normal | Broke | Returned(v: Option<int>) | Trapped | OutOfFuel

  datatype Outcome = Outcome(end: Ending, st: State)

  function Shown(e: Expr, v: int): Item {
    if TypeOf(e) == Some(BoolTy) then BoolItem(v != 0) else IntItem(v)
  }

  function Exec(s: Stmt, st: State, fuel: nat): Outcome
    decreases fuel, s, 1
  {
    match s
    case Skip | VarDef(_) => Outcome(Normal, st)
    case Assign(x, e) =>
      var v := Eval(e, st.store);
      if v.None? then Outcome(Trapped, st) else Outcome(Normal, st.(store := st.store[x := v.value]))
    case Print(e) =>
      var v := Eval(e, st.store);
      if v.None? then Outcome(Trapped, st) else Outcome(Normal, st.(out := st.out + [Shown(e, v.value)]))
    case Seq(a, b) =>
      var r := Exec(a, st, fuel);
      if r.end == Normal then Exec(b, r.st, fuel) else r
    case IfThen(c, t) =>
      var v := Eval(c, st.store);
      if v.None? then Outcome(Trapped, st)
      else if v.value != 0 then Exec(t, st, fuel) else Outcome(Normal, st)
    case IfElse(c, t, e) =>
      var v := Eval(c, st.store);
      if v.None? then Outcome(Trapped, st)
      else if v.value != 0 then Exec(t, st, fuel) else Exec(e, st, fuel)
    case While(_, _) => ExecLoop(s, st, fuel)
    case For(i, _, _, _) =>
      var r := Exec(i, st, fuel);
      if r.end == Normal then ExecLoop(s, r.st, fuel) else r
    case Break => Outcome(Broke, st)
    case ReturnVal(e) =>
      var v := Eval(e, st.store);
      if v.None? then Outcome(Trapped, st) else Outcome(Returned(Some(v.value)), st)
    case ReturnVoid => Outcome(Returned(None), st)
  }

  /** The loop proper, its initialiser done: test, body, update, again. A break leaves without the update. */
  function ExecLoop(s: Stmt, st: State, fuel: nat): Outcome
    requires s.While? || s.For?
    decreases fuel, s, 0
  {
    if fuel == 0 then Outcome(OutOfFuel, st) else
    var v := Eval(s.cond, st.store);
    if v.None? then Outcome(Trapped, st)
    else if v.value == 0 then Outcome(Normal, st) else
    var r := Exec(s.body, st, fuel);
    if r.end == Broke then Outcome(Normal, r.st)
    else if r.end != Normal then r
    else if s.While? then ExecLoop(s, r.st, fuel - 1)
    else
      var u := Exec(s.update, r.st, fuel);
      if u.end == Normal then ExecLoop(s, u.st, fuel - 1) else u
  }

  /** Fuel only ever decides between an ending and OutOfFuel: a larger amount finds the same ending. */
  lemma {:induction false} FuelIrrelevant(s: Stmt, st: State, f: nat, g: nat)
    requires f <= g && Exec(s, st, f).end != OutOfFuel
    ensures Exec(s, st, g) == Exec(s, st, f)
    decreases f, s, 1
  {
    match s
    case Seq(a, b) =>
      FuelIrrelevant(a, st, f, g);
      if Exec(a, st, f).end == Normal { FuelIrrelevant(b, Exec(a, st, f).st, f, g); }
    case IfThen(c, t) =>
      if Eval(c, st.store).Some? && Eval(c, st.store).value != 0 { FuelIrrelevant(t, st, f, g); }
    case IfElse(c, t, e) =>
      if Eval(c, st.store).Some? { FuelIrrelevant(if Eval(c, st.store).value != 0 then t else e, st, f, g); }
    case While(_, _) => LoopFuelIrrelevant(s, st, f, g);
    case For(i, _, _, _) =>
      FuelIrrelevant(i, st, f, g);
      if Exec(i, st, f).end == Normal { LoopFuelIrrelevant(s, Exec(i, st, f).st, f, g); }
    case _ =>
  }

  lemma {:induction false} LoopFuelIrrelevant(s: Stmt, st: State, f: nat, g: nat)
    requires s.While? || s.For?
    requires f <= g && ExecLoop(s, st, f).end != OutOfFuel
    ensures ExecLoop(s, st, g) == ExecLoop(s, st, f)
    decreases f, s, 0
  {
    var v := Eval(s.cond, st.store);
    if v.Some? && v.value != 0 {
      FuelIrrelevant(s.body, st, f, g);
      var r := Exec(s.body, st, f);
      if r.end == Normal {
        if s.While? {
          LoopFuelIrrelevant(s, r.st, f - 1, g - 1);
        } else {
          FuelIrrelevant(s.update, r.st, f, g);
          var u := Exec(s.update, r.st, f);
          if u.end == Normal { LoopFuelIrrelevant(s, u.st, f - 1, g - 1); }
        }
      }
    }
  }
}
