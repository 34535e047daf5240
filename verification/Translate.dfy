/** Lowering of expressions and structured statements to TAC: the function the visitor computes, and the visitor. */
module Translate {
  import opened Tac
  import opened DecafTree

  type Env = map<Sym, Temp>

  /** What the translator has produced so far: the TAC list of the current function, the temp given to each symbol,
      and the counters of temps and labels. */
  datatype Unit = Unit(tacs: Code, env: Env, temps: nat, labels: nat)

  function Emit(u: Unit, tac: Instr): Unit { u.(tacs := u.tacs + [tac]) }

  function FreshLabels(u: Unit, count: nat): Unit { u.(labels := u.labels + count) }

  function TempOf(env: Env, x: Sym): Temp { if x in env then env[x] else 0 }

  function Opcode(op: BinOp): BinKind {
    match op
    case Plus => ADD case Minus => SUB case Times => MUL case Divide => DIV case Modulo => MOD
    case And => LAND case Or => LOR
    case Lt => LES case Le => LEQ case Gt => GTR case Ge => GEQ case Eq => EQU case Ne => NEQ
  }

  function UnOpcode(op: UnOp): UnKind { if op == Negate then NEG else LNOT }

  function PrintRoutine(e: Expr): Intrinsic { if TypeOf(e) == Some(BoolTy) then PRINT_BOOL else PRINT_INT }

  /** Emit an instruction whose destination is the next temp. */
  function EmitFresh(u: Unit, tac: Instr): (Unit, Temp) {
    (Emit(u, tac).(temps := u.temps + 1), u.temps)
  }

  function CExpr(e: Expr, u: Unit): (Unit, Temp) {
    match e
    case IntLit(v) => EmitFresh(u, LoadImm4(u.temps, v))
    case BoolLit(b) => EmitFresh(u, LoadImm4(u.temps, Bool(b)))
    case Ident(x) => (u, TempOf(u.env, x))
    case Unary(op, e) =>
      var (u1, a) := CExpr(e, u);
      EmitFresh(u1, Un(UnOpcode(op), u1.temps, a))
    case Binary(op, l, r) =>
      var (u1, a) := CExpr(l, u);
      var (u2, b) := CExpr(r, u1);
      EmitFresh(u2, Bin(Opcode(op), u2.temps, a, b))
  }

  function Top(exits: seq<Label>): Label { if exits == [] then 0 else exits[|exits| - 1] }

  function CStmt(s: Stmt, u: Unit, exits: seq<Label>): Unit {
    match s
    case Skip => u
    case VarDef(x) => u.(env := u.env[x := u.temps], temps := u.temps + 1)
    case Assign(x, e) =>
      var (u1, a) := CExpr(e, u);
      Emit(u1, Un(ASSIGN, TempOf(u.env, x), a))
    case Print(e) =>
      var (u1, a) := CExpr(e, u);
      Emit(Emit(u1, Parm(a)), LibCall(PrintRoutine(e)))
    case Seq(p, q) => CStmt(q, CStmt(p, u, exits), exits)
    case IfThen(c, t) =>
      var (u1, a) := CExpr(c, u);
      var u2 := CStmt(t, Emit(FreshLabels(u1, 1), Beqz(a, u1.labels)), exits);
      Emit(u2, Mark(u1.labels))
    case IfElse(c, t, e) =>
      var (u1, a) := CExpr(c, u);
      var u2 := CStmt(t, Emit(FreshLabels(u1, 1), Beqz(a, u1.labels)), exits);
      var u3 := Emit(Emit(FreshLabels(u2, 1), Branch(u2.labels)), Mark(u1.labels));
      var u4 := CStmt(e, u3, exits);
      Emit(u4, Mark(u2.labels))
    case While(c, body) =>
      var u1 := Emit(FreshLabels(u, 1), Mark(u.labels));
      var (u2, a) := CExpr(c, u1);
      var u3 := Emit(FreshLabels(u2, 1), Beqz(a, u2.labels));
      var u4 := CStmt(body, u3, exits + [u2.labels]);
      Emit(Emit(u4, Branch(u.labels)), Mark(u2.labels))
    case For(init, c, update, body) =>
      var u0 := CStmt(init, u, exits);
      var u1 := Emit(Emit(FreshLabels(u0, 2), Branch(u0.labels)), Mark(u0.labels + 1));
      var u2 := Emit(CStmt(update, u1, exits), Mark(u0.labels));
      var (u3, a) := CExpr(c, u2);
      var u4 := Emit(FreshLabels(u3, 1), Beqz(a, u3.labels));
      var u5 := CStmt(body, u4, exits + [u3.labels]);
      Emit(Emit(u5, Branch(u0.labels + 1)), Mark(u3.labels))
    case Break => Emit(u, Branch(Top(exits)))
    case ReturnVal(e) =>
      var (u1, a) := CExpr(e, u);
      Emit(u1, Return(Some(a)))
    case ReturnVoid => Emit(u, Return(None))
  }

  lemma {:induction false} EnvKeys(s: Stmt, u: Unit, exits: seq<Label>)
    ensures CStmt(s, u, exits).env.Keys == u.env.Keys + Declares(s)
    decreases s, 1
  {
    hide CExpr;
    match s
    case Assign(_, e) => ExprKeepsEnv(e, u);
    case Print(e) => ExprKeepsEnv(e, u);
    case ReturnVal(e) => ExprKeepsEnv(e, u);
    case Seq(p, q) =>
      EnvKeys(p, u, exits);
      EnvKeys(q, CStmt(p, u, exits), exits);
    case IfThen(c, t) =>
      ExprKeepsEnv(c, u);
      var (u1, a) := CExpr(c, u);
      EnvKeys(t, Emit(FreshLabels(u1, 1), Beqz(a, u1.labels)), exits);
    case IfElse(_, _, _) => IfElseEnvKeys(s, u, exits);
    case While(c, body) =>
      var u1 := Emit(FreshLabels(u, 1), Mark(u.labels));
      ExprKeepsEnv(c, u1);
      var (u2, a) := CExpr(c, u1);
      EnvKeys(body, Emit(FreshLabels(u2, 1), Beqz(a, u2.labels)), exits + [u2.labels]);
    case For(_, _, _, _) => ForEnvKeys(s, u, exits);
    case _ =>
  }

  lemma {:induction false} IfElseEnvKeys(s: Stmt, u: Unit, exits: seq<Label>)
    requires s.IfElse?
    ensures CStmt(s, u, exits).env.Keys == u.env.Keys + Declares(s)
    decreases s, 0
  {
    ExprKeepsEnv(s.cond, u);
    var (u1, a) := CExpr(s.cond, u);
    var u2 := CStmt(s.thn, Emit(FreshLabels(u1, 1), Beqz(a, u1.labels)), exits);
    var u3 := Emit(Emit(FreshLabels(u2, 1), Branch(u2.labels)), Mark(u1.labels));
    assert CStmt(s, u, exits).env == CStmt(s.els, u3, exits).env;
    assert Declares(s) == Declares(s.thn) + Declares(s.els);
    hide CExpr, CStmt, Declares;
    EnvKeys(s.thn, Emit(FreshLabels(u1, 1), Beqz(a, u1.labels)), exits);
    EnvKeys(s.els, u3, exits);
  }

  lemma {:induction false} ForEnvKeys(s: Stmt, u: Unit, exits: seq<Label>)
    requires s.For?
    ensures CStmt(s, u, exits).env.Keys == u.env.Keys + Declares(s)
    decreases s, 0
  {
    var u0 := CStmt(s.init, u, exits);
    var u1 := Emit(Emit(FreshLabels(u0, 2), Branch(u0.labels)), Mark(u0.labels + 1));
    var u2 := Emit(CStmt(s.update, u1, exits), Mark(u0.labels));
    ExprKeepsEnv(s.cond, u2);
    var (u3, a) := CExpr(s.cond, u2);
    var u4 := Emit(FreshLabels(u3, 1), Beqz(a, u3.labels));
    assert CStmt(s, u, exits).env == CStmt(s.body, u4, exits + [u3.labels]).env;
    assert Declares(s) == Declares(s.init) + Declares(s.update) + Declares(s.body);
    hide CExpr, CStmt, Declares;
    EnvKeys(s.init, u, exits);
    EnvKeys(s.update, u1, exits);
    EnvKeys(s.body, u4, exits + [u3.labels]);
  }

  lemma {:induction false} ExprKeepsEnv(e: Expr, u: Unit)
    ensures CExpr(e, u).0.env == u.env && CExpr(e, u).0.labels == u.labels
  {
    match e
    case Unary(_, e) => ExprKeepsEnv(e, u);
    case Binary(_, l, r) =>
      ExprKeepsEnv(l, u);
      ExprKeepsEnv(r, CExpr(l, u).0);
    case _ =>
  }

  /** The units a for statement goes through, and that its parts are in order where they are translated. */
  lemma ForUnits(s: Stmt, u: Unit, exits: seq<Label>) returns (u0: Unit, u1: Unit, u2: Unit, u4: Unit, u5: Unit)
    requires s.For? && WellFormed(s, u.env.Keys, exits != []) == true
    ensures u0 == CStmt(s.init, u, exits)
    ensures u1 == Emit(Emit(FreshLabels(u0, 2), Branch(u0.labels)), Mark(u0.labels + 1))
    ensures u2 == Emit(CStmt(s.update, u1, exits), Mark(u0.labels))
    ensures var (u3, a) := CExpr(s.cond, u2);
      && u4 == Emit(FreshLabels(u3, 1), Beqz(a, u3.labels)) && u5 == CStmt(s.body, u4, exits + [u3.labels])
      && CStmt(s, u, exits) == Emit(Emit(u5, Branch(u0.labels + 1)), Mark(u3.labels))
    ensures WellFormed(s.init, u.env.Keys, exits != []) == true && WellFormed(s.update, u.env.Keys, exits != []) == true
    ensures WellFormed(s.body, u.env.Keys, true) == true && UsesOnly(s.cond, u.env.Keys)
    ensures u0.env.Keys == u1.env.Keys == u2.env.Keys == u4.env.Keys == u.env.Keys
  {
    u0 := CStmt(s.init, u, exits);
    u1 := Emit(Emit(FreshLabels(u0, 2), Branch(u0.labels)), Mark(u0.labels + 1));
    u2 := Emit(CStmt(s.update, u1, exits), Mark(u0.labels));
    var (u3, a) := CExpr(s.cond, u2);
    u4 := Emit(FreshLabels(u3, 1), Beqz(a, u3.labels));
    u5 := CStmt(s.body, u4, exits + [u3.labels]);
    assert Declares(s.init) == Declares(s.update) == {};
    EnvKeys(s.init, u, exits);
    EnvKeys(s.update, u1, exits);
    ExprKeepsEnv(s.cond, u2);
  }

  /** The translator's mutable state: the current function's TAC list, the two static counters, the stack of loop
      exits, and the temp each symbol was given. */
  class Translator {
    var tacs: Code
    var tempCount: nat
    var labelCount: nat
    var loopExits: seq<Label>
    var env: Env

    ghost function Now(): Unit
      reads this
    {
      Unit(tacs, env, tempCount, labelCount)
    }

    /** The start of a function whose parameters have been given temps below `temps`. */
    constructor (params: Env, temps: nat, labels: nat)
      ensures Now() == Unit([], params, temps, labels) && loopExits == []
    {
      tacs, tempCount, labelCount, loopExits, env := [], temps, labels, [], params;
    }

    method Append(tac: Instr)
      modifies `tacs
      ensures Now() == Emit(old(Now()), tac)
    {
      tacs := tacs + [tac];
    }

    method CreateTemp() returns (t: Temp)
      modifies `tempCount
      ensures t == old(tempCount) && tempCount == t + 1
    {
      t := tempCount;
      tempCount := tempCount + 1;
    }

    method CreateLabel() returns (l: Label)
      modifies `labelCount
      ensures l == old(labelCount) && labelCount == l + 1
    {
      l := labelCount;
      labelCount := labelCount + 1;
    }

    method VisitExpr(e: Expr) returns (val: Temp)
      requires UsesOnly(e, env.Keys)
      modifies `tacs, `tempCount
      ensures (Now(), val) == CExpr(e, old(Now()))
    {
      match e
      case IntLit(v) =>
        val := CreateTemp();
        Append(LoadImm4(val, v));
      case BoolLit(b) =>
        val := CreateTemp();
        Append(LoadImm4(val, if b then 1 else 0));
      case Ident(x) =>
        val := env[x];
      case Unary(op, e) =>
        var v := VisitExpr(e);
        val := CreateTemp();
        Append(Un(UnOpcode(op), val, v));
      case Binary(op, left, right) =>
        var l := VisitExpr(left);
        var r := VisitExpr(right);
        val := CreateTemp();
        Append(Bin(Opcode(op), val, l, r));
    }

    /** The checks that precede translation passed for `s` in the current scope. */
    predicate Accepts(s: Stmt)
      reads this
    {
      WellFormed(s, env.Keys, loopExits != []) == true
    }

    method VisitStmt(s: Stmt)
      requires Accepts(s)
      modifies this
      ensures Now() == CStmt(s, old(Now()), old(loopExits)) && loopExits == old(loopExits)
      decreases s, 2
    {
      match s
      case Skip =>
      case VarDef(x) =>
        var t := CreateTemp();
        env := env[x := t];
      case Assign(x, e) =>
        var v := VisitExpr(e);
        Append(Un(ASSIGN, env[x], v));
      case Print(e) =>
        var v := VisitExpr(e);
        Append(Parm(v));
        Append(LibCall(PrintRoutine(e)));
      case Seq(p, q) =>
        EnvKeys(p, Now(), loopExits);
        VisitStmt(p);
        VisitStmt(q);
      case IfThen(_, _) => VisitIf(s);
      case IfElse(_, _, _) => VisitIf(s);
      case While(_, _) => VisitWhileLoop(s);
      case For(_, _, _, _) => VisitForLoop(s);
      case Break =>
        Append(Branch(loopExits[|loopExits| - 1]));
      case ReturnVal(e) =>
        var v := VisitExpr(e);
        Append(Return(Some(v)));
      case ReturnVoid =>
        Append(Return(None));
    }

    method VisitIf(s: Stmt)
      requires s.IfThen? || s.IfElse?
      requires Accepts(s)
      modifies this
      ensures Now() == CStmt(s, old(Now()), old(loopExits)) && loopExits == old(loopExits)
      decreases s, 0
    {
      ghost var (u1, a) := CExpr(s.cond, Now());
      ghost var u2 := CStmt(s.thn, Emit(FreshLabels(u1, 1), Beqz(a, u1.labels)), loopExits);
      var v := VisitExpr(s.cond);
      if s.IfElse? {
        ghost var u3 := Emit(Emit(FreshLabels(u2, 1), Branch(u2.labels)), Mark(u1.labels));
        var falseLabel := CreateLabel();
        Append(Beqz(v, falseLabel));
        EnvKeys(s.thn, Now(), loopExits);
        VisitStmt(s.thn);
        assert Now() == u2;
        var exit := CreateLabel();
        Append(Branch(exit));
        Append(Mark(falseLabel));
        assert Now() == u3;
        VisitStmt(s.els);
        Append(Mark(exit));
      } else {
        var exit := CreateLabel();
        Append(Beqz(v, exit));
        VisitStmt(s.thn);
        assert Now() == u2;
        Append(Mark(exit));
      }
    }

    method VisitWhileLoop(s: Stmt)
      requires s.While?
      requires Accepts(s)
      modifies this
      ensures Now() == CStmt(s, old(Now()), old(loopExits)) && loopExits == old(loopExits)
      decreases s, 0
    {
      ghost var u1 := Emit(FreshLabels(Now(), 1), Mark(labelCount));
      ghost var (u2, a) := CExpr(s.cond, u1);
      ghost var u3 := Emit(FreshLabels(u2, 1), Beqz(a, u2.labels));
      ghost var u4 := CStmt(s.body, u3, loopExits + [u2.labels]);
      var loop := CreateLabel();
      Append(Mark(loop));
      var v := VisitExpr(s.cond);
      var exit := CreateLabel();
      Append(Beqz(v, exit));
      assert Now() == u3;
      loopExits := loopExits + [exit];
      VisitStmt(s.body);
      assert Now() == u4;
      Append(Branch(loop));
      loopExits := loopExits[..|loopExits| - 1];
      Append(Mark(exit));
    }

    method VisitForLoop(s: Stmt)
      requires s.For?
      requires Accepts(s)
      modifies this
      ensures Now() == CStmt(s, old(Now()), old(loopExits)) && loopExits == old(loopExits)
      decreases s, 1
    {
      ghost var start, exits := Now(), loopExits;
      ghost var u0, u1, u2, u4, u5 := ForUnits(s, start, exits);
      hide CStmt, CExpr, WellFormed, UsesOnly;
      var loop, exit := ForHead(s, u0, u1, u2);
      assert Now() == u4;
      loopExits := loopExits + [exit];
      VisitStmt(s.body);
      assert Now() == u5;
      Append(Branch(loop));
      loopExits := loopExits[..|loopExits| - 1];
      assert loopExits == exits;
      Append(Mark(exit));
    }

    /** Up to the branch out of the loop: initialisation, a jump over the update, the update, the test. */
    method ForHead(s: Stmt, ghost u0: Unit, ghost u1: Unit, ghost u2: Unit) returns (loop: Label, exit: Label)
      requires s.For? && Accepts(s.init) && u0 == CStmt(s.init, Now(), loopExits)
      requires u1 == Emit(Emit(FreshLabels(u0, 2), Branch(u0.labels)), Mark(u0.labels + 1))
      requires u2 == Emit(CStmt(s.update, u1, loopExits), Mark(u0.labels))
      requires WellFormed(s.update, env.Keys, loopExits != []) == true && UsesOnly(s.cond, env.Keys)
      requires u0.env.Keys == u1.env.Keys == u2.env.Keys == env.Keys
      modifies this
      ensures var (u3, a) := CExpr(s.cond, u2);
        Now() == Emit(FreshLabels(u3, 1), Beqz(a, u3.labels)) && exit == u3.labels
      ensures loop == u0.labels + 1 && loopExits == old(loopExits)
      decreases s, 0
    {
      hide CStmt, CExpr, WellFormed, UsesOnly;
      VisitStmt(s.init);
      var cond := CreateLabel();
      loop := CreateLabel();
      Append(Branch(cond));
      Append(Mark(loop));
      assert Now() == u1;
      VisitStmt(s.update);
      Append(Mark(cond));
      assert Now() == u2;
      var v := VisitExpr(s.cond);
      exit := CreateLabel();
      Append(Beqz(v, exit));
    }
  }
}
