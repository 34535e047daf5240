/** The translation keeps the meaning of a function body on the virtual machine. */
module TranslateCorrect {
  import opened Tac
  import opened DecafTree
  import opened Translate
  import opened TacVM
  import opened MachineWords

  // ----- Shape of the emitted code -----

  lemma {:induction false} ExprShape(e: Expr, u: Unit)
    ensures var (v, a) := CExpr(e, u);
            && u.tacs <= v.tacs && u.temps <= v.temps && v.env == u.env && v.labels == u.labels
            && (AllLocal(u.tacs) ==> AllLocal(v.tacs))
            && forall i :: |u.tacs| <= i < |v.tacs| ==> !v.tacs[i].Mark?
  {
    match e
    case Unary(_, e) => ExprShape(e, u);
    case Binary(_, l, r) =>
      ExprShape(l, u);
      ExprShape(r, CExpr(l, u).0);
    case _ =>
  }

  /** Marks placed from index `from` on carry distinct labels of [lo, hi). */
  ghost predicate FreshMarks(tacs: Code, from: nat, lo: nat, hi: nat) {
    && (forall i :: from <= i < |tacs| && tacs[i].Mark? ==> lo <= tacs[i].lab < hi)
    && (forall i, j :: from <= i < j < |tacs| && tacs[i].Mark? && tacs[j].Mark? ==> tacs[i].lab != tacs[j].lab)
  }

  /** Symbols declared in between got temps from the same interval as the values computed in between. */
  ghost predicate Grows(env: Env, temps: nat, env': Env, temps': nat) {
    && temps <= temps'
    && (forall x :: x in env ==> x in env' && env'[x] == env[x])
    && (forall x :: x in env' && x !in env ==> temps <= env'[x] < temps')
    && (forall x, y :: x in env' && x !in env && y in env' && y !in env && x != y ==> env'[x] != env'[y])
  }

  ghost predicate Extends(u: Unit, v: Unit) {
    && u.tacs <= v.tacs && u.labels <= v.labels
    && (AllLocal(u.tacs) ==> AllLocal(v.tacs))
    && FreshMarks(v.tacs, |u.tacs|, u.labels, v.labels)
    && Grows(u.env, u.temps, v.env, v.temps)
  }

  lemma ExtendsTrans(u: Unit, v: Unit, w: Unit)
    requires Extends(u, v) && Extends(v, w)
    ensures Extends(u, w)
  {
  }

  lemma ExprExtends(e: Expr, u: Unit)
    ensures Extends(u, CExpr(e, u).0)
  {
    ExprShape(e, u);
  }

  lemma EmitExtends(u: Unit, count: nat, tac: Instr)
    requires Local(tac) && !tac.Mark?
    ensures Extends(u, Emit(FreshLabels(u, count), tac))
  {
  }

  /** Label l was reserved between u and v and is not marked there. */
  ghost predicate Pending(u: Unit, v: Unit, l: Label) {
    Extends(u, v) && u.labels <= l < v.labels && forall i :: |u.tacs| <= i < |v.tacs| ==> v.tacs[i] != Mark(l)
  }

  lemma PendingNew(u: Unit, v: Unit, count: nat, k: nat)
    requires Extends(u, v) && k < count
    ensures Pending(u, FreshLabels(v, count), v.labels + k)
  {
  }

  lemma PendingTrans(u: Unit, v: Unit, w: Unit, l: Label)
    requires Pending(u, v, l) && Extends(v, w)
    ensures Pending(u, w, l) && Extends(u, w)
  {
    ExtendsTrans(u, v, w);
  }

  lemma PendingClose(u: Unit, v: Unit, l: Label)
    requires Pending(u, v, l)
    ensures Extends(u, Emit(v, Mark(l)))
    ensures forall l' :: l' != l && Pending(u, v, l') ==> Pending(u, Emit(v, Mark(l)), l')
  {
  }

  lemma {:induction false} StmtShape(s: Stmt, u: Unit, exits: seq<Label>, inLoop: bool)
    requires WellFormed(s, u.env.Keys, inLoop) == true
    ensures Extends(u, CStmt(s, u, exits))
    decreases s, 1
  {
    match s
    case Assign(_, e) => ExprShape(e, u);
    case Print(e) => ExprShape(e, u);
    case ReturnVal(e) => ExprShape(e, u);
    case Seq(p, q) =>
      var v := CStmt(p, u, exits);
      StmtShape(p, u, exits, inLoop);
      EnvKeys(p, u, exits);
      StmtShape(q, v, exits, inLoop);
      ExtendsTrans(u, v, CStmt(q, v, exits));
    case IfThen(_, _) => IfShape(s, u, exits, inLoop);
    case IfElse(_, _, _) => IfShape(s, u, exits, inLoop);
    case While(_, _) => WhileShape(s, u, exits, inLoop);
    case For(_, _, _, _) => ForShape(s, u, exits, inLoop);
    case _ =>
  }

  lemma {:induction false} IfShape(s: Stmt, u: Unit, exits: seq<Label>, inLoop: bool)
    requires s.IfThen? || s.IfElse?
    requires WellFormed(s, u.env.Keys, inLoop) == true
    ensures Extends(u, CStmt(s, u, exits))
    decreases s, 0
  {
    hide Extends, Pending;
    ExprExtends(s.cond, u);
    var (u1, a) := CExpr(s.cond, u);
    var v := GuardPending(u, u1, a);
    var u2 := CStmt(s.thn, v, exits);
    ExprKeepsEnv(s.cond, u);
    StmtShape(s.thn, v, exits, inLoop);
    EnvKeys(s.thn, v, exits);
    PendingTrans(u, v, u2, u1.labels);
    if s.IfThen? {
      PendingClose(u, u2, u1.labels);
    } else {
      var w := Emit(FreshLabels(u2, 1), Branch(u2.labels));
      EmitExtends(u2, 1, Branch(u2.labels));
      PendingTrans(u, u2, w, u1.labels);
      PendingNew(u, u2, 1, 0);
      EmitExtends(FreshLabels(u2, 1), 0, Branch(u2.labels));
      PendingTrans(u, FreshLabels(u2, 1), w, u2.labels);
      PendingClose(u, w, u1.labels);
      var u3 := Emit(w, Mark(u1.labels));
      assert u1.labels < u2.labels by { PendingBounds(u, u2, u1.labels); }
      StmtShape(s.els, u3, exits, inLoop);
      PendingTrans(u, u3, CStmt(s.els, u3, exits), u2.labels);
      PendingClose(u, CStmt(s.els, u3, exits), u2.labels);
    }
  }

  lemma PendingBounds(u: Unit, v: Unit, l: Label)
    requires Pending(u, v, l)
    ensures u.labels <= l < v.labels
  {
  }

  /** Reserving an exit label and branching to it when the condition is 0 leaves that label pending. */
  lemma GuardPending(u: Unit, v: Unit, a: Temp) returns (w: Unit)
    requires Extends(u, v)
    ensures w == Emit(FreshLabels(v, 1), Beqz(a, v.labels)) && Pending(u, w, v.labels)
  {
    PendingNew(u, v, 1, 0);
    w := Emit(FreshLabels(v, 1), Beqz(a, v.labels));
    EmitExtends(FreshLabels(v, 1), 0, Beqz(a, v.labels));
    PendingTrans(u, FreshLabels(v, 1), w, v.labels);
  }

  /** Closing a loop: its body extends the code after the guard, then the back branch and the exit mark. */
  lemma LoopCloses(u: Unit, v: Unit, w: Unit, loop: Label, exit: Label)
    requires Pending(u, v, exit) && Extends(v, w)
    ensures Extends(u, Emit(Emit(w, Branch(loop)), Mark(exit)))
  {
    EmitExtends(w, 0, Branch(loop));
    ExtendsTrans(v, w, Emit(w, Branch(loop)));
    PendingTrans(u, v, Emit(w, Branch(loop)), exit);
    PendingClose(u, Emit(w, Branch(loop)), exit);
  }

  lemma {:induction false} WhileShape(s: Stmt, u: Unit, exits: seq<Label>, inLoop: bool)
    requires s.While?
    requires WellFormed(s, u.env.Keys, inLoop) == true
    ensures Extends(u, CStmt(s, u, exits))
    decreases s, 0
  {
    var u1 := Emit(FreshLabels(u, 1), Mark(u.labels));
    var (u2, a) := CExpr(s.cond, u1);
    assert Extends(u, u1);
    hide Extends, Pending;
    ExprExtends(s.cond, u1);
    ExtendsTrans(u, u1, u2);
    var u3 := GuardPending(u, u2, a);
    ExprKeepsEnv(s.cond, u1);
    StmtShape(s.body, u3, exits + [u2.labels], true);
    LoopCloses(u, u3, CStmt(s.body, u3, exits + [u2.labels]), u.labels, u2.labels);
  }

  lemma ForHead(u: Unit) returns (v: Unit)
    ensures v == Emit(Emit(FreshLabels(u, 2), Branch(u.labels)), Mark(u.labels + 1))
    ensures Pending(u, v, u.labels)
  {
    v := Emit(Emit(FreshLabels(u, 2), Branch(u.labels)), Mark(u.labels + 1));
  }

  lemma {:induction false} ForShape(s: Stmt, u: Unit, exits: seq<Label>, inLoop: bool)
    requires s.For?
    requires WellFormed(s, u.env.Keys, inLoop) == true
    ensures Extends(u, CStmt(s, u, exits))
    decreases s, 0
  {
    hide Extends, Pending;
    var u0 := CStmt(s.init, u, exits);
    StmtShape(s.init, u, exits, inLoop);
    EnvKeys(s.init, u, exits);
    assert u0.env.Keys == u.env.Keys;
    var u1 := ForHead(u0);
    var w := CStmt(s.update, u1, exits);
    StmtShape(s.update, u1, exits, inLoop);
    EnvKeys(s.update, u1, exits);
    assert w.env.Keys == u.env.Keys;
    PendingTrans(u0, u1, w, u0.labels);
    PendingClose(u0, w, u0.labels);
    var u2 := Emit(w, Mark(u0.labels));
    ExprExtends(s.cond, u2);
    var (u3, a) := CExpr(s.cond, u2);
    ExtendsTrans(u0, u2, u3);
    ExtendsTrans(u, u0, u3);
    var u4 := GuardPending(u, u3, a);
    ExprKeepsEnv(s.cond, u2);
    StmtShape(s.body, u4, exits + [u3.labels], true);
    LoopCloses(u, u4, CStmt(s.body, u4, exits + [u3.labels]), u0.labels + 1, u3.labels);
  }

  // ----- Loading -----

  lemma {:induction false} BodyLength(whole: Code, code: Code)
    requires AllLocal(code)
    ensures |Body(whole, code)| == End(code)
  {
    if code != [] { BodyLength(whole, code[..|code| - 1]); }
  }

  lemma {:induction false} BodyAt(whole: Code, code: Code, k: nat)
    requires AllLocal(code) && k < |code|
    ensures End(code[..k + 1]) == End(code[..k]) + Width(code[k]) <= End(code)
    ensures Body(whole, code[..k]) + Expand(whole, code[k]) <= Body(whole, code)
    decreases |code|
  {
    var last := |code| - 1;
    var init := code[..last];
    if k < last {
      BodyAt(whole, init, k);
      assert init[..k] == code[..k] && init[..k + 1] == code[..k + 1];
    } else {
      assert code[..k + 1] == code;
    }
  }

  /** The instructions of a TAC sit in the loaded program right after those of the code before it. */
  lemma LoadedAt(code: Code, before: Code, tac: Instr)
    requires AllLocal(code) && before + [tac] <= code
    ensures Local(tac)
    ensures End(before + [tac]) == End(before) + Width(tac) <= End(code) == |Loaded(code)| - 1
    ensures Loaded(code)[End(before)..End(before + [tac])] == Expand(code, tac)
  {
    BodyBefore(code, before, tac);
    BodyLength(code, before);
    BodyLength(code, code);
    var b, e := Body(code, before), Expand(code, tac);
    assert |Loaded(code)| == End(code) + 1 && b + e <= Loaded(code);
    hide Body, Expand, End, Loaded, Width, AllLocal;
    SliceOf(b, e, Loaded(code));
  }

  lemma BodyBefore(code: Code, before: Code, tac: Instr)
    requires AllLocal(code) && before + [tac] <= code
    ensures AllLocal(before) && Local(tac)
    ensures End(before + [tac]) == End(before) + Width(tac) <= End(code) && |Expand(code, tac)| == Width(tac)
    ensures Body(code, before) + Expand(code, tac) <= Body(code, code)
  {
    var k := |before|;
    assert code[..k] == before && code[..k + 1] == before + [tac] && code[k] == tac;
    hide Body, End, Where;
    BodyAt(code, code, k);
  }

  lemma SliceOf<T>(a: seq<T>, b: seq<T>, s: seq<T>)
    requires a + b <= s
    ensures s[|a|..|a| + |b|] == b
  {
    assert s[..|a| + |b|] == a + b;
  }

  ghost predicate DistinctMarks(code: Code) {
    forall i, j :: 0 <= i < j < |code| && code[i].Mark? && code[j].Mark? ==> code[i].lab != code[j].lab
  }

  lemma {:induction false} LabelAt(code: Code, before: Code, l: Label)
    requires DistinctMarks(code) && before + [Mark(l)] <= code
    ensures Where(code, l) == End(before)
    decreases |code|
  {
    var last := |code| - 1;
    assert code[|before|] == Mark(l);
    if |before| == last {
      assert code[..last] == before;
    } else {
      assert before + [Mark(l)] <= code[..last];
      LabelAt(code[..last], before, l);
    }
  }

  /** One machine step at a TAC that is a single instruction. */
  lemma RunOne(code: Code, before: Code, tac: Instr, m: Machine)
    requires AllLocal(code) && before + [tac] <= code
    requires Width(tac) == 1 && m.pc == End(before)
    ensures Local(tac) && End(before + [tac]) == m.pc + 1
    ensures Run(Loaded(code), Config(Running, m), 1) == Perform(Expand(code, tac)[0], m)
  {
    LoadedAt(code, before, tac);
    var insts := Loaded(code);
    assert insts[End(before)..End(before + [tac])][0] == insts[m.pc];
    var c := Step(insts, m);
    assert Run(insts, c, 0) == c;
  }

  // ----- Expressions -----

  /** Every symbol has a temp of its own, among those given so far or to be given later. */
  ghost predicate Allocated(final: Env, env: Env, temps: nat) {
    && (forall x :: x in env ==> x in final && final[x] == env[x] && env[x] < temps)
    && (forall x :: x in final && x !in env ==> final[x] >= temps)
    && (forall x, y :: x in final && y in final && x != y ==> final[x] != final[y])
  }

  lemma AllocatedMid(final: Env, u: Unit, v: Unit, w: Unit)
    requires Allocated(final, u.env, u.temps) && Allocated(final, w.env, w.temps)
    requires Grows(u.env, u.temps, v.env, v.temps) && Grows(v.env, v.temps, w.env, w.temps)
    ensures Allocated(final, v.env, v.temps)
  {
  }

  ghost predicate Holds(final: Env, store: Store, f: Frame) {
    && store.Keys == final.Keys
    && forall x :: x in final ==> Cell(f, final[x]) == store[x]
  }

  /** Frames that differ only in cells of temps from lo to hi. */
  ghost predicate SameOutside(f: Frame, g: Frame, lo: nat, hi: nat) {
    forall t: Temp :: t < lo || hi <= t ==> Cell(f, t) == Cell(g, t)
  }

  lemma BinAgrees(op: BinOp, a: int, b: int)
    requires Meets(op, a, b)
    ensures Alu3(Opcode(op), a, b) == EvalBin(op, a, b)
  {
    if op == And {
      hide Alu3;
      AndIsLogicalIf(a, b);
    } else if op == Or {
      hide Alu3;
      OrIsLogicalIff(a, b);
    } else {
      hide ToBits, FromBits;
    }
  }

  /** Over all words Meets is exact. */
  lemma MeetsIff(op: BinOp, a: int, b: int)
    requires IsWord(a) && IsWord(b)
    ensures Meets(op, a, b) <==> Alu3(Opcode(op), a, b) == EvalBin(op, a, b)
  {
    hide Alu3, ToBits;
    if op == And {
      AndIsLogicalIff(a, b);
    } else if op == Or {
      OrIsLogicalIff(a, b);
    } else {
      BinAgrees(op, a, b);
    }
  }

  ghost predicate ExprDone(e: Expr, u: Unit, store: Store, m: Machine, c: Config) {
    var (v, a) := CExpr(e, u);
    match Eval(e, store)
    case None => c.status == Crashed && c.m.out == m.out
    case Some(n) =>
      && c.status == Running && c.m.pc == End(v.tacs)
      && Cell(c.m.frame, a) == n && a < v.temps
      && SameOutside(m.frame, c.m.frame, u.temps, v.temps)
      && c.m.out == m.out
  }

  lemma StillHolds(final: Env, store: Store, f: Frame, g: Frame, u: Unit, v: Unit)
    requires Allocated(final, u.env, u.temps) && Allocated(final, v.env, v.temps) && u.env == v.env
    requires Holds(final, store, f) && SameOutside(f, g, u.temps, v.temps)
    ensures Holds(final, store, g)
  {
  }

  ghost predicate ExprReady(code: Code, e: Expr, u: Unit, final: Env, store: Store, m: Machine) {
    && AllLocal(code) && CExpr(e, u).0.tacs <= code
    && UsesOnly(e, u.env.Keys) && TypeOf(e).Some?
    && Allocated(final, u.env, u.temps) && Allocated(final, u.env, CExpr(e, u).0.temps)
    && Holds(final, store, m.frame) && m.pc == End(u.tacs)
  }

  lemma RunZero(insts: seq<Inst>, c: Config)
    ensures Run(insts, c, 0) == c
  {
  }

  lemma LiteralRuns(code: Code, u: Unit, v: int, m: Machine)
    requires AllLocal(code) && u.tacs + [LoadImm4(u.temps, v)] <= code && m.pc == End(u.tacs)
    ensures var c := Run(Loaded(code), Config(Running, m), 1);
            c == Config(Running, m.(pc := End(u.tacs + [LoadImm4(u.temps, v)]), frame := m.frame[u.temps := v]))
  {
    RunOne(code, u.tacs, LoadImm4(u.temps, v), m);
  }

  /** The code of an expression leaves its value in its temp, or crashes exactly when the expression traps. */
  lemma {:induction false} ExprRuns(code: Code, e: Expr, u: Unit, final: Env, store: Store, m: Machine) returns (n: nat)
    requires ExprReady(code, e, u, final, store, m) && Tame(e, store)
    ensures ExprDone(e, u, store, m, Run(Loaded(code), Config(Running, m), n))
    decreases e, 1
  {
    hide Run, End, Loaded, AllLocal;
    match e
    case IntLit(v) =>
      LiteralRuns(code, u, v, m);
      n := 1;
    case BoolLit(b) =>
      LiteralRuns(code, u, Bool(b), m);
      n := 1;
    case Ident(_) =>
      RunZero(Loaded(code), Config(Running, m));
      n := 0;
    case Unary(_, _) => n := UnaryRuns(code, e, u, final, store, m);
    case Binary(_, _, _) => n := BinaryRuns(code, e, u, final, store, m);
  }

  lemma {:induction false} UnaryRuns(code: Code, e: Expr, u: Unit, final: Env, store: Store, m: Machine) returns (n: nat)
    requires e.Unary? && ExprReady(code, e, u, final, store, m) && Tame(e, store)
    ensures ExprDone(e, u, store, m, Run(Loaded(code), Config(Running, m), n))
    decreases e, 0
  {
    hide Run, End, Loaded, AllLocal;
    var insts, start := Loaded(code), Config(Running, m);
    var (u1, a) := CExpr(e.e, u);
    ExprShape(e.e, u);
    AllocatedMid(final, u, u1, CExpr(e, u).0);
    var tac := Un(UnOpcode(e.uop), u1.temps, a);
    assert u1.tacs + [tac] <= code;
    n := ExprRuns(code, e.e, u, final, store, m);
    var c := Run(insts, start, n);
    if c.status == Running {
      RunOne(code, u1.tacs, tac, c.m);
      RunAdds(insts, start, n, 1);
      if e.uop == Not { NotIsLogicalIff(Eval(e.e, store).value); }
      n := n + 1;
    }
  }

  /** One binary operation: the result goes to its temp, or the machine stops with an error. */
  lemma OperationRuns(code: Code, before: Code, op: BinOp, d: Temp, a: Temp, b: Temp, m: Machine)
    requires AllLocal(code) && before + [Bin(Opcode(op), d, a, b)] <= code && m.pc == End(before)
    ensures var c := Run(Loaded(code), Config(Running, m), 1);
            match Alu3(Opcode(op), Cell(m.frame, a), Cell(m.frame, b))
            case None => c.status == Crashed && c.m.out == m.out
            case Some(n) =>
              c == Config(Running, m.(pc := End(before + [Bin(Opcode(op), d, a, b)]), frame := m.frame[d := n]))
  {
    RunOne(code, before, Bin(Opcode(op), d, a, b), m);
    hide Run, Loaded, Alu3, Opcode, AllLocal;
  }

  lemma {:induction false} BinaryRuns(code: Code, e: Expr, u: Unit, final: Env, store: Store, m: Machine) returns (n: nat)
    requires e.Binary? && ExprReady(code, e, u, final, store, m) && Tame(e, store)
    ensures ExprDone(e, u, store, m, Run(Loaded(code), Config(Running, m), n))
    decreases e, 0
  {
    hide Run, End, Loaded, AllLocal, Alu3, EvalBin, Opcode;
    var insts, start := Loaded(code), Config(Running, m);
    var (u1, a) := CExpr(e.left, u);
    var (u2, b) := CExpr(e.right, u1);
    ExprShape(e.left, u);
    ExprShape(e.right, u1);
    assert u2.tacs + [Bin(Opcode(e.bop), u2.temps, a, b)] <= code;
    AllocatedMid(final, u, u1, CExpr(e, u).0);
    AllocatedMid(final, u, u2, CExpr(e, u).0);
    n := ExprRuns(code, e.left, u, final, store, m);
    var c := Run(insts, start, n);
    if c.status == Running {
      StillHolds(final, store, m.frame, c.m.frame, u, u1);
      var k := ExprRuns(code, e.right, u1, final, store, c.m);
      RunAdds(insts, start, n, k);
      n := n + k;
      if Run(insts, start, n).status == Running {
        BinaryEnds(code, e, u, store, m, c.m, Run(insts, start, n).m);
        RunAdds(insts, start, n, 1);
        n := n + 1;
      }
    }
  }

  lemma ExprTemps(e: Expr, u: Unit)
    ensures u.temps <= CExpr(e, u).0.temps
  {
    ExprShape(e, u);
  }

  lemma FramesChain(f: Frame, g: Frame, h: Frame, lo: nat, a: Temp, mid: nat, hi: nat, n: int)
    requires SameOutside(f, g, lo, mid) && SameOutside(g, h, mid, hi) && lo <= mid <= hi && a < mid
    ensures SameOutside(f, h[hi := n], lo, hi + 1) && Cell(h, a) == Cell(g, a)
  {
  }

  /** Both operands are in their temps: the operation itself. */
  lemma BinaryEnds(code: Code, e: Expr, u: Unit, store: Store, m: Machine, l: Machine, r: Machine)
    requires e.Binary? && Tame(e, store)
    requires AllLocal(code) && CExpr(e, u).0.tacs <= code
    requires ExprDone(e.left, u, store, m, Config(Running, l))
    requires ExprDone(e.right, CExpr(e.left, u).0, store, l, Config(Running, r))
    ensures ExprDone(e, u, store, m, Run(Loaded(code), Config(Running, r), 1))
  {
    hide Run, End, Loaded, AllLocal, Alu3, EvalBin, Opcode, SameOutside, Tame, Meets;
    var (u1, a) := CExpr(e.left, u);
    var (u2, b) := CExpr(e.right, u1);
    ExprTemps(e.left, u);
    ExprTemps(e.right, u1);
    OperandsAgree(e, store);
    var n := Alu3(Opcode(e.bop), Cell(l.frame, a), Cell(r.frame, b));
    FramesChain(m.frame, l.frame, r.frame, u.temps, a, u1.temps, u2.temps, if n.Some? then n.value else 0);
    OperationRuns(code, u2.tacs, e.bop, u2.temps, a, b, r);
  }

  lemma OperandsAgree(e: Expr, store: Store)
    requires e.Binary? && Tame(e, store)
    requires Eval(e.left, store).Some? && Eval(e.right, store).Some?
    ensures Alu3(Opcode(e.bop), Eval(e.left, store).value, Eval(e.right, store).value)
         == EvalBin(e.bop, Eval(e.left, store).value, Eval(e.right, store).value)
  {
    BinAgrees(e.bop, Eval(e.left, store).value, Eval(e.right, store).value);
  }
}
