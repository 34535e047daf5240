/** The code of a statement does on the machine what the big-step semantics says, for every ending. */
module StmtCorrect {
  import opened Tac
  import opened DecafTree
  import opened Translate
  import opened TacVM
  import opened MachineWords
  import opened TranslateCorrect

  ghost predicate At(c: Config, pc: int, final: Env, st: State) {
    c.status == Running && c.m.pc == pc && Holds(final, st.store, c.m.frame) && c.m.out == st.out
  }

  /** Where the machine is after n turns when the statement whose code ends with `v` had outcome r. */
  ghost predicate StmtDone(code: Code, v: Unit, exits: seq<Label>, final: Env, r: Outcome, fuel: nat, n: nat, c: Config) {
    match r.end
    case Normal => At(c, End(v.tacs), final, r.st)
    case Broke => At(c, Where(code, Top(exits)), final, r.st)
    case Returned(x) => At(c, End(code), final, r.st) && (x.Some? ==> c.m.rv == x.value)
    case Trapped => c.status == Crashed && c.m.out == r.st.out
    case OutOfFuel => c.status == Running && c.m.pc >= 1 && c.m.out == r.st.out && n >= fuel
  }

  /** The code of s, emitted from u on, is part of the function `code` whose symbols have the temps of `final`. */
  ghost predicate Placed(code: Code, s: Stmt, u: Unit, exits: seq<Label>, final: Env) {
    var v := CStmt(s, u, exits);
    && AllLocal(code) && DistinctMarks(code) && v.tacs <= code
    && WellFormed(s, u.env.Keys, exits != []) == true
    && Allocated(final, u.env, u.temps) && Allocated(final, v.env, v.temps)
  }

  /** The machine is about to run the code of s on the store of st. */
  ghost predicate Ready(code: Code, s: Stmt, u: Unit, exits: seq<Label>, final: Env, st: State, m: Machine) {
    Placed(code, s, u, exits, final) && At(Config(Running, m), End(u.tacs), final, st)
  }

  ghost function After(code: Code, m: Machine, n: nat): Config
    requires AllLocal(code)
  {
    Run(Loaded(code), Config(Running, m), n)
  }

  lemma AfterAdds(code: Code, m: Machine, a: nat, b: nat)
    requires AllLocal(code) && After(code, m, a).status == Running
    ensures After(code, m, a + b) == After(code, After(code, m, a).m, b)
  {
    RunAdds(Loaded(code), Config(Running, m), a, b);
  }

  lemma EndMark(tacs: Code, l: Label)
    ensures End(tacs + [Mark(l)]) == End(tacs) >= 1
  {
    EndPositive(tacs);
    assert (tacs + [Mark(l)])[..|tacs|] == tacs;
  }

  lemma {:induction false} EndPositive(tacs: Code)
    ensures End(tacs) >= 1
  {
    if tacs != [] { EndPositive(tacs[..|tacs| - 1]); }
  }

  lemma ExtendsFacts(u: Unit, v: Unit)
    requires Extends(u, v)
    ensures u.tacs <= v.tacs && Grows(u.env, u.temps, v.env, v.temps)
  {
  }

  lemma GrowsTrans(u: Unit, v: Unit, w: Unit)
    requires Grows(u.env, u.temps, v.env, v.temps) && Grows(v.env, v.temps, w.env, w.temps)
    ensures Grows(u.env, u.temps, w.env, w.temps)
  {
  }

  /** A write to a symbol's temp is a write to that symbol. */
  lemma WriteHolds(final: Env, store: Store, f: Frame, x: Sym, v: int)
    requires Holds(final, store, f) && x in final
    requires forall y :: y in final && y != x ==> final[y] != final[x]
    ensures Holds(final, store[x := v], f[final[x] := v])
  {
  }

  /** Evaluating an expression inside a statement: the value, the same store, the same output. */
  ghost predicate Evaluated(e: Expr, u: Unit, final: Env, st: State, c: Config) {
    var (v, a) := CExpr(e, u);
    match Eval(e, st.store)
    case None => c.status == Crashed && c.m.out == st.out
    case Some(n) => At(c, End(v.tacs), final, st) && Cell(c.m.frame, a) == n
  }

  ghost predicate ExprPlaced(code: Code, e: Expr, u: Unit, final: Env) {
    && AllLocal(code) && CExpr(e, u).0.tacs <= code
    && UsesOnly(e, u.env.Keys) && TypeOf(e).Some?
    && Allocated(final, u.env, u.temps) && Allocated(final, u.env, CExpr(e, u).0.temps)
  }

  lemma ExprInStmt(code: Code, e: Expr, u: Unit, final: Env, st: State, m: Machine) returns (n: nat)
    requires ExprPlaced(code, e, u, final) && Tame(e, st.store)
    requires At(Config(Running, m), End(u.tacs), final, st)
    ensures Evaluated(e, u, final, st, After(code, m, n))
  {
    hide End, Run, Loaded;
    n := ExprRuns(code, e, u, final, st.store, m);
    ExprShape(e, u);
    if Eval(e, st.store).Some? {
      StillHolds(final, st.store, m.frame, After(code, m, n).m.frame, u, CExpr(e, u).0);
    }
  }

  /** A condition and the branch taken when it is 0. */
  ghost function Guarded(e: Expr, u: Unit): Unit {
    var (v, a) := CExpr(e, u);
    Emit(FreshLabels(v, 1), Beqz(a, v.labels))
  }

  ghost predicate GuardDone(code: Code, e: Expr, u: Unit, final: Env, st: State, c: Config) {
    match Eval(e, st.store)
    case None => c.status == Crashed && c.m.out == st.out
    case Some(b) => At(c, if b == 0 then Where(code, u.labels) else End(Guarded(e, u).tacs), final, st)
  }

  ghost predicate GuardPlaced(code: Code, e: Expr, u: Unit, final: Env) {
    && AllLocal(code) && Guarded(e, u).tacs <= code
    && UsesOnly(e, u.env.Keys) && TypeOf(e).Some?
    && Allocated(final, u.env, u.temps) && Allocated(final, u.env, Guarded(e, u).temps)
  }

  lemma GuardRuns(code: Code, e: Expr, u: Unit, final: Env, st: State, m: Machine) returns (n: nat)
    requires GuardPlaced(code, e, u, final) && Tame(e, st.store)
    requires At(Config(Running, m), End(u.tacs), final, st)
    ensures GuardDone(code, e, u, final, st, After(code, m, n))
  {
    hide End, Run, Loaded, Where, Tame, UsesOnly, TypeOf, AllLocal;
    var (v, a) := CExpr(e, u);
    ExprShape(e, u);
    assert v.tacs + [Beqz(a, v.labels)] <= code;
    assert Allocated(final, v.env, v.temps);
    n := ExprInStmt(code, e, u, final, st, m);
    var c := After(code, m, n);
    if c.status == Running {
      RunOne(code, v.tacs, Beqz(a, v.labels), c.m);
      AfterAdds(code, m, n, 1);
      n := n + 1;
    }
  }

  // ----- Statements without loops -----

  lemma AssignRuns(code: Code, s: Stmt, u: Unit, exits: seq<Label>, final: Env, st: State, m: Machine, fuel: nat) returns (n: nat)
    requires s.Assign? && Ready(code, s, u, exits, final, st, m)
    requires TameRun(s, st, fuel)
    ensures StmtDone(code, CStmt(s, u, exits), exits, final, Exec(s, st, fuel), fuel, n, After(code, m, n))
  {
    hide End, Run, Loaded, Where, Tame, AllLocal;
    var (v, a) := CExpr(s.e, u);
    var tac := Un(ASSIGN, TempOf(u.env, s.x), a);
    ExprShape(s.e, u);
    assert v.tacs + [tac] <= code && Allocated(final, v.env, v.temps);
    n := ExprInStmt(code, s.e, u, final, st, m);
    var c := After(code, m, n);
    if c.status == Running {
      RunOne(code, v.tacs, tac, c.m);
      AfterAdds(code, m, n, 1);
      n := n + 1;
      WriteHolds(final, st.store, c.m.frame, s.x, Eval(s.e, st.store).value);
    }
  }

  lemma PrintRuns(code: Code, s: Stmt, u: Unit, exits: seq<Label>, final: Env, st: State, m: Machine, fuel: nat) returns (n: nat)
    requires s.Print? && Ready(code, s, u, exits, final, st, m)
    requires TameRun(s, st, fuel)
    ensures StmtDone(code, CStmt(s, u, exits), exits, final, Exec(s, st, fuel), fuel, n, After(code, m, n))
  {
    hide End, Run, Loaded, Where;
    var (v, a) := CExpr(s.e, u);
    ExprShape(s.e, u);
    var w := Emit(v, Parm(a));
    assert v.tacs + [Parm(a)] <= w.tacs + [LibCall(PrintRoutine(s.e))] <= code && Allocated(final, v.env, v.temps);
    n := ExprInStmt(code, s.e, u, final, st, m);
    var c := After(code, m, n);
    if c.status == Running {
      RunOne(code, v.tacs, Parm(a), c.m);
      AfterAdds(code, m, n, 1);
      n := n + 1;
      RunOne(code, w.tacs, LibCall(PrintRoutine(s.e)), After(code, m, n).m);
      AfterAdds(code, m, n, 1);
      n := n + 1;
    }
  }

  lemma ReturnRuns(code: Code, s: Stmt, u: Unit, exits: seq<Label>, final: Env, st: State, m: Machine, fuel: nat) returns (n: nat)
    requires (s.ReturnVal? || s.ReturnVoid?) && Ready(code, s, u, exits, final, st, m)
    requires TameRun(s, st, fuel)
    ensures StmtDone(code, CStmt(s, u, exits), exits, final, Exec(s, st, fuel), fuel, n, After(code, m, n))
  {
    hide End, Run, Where;
    if s.ReturnVoid? {
      RunOne(code, u.tacs, Return(None), m);
      n := 1;
    } else {
      n := ReturnValRuns(code, s, u, exits, final, st, m, fuel);
    }
  }

  lemma ReturnValRuns(code: Code, s: Stmt, u: Unit, exits: seq<Label>, final: Env, st: State, m: Machine, fuel: nat) returns (n: nat)
    requires s.ReturnVal? && Ready(code, s, u, exits, final, st, m)
    requires TameRun(s, st, fuel)
    ensures StmtDone(code, CStmt(s, u, exits), exits, final, Exec(s, st, fuel), fuel, n, After(code, m, n))
  {
    hide End, Run, Where, Loaded;
    var (v, a) := CExpr(s.e, u);
    ExprShape(s.e, u);
    var tac := Return(Some(a));
    assert v.tacs + [tac] <= code && Allocated(final, v.env, v.temps);
    n := ExprInStmt(code, s.e, u, final, st, m);
    var c := After(code, m, n);
    if c.status == Running {
      ValueReturns(code, v.tacs, a, c.m);
      AfterAdds(code, m, n, 2);
      n := n + 2;
    }
  }

  /** A return with a value sets the result register, then branches to the end of the function. */
  lemma ValueReturns(code: Code, before: Code, a: Temp, m: Machine)
    requires AllLocal(code) && before + [Return(Some(a))] <= code && m.pc == End(before)
    ensures After(code, m, 2) == Config(Running, m.(pc := End(code), rv := Cell(m.frame, a)))
  {
    LoadedAt(code, before, Return(Some(a)));
    EndPositive(before);
    hide End, Run;
    var insts := Loaded(code);
    var two := insts[End(before)..End(before + [Return(Some(a))])];
    assert insts[m.pc] == two[0] && insts[m.pc + 1] == two[1];
    var m' := m.(pc := m.pc + 1, rv := Cell(m.frame, a));
    assert Step(insts, m) == Config(Running, m');
    TwoTurns(insts, m, m');
  }

  lemma TwoTurns(insts: seq<Inst>, m: Machine, m': Machine)
    requires Step(insts, m) == Config(Running, m') && m.pc >= 0 && m'.pc >= 0
    ensures Run(insts, Config(Running, m), 2) == Step(insts, m')
  {
    assert Run(insts, Step(insts, m'), 0) == Step(insts, m');
    assert Run(insts, Config(Running, m'), 1) == Step(insts, m');
  }

  // ----- All statements -----

  lemma {:induction false} StmtRuns(code: Code, s: Stmt, u: Unit, exits: seq<Label>, final: Env, st: State, m: Machine, fuel: nat) returns (n: nat)
    requires Ready(code, s, u, exits, final, st, m)
    requires TameRun(s, st, fuel)
    ensures StmtDone(code, CStmt(s, u, exits), exits, final, Exec(s, st, fuel), fuel, n, After(code, m, n))
    decreases fuel, s, 3
  {
    hide Ready, StmtDone, CStmt, Exec, After, TameRun, TameLoop;
    match s
    case Skip => n := LeafRuns(code, s, u, exits, final, st, m, fuel);
    case VarDef(_) => n := LeafRuns(code, s, u, exits, final, st, m, fuel);
    case Break => n := LeafRuns(code, s, u, exits, final, st, m, fuel);
    case Assign(_, _) => n := AssignRuns(code, s, u, exits, final, st, m, fuel);
    case Print(_) => n := PrintRuns(code, s, u, exits, final, st, m, fuel);
    case ReturnVal(_) => n := ReturnRuns(code, s, u, exits, final, st, m, fuel);
    case ReturnVoid => n := ReturnRuns(code, s, u, exits, final, st, m, fuel);
    case Seq(_, _) => n := SeqRuns(code, s, u, exits, final, st, m, fuel);
    case IfThen(_, _) => n := IfThenRuns(code, s, u, exits, final, st, m, fuel);
    case IfElse(_, _, _) => n := IfElseRuns(code, s, u, exits, final, st, m, fuel);
    case While(_, _) =>
      WhileIsLoop(s, st, fuel);
      n := WhileRuns(code, s, u, exits, final, st, m, fuel);
    case For(_, _, _, _) => n := ForRuns(code, s, u, exits, final, st, m, fuel);
  }

  lemma WhileIsLoop(s: Stmt, st: State, fuel: nat)
    requires s.While?
    ensures Exec(s, st, fuel) == ExecLoop(s, st, fuel) && TameRun(s, st, fuel) == TameLoop(s, st, fuel)
  {
  }

  lemma LeafRuns(code: Code, s: Stmt, u: Unit, exits: seq<Label>, final: Env, st: State, m: Machine, fuel: nat) returns (n: nat)
    requires (s.Skip? || s.VarDef? || s.Break?) && Ready(code, s, u, exits, final, st, m)
    ensures StmtDone(code, CStmt(s, u, exits), exits, final, Exec(s, st, fuel), fuel, n, After(code, m, n))
  {
    hide End, Run, Loaded, Where, Holds, Allocated;
    n := 0;
    AfterZero(code, m);
    if s.Break? {
      RunOne(code, u.tacs, Branch(Top(exits)), m);
      n := 1;
    }
  }

  lemma SeqLayout(code: Code, s: Stmt, u: Unit, exits: seq<Label>, final: Env) returns (v: Unit)
    requires s.Seq? && Placed(code, s, u, exits, final)
    ensures v == CStmt(s.first, u, exits) && CStmt(s, u, exits) == CStmt(s.second, v, exits)
    ensures Placed(code, s.first, u, exits, final) && Placed(code, s.second, v, exits, final)
  {
    hide Grows, Extends, AllLocal, Allocated;
    v := CStmt(s.first, u, exits);
    Shape(s.first, u, exits);
    Shape(s.second, v, exits);
    AllocatedMid(final, u, v, CStmt(s.second, v, exits));
  }

  lemma {:induction false} SeqRuns(code: Code, s: Stmt, u: Unit, exits: seq<Label>, final: Env, st: State, m: Machine, fuel: nat) returns (n: nat)
    requires s.Seq? && Ready(code, s, u, exits, final, st, m)
    requires TameRun(s, st, fuel)
    ensures StmtDone(code, CStmt(s, u, exits), exits, final, Exec(s, st, fuel), fuel, n, After(code, m, n))
    decreases fuel, s, 0
  {
    hide End, Run, Loaded, Where, Allocated, Holds, After;
    var v := SeqLayout(code, s, u, exits, final);
    assert AllLocal(code);
    hide Placed, CStmt, WellFormed;
    n := StmtRuns(code, s.first, u, exits, final, st, m, fuel);
    var r := Exec(s.first, st, fuel);
    if r.end == Normal {
      var k := StmtRuns(code, s.second, v, exits, final, r.st, After(code, m, n).m, fuel);
      AfterAdds(code, m, n, k);
      n := n + k;
    }
  }

  /** What the proofs below use of the code of a statement. */
  lemma Shape(s: Stmt, u: Unit, exits: seq<Label>)
    requires WellFormed(s, u.env.Keys, exits != []) == true
    ensures var v := CStmt(s, u, exits);
            && Extends(u, v) && u.tacs <= v.tacs && Grows(u.env, u.temps, v.env, v.temps)
            && v.env.Keys == u.env.Keys + Declares(s)
  {
    StmtShape(s, u, exits, exits != []);
    EnvKeys(s, u, exits);
    ExtendsFacts(u, CStmt(s, u, exits));
  }

  lemma GuardShape(e: Expr, u: Unit)
    ensures var v := Guarded(e, u);
            && u.tacs <= v.tacs && Grows(u.env, u.temps, v.env, v.temps) && v.env == u.env && v.labels == u.labels + 1
  {
    ExprShape(e, u);
  }

  /** Where the pieces of a conditional without else lie. */
  lemma IfThenLayout(code: Code, s: Stmt, u: Unit, exits: seq<Label>, final: Env) returns (v: Unit)
    requires s.IfThen? && Placed(code, s, u, exits, final)
    ensures v == Guarded(s.cond, u)
    ensures GuardPlaced(code, s.cond, u, final) && Placed(code, s.thn, v, exits, final)
    ensures var w := CStmt(s.thn, v, exits);
            Where(code, u.labels) == End(w.tacs) == End(CStmt(s, u, exits).tacs)
  {
    hide End, Where, Extends, Grows, AllLocal, Allocated;
    v := Guarded(s.cond, u);
    var w := CStmt(s.thn, v, exits);
    GuardShape(s.cond, u);
    Shape(s.thn, v, exits);
    AllocatedMid(final, u, v, w);
    LabelAt(code, w.tacs, u.labels);
    EndMark(w.tacs, u.labels);
  }

  lemma {:induction false} IfThenRuns(code: Code, s: Stmt, u: Unit, exits: seq<Label>, final: Env, st: State, m: Machine, fuel: nat) returns (n: nat)
    requires s.IfThen? && Ready(code, s, u, exits, final, st, m)
    requires TameRun(s, st, fuel)
    ensures StmtDone(code, CStmt(s, u, exits), exits, final, Exec(s, st, fuel), fuel, n, After(code, m, n))
    decreases fuel, s, 0
  {
    hide End, Run, Loaded, Where, Allocated, Holds, After;
    var v := IfThenLayout(code, s, u, exits, final);
    assert AllLocal(code);
    hide Placed, GuardPlaced, CStmt, WellFormed;
    n := GuardRuns(code, s.cond, u, final, st, m);
    if Eval(s.cond, st.store).Some? && Eval(s.cond, st.store).value != 0 {
      var k := StmtRuns(code, s.thn, v, exits, final, st, After(code, m, n).m, fuel);
      AfterAdds(code, m, n, k);
      n := n + k;
    }
  }

  /** Where the pieces of a two-armed conditional lie. */
  lemma IfElseLayout(code: Code, s: Stmt, u: Unit, exits: seq<Label>, final: Env) returns (v: Unit, w: Unit, w2: Unit)
    requires s.IfElse? && Placed(code, s, u, exits, final)
    ensures v == Guarded(s.cond, u) && w == CStmt(s.thn, v, exits)
    ensures w2 == Emit(Emit(FreshLabels(w, 1), Branch(w.labels)), Mark(u.labels))
    ensures GuardPlaced(code, s.cond, u, final)
    ensures Placed(code, s.thn, v, exits, final) && Placed(code, s.els, w2, exits, final)
    ensures w.tacs + [Branch(w.labels)] <= code
    ensures Where(code, u.labels) == End(w2.tacs)
    ensures var x := CStmt(s.els, w2, exits);
            Where(code, w.labels) == End(x.tacs) == End(CStmt(s, u, exits).tacs)
  {
    hide End, Where, Extends, Grows, AllLocal, Allocated;
    v := Guarded(s.cond, u);
    w := CStmt(s.thn, v, exits);
    var w1 := Emit(FreshLabels(w, 1), Branch(w.labels));
    w2 := Emit(w1, Mark(u.labels));
    var x := CStmt(s.els, w2, exits);
    GuardShape(s.cond, u);
    Shape(s.thn, v, exits);
    Shape(s.els, w2, exits);
    GrowsTrans(v, w, x);
    AllocatedMid(final, u, v, x);
    AllocatedMid(final, v, w, x);
    LabelAt(code, w1.tacs, u.labels);
    EndMark(w1.tacs, u.labels);
    LabelAt(code, x.tacs, w.labels);
    EndMark(x.tacs, w.labels);
  }

  lemma {:induction false} IfElseRuns(code: Code, s: Stmt, u: Unit, exits: seq<Label>, final: Env, st: State, m: Machine, fuel: nat) returns (n: nat)
    requires s.IfElse? && Ready(code, s, u, exits, final, st, m)
    requires TameRun(s, st, fuel)
    ensures StmtDone(code, CStmt(s, u, exits), exits, final, Exec(s, st, fuel), fuel, n, After(code, m, n))
    decreases fuel, s, 0
  {
    hide End, Run, Loaded, Where, Allocated, Holds, After;
    var v, w, w2 := IfElseLayout(code, s, u, exits, final);
    hide Placed, GuardPlaced, CStmt, WellFormed;
    n := GuardRuns(code, s.cond, u, final, st, m);
    if Eval(s.cond, st.store).Some? {
      var c := After(code, m, n);
      if Eval(s.cond, st.store).value != 0 {
        var k := StmtRuns(code, s.thn, v, exits, final, st, c.m, fuel);
        AfterAdds(code, m, n, k);
        n := n + k;
        if Exec(s.thn, st, fuel).end == Normal {
          k := BranchRuns(code, w.tacs, w.labels, m, n);
          n := n + k;
        }
      } else {
        var k := StmtRuns(code, s.els, w2, exits, final, st, c.m, fuel);
        AfterAdds(code, m, n, k);
        n := n + k;
      }
    }
  }

  /** Taking a branch changes nothing but the instruction index. */
  lemma BranchRuns(code: Code, before: Code, l: Label, m: Machine, n: nat) returns (k: nat)
    requires AllLocal(code) && before + [Branch(l)] <= code
    requires After(code, m, n).status == Running && After(code, m, n).m.pc == End(before)
    ensures k == 1 && After(code, m, n + k) == Config(Running, After(code, m, n).m.(pc := Where(code, l)))
  {
    RunOne(code, before, Branch(l), After(code, m, n).m);
    AfterAdds(code, m, n, 1);
    k := 1;
  }

  /** Where the pieces of a while loop lie: v after the guard, w after the body. */
  lemma WhileLayout(code: Code, s: Stmt, u: Unit, exits: seq<Label>, final: Env) returns (u1: Unit, v: Unit, w: Unit)
    requires s.While? && Placed(code, s, u, exits, final)
    ensures u1 == Emit(FreshLabels(u, 1), Mark(u.labels)) && v == Guarded(s.cond, u1)
    ensures w == CStmt(s.body, v, exits + [u1.labels])
    ensures GuardPlaced(code, s.cond, u1, final) && Placed(code, s.body, v, exits + [u1.labels], final)
    ensures w.tacs + [Branch(u.labels)] <= code
    ensures Where(code, u.labels) == End(u.tacs) == End(u1.tacs) >= 1
    ensures Where(code, u1.labels) == End(CStmt(s, u, exits).tacs)
  {
    hide End, Where, Extends, Grows, AllLocal, Allocated;
    u1 := Emit(FreshLabels(u, 1), Mark(u.labels));
    v := Guarded(s.cond, u1);
    w := CStmt(s.body, v, exits + [u1.labels]);
    ExprShape(s.cond, u1);
    GuardShape(s.cond, u1);
    Shape(s.body, v, exits + [u1.labels]);
    AllocatedMid(final, u, v, w);
    LabelAt(code, u.tacs, u.labels);
    EndMark(u.tacs, u.labels);
    LabelAt(code, w.tacs + [Branch(u.labels)], u1.labels);
    EndMark(w.tacs + [Branch(u.labels)], u1.labels);
  }

  lemma {:induction false} WhileRuns(code: Code, s: Stmt, u: Unit, exits: seq<Label>, final: Env, st: State, m: Machine, fuel: nat) returns (n: nat)
    requires s.While? && Ready(code, s, u, exits, final, st, m)
    requires TameLoop(s, st, fuel)
    ensures StmtDone(code, CStmt(s, u, exits), exits, final, ExecLoop(s, st, fuel), fuel, n, After(code, m, n))
    decreases fuel, s, 0
  {
    hide End, Run, Loaded, Where, Allocated, Holds, After;
    var u1, v, w := WhileLayout(code, s, u, exits, final);
    var inner := exits + [u1.labels];
    hide Placed, GuardPlaced, CStmt, WellFormed;
    n := 0;
    AfterZero(code, m);
    if fuel > 0 {
      n := GuardRuns(code, s.cond, u1, final, st, m);
      if Eval(s.cond, st.store).Some? && Eval(s.cond, st.store).value != 0 {
        var k := StmtRuns(code, s.body, v, inner, final, st, After(code, m, n).m, fuel);
        AfterAdds(code, m, n, k);
        n := n + k;
        var r := Exec(s.body, st, fuel);
        if r.end == Normal {
          k := BranchRuns(code, w.tacs, u.labels, m, n);
          n := n + k;
          k := WhileRuns(code, s, u, exits, final, r.st, After(code, m, n).m, fuel - 1);
          AfterAdds(code, m, n, k);
          n := n + k;
        }
      }
    }
  }

  lemma AfterZero(code: Code, m: Machine)
    requires AllLocal(code)
    ensures After(code, m, 0) == Config(Running, m)
  {
  }

  /** The pieces of a for statement: u0 after the initialiser, u1 at the update, w at its end, u2 at the test. */
  lemma ForPieces(s: Stmt, u: Unit, exits: seq<Label>)
    returns (u0: Unit, u1: Unit, w: Unit, u2: Unit, v: Unit, x: Unit)
    requires s.For? && WellFormed(s, u.env.Keys, exits != []) == true
    ensures u0 == CStmt(s.init, u, exits)
    ensures u1 == Emit(Emit(FreshLabels(u0, 2), Branch(u0.labels)), Mark(u0.labels + 1))
    ensures w == CStmt(s.update, u1, exits) && u2 == Emit(w, Mark(u0.labels)) && v == Guarded(s.cond, u2)
    ensures x == CStmt(s.body, v, exits + [u2.labels])
    ensures CStmt(s, u, exits) == Emit(Emit(x, Branch(u0.labels + 1)), Mark(u2.labels))
    ensures u.env.Keys == u0.env.Keys == w.env.Keys && v.env == w.env
    ensures Grows(u.env, u.temps, u0.env, u0.temps) && Grows(u0.env, u0.temps, w.env, w.temps)
    ensures Grows(w.env, w.temps, v.env, v.temps) && Grows(v.env, v.temps, x.env, x.temps)
    ensures u1.tacs <= w.tacs && u2.tacs <= v.tacs <= x.tacs
  {
    hide Grows, Extends, CStmt, WellFormed, Declares, Guarded, CExpr;
    ForUnfolds(s, u, exits);
    ForChecked(s, u.env.Keys, exits != []);
    u0 := CStmt(s.init, u, exits);
    u1 := Emit(Emit(FreshLabels(u0, 2), Branch(u0.labels)), Mark(u0.labels + 1));
    w := CStmt(s.update, u1, exits);
    u2 := Emit(w, Mark(u0.labels));
    v := Guarded(s.cond, u2);
    x := CStmt(s.body, v, exits + [u2.labels]);
    Shape(s.init, u, exits);
    assert u0.env.Keys == u.env.Keys;
    Shape(s.update, u1, exits);
    assert w.env.Keys == u.env.Keys;
    GuardShape(s.cond, u2);
    Shape(s.body, v, exits + [u2.labels]);
  }

  lemma ForChecked(s: Stmt, declared: set<Sym>, inLoop: bool)
    requires s.For? && WellFormed(s, declared, inLoop) == true
    ensures WellFormed(s.init, declared, inLoop) == true && WellFormed(s.update, declared, inLoop) == true
    ensures WellFormed(s.body, declared, true) == true && Declares(s.init) == Declares(s.update) == {}
  {
  }

  /** Where the pieces of a for statement lie in the function. */
  lemma ForLayout(code: Code, s: Stmt, u: Unit, exits: seq<Label>, final: Env)
    returns (u0: Unit, u1: Unit, w: Unit, u2: Unit, v: Unit, x: Unit)
    requires s.For? && Placed(code, s, u, exits, final)
    ensures u0 == CStmt(s.init, u, exits)
    ensures u1 == Emit(Emit(FreshLabels(u0, 2), Branch(u0.labels)), Mark(u0.labels + 1))
    ensures w == CStmt(s.update, u1, exits) && u2 == Emit(w, Mark(u0.labels)) && v == Guarded(s.cond, u2)
    ensures x == CStmt(s.body, v, exits + [u2.labels])
    ensures Placed(code, s.init, u, exits, final) && u0.tacs + [Branch(u0.labels)] <= code
    ensures Placed(code, s.update, u1, exits, final)
    ensures GuardPlaced(code, s.cond, u2, final) && Placed(code, s.body, v, exits + [u2.labels], final)
    ensures x.tacs + [Branch(u0.labels + 1)] <= code
    ensures Where(code, u0.labels + 1) == End(u1.tacs)
    ensures Where(code, u0.labels) == End(w.tacs) == End(u2.tacs) >= 1
    ensures Where(code, u2.labels) == End(CStmt(s, u, exits).tacs)
    ensures Simple(s.update) && AllLocal(code)
  {
    hide End, Where, Extends, Grows, AllLocal, Allocated, CStmt;
    u0, u1, w, u2, v, x := ForPieces(s, u, exits);
    assert WellFormed(s.init, u.env.Keys, exits != []) == true && GoodExpr(s.cond, BoolTy, u.env.Keys);
    assert WellFormed(s.update, u.env.Keys, exits != []) == true && WellFormed(s.body, u.env.Keys, true) == true;
    hide WellFormed;
    GrowsTrans(w, v, x);
    GrowsTrans(u0, w, x);
    AllocatedMid(final, u, u0, x);
    AllocatedMid(final, u0, w, x);
    AllocatedMid(final, w, v, x);
    ForPrefixes(code, u0, u1, w, u2, v, x);
    LabelAt(code, u0.tacs + [Branch(u0.labels)], u0.labels + 1);
    EndMark(u0.tacs + [Branch(u0.labels)], u0.labels + 1);
    LabelAt(code, w.tacs, u0.labels);
    EndMark(w.tacs, u0.labels);
    var back := x.tacs + [Branch(u0.labels + 1)];
    LabelAt(code, back, u2.labels);
    EndMark(back, u2.labels);
  }

  lemma ForPrefixes(code: Code, u0: Unit, u1: Unit, w: Unit, u2: Unit, v: Unit, x: Unit)
    requires u1 == Emit(Emit(FreshLabels(u0, 2), Branch(u0.labels)), Mark(u0.labels + 1))
    requires u2 == Emit(w, Mark(u0.labels))
    requires u1.tacs <= w.tacs && u2.tacs <= v.tacs <= x.tacs
    requires x.tacs + [Branch(u0.labels + 1)] + [Mark(u2.labels)] <= code
    ensures u0.tacs + [Branch(u0.labels)] <= u0.tacs + [Branch(u0.labels)] + [Mark(u0.labels + 1)] == u1.tacs
    ensures u0.tacs <= code && u0.tacs + [Branch(u0.labels)] <= code && u1.tacs <= code && w.tacs <= code
    ensures w.tacs + [Mark(u0.labels)] == u2.tacs <= code && v.tacs <= code && x.tacs <= code
    ensures x.tacs + [Branch(u0.labels + 1)] <= code
  {
    var back := x.tacs + [Branch(u0.labels + 1)];
    Prefixes(x.tacs, back, back + [Mark(u2.labels)], code);
    Prefixes(u2.tacs, v.tacs, x.tacs, code);
    Prefixes(u1.tacs, w.tacs, u2.tacs, code);
    Prefixes(u0.tacs, u0.tacs + [Branch(u0.labels)], u1.tacs, code);
  }

  lemma Prefixes(a: Code, b: Code, c: Code, d: Code)
    requires a <= b <= c <= d
    ensures a <= c && b <= d && a <= d
  {
  }

  /** The unit when the body of a for statement has been emitted. */
  ghost function ForBodyEnd(s: Stmt, u: Unit, exits: seq<Label>): Unit
    requires s.For?
  {
    var u0 := CStmt(s.init, u, exits);
    var u1 := Emit(Emit(FreshLabels(u0, 2), Branch(u0.labels)), Mark(u0.labels + 1));
    var u2 := Emit(CStmt(s.update, u1, exits), Mark(u0.labels));
    CStmt(s.body, Guarded(s.cond, u2), exits + [u2.labels])
  }

  lemma ForUnfolds(s: Stmt, u: Unit, exits: seq<Label>)
    requires s.For?
    ensures var u0 := CStmt(s.init, u, exits);
            var u1 := Emit(Emit(FreshLabels(u0, 2), Branch(u0.labels)), Mark(u0.labels + 1));
            var u2 := Emit(CStmt(s.update, u1, exits), Mark(u0.labels));
            CStmt(s, u, exits) == Emit(Emit(ForBodyEnd(s, u, exits), Branch(u0.labels + 1)), Mark(u2.labels))
  {
    var u0 := CStmt(s.init, u, exits);
    var u1 := Emit(Emit(FreshLabels(u0, 2), Branch(u0.labels)), Mark(u0.labels + 1));
    ExprShape(s.cond, Emit(CStmt(s.update, u1, exits), Mark(u0.labels)));
  }

  lemma {:induction false} ForRuns(code: Code, s: Stmt, u: Unit, exits: seq<Label>, final: Env, st: State, m: Machine, fuel: nat) returns (n: nat)
    requires s.For? && Ready(code, s, u, exits, final, st, m)
    requires TameRun(s, st, fuel)
    ensures StmtDone(code, CStmt(s, u, exits), exits, final, Exec(s, st, fuel), fuel, n, After(code, m, n))
    decreases fuel, s, 2
  {
    hide End, Run, Loaded, Where, Allocated, Holds, After;
    var u0, u1, w, u2, v, x := ForLayout(code, s, u, exits, final);
    hide Placed, GuardPlaced, CStmt, WellFormed;
    n := StmtRuns(code, s.init, u, exits, final, st, m, fuel);
    var r := Exec(s.init, st, fuel);
    if r.end == Normal {
      var k := BranchRuns(code, u0.tacs, u0.labels, m, n);
      n := n + k;
      k := ForLoopRuns(code, s, u, exits, final, r.st, After(code, m, n).m, fuel);
      AfterAdds(code, m, n, k);
      n := n + k;
    }
  }

  /** The loop of a for statement, from its test on. */
  lemma {:induction false} ForLoopRuns(code: Code, s: Stmt, u: Unit, exits: seq<Label>, final: Env, st: State, m: Machine, fuel: nat) returns (n: nat)
    requires s.For? && Placed(code, s, u, exits, final)
    requires TameLoop(s, st, fuel)
    requires At(Config(Running, m), Where(code, CStmt(s.init, u, exits).labels), final, st)
    ensures StmtDone(code, CStmt(s, u, exits), exits, final, ExecLoop(s, st, fuel), fuel, n, After(code, m, n))
    decreases fuel, s, 1
  {
    hide End, Run, Loaded, Where, Allocated, Holds, After, AllLocal, Placed, GuardPlaced, CStmt, WellFormed;
    var u0, u1, w, u2, v, x := ForLayout(code, s, u, exits, final);
    var inner := exits + [u2.labels];
    n := 0;
    AfterZero(code, m);
    if fuel > 0 {
      n := GuardRuns(code, s.cond, u2, final, st, m);
      if Eval(s.cond, st.store).Some? && Eval(s.cond, st.store).value != 0 {
        var k := StmtRuns(code, s.body, v, inner, final, st, After(code, m, n).m, fuel);
        AfterAdds(code, m, n, k);
        n := n + k;
        var r := Exec(s.body, st, fuel);
        if r.end == Normal {
          k := ForAgain(code, s, u, exits, final, r.st, After(code, m, n).m, fuel);
          AfterAdds(code, m, n, k);
          n := n + k;
        }
      }
    }
  }

  /** After the body: back to the update, then the test. */
  lemma {:induction false} ForAgain(code: Code, s: Stmt, u: Unit, exits: seq<Label>, final: Env, st: State, m: Machine, fuel: nat) returns (n: nat)
    requires s.For? && Placed(code, s, u, exits, final) && fuel > 0
    requires TameAgain(s, st, fuel)
    requires At(Config(Running, m), End(ForBodyEnd(s, u, exits).tacs), final, st)
    ensures var o := Exec(s.update, st, fuel);
            var r := if o.end == Normal then ExecLoop(s, o.st, fuel - 1) else o;
            StmtDone(code, CStmt(s, u, exits), exits, final, r, fuel, n, After(code, m, n))
    decreases fuel, s, 0
  {
    hide End, Run, Loaded, Where, Allocated, Holds, After, AllLocal, Placed, GuardPlaced, CStmt, WellFormed;
    var u0, u1, w, u2, v, x := ForLayout(code, s, u, exits, final);
    AfterZero(code, m);
    n := BranchRuns(code, x.tacs, u0.labels + 1, m, 0);
    var k := StmtRuns(code, s.update, u1, exits, final, st, After(code, m, n).m, fuel);
    AfterAdds(code, m, n, k);
    n := n + k;
    var o := Exec(s.update, st, fuel);
    if o.end == Normal {
      k := ForLoopRuns(code, s, u, exits, final, o.st, After(code, m, n).m, fuel - 1);
      AfterAdds(code, m, n, k);
      n := n + k;
    }
  }
}
