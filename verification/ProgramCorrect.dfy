/** A whole function body: the machine stops exactly when the source program ends, with the same result. */
module ProgramCorrect {
  import opened Tac
  import opened DecafTree
  import opened Translate
  import opened TacVM
  import opened MachineWords
  import opened TranslateCorrect
  import opened StmtCorrect
  import DA = DefiniteAssignment

  /** A body outside every loop never ends by a break. */
  lemma {:induction false} NoStrayBreak(s: Stmt, declared: set<Sym>, st: State, fuel: nat)
    requires WellFormed(s, declared, false) == true
    ensures Exec(s, st, fuel).end != Broke
    decreases s
  {
    match s
    case Seq(a, b) =>
      NoStrayBreak(a, declared, st, fuel);
      NoStrayBreak(b, declared + Declares(a), Exec(a, st, fuel).st, fuel);
    case IfThen(_, t) => NoStrayBreak(t, declared, st, fuel);
    case IfElse(_, t, e) =>
      NoStrayBreak(t, declared, st, fuel);
      NoStrayBreak(e, declared + Declares(t), st, fuel);
    case While(_, _) => LoopAbsorbsBreak(s, st, fuel);
    case For(i, _, u, _) =>
      NoStrayBreak(i, declared, st, fuel);
      LoopAbsorbsBreak(s, Exec(i, st, fuel).st, fuel);
    case _ =>
  }

  lemma {:induction false} LoopAbsorbsBreak(s: Stmt, st: State, fuel: nat)
    requires s.While? || (s.For? && Simple(s.update))
    ensures ExecLoop(s, st, fuel).end != Broke
    decreases fuel
  {
    if fuel > 0 {
      var r := Exec(s.body, st, fuel);
      if s.While? {
        LoopAbsorbsBreak(s, r.st, fuel - 1);
      } else {
        LoopAbsorbsBreak(s, Exec(s.update, r.st, fuel).st, fuel - 1);
      }
    }
  }

  /** What the translator is given: parameters with distinct temps below the counter, and a checked body. */
  ghost predicate Body(s: Stmt, u: Unit) {
    u.tacs == [] && Allocated(u.env, u.env, u.temps) && WellFormed(s, u.env.Keys, false) == true
  }

  ghost function Translated(s: Stmt, u: Unit): Unit { CStmt(s, u, []) }

  lemma TranslatedIsLoadable(s: Stmt, u: Unit)
    requires Body(s, u)
    ensures var v := Translated(s, u);
            AllLocal(v.tacs) && DistinctMarks(v.tacs) && Allocated(v.env, u.env, u.temps) && Allocated(v.env, v.env, v.temps)
  {
    StmtShape(s, u, [], false);
  }

  /** The machine at the start of the function, its frame cells holding the values of `store`. */
  ghost predicate Starts(s: Stmt, u: Unit, store: Store, m: Machine) {
    Body(s, u) && m.pc == 0 && m.out == [] && Holds(Translated(s, u).env, store, m.frame)
  }

  ghost function RunBody(s: Stmt, u: Unit, m: Machine, n: nat): Config
    requires Body(s, u)
  {
    TranslatedIsLoadable(s, u);
    Run(Loaded(Translated(s, u).tacs), Config(Running, m), n)
  }

  /** What the machine shows in the end for a source outcome: the same output, the same trap, the same final values of
      all variables, the same result. */
  ghost predicate Shows(s: Stmt, u: Unit, c: Config, r: Outcome) {
    && r.end != Broke && c.m.out == r.st.out
    && (c.status == Crashed <==> r.end == Trapped)
    && (r.end == Normal || r.end.Returned? ==> c.m.pc == -1 && Holds(Translated(s, u).env, r.st.store, c.m.frame))
    && (r.end.Returned? && r.end.v.Some? ==> c.m.rv == r.end.v.value)
  }

  /** No run of the body meets a word that an operator of the machine treats otherwise than the source does. */
  ghost predicate AlwaysTame(s: Stmt, store: Store) {
    forall fuel: nat :: TameRun(s, State(store, []), fuel)
  }

  /** Forward: an ending of the source is reached by the machine; while the source is out of fuel the machine is still
      running after at least as many turns, with the same output so far. */
  lemma BodyRuns(s: Stmt, u: Unit, store: Store, m: Machine, fuel: nat) returns (n: nat)
    requires Starts(s, u, store, m) && TameRun(s, State(store, []), fuel)
    ensures var r, c := Exec(s, State(store, []), fuel), RunBody(s, u, m, n);
            if r.end == OutOfFuel then n >= fuel && !Stopped(c) && c.m.out == r.st.out
            else Stopped(c) && Shows(s, u, c, r)
  {
    hide Run, Loaded, Exec, CStmt, WellFormed, Holds, Ready, Allocated, TameRun;
    var v, m1 := ReadyAtStart(s, u, store, m);
    NoStrayBreak(s, u.env.Keys, State(store, []), fuel);
    EntersFunc(v.tacs, m);
    n := StmtRuns(v.tacs, s, u, [], v.env, State(store, []), m1, fuel);
    AfterAdds(v.tacs, m, 1, n);
    n := 1 + n;
    var r := Exec(s, State(store, []), fuel);
    if r.end == Normal || r.end.Returned? {
      LeavesFunc(v.tacs, After(v.tacs, m, n).m);
      AfterAdds(v.tacs, m, n, 1);
      n := n + 1;
    }
  }

  lemma ReadyAtStart(s: Stmt, u: Unit, store: Store, m: Machine) returns (v: Unit, m1: Machine)
    requires Starts(s, u, store, m)
    ensures v == Translated(s, u) && m1 == m.(pc := 1) && AllLocal(v.tacs)
    ensures Ready(v.tacs, s, u, [], v.env, State(store, []), m1)
  {
    TranslatedIsLoadable(s, u);
    v, m1 := Translated(s, u), m.(pc := 1);
  }

  lemma EntersFunc(code: Code, m: Machine)
    requires AllLocal(code) && m.pc == 0
    ensures After(code, m, 1) == Config(Running, m.(pc := 1))
  {
    LoadedEnds(code);
    OneTurn(Loaded(code), m);
  }

  lemma LeavesFunc(code: Code, m: Machine)
    requires AllLocal(code) && m.pc == End(code)
    ensures After(code, m, 1) == Config(Running, m.(pc := -1))
  {
    LoadedEnds(code);
    OneTurn(Loaded(code), m);
  }

  lemma LoadedEnds(code: Code)
    requires AllLocal(code)
    ensures var insts := Loaded(code);
            |insts| == End(code) + 1 && insts[0] == EnterFunc && insts[End(code)] == LeaveFunc
  {
    BodyLength(code, code);
    FirstIsEnter(code, code);
  }

  lemma {:induction false} FirstIsEnter(whole: Code, code: Code)
    requires AllLocal(code)
    ensures |TacVM.Body(whole, code)| > 0 && TacVM.Body(whole, code)[0] == EnterFunc
  {
    if code != [] { FirstIsEnter(whole, code[..|code| - 1]); }
  }

  lemma OneTurn(insts: seq<Inst>, m: Machine)
    requires 0 <= m.pc < |insts|
    ensures Run(insts, Config(Running, m), 1) == Perform(insts[m.pc], m)
  {
    var c := Step(insts, m);
    assert Run(insts, c, 0) == c;
  }

  /** The machine stops if and only if the source program ends. */
  lemma StopsIffEnds(s: Stmt, u: Unit, store: Store, m: Machine)
    requires Starts(s, u, store, m) && AlwaysTame(s, store)
    ensures (exists n: nat :: Stopped(RunBody(s, u, m, n))) <==> (exists fuel: nat :: Exec(s, State(store, []), fuel).end != OutOfFuel)
  {
    hide Run, Loaded, Exec, CStmt, WellFormed, TameRun;
    if fuel: nat :| Exec(s, State(store, []), fuel).end != OutOfFuel {
      var n := BodyRuns(s, u, store, m, fuel);
      assert Stopped(RunBody(s, u, m, n));
    }
    if n: nat :| Stopped(RunBody(s, u, m, n)) {
      StoppedMeansEnded(s, u, store, m, n);
    }
  }

  /** Backward: whatever the machine shows when it stops is an outcome of the source program. */
  lemma StoppedMeansEnded(s: Stmt, u: Unit, store: Store, m: Machine, n: nat)
    requires Starts(s, u, store, m) && Stopped(RunBody(s, u, m, n)) && TameRun(s, State(store, []), n + 1)
    ensures var r := Exec(s, State(store, []), n + 1);
            r.end != OutOfFuel && Shows(s, u, RunBody(s, u, m, n), r)
  {
    TranslatedIsLoadable(s, u);
    var insts := Loaded(Translated(s, u).tacs);
    hide Loaded, Exec, CStmt, WellFormed, Run, TameRun;
    var k := BodyRuns(s, u, store, m, n + 1);
    if k <= n {
      if Stopped(RunBody(s, u, m, k)) { StoppedStays(insts, Config(Running, m), k, n); }
    } else {
      StoppedStays(insts, Config(Running, m), n, k);
    }
  }

  // ----- From any frame -----

  /** What the cells of a frame say of the variables. */
  ghost function StoreOf(final: Env, f: Frame): Store { map x | x in final :: Cell(f, final[x]) }

  /** The caller has passed 0 or 1 for every boolean parameter. */
  ghost predicate Passed(params: Env, f: Frame) {
    forall x :: x in params && x.ty == BoolTy ==> IsBit(Cell(f, params[x]))
  }

  /** A body that reads no boolean variable before assigning it runs as the source does from any frame whatever: only the
      parameters have to hold what their types say. */
  lemma AssignedBodyRuns(s: Stmt, u: Unit, m: Machine, fuel: nat) returns (n: nat)
    requires Body(s, u) && DA.Assigned(s, u.env.Keys) && m.pc == 0 && m.out == [] && Passed(u.env, m.frame)
    ensures var r := Exec(s, State(StoreOf(Translated(s, u).env, m.frame), []), fuel);
            var c := RunBody(s, u, m, n);
            if r.end == OutOfFuel then n >= fuel && !Stopped(c) && c.m.out == r.st.out
            else Stopped(c) && Shows(s, u, c, r)
  {
    AssignedIsTame(s, u, m.frame);
    assert Starts(s, u, StoreOf(Translated(s, u).env, m.frame), m);
    n := BodyRuns(s, u, StoreOf(Translated(s, u).env, m.frame), m, fuel);
  }

  lemma AssignedIsTame(s: Stmt, u: Unit, f: Frame)
    requires Body(s, u) && DA.Assigned(s, u.env.Keys) && Passed(u.env, f)
    ensures AlwaysTame(s, StoreOf(Translated(s, u).env, f))
  {
    TranslatedIsLoadable(s, u);
    var store := StoreOf(Translated(s, u).env, f);
    assert DA.Bits(u.env.Keys, store);
    forall fuel: nat ensures TameRun(s, State(store, []), fuel) {
      DA.AssignedIsTame(s, u.env.Keys, false, u.env.Keys, State(store, []), fuel);
    }
  }

  /** Any other body does so from a frame that holds 0 or 1 for every boolean variable. */
  lemma TypedIsTame(s: Stmt, u: Unit, store: Store)
    requires Body(s, u) && store.Keys == Translated(s, u).env.Keys && DA.Bits(store.Keys, store)
    ensures AlwaysTame(s, store)
  {
    EnvKeys(s, u, []);
    DA.KnownIsAssigned(s, u.env.Keys, false, store.Keys);
    forall fuel: nat ensures TameRun(s, State(store, []), fuel) {
      DA.AssignedIsTame(s, u.env.Keys, false, store.Keys, State(store, []), fuel);
    }
  }

  /** Translate a body, load it, run it: what the run shows is what the source program does. */
  method TranslateAndRun(s: Stmt, params: Env, temps: nat, labels: nat, frame: Frame, limit: nat)
    returns (exit: ExitKind, out: seq<Item>, rv: int)
    requires Body(s, Unit([], params, temps, labels))
    requires AlwaysTame(s, StoreOf(Translated(s, Unit([], params, temps, labels)).env, frame))
    ensures var store := StoreOf(Translated(s, Unit([], params, temps, labels)).env, frame);
      && (exit == Done ==> exists fuel: nat :: EndsWell(Exec(s, State(store, []), fuel), out, rv))
      && (exit == Crash ==> exists fuel: nat :: EndsTrapped(Exec(s, State(store, []), fuel), out))
  {
    hide Run, Loaded, Exec, CStmt, WellFormed, Allocated, AllLocal, TameRun;
    ghost var u := Unit([], params, temps, labels);
    ghost var store := StoreOf(Translated(s, u).env, frame);
    var tr := new Translator(params, temps, labels);
    tr.VisitStmt(s);
    TranslatedIsLoadable(s, u);
    var vm := new Executor(Loaded(tr.tacs), frame, 0, limit);
    ghost var m := vm.Now();
    var count: nat;
    exit, count := vm.Exec();
    out, rv := vm.out, vm.rv;
    assert vm.Now() == RunBody(s, u, m, count).m;
    if exit == Done || exit == Crash {
      assert Starts(s, u, store, m);
      StoppedMeansEnded(s, u, store, m, count);
      if exit == Done {
        assert EndsWell(Exec(s, State(store, []), count + 1), out, rv);
      } else {
        assert EndsTrapped(Exec(s, State(store, []), count + 1), out);
      }
    }
  }

  ghost predicate EndsWell(r: Outcome, out: seq<Item>, rv: int) {
    && (r.end == Normal || r.end.Returned?)
    && out == r.st.out
    && (r.end.Returned? && r.end.v.Some? ==> rv == r.end.v.value)
  }

  ghost predicate EndsTrapped(r: Outcome, out: seq<Item>) {
    r.end == Trapped && out == r.st.out
  }

  // ----- Where the values of boolean variables matter -----

  const X := Sym(0, BoolTy)
  const Y := Sym(1, BoolTy)

  const X_AND_Y := Binary(And, Ident(X), Ident(Y))

  /** bool x; bool y; Print(x && y); */
  const PRINT_AND := Seq(VarDef(X), Seq(VarDef(Y), Print(X_AND_Y)))

  const EMPTY := Unit([], map[], 0, 0)

  const PRINT_AND_CODE: Code := [Bin(LAND, 2, 0, 1), Parm(2), LibCall(PRINT_BOOL)]

  lemma PrintAndChecked()
    ensures Body(PRINT_AND, EMPTY)
  {
    assert UsesOnly(Ident(X), {X, Y}) && UsesOnly(Ident(Y), {X, Y});
    assert TypeOf(Ident(X)) == TypeOf(Ident(Y)) == Some(BoolTy);
    assert WellFormed(Print(X_AND_Y), {X, Y}, false);
    assert {} + Declares(VarDef(X)) == {X} && {X} + Declares(VarDef(Y)) == {X, Y};
    assert WellFormed(Seq(VarDef(Y), Print(X_AND_Y)), {X}, false);
    assert WellFormed(PRINT_AND, {}, false) && EMPTY.env.Keys == {};
  }

  lemma PrintAndTranslated()
    ensures Body(PRINT_AND, EMPTY)
    ensures Translated(PRINT_AND, EMPTY) == Unit(PRINT_AND_CODE, map[X := 0, Y := 1], 3, 0)
  {
    PrintAndChecked();
    hide Body;
    var u1 := CStmt(VarDef(X), EMPTY, []);
    var u2 := CStmt(VarDef(Y), u1, []);
    assert u2 == Unit([], map[X := 0, Y := 1], 2, 0);
    assert CExpr(Ident(X), u2) == (u2, 0) && CExpr(Ident(Y), u2) == (u2, 1);
    assert Emit(u2, Bin(LAND, 2, 0, 1)).tacs == [Bin(LAND, 2, 0, 1)];
    assert CExpr(X_AND_Y, u2) == (Unit([Bin(LAND, 2, 0, 1)], u2.env, 3, 0), 2);
    assert CStmt(Print(X_AND_Y), u2, []) == Unit(PRINT_AND_CODE, u2.env, 3, 0);
    assert CStmt(Seq(VarDef(Y), Print(X_AND_Y)), u1, []) == Unit(PRINT_AND_CODE, u2.env, 3, 0);
  }

  lemma PrintAndLoaded()
    ensures AllLocal(PRINT_AND_CODE)
    ensures Loaded(PRINT_AND_CODE) == [EnterFunc, Op3(LAND, 2, 0, 1), PutParm(2), CallLib(PRINT_BOOL), LeaveFunc]
  {
    var c := PRINT_AND_CODE;
    assert c[..2][..1] == c[..1] && c[..1][..0] == [] && c[..2] == [Bin(LAND, 2, 0, 1), Parm(2)];
    assert TacVM.Body(c, []) == [EnterFunc];
    assert TacVM.Body(c, c[..1]) == [EnterFunc, Op3(LAND, 2, 0, 1)];
    assert TacVM.Body(c, c[..2]) == [EnterFunc, Op3(LAND, 2, 0, 1), PutParm(2)];
    assert TacVM.Body(c, c) == [EnterFunc, Op3(LAND, 2, 0, 1), PutParm(2), CallLib(PRINT_BOOL)];
  }

  lemma PrintAndExecs(a: int, b: int, fuel: nat)
    ensures Exec(PRINT_AND, State(map[X := a, Y := b], []), fuel)
         == Outcome(Normal, State(map[X := a, Y := b], [BoolItem(a != 0 && b != 0)]))
  {
    var st := State(map[X := a, Y := b], []);
    assert Eval(X_AND_Y, st.store) == Some(Bool(a != 0 && b != 0));
    assert Exec(Print(X_AND_Y), st, fuel) == Outcome(Normal, st.(out := [BoolItem(a != 0 && b != 0)]));
    assert Exec(Seq(VarDef(Y), Print(X_AND_Y)), st, fuel) == Exec(Print(X_AND_Y), st, fuel);
  }

  /** A run of five turns, one at a time. */
  lemma FiveTurns(insts: seq<Inst>, m: Machine, m1: Machine, m2: Machine, m3: Machine, m4: Machine, m5: Machine)
    requires forall k: Machine :: k in {m, m1, m2, m3, m4} ==> k.pc != -1
    requires Step(insts, m) == Config(Running, m1) && Step(insts, m1) == Config(Running, m2)
    requires Step(insts, m2) == Config(Running, m3) && Step(insts, m3) == Config(Running, m4)
    requires Step(insts, m4) == Config(Running, m5)
    ensures Run(insts, Config(Running, m), 5) == Config(Running, m5)
  {
    hide Step;
    assert Run(insts, Config(Running, m5), 0) == Config(Running, m5);
    assert Run(insts, Config(Running, m4), 1) == Config(Running, m5);
    assert Run(insts, Config(Running, m3), 2) == Config(Running, m5);
    assert Run(insts, Config(Running, m2), 3) == Config(Running, m5);
    assert Run(insts, Config(Running, m1), 4) == Config(Running, m5);
  }

  lemma PrintAndRuns(m: Machine, v: int)
    requires Body(PRINT_AND, EMPTY)
    requires m.pc == 0 && m.out == [] && Alu3(LAND, Cell(m.frame, 0), Cell(m.frame, 1)) == Some(v)
    ensures Stopped(RunBody(PRINT_AND, EMPTY, m, 5))
    ensures RunBody(PRINT_AND, EMPTY, m, 5).m.out == [BoolItem(v != 0)]
  {
    hide Loaded, Alu3, Run, Body, WellFormed, Allocated, CStmt, AllLocal;
    PrintAndTranslated();
    PrintAndLoaded();
    var insts := Loaded(PRINT_AND_CODE);
    var m1 := m.(pc := 1);
    var m2 := m1.(pc := 2, frame := m.frame[2 := v]);
    var m3 := m2.(pc := 3, parm := v);
    var m4 := m3.(pc := 4, rv := 0, out := [BoolItem(v != 0)]);
    FiveTurns(insts, m, m1, m2, m3, m4, m4.(pc := -1));
  }

  /** Nothing writes the cell of a variable before its first assignment, so it holds whatever an earlier call left:
      with any two words there the machine prints what the source does exactly if one is 0 or they share a bit. */
  lemma UnassignedAnd(a: int, b: int, m: Machine, fuel: nat)
    requires IsWord(a) && IsWord(b)
    requires m.pc == 0 && m.out == [] && Cell(m.frame, 0) == a && Cell(m.frame, 1) == b
    ensures Body(PRINT_AND, EMPTY) && Stopped(RunBody(PRINT_AND, EMPTY, m, 5))
    ensures Exec(PRINT_AND, State(map[X := a, Y := b], []), fuel).end == Normal
    ensures RunBody(PRINT_AND, EMPTY, m, 5).m.out == Exec(PRINT_AND, State(map[X := a, Y := b], []), fuel).st.out
       <==> a == 0 || b == 0 || ToBits(a) & ToBits(b) != 0
  {
    PrintAndTranslated();
    AndIsLogicalIff(a, b);
    BitsOf(a);
    BitsOf(b);
    AndWithZero(ToBits(a));
    AndWithZero(ToBits(b));
    var v := Alu3(LAND, a, b).value;
    hide Body, RunBody, Exec, Alu3, ToBits;
    PrintAndExecs(a, b, fuel);
    PrintAndRuns(m, v);
  }

  /** So the emitted code departs from the source on cells holding 2 and 1, which no boolean value explains. */
  lemma StrayWordsDepart(m: Machine, fuel: nat)
    requires m.pc == 0 && m.out == [] && Cell(m.frame, 0) == 2 && Cell(m.frame, 1) == 1
    ensures Body(PRINT_AND, EMPTY) && Stopped(RunBody(PRINT_AND, EMPTY, m, 5))
    ensures RunBody(PRINT_AND, EMPTY, m, 5).m.out == [BoolItem(false)]
    ensures Exec(PRINT_AND, State(map[X := 2, Y := 1], []), fuel).st.out == [BoolItem(true)]
  {
    PrintAndTranslated();
    assert ToBits(2) == 2 && ToBits(1) == 1 && 2 as bv32 & 1 == 0;
    AndIsLogicalIff(2, 1);
    hide Body, RunBody, Exec, Alu3, ToBits;
    PrintAndExecs(2, 1, fuel);
    PrintAndRuns(m, 0);
  }
}
