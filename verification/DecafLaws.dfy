/** Laws of the Decaf statements, which say what the reference semantics and the checks on a body mean
    without going through their definitions. */
module DecafLaws {
  import opened Tac
  import opened DecafTree

  // ----- Which programs are well formed -----

  /** What the text of a statement does to symbols, from left to right. */
  datatype Event = Declare(x: Sym) | Use(x: Sym)

  function Uses(e: Expr): seq<Event> {
    match e
    case Ident(x) => [Use(x)]
    case Unary(_, e) => Uses(e)
    case Binary(_, l, r) => Uses(l) + Uses(r)
    case _ => []
  }

  function Text(s: Stmt): seq<Event> {
    match s
    case VarDef(x) => [Declare(x)]
    case Assign(x, e) => [Use(x)] + Uses(e)
    case Print(e) => Uses(e)
    case ReturnVal(e) => Uses(e)
    case Seq(a, b) => Text(a) + Text(b)
    case IfThen(c, t) => Uses(c) + Text(t)
    case IfElse(c, t, e) => Uses(c) + (Text(t) + Text(e))
    case While(c, b) => Uses(c) + Text(b)
    case For(i, c, u, b) => Text(i) + (Uses(c) + (Text(u) + Text(b)))
    case _ => []
  }

  /** Every use has its declaration before it in the text, and no declaration has another one before it. */
  ghost predicate InOrder(es: seq<Event>, declared: set<Sym>) {
    forall k :: 0 <= k < |es| ==> (es[k].Use? <==> (es[k].x in declared || Declare(es[k].x) in es[..k]))
  }

  ghost predicate Binds(op: BinOp, arg: Ty, res: Ty) {
    || (op in {Plus, Minus, Times, Divide, Modulo} && arg == IntTy && res == IntTy)
    || (op in {Lt, Le, Gt, Ge} && arg == IntTy && res == BoolTy)
    || (op in {And, Or} && arg == BoolTy && res == BoolTy)
    || (op in {Eq, Ne} && res == BoolTy)
  }

  /** An expression has a type exactly by the rule of its operator, whose operands have one type. */
  lemma TypedIff(e: Expr, t: Ty)
    ensures match e
            case IntLit(_) => TypeOf(e) == Some(t) <==> t == IntTy
            case BoolLit(_) => TypeOf(e) == Some(t) <==> t == BoolTy
            case Ident(x) => TypeOf(e) == Some(t) <==> t == x.ty
            case Unary(op, a) => TypeOf(e) == Some(t) <==> TypeOf(a) == Some(t) && t == (if op == Negate then IntTy else BoolTy)
            case Binary(op, l, r) => TypeOf(e) == Some(t) <==> exists arg :: TypeOf(l) == Some(arg) && TypeOf(r) == Some(arg) && Binds(op, arg, t)
  {
    if e.Binary? && TypeOf(e.left).Some? {
      assert Binds(e.bop, TypeOf(e.left).value, t) || !Binds(e.bop, TypeOf(e.left).value, t);
    }
  }

  /** Conditions are boolean, a value goes to a variable of its type, and what is printed or returned has a type. */
  predicate Typed(s: Stmt) {
    match s
    case Assign(x, e) => TypeOf(e) == Some(x.ty)
    case Print(e) => TypeOf(e).Some?
    case ReturnVal(e) => TypeOf(e).Some?
    case Seq(a, b) => Typed(a) && Typed(b)
    case IfThen(c, t) => TypeOf(c) == Some(BoolTy) && Typed(t)
    case IfElse(c, t, e) => TypeOf(c) == Some(BoolTy) && Typed(t) && Typed(e)
    case While(c, b) => TypeOf(c) == Some(BoolTy) && Typed(b)
    case For(i, c, u, b) =>
      TypeOf(c) == Some(BoolTy) && (i.Skip? || i.Assign?) && (u.Skip? || u.Assign?) && Typed(i) && Typed(u) && Typed(b)
    case _ => true
  }

  /** A break that no loop of s is around. */
  predicate HasStrayBreak(s: Stmt) {
    match s
    case Break => true
    case Seq(a, b) => HasStrayBreak(a) || HasStrayBreak(b)
    case IfThen(_, t) => HasStrayBreak(t)
    case IfElse(_, t, e) => HasStrayBreak(t) || HasStrayBreak(e)
    case _ => false
  }

  ghost function DeclaredIn(es: seq<Event>): set<Sym> { set v | v in es && v.Declare? :: v.x }

  lemma InOrderAdds(a: seq<Event>, b: seq<Event>, declared: set<Sym>)
    ensures InOrder(a + b, declared) <==> InOrder(a, declared) && InOrder(b, declared + DeclaredIn(a))
    ensures DeclaredIn(a + b) == DeclaredIn(a) + DeclaredIn(b)
  {
    var es := a + b;
    assert forall k :: 0 <= k < |a| ==> es[k] == a[k] && es[..k] == a[..k];
    assert forall k :: 0 <= k < |b| ==> es[|a| + k] == b[k] && es[..|a| + k] == a + b[..k];
    if InOrder(es, declared) {
      forall k | 0 <= k < |b|
        ensures b[k].Use? <==> (b[k].x in declared + DeclaredIn(a) || Declare(b[k].x) in b[..k])
      {
        assert es[|a| + k].Use? <==> (es[|a| + k].x in declared || Declare(es[|a| + k].x) in es[..|a| + k]);
        InDeclared(a, b[k].x);
      }
      forall k | 0 <= k < |a| ensures a[k].Use? <==> (a[k].x in declared || Declare(a[k].x) in a[..k]) {
        assert es[k].Use? <==> (es[k].x in declared || Declare(es[k].x) in es[..k]);
      }
    }
    if InOrder(a, declared) && InOrder(b, declared + DeclaredIn(a)) {
      forall k | 0 <= k < |es| ensures es[k].Use? <==> (es[k].x in declared || Declare(es[k].x) in es[..k]) {
        if k >= |a| {
          assert es[..|a| + (k - |a|)] == a + b[..k - |a|];
          InDeclared(a, b[k - |a|].x);
        }
      }
    }
  }

  lemma InDeclared(es: seq<Event>, x: Sym)
    ensures x in DeclaredIn(es) <==> Declare(x) in es
  {
  }

  lemma {:induction false} UsesInOrder(e: Expr, declared: set<Sym>)
    ensures UsesOnly(e, declared) <==> InOrder(Uses(e), declared)
    ensures DeclaredIn(Uses(e)) == {}
  {
    match e
    case Unary(_, e) => UsesInOrder(e, declared);
    case Binary(_, l, r) =>
      UsesInOrder(l, declared);
      UsesInOrder(r, declared);
      InOrderAdds(Uses(l), Uses(r), declared);
      assert declared + DeclaredIn(Uses(l)) == declared;
    case Ident(x) => assert Uses(e)[0] == Use(x);
    case _ =>
  }

  lemma UsesFirst(e: Expr, rest: seq<Event>, declared: set<Sym>)
    ensures InOrder(Uses(e) + rest, declared) <==> UsesOnly(e, declared) && InOrder(rest, declared)
    ensures DeclaredIn(Uses(e) + rest) == DeclaredIn(rest)
  {
    UsesInOrder(e, declared);
    InOrderAdds(Uses(e), rest, declared);
    assert declared + {} == declared;
  }

  lemma OneUse(x: Sym, declared: set<Sym>)
    ensures InOrder([Use(x)], declared) <==> x in declared
    ensures DeclaredIn([Use(x)]) == {}
  {
    assert [Use(x)][0] == Use(x);
  }

  lemma OneDeclaration(x: Sym, declared: set<Sym>)
    ensures InOrder([Declare(x)], declared) <==> x !in declared
    ensures DeclaredIn([Declare(x)]) == {x}
  {
    assert [Declare(x)][0] == Declare(x);
  }

  lemma {:induction false} DeclaresInText(s: Stmt)
    requires Typed(s)
    ensures DeclaredIn(Text(s)) == Declares(s)
  {
    match s
    case VarDef(x) => OneDeclaration(x, {});
    case Assign(x, e) => OneUse(x, {}); UsesInOrder(e, {}); InOrderAdds([Use(x)], Uses(e), {});
    case Print(e) => UsesInOrder(e, {});
    case ReturnVal(e) => UsesInOrder(e, {});
    case Seq(a, b) => DeclaresInText(a); DeclaresInText(b); InOrderAdds(Text(a), Text(b), {});
    case IfThen(c, t) => DeclaresInText(t); UsesFirst(c, Text(t), {});
    case IfElse(c, t, e) =>
      DeclaresInText(t); DeclaresInText(e);
      InOrderAdds(Text(t), Text(e), {});
      UsesFirst(c, Text(t) + Text(e), {});
    case While(c, b) => DeclaresInText(b); UsesFirst(c, Text(b), {});
    case For(i, c, u, b) =>
      DeclaresInText(i); DeclaresInText(u); DeclaresInText(b);
      InOrderAdds(Text(u), Text(b), {});
      UsesFirst(c, Text(u) + Text(b), {});
      InOrderAdds(Text(i), Uses(c) + (Text(u) + Text(b)), {});
    case _ =>
  }

  /** A body is accepted exactly if it is typed, no break is outside a loop, and in its text every use of a variable
      comes after its one declaration. */
  lemma {:induction false} WellFormedIff(s: Stmt, declared: set<Sym>, inLoop: bool)
    ensures WellFormed(s, declared, inLoop)
        <==> Typed(s) && InOrder(Text(s), declared) && (HasStrayBreak(s) ==> inLoop)
    decreases s, 1
  {
    match s
    case VarDef(x) => OneDeclaration(x, declared);
    case Assign(x, e) =>
      OneUse(x, declared); UsesInOrder(e, declared); InOrderAdds([Use(x)], Uses(e), declared);
      assert declared + {} == declared;
    case Print(e) => UsesInOrder(e, declared);
    case ReturnVal(e) => UsesInOrder(e, declared);
    case Seq(a, b) => ThenIff(s, a, b, declared, inLoop);
    case IfThen(c, t) => WellFormedIff(t, declared, inLoop); UsesFirst(c, Text(t), declared);
    case IfElse(c, t, e) =>
      ThenIff(s, t, e, declared, inLoop);
      UsesFirst(c, Text(t) + Text(e), declared);
    case While(c, b) => WellFormedIff(b, declared, true); UsesFirst(c, Text(b), declared);
    case For(_, _, _, _) => ForIff(s, declared, inLoop);
    case _ =>
  }

  lemma {:induction false} ThenIff(whole: Stmt, a: Stmt, b: Stmt, declared: set<Sym>, inLoop: bool)
    requires a < whole && b < whole
    ensures WellFormed(a, declared, inLoop) && WellFormed(b, declared + Declares(a), inLoop)
        <==> Typed(a) && Typed(b) && InOrder(Text(a) + Text(b), declared) && (HasStrayBreak(a) || HasStrayBreak(b) ==> inLoop)
    decreases whole, 0
  {
    WellFormedIff(a, declared, inLoop);
    WellFormedIff(b, declared + Declares(a), inLoop);
    InOrderAdds(Text(a), Text(b), declared);
    if Typed(a) { DeclaresInText(a); }
  }

  lemma {:induction false} ForIff(s: Stmt, declared: set<Sym>, inLoop: bool)
    requires s.For?
    ensures WellFormed(s, declared, inLoop) <==> Typed(s) && InOrder(Text(s), declared)
    decreases s, 0
  {
    var For(i, c, u, b) := s;
    WellFormedIff(i, declared, inLoop);
    WellFormedIff(u, declared, inLoop);
    WellFormedIff(b, declared, true);
    if (i.Skip? || i.Assign?) && (u.Skip? || u.Assign?) && Typed(i) && Typed(u) {
      DeclaresInText(i);
      DeclaresInText(u);
      assert declared + {} == declared;
      InOrderAdds(Text(u), Text(b), declared);
      UsesFirst(c, Text(u) + Text(b), declared);
      InOrderAdds(Text(i), Uses(c) + (Text(u) + Text(b)), declared);
    }
  }

  // ----- How statements end -----

  /** An expression has no value exactly if some divisor in it is zero: both operands are always evaluated. */
  lemma TrapsIff(op: BinOp, l: Expr, r: Expr, store: Store)
    ensures Eval(Binary(op, l, r), store).None?
       <==> Eval(l, store).None? || Eval(r, store).None? || (op in {Divide, Modulo} && Eval(r, store) == Some(0))
  {
  }

  /** Literals, and the two negations; the binary operators are the subject of MachineWords. */
  lemma LiteralsAre(n: int, a: Expr, store: Store)
    ensures Eval(IntLit(n), store) == Some(n)
    ensures Eval(BoolLit(true), store) == Some(1) && Eval(BoolLit(false), store) == Some(0)
    ensures Eval(Unary(Negate, a), store) == Eval(Binary(Minus, IntLit(0), a), store)
    ensures Eval(Unary(Not, a), store) == Eval(Binary(Eq, a, BoolLit(false)), store)
  {
  }

  ghost predicate Updates(st: State, x: Sym, v: Option<int>, r: Outcome) {
    && r.end == Normal && r.st.out == st.out
    && Eval(Ident(x), r.st.store) == v
    && forall y :: y != x ==> Eval(Ident(y), r.st.store) == Eval(Ident(y), st.store)
  }

  /** An assignment changes its own variable, to the value of the expression, and nothing else. */
  lemma AssignStores(x: Sym, e: Expr, st: State, fuel: nat)
    ensures var r, v := Exec(Assign(x, e), st, fuel), Eval(e, st.store);
            if v.None? then r == Outcome(Trapped, st) else Updates(st, x, v, r)
  {
  }

  /** Printing adds one item, a boolean as a boolean, and return gives its value. */
  lemma ShowsAndReturns(e: Expr, st: State, fuel: nat)
    requires Eval(e, st.store).Some?
    ensures Exec(ReturnVal(e), st, fuel) == Outcome(Returned(Eval(e, st.store)), st)
    ensures var r, v := Exec(Print(e), st, fuel), Eval(e, st.store).value;
            r.end == Normal && r.st.store == st.store && |r.st.out| == |st.out| + 1 && r.st.out[..|st.out|] == st.out
            && (TypeOf(e) == Some(BoolTy) ==> r.st.out[|st.out|] == BoolItem(v != 0))
            && (TypeOf(e) == Some(IntTy) ==> r.st.out[|st.out|] == IntItem(v))
  {
  }

  /** Sequence is associative, with Skip as its unit. */
  lemma SequenceLaws(a: Stmt, b: Stmt, c: Stmt, st: State, fuel: nat)
    ensures Exec(Seq(Seq(a, b), c), st, fuel) == Exec(Seq(a, Seq(b, c)), st, fuel)
    ensures Exec(Seq(Skip, a), st, fuel) == Exec(a, st, fuel) == Exec(Seq(a, Skip), st, fuel)
  {
    hide Eval, Shown, ExecLoop;
    var r := Exec(a, st, fuel);
    if r.end == Normal {
      assert Exec(Seq(a, b), st, fuel) == Exec(b, r.st, fuel);
      assert Exec(Skip, r.st, fuel) == Outcome(Normal, r.st);
    } else {
      assert Exec(Seq(a, b), st, fuel) == r;
    }
  }

  /** What stands behind a break or a return does not run. */
  lemma NothingBehindAWayOut(a: Stmt, e: Expr, st: State, fuel: nat)
    ensures Exec(Skip, st, fuel) == Outcome(Normal, st)
    ensures Exec(Seq(Break, a), st, fuel) == Exec(Break, st, fuel) == Outcome(Broke, st)
    ensures Exec(Seq(ReturnVoid, a), st, fuel) == Exec(ReturnVoid, st, fuel) == Outcome(Returned(None), st)
    ensures Exec(Seq(ReturnVal(e), a), st, fuel) == Exec(ReturnVal(e), st, fuel)
  {
    hide Eval, Shown, ExecLoop;
    assert Exec(ReturnVal(e), st, fuel).end != Normal;
  }

  /** A true condition takes the first branch and a false one the second; a missing branch is Skip. */
  lemma BranchLaws(c: Expr, t: Stmt, e: Stmt, st: State, fuel: nat)
    ensures Exec(IfElse(BoolLit(true), t, e), st, fuel) == Exec(t, st, fuel)
    ensures Exec(IfElse(BoolLit(false), t, e), st, fuel) == Exec(e, st, fuel)
    ensures Exec(IfElse(Unary(Not, c), t, e), st, fuel) == Exec(IfElse(c, e, t), st, fuel)
    ensures Exec(IfThen(c, t), st, fuel) == Exec(IfElse(c, t, Skip), st, fuel)
  {
  }

  /** A for statement is its initialisation, then a while statement with the update at the end of its body. */
  lemma ForIsWhile(i: Stmt, c: Expr, u: Stmt, b: Stmt, st: State, fuel: nat)
    requires Simple(u)
    ensures Exec(For(i, c, u, b), st, fuel) == Exec(Seq(i, While(c, Seq(b, u))), st, fuel)
  {
    hide Eval, Shown, ExecLoop;
    if Exec(i, st, fuel).end == Normal { ForLoopIsWhile(For(i, c, u, b), Exec(i, st, fuel).st, fuel); }
  }

  lemma {:induction false} ForLoopIsWhile(s: Stmt, st: State, fuel: nat)
    requires s.For? && Simple(s.update)
    ensures ExecLoop(s, st, fuel) == ExecLoop(While(s.cond, Seq(s.body, s.update)), st, fuel)
    decreases fuel
  {
    hide Exec, Eval;
    if fuel > 0 {
      var r := Exec(s.body, st, fuel);
      ThenIs(s.body, s.update, st, fuel);
      if r.end == Normal {
        var n := Exec(s.update, r.st, fuel);
        SimpleEnds(s.update, r.st, fuel);
        if n.end == Normal { ForLoopIsWhile(s, n.st, fuel - 1); }
      }
    }
  }

  lemma ThenIs(a: Stmt, b: Stmt, st: State, fuel: nat)
    ensures var r := Exec(a, st, fuel);
            Exec(Seq(a, b), st, fuel) == if r.end == Normal then Exec(b, r.st, fuel) else r
  {
  }

  lemma SimpleEnds(u: Stmt, st: State, fuel: nat)
    requires Simple(u)
    ensures Exec(u, st, fuel).end in {Normal, Trapped}
  {
  }

  /** The statement ends so, given enough turns of its loops. */
  ghost predicate Ends(s: Stmt, st: State, r: Outcome) {
    r.end != OutOfFuel && exists fuel: nat :: Exec(s, st, fuel) == r
  }

  /** What a loop makes of a break. */
  function Caught(r: Outcome): Outcome { if r.end == Broke then Outcome(Normal, r.st) else r }

  lemma UnrollsTo(c: Expr, b: Stmt, st: State, f: nat)
    requires Exec(While(c, b), st, f + 1).end != OutOfFuel
    ensures var p := Exec(IfThen(c, Seq(b, While(c, b))), st, f + 1);
            p.end != OutOfFuel && Exec(While(c, b), st, f + 1) == Caught(p)
  {
    var v := Eval(c, st.store);
    if v.Some? && v.value != 0 {
      var w := While(c, b);
      var r := Exec(b, st, f + 1);
      assert Exec(IfThen(c, Seq(b, w)), st, f + 1) == Exec(Seq(b, w), st, f + 1);
      assert Exec(w, st, f + 1) == ExecLoop(w, st, f + 1);
      if r.end == Normal {
        assert Exec(w, r.st, f + 1) == ExecLoop(w, r.st, f + 1);
        LoopFuelIrrelevant(w, r.st, f, f + 1);
        NeverBroke(w, r.st, f);
      }
    }
  }

  lemma RollsUp(c: Expr, b: Stmt, st: State, f: nat)
    requires Exec(IfThen(c, Seq(b, While(c, b))), st, f).end != OutOfFuel
    ensures Exec(While(c, b), st, f + 1).end != OutOfFuel
  {
    var v := Eval(c, st.store);
    var w := While(c, b);
    assert Exec(w, st, f + 1) == ExecLoop(w, st, f + 1);
    if v.Some? && v.value != 0 {
      assert Exec(IfThen(c, Seq(b, w)), st, f) == Exec(Seq(b, w), st, f);
      FuelIrrelevant(b, st, f, f + 1);
      var r := Exec(b, st, f);
      if r.end == Normal { assert Exec(w, r.st, f) == ExecLoop(w, r.st, f); }
    }
  }

  lemma {:induction false} NeverBroke(s: Stmt, st: State, f: nat)
    requires s.While?
    ensures ExecLoop(s, st, f).end != Broke
    decreases f
  {
    if f > 0 {
      var r := Exec(s.body, st, f);
      if r.end == Normal { NeverBroke(s, r.st, f - 1); }
    }
  }

  /** A while statement is its body and then itself, if the condition holds; a break in the body ends it. */
  lemma WhileUnrolls(c: Expr, b: Stmt, st: State, r: Outcome)
    ensures Ends(While(c, b), st, r) <==> exists p :: Ends(IfThen(c, Seq(b, While(c, b))), st, p) && r == Caught(p)
  {
    hide Exec, ExecLoop;
    var w := While(c, b);
    var once := IfThen(c, Seq(b, w));
    if Ends(w, st, r) {
      var f: nat :| Exec(w, st, f) == r;
      FuelIrrelevant(w, st, f, f + 1);
      UnrollsTo(c, b, st, f);
      assert Ends(once, st, Exec(once, st, f + 1));
    }
    if p :| Ends(once, st, p) && r == Caught(p) {
      var f: nat :| Exec(once, st, f) == p;
      FuelIrrelevant(once, st, f, f + 1);
      RollsUp(c, b, st, f);
      UnrollsTo(c, b, st, f);
      assert Exec(w, st, f + 1) == r;
      assert Ends(w, st, r);
    }
  }
}
