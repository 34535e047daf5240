/** What live sets guarantee about execution, whatever memory, calls, arithmetic and tests mean. */
module LivenessSound {
  import opened Tac
  import opened Liveness

  type Regs = Temp -> int

  /** A meaning of the instructions over a world of memory, argument area, output and so on. */
  datatype Meaning<!W(!new)> = Meaning(
    alu: (BinKind, int, int) -> int,
    alu1: (UnKind, int) -> int,
    text: string -> int,
    vtable: nat -> int,
    load: (W, int, int) -> int,
    store: (W, int, int, int) -> W,
    parm: (W, int) -> W,
    lib: (W, Intrinsic) -> W,
    call: (W, int) -> (int, W),
    callLabel: (W, Label) -> (int, W),
    test: (EndKind, int) -> bool)

  datatype State<W> = State(regs: Regs, world: W)

  function Set(r: Regs, t: Temp, v: int): Regs { (x: Temp) => if x == t then v else r(x) }

  function SetOpt(r: Regs, t: Option<Temp>, v: int): Regs { if t.Some? then Set(r, t.value, v) else r }

  function Step<W(!new)>(m: Meaning<W>, tac: Instr, s: State<W>): State<W> {
    match tac
    case Bin(op, d, a, b) => s.(regs := Set(s.regs, d, m.alu(op, s.regs(a), s.regs(b))))
    case Un(op, d, a) => s.(regs := Set(s.regs, d, m.alu1(op, s.regs(a))))
    case LoadImm4(d, n) => s.(regs := Set(s.regs, d, n))
    case LoadStr(d, t) => s.(regs := Set(s.regs, d, m.text(t)))
    case LoadVtbl(d, v) => s.(regs := Set(s.regs, d, m.vtable(v)))
    case Load(d, b, o) => s.(regs := Set(s.regs, d, m.load(s.world, s.regs(b), o)))
    case Store(v, b, o) => s.(world := m.store(s.world, s.regs(v), s.regs(b), o))
    case Parm(a) => s.(world := m.parm(s.world, s.regs(a)))
    case LibCall(i) => s.(world := m.lib(s.world, i))
    case DirectCall(r, l) =>
      var (v, w) := m.callLabel(s.world, l);
      State(SetOpt(s.regs, r, v), w)
    case IndirectCall(r, f) =>
      var (v, w) := m.call(s.world, s.regs(f));
      State(SetOpt(s.regs, r, v), w)
    case _ => s
  }

  function RunTacs<W(!new)>(m: Meaning<W>, tacs: Code, s: State<W>): State<W> {
    if tacs == [] then s else RunTacs(m, tacs[1..], Step(m, tacs[0], s))
  }

  /** Where a function is: about to run a block, or returned with a value. */
  datatype Place<W> = AtBlock(b: nat, s: State<W>) | Returned(v: Option<int>, world: W)

  function RunBlock<W(!new)>(m: Meaning<W>, g: Graph, b: nat, s: State<W>): Place<W>
    requires GoodGraph(g) && b < |g|
  {
    var bb := g[b];
    var e := RunTacs(m, bb.tacs, s);
    match bb.kind
    case ByBranch => AtBlock(bb.next0, e)
    case ByBeqz | ByBnez => AtBlock(if m.test(bb.kind, e.regs(bb.var'.value)) then bb.next0 else bb.next1, e)
    case ByReturn => Returned(if bb.var'.Some? then Some(e.regs(bb.var'.value)) else None, e.world)
  }

  function RunBlocks<W(!new)>(m: Meaning<W>, g: Graph, p: Place<W>, n: nat): Place<W>
    requires GoodGraph(g) && (p.AtBlock? ==> p.b < |g|)
    decreases n
  {
    if n == 0 || p.Returned? then p else RunBlocks(m, g, RunBlock(m, g, p.b, p.s), n - 1)
  }

  /** Two states no observer of the temps in `live` can tell apart. */
  ghost predicate Agree<W>(s: State<W>, t: State<W>, live: set<Temp>) {
    s.world == t.world && forall x :: x in live ==> s.regs(x) == t.regs(x)
  }

  lemma StepAgrees<W(!new)>(m: Meaning<W>, tac: Instr, s: State<W>, t: State<W>, out: set<Temp>)
    requires Straight(tac) && Agree(s, t, Before(tac, out))
    ensures Agree(Step(m, tac, s), Step(m, tac, t), out)
  {
    assert forall x :: x in Uses(tac) ==> s.regs(x) == t.regs(x);
  }

  lemma {:induction false} RunAgrees<W(!new)>(m: Meaning<W>, tacs: Code, s: State<W>, t: State<W>, out: set<Temp>)
    requires forall i :: 0 <= i < |tacs| ==> Straight(tacs[i])
    requires Agree(s, t, LiveBefore(tacs, out))
    ensures Agree(RunTacs(m, tacs, s), RunTacs(m, tacs, t), out)
  {
    if tacs != [] {
      StepAgrees(m, tacs[0], s, t, LiveBefore(tacs[1..], out));
      RunAgrees(m, tacs[1..], Step(m, tacs[0], s), Step(m, tacs[0], t), out);
    }
  }

  /** Places that look the same from outside: the same block with agreeing live temps, or the same return. */
  ghost predicate SamePlace<W>(p: Place<W>, q: Place<W>, liveIn: Sets) {
    match p
    case AtBlock(b, s) => q.AtBlock? && q.b == b && b < |liveIn| && Agree(s, q.s, liveIn[b])
    case Returned(_, _) => q == p
  }

  /** Any solution of the equations is sound: states that agree on the temps live at a block take the same path
      through the graph for any number of blocks and return the same value in the same world. */
  lemma {:induction false} LiveTempsDecide<W(!new)>(m: Meaning<W>, g: Graph, liveIn: Sets, liveOut: Sets, p: Place<W>, q: Place<W>, n: nat)
    requires Solves(g, liveIn, liveOut) && SamePlace(p, q, liveIn)
    ensures SamePlace(RunBlocks(m, g, p, n), RunBlocks(m, g, q, n), liveIn)
    decreases n
  {
    if n > 0 && p.AtBlock? {
      BlockAgrees(m, g, liveIn, liveOut, p.b, p.s, q.s);
      LiveTempsDecide(m, g, liveIn, liveOut, RunBlock(m, g, p.b, p.s), RunBlock(m, g, q.b, q.s), n - 1);
    }
  }

  lemma BlockAgrees<W(!new)>(m: Meaning<W>, g: Graph, liveIn: Sets, liveOut: Sets, b: nat, s: State<W>, t: State<W>)
    requires Solves(g, liveIn, liveOut) && b < |g| && Agree(s, t, liveIn[b])
    ensures SamePlace(RunBlock(m, g, b, s), RunBlock(m, g, b, t), liveIn)
  {
    assert Settled(g, liveIn, liveOut, b);
    var bb := g[b];
    BlockTransfer(bb, liveOut[b]);
    RunAgrees(m, bb.tacs, s, t, liveOut[b] + OptSet(bb.var'));
  }

  /** In the middle of a block: after instruction k only the temps of its live set matter to the rest of the run. */
  lemma LiveAfterDecides<W(!new)>(m: Meaning<W>, g: Graph, liveIn: Sets, liveOut: Sets, b: nat, k: nat, s: State<W>, t: State<W>)
    requires Solves(g, liveIn, liveOut) && b < |g| && k < |g[b].tacs|
    requires Agree(s, t, LiveAfter(g[b], liveOut[b], k))
    ensures var rest := g[b := g[b].(tacs := g[b].tacs[k + 1..])];
            GoodGraph(rest) && SamePlace(RunBlock(m, rest, b, s), RunBlock(m, rest, b, t), liveIn)
  {
    assert Settled(g, liveIn, liveOut, b);
    RunAgrees(m, g[b].tacs[k + 1..], s, t, liveOut[b] + OptSet(g[b].var'));
  }

  /** A temp that is dead after instruction k may be overwritten there. */
  lemma DeadMayBeOverwritten<W(!new)>(m: Meaning<W>, g: Graph, liveIn: Sets, liveOut: Sets, b: nat, k: nat, s: State<W>, x: Temp, v: int, n: nat)
    requires Solves(g, liveIn, liveOut) && b < |g| && k < |g[b].tacs|
    requires x !in LiveAfter(g[b], liveOut[b], k)
    ensures var rest := g[b := g[b].(tacs := g[b].tacs[k + 1..])];
            GoodGraph(rest) &&
            var p, q := RunBlock(m, rest, b, s), RunBlock(m, rest, b, s.(regs := Set(s.regs, x, v)));
            SamePlace(RunBlocks(m, g, p, n), RunBlocks(m, g, q, n), liveIn)
  {
    var t := s.(regs := Set(s.regs, x, v));
    LiveAfterDecides(m, g, liveIn, liveOut, b, k, s, t);
    var rest := g[b := g[b].(tacs := g[b].tacs[k + 1..])];
    LiveTempsDecide(m, g, liveIn, liveOut, RunBlock(m, rest, b, s), RunBlock(m, rest, b, t), n);
  }
}
