/** Live temps of a flow graph: the fixpoint loop, the per-instruction sets, and what they guarantee. */
module Liveness {
  import opened Tac

  datatype EndKind = ByBranch | ByBeqz | ByBnez | ByReturn

  /**
    * A basic block. One that ends by return keeps the successors it was made with, which are
    * 0 and 0, and liveness reads them like any others; one that branches may still carry a
    * variable, left from a test whose two targets turned out to be the same.
    */
  datatype BasicBlock = BasicBlock(tacs: Code, kind: EndKind, var': Option<Temp>, next0: nat, next1: nat)

  type Graph = seq<BasicBlock>

  /** Only instructions that fall through stay inside a block. */
  predicate Straight(tac: Instr) {
    !tac.Return? && !tac.Branch? && !tac.Beqz? && !tac.Bnez? && !tac.Mark?
  }

  predicate GoodBlock(bb: BasicBlock) {
    && (forall i :: 0 <= i < |bb.tacs| ==> Straight(bb.tacs[i]))
    && (bb.kind == ByBeqz || bb.kind == ByBnez ==> bb.var'.Some?)
  }

  predicate GoodGraph(g: Graph) {
    forall b :: 0 <= b < |g| ==> GoodBlock(g[b]) && g[b].next0 < |g| && g[b].next1 < |g|
  }

  // ----- What an instruction reads and writes -----

  function OptSet(t: Option<Temp>): set<Temp> { if t.Some? then {t.value} else {} }

  function Uses(tac: Instr): set<Temp> {
    match tac
    case Bin(_, _, a, b) => {a, b}
    case Un(_, _, a) => {a}
    case IndirectCall(_, f) => {f}
    case Load(_, b, _) => {b}
    case Store(v, b, _) => {v, b}
    case Parm(a) => {a}
    case _ => {}
  }

  function Defs(tac: Instr): set<Temp> {
    match tac
    case Bin(_, d, _, _) => {d}
    case Un(_, d, _) => {d}
    case LoadImm4(d, _) => {d}
    case LoadStr(d, _) => {d}
    case LoadVtbl(d, _) => {d}
    case Load(d, _, _) => {d}
    case DirectCall(r, _) => OptSet(r)
    case IndirectCall(r, _) => OptSet(r)
    case _ => {}
  }

  /** The transfer of one instruction, backwards. */
  function Before(tac: Instr, out: set<Temp>): set<Temp> { (out - Defs(tac)) + Uses(tac) }

  function LiveBefore(tacs: Code, out: set<Temp>): set<Temp> {
    if tacs == [] then out else Before(tacs[0], LiveBefore(tacs[1..], out))
  }

  /** A temp is in the first set when the block reads it before writing it, in the second when it writes it first. */
  function UseDef(tacs: Code): (set<Temp>, set<Temp>) {
    if tacs == [] then ({}, {}) else
    var last := tacs[|tacs| - 1];
    var (use, def) := UseDef(tacs[..|tacs| - 1]);
    var use' := use + (Uses(last) - def);
    (use', def + (Defs(last) - use'))
  }

  function LiveUse(bb: BasicBlock): set<Temp> {
    var (use, def) := UseDef(bb.tacs);
    use + (OptSet(bb.var') - def)
  }

  function Def(bb: BasicBlock): set<Temp> { UseDef(bb.tacs).1 }

  lemma {:induction false} LiveBeforeSnoc(tacs: Code, tac: Instr, out: set<Temp>)
    ensures LiveBefore(tacs + [tac], out) == LiveBefore(tacs, Before(tac, out))
  {
    if tacs == [] {
      assert LiveBefore([], out) == out;
    } else {
      LiveBeforeSnoc(tacs[1..], tac, out);
      assert (tacs + [tac])[1..] == tacs[1..] + [tac];
    }
  }

  /** The def/liveUse summary of a block is the composition of its instruction transfers. */
  lemma {:induction false} SummaryIsTransfer(tacs: Code, out: set<Temp>)
    ensures var (use, def) := UseDef(tacs); LiveBefore(tacs, out) == use + (out - def)
    decreases |tacs|
  {
    if tacs != [] {
      var init, last := tacs[..|tacs| - 1], tacs[|tacs| - 1];
      LiveBeforeSnoc(init, last, out);
      assert init + [last] == tacs;
      SummaryIsTransfer(init, Before(last, out));
    }
  }

  /** At a block: live on entry is the transfer of its instructions applied to live on exit and its end variable. */
  lemma BlockTransfer(bb: BasicBlock, out: set<Temp>)
    ensures LiveBefore(bb.tacs, out + OptSet(bb.var')) == LiveUse(bb) + (out - Def(bb))
  {
    SummaryIsTransfer(bb.tacs, out + OptSet(bb.var'));
  }

  // ----- The equations -----

  type Sets = seq<set<Temp>>

  function Succ(bb: BasicBlock, live: Sets): set<Temp>
    requires bb.next0 < |live| && bb.next1 < |live|
  {
    live[bb.next0] + live[bb.next1]
  }

  /** The equations of block b hold. */
  ghost predicate Settled(g: Graph, liveIn: Sets, liveOut: Sets, b: nat)
    requires GoodGraph(g) && |liveIn| == |liveOut| == |g| && b < |g|
  {
    && liveOut[b] == Succ(g[b], liveIn)
    && liveIn[b] == LiveUse(g[b]) + (liveOut[b] - Def(g[b]))
  }

  ghost predicate Solves(g: Graph, liveIn: Sets, liveOut: Sets) {
    && GoodGraph(g) && |liveIn| == |liveOut| == |g|
    && forall b :: 0 <= b < |g| ==> Settled(g, liveIn, liveOut, b)
  }

  ghost predicate Below(a: Sets, b: Sets) {
    |a| == |b| && forall i :: 0 <= i < |a| ==> a[i] <= b[i]
  }

  // ----- The fixpoint -----

  function Room(all: set<Temp>, live: Sets): nat {
    if live == [] then 0 else Room(all, live[1..]) + |all - live[0]|
  }

  lemma {:induction false} RoomShrinks(all: set<Temp>, live: Sets, b: nat, more: set<Temp>)
    requires b < |live| && live[b] <= more <= all
    ensures Room(all, live[b := more]) <= Room(all, live)
    ensures more != live[b] ==> Room(all, live[b := more]) < Room(all, live)
  {
    if b > 0 {
      RoomShrinks(all, live[1..], b - 1, more);
      assert live[b := more][1..] == live[1..][b - 1 := more];
    } else {
      assert live[b := more][1..] == live[1..];
      assert all - live[0] == (all - more) + (more - live[0]);
      assert (all - more) !! (more - live[0]);
      assert |all - live[0]| == |all - more| + |more - live[0]|;
    }
  }

  function AllUses(g: Graph): set<Temp> {
    if g == [] then {} else AllUses(g[..|g| - 1]) + LiveUse(g[|g| - 1])
  }

  lemma {:induction false} UsesInAll(g: Graph, b: nat)
    requires b < |g|
    ensures LiveUse(g[b]) <= AllUses(g)
    decreases |g|
  {
    if b < |g| - 1 { UsesInAll(g[..|g| - 1], b); }
  }

  /** Sets on their way up: the first reads are in, and nothing is in without reason. */
  ghost predicate Rising(g: Graph, liveIn: Sets, liveOut: Sets, b: nat)
    requires GoodGraph(g) && |liveIn| == |liveOut| == |g| && b < |g|
  {
    && LiveUse(g[b]) <= liveIn[b] <= AllUses(g)
    && liveIn[b] <= LiveUse(g[b]) + (Succ(g[b], liveIn) - Def(g[b]))
    && liveOut[b] <= Succ(g[b], liveIn)
  }

  ghost predicate Ascending(g: Graph, liveIn: Sets, liveOut: Sets) {
    && GoodGraph(g) && |liveIn| == |liveOut| == |g|
    && (forall b :: 0 <= b < |g| ==> Rising(g, liveIn, liveOut, b))
    && BelowAll(g, liveIn)
  }

  ghost predicate BelowAll(g: Graph, liveIn: Sets) {
    forall s, t :: Solves(g, s, t) ==> Below(liveIn, s)
  }

  /** What one visit of block b computes. */
  ghost function Raised(g: Graph, live: Sets, b: nat): set<Temp>
    requires GoodGraph(g) && |live| == |g| && b < |g|
  {
    live[b] + (Succ(g[b], live) - Def(g[b]))
  }

  lemma RaiseKeepsBelow(g: Graph, live: Sets, b: nat)
    requires GoodGraph(g) && |live| == |g| && b < |g| && BelowAll(g, live)
    ensures BelowAll(g, live[b := Raised(g, live, b)])
  {
    forall s, t | Solves(g, s, t) ensures Below(live[b := Raised(g, live, b)], s) {
      assert Below(live, s);
      assert Settled(g, s, t, b);
      assert Succ(g[b], live) <= Succ(g[b], s);
    }
  }

  lemma RaiseWithin(g: Graph, liveIn: Sets, liveOut: Sets, b: nat)
    requires Ascending(g, liveIn, liveOut) && b < |g|
    ensures liveIn[b] <= Raised(g, liveIn, b) <= AllUses(g)
    ensures Raised(g, liveIn, b) == LiveUse(g[b]) + (Succ(g[b], liveIn) - Def(g[b]))
  {
    hide BelowAll, LiveUse, Def, AllUses;
    assert Rising(g, liveIn, liveOut, b) && Rising(g, liveIn, liveOut, g[b].next0) && Rising(g, liveIn, liveOut, g[b].next1);
  }

  /** Raising block b keeps block c rising. */
  lemma RaiseKeepsRising(g: Graph, liveIn: Sets, liveOut: Sets, b: nat, c: nat)
    requires Ascending(g, liveIn, liveOut) && b < |g| && c < |g|
    ensures var liveIn' := liveIn[b := Raised(g, liveIn, b)];
            Rising(g, liveIn', liveOut[b := Succ(g[b], liveIn')], c)
  {
    RaiseWithin(g, liveIn, liveOut, b);
    assert Rising(g, liveIn, liveOut, c);
    hide BelowAll, Ascending, Raised, LiveUse, Def, AllUses;
    assert Succ(g[c], liveIn) <= Succ(g[c], liveIn[b := Raised(g, liveIn, b)]);
  }

  lemma RaiseAscends(g: Graph, liveIn: Sets, liveOut: Sets, b: nat)
    requires Ascending(g, liveIn, liveOut) && b < |g|
    ensures var more, all := Raised(g, liveIn, b), AllUses(g);
            var liveIn' := liveIn[b := more];
            && Ascending(g, liveIn', liveOut[b := Succ(g[b], liveIn')])
            && (more != liveIn[b] ==> Room(all, liveIn') < Room(all, liveIn))
  {
    RaiseKeepsBelow(g, liveIn, b);
    RaiseWithin(g, liveIn, liveOut, b);
    RoomShrinks(AllUses(g), liveIn, b, Raised(g, liveIn, b));
    hide BelowAll, LiveUse, Def, AllUses, Rising, Raised, Succ;
    var liveIn' := liveIn[b := Raised(g, liveIn, b)];
    var liveOut' := liveOut[b := Succ(g[b], liveIn')];
    forall c | 0 <= c < |g| ensures Rising(g, liveIn', liveOut', c) {
      RaiseKeepsRising(g, liveIn, liveOut, b, c);
    }
  }

  /** The flow graph of a function, with the sets of its blocks and the mark each temp carries. */
  class FlowGraph {
    const bbs: Graph
    var lastVisitedBB: map<Temp, int>
    var def: Sets
    var liveUse: Sets
    var liveIn: Sets
    var liveOut: Sets

    ghost predicate Valid()
      reads this
    {
      |def| == |liveUse| == |liveIn| == |liveOut| == |bbs| && GoodGraph(bbs)
    }

    constructor (g: Graph)
      requires GoodGraph(g)
      ensures Valid() && bbs == g && lastVisitedBB == map[]
      ensures forall b :: 0 <= b < |bbs| ==> def[b] == liveUse[b] == liveIn[b] == liveOut[b] == {}
    {
      bbs, lastVisitedBB := g, map[];
      var empty: Sets := seq(|g|, _ => {});
      def, liveUse, liveIn, liveOut := empty, empty, empty, empty;
    }

    /** Exactly the temps that block b has touched carry its number. */
    ghost predicate Marks(b: nat, touched: set<Temp>)
      reads this
    {
      forall t :: t in lastVisitedBB && lastVisitedBB[t] == b <==> t in touched
    }

    /** Marks of other blocks are only overwritten by b. */
    twostate predicate MarkedOnly(b: nat)
      reads this
    {
      forall t :: t in lastVisitedBB ==> lastVisitedBB[t] == b || (t in old(lastVisitedBB) && lastVisitedBB[t] == old(lastVisitedBB)[t])
    }

    method Read(t: Temp, b: nat, use: set<Temp>, def: set<Temp>) returns (use': set<Temp>)
      requires Marks(b, use + def)
      modifies `lastVisitedBB
      ensures use' == use + ({t} - def) && Marks(b, use' + def) && MarkedOnly(b)
    {
      use' := use;
      if !(t in lastVisitedBB && lastVisitedBB[t] == b) {
        use' := use + {t};
        lastVisitedBB := lastVisitedBB[t := b];
      }
    }

    method Write(t: Temp, b: nat, use: set<Temp>, def: set<Temp>) returns (def': set<Temp>)
      requires Marks(b, use + def)
      modifies `lastVisitedBB
      ensures def' == def + ({t} - use) && Marks(b, use + def') && MarkedOnly(b)
    {
      def' := def;
      if !(t in lastVisitedBB && lastVisitedBB[t] == b) {
        def' := def + {t};
        lastVisitedBB := lastVisitedBB[t := b];
      }
    }

    method Touch(tac: Instr, b: nat, use: set<Temp>, def: set<Temp>) returns (use': set<Temp>, def': set<Temp>)
      requires Marks(b, use + def) && Straight(tac)
      modifies `lastVisitedBB
      ensures use' == use + (Uses(tac) - def) && def' == def + (Defs(tac) - use')
      ensures Marks(b, use' + def') && MarkedOnly(b)
    {
      use', def' := use, def;
      match tac
      case Bin(_, d, x, y) =>
        use' := Read(x, b, use', def);
        use' := Read(y, b, use', def);
        def' := Write(d, b, use', def);
      case Un(_, d, x) =>
        use' := Read(x, b, use', def);
        def' := Write(d, b, use', def);
      case Load(d, x, _) =>
        use' := Read(x, b, use', def);
        def' := Write(d, b, use', def);
      case IndirectCall(r, x) =>
        use' := Read(x, b, use', def);
        if r.Some? { def' := Write(r.value, b, use', def); }
      case DirectCall(r, _) =>
        if r.Some? { def' := Write(r.value, b, use', def); }
      case LoadImm4(d, _) => def' := Write(d, b, use', def);
      case LoadStr(d, _) => def' := Write(d, b, use', def);
      case LoadVtbl(d, _) => def' := Write(d, b, use', def);
      case Store(x, y, _) =>
        use' := Read(x, b, use', def);
        use' := Read(y, b, use', def);
      case Parm(x) => use' := Read(x, b, use', def);
      case LibCall(_) =>
    }

    /** Summarise block b; no temp may carry its number yet. */
    method ComputeDefAndLiveUse(b: nat)
      requires Valid() && b < |bbs| && Marks(b, {})
      modifies `lastVisitedBB, `def, `liveUse, `liveIn
      ensures Valid() && MarkedOnly(b)
      ensures liveUse == old(liveUse)[b := LiveUse(bbs[b])] && def == old(def)[b := Def(bbs[b])]
      ensures liveIn == old(liveIn)[b := old(liveIn[b]) + LiveUse(bbs[b])]
    {
      var tacs := bbs[b].tacs;
      var k := 0;
      var u, d: set<Temp> := {}, {};
      assert tacs[..0] == [];
      while k < |tacs|
        invariant k <= |tacs| && (u, d) == UseDef(tacs[..k]) && Marks(b, u + d) && MarkedOnly(b)
        invariant liveIn == old(liveIn) && liveUse == old(liveUse) && def == old(def)
      {
        assert tacs[..k + 1][..k] == tacs[..k];
        u, d := Touch(tacs[k], b, u, d);
        k := k + 1;
      }
      assert tacs[..k] == tacs;
      if bbs[b].var'.Some? { u := Read(bbs[b].var'.value, b, u, d); }
      assert u == LiveUse(bbs[b]);
      liveUse := liveUse[b := u];
      def := def[b := d];
      liveIn := liveIn[b := liveIn[b] + u];
    }

    /** Summarise every block, in order; its number marks the temps it has met. */
    method ComputeAll()
      requires Valid() && lastVisitedBB == map[]
      requires forall b :: 0 <= b < |bbs| ==> liveIn[b] == {}
      modifies `lastVisitedBB, `def, `liveUse, `liveIn
      ensures Valid()
      ensures forall b :: 0 <= b < |bbs| ==> liveUse[b] == liveIn[b] == LiveUse(bbs[b]) && def[b] == Def(bbs[b])
    {
      hide LiveUse, Def, GoodGraph;
      var n := 0;
      while n < |bbs|
        invariant n <= |bbs| && Valid()
        invariant forall b :: 0 <= b < n ==> liveUse[b] == liveIn[b] == LiveUse(bbs[b]) && def[b] == Def(bbs[b])
        invariant forall b :: n <= b < |bbs| ==> liveIn[b] == {}
        invariant forall t :: t in lastVisitedBB ==> lastVisitedBB[t] < n
      {
        ComputeDefAndLiveUse(n);
        n := n + 1;
      }
    }

    method AnalyzeLiveness()
      requires Valid() && lastVisitedBB == map[]
      requires forall b :: 0 <= b < |bbs| ==> liveIn[b] == liveOut[b] == {}
      modifies this
      ensures Valid() && Solves(bbs, liveIn, liveOut)
      ensures forall s, t :: Solves(bbs, s, t) ==> Below(liveIn, s) && Below(liveOut, t)
    {
      ComputeAll();
      StartsAscending(bbs, liveIn, liveOut);
      hide Ascending, Settled, Solves, Below, LiveUse, Def, Room, AllUses, GoodGraph;
      var changed := true;
      while changed
        invariant Valid() && Ascending(bbs, liveIn, liveOut)
        invariant forall b :: 0 <= b < |bbs| ==> def[b] == Def(bbs[b])
        invariant !changed ==> forall b :: 0 <= b < |bbs| ==> Settled(bbs, liveIn, liveOut, b)
        decreases Room(AllUses(bbs), liveIn) + if changed then 1 else 0
      {
        changed := Pass();
      }
      LeastSolution(bbs, liveIn, liveOut);
    }

    /** One round over the blocks in order. */
    method Pass() returns (changed: bool)
      requires Valid() && Ascending(bbs, liveIn, liveOut)
      requires forall b :: 0 <= b < |bbs| ==> def[b] == Def(bbs[b])
      modifies `liveIn, `liveOut
      ensures Valid() && Ascending(bbs, liveIn, liveOut)
      ensures if changed then Room(AllUses(bbs), liveIn) < Room(AllUses(bbs), old(liveIn)) else liveIn == old(liveIn)
      ensures !changed ==> forall b :: 0 <= b < |bbs| ==> Settled(bbs, liveIn, liveOut, b)
    {
      hide Ascending, Solves, LiveUse, Def, Room, AllUses, GoodGraph;
      changed := false;
      var i := 0;
      while i < |bbs|
        invariant i <= |bbs| && Valid() && Ascending(bbs, liveIn, liveOut)
        invariant if changed then Room(AllUses(bbs), liveIn) < Room(AllUses(bbs), old(liveIn)) else liveIn == old(liveIn)
        invariant !changed ==> forall b :: 0 <= b < i ==> Settled(bbs, liveIn, liveOut, b)
      {
        ghost var out0 := liveOut;
        var grew := Visit(i);
        changed := changed || grew;
        i := i + 1;
        if !changed {
          forall b | 0 <= b < i ensures Settled(bbs, liveIn, liveOut, b) {
            assert b < i - 1 ==> Settled(bbs, liveIn, out0, b);
          }
        }
      }
    }

    /** The body of the round: pull in the successors, drop what the block defines, add the rest to liveIn. */
    method Visit(b: nat) returns (grew: bool)
      requires Valid() && Ascending(bbs, liveIn, liveOut) && b < |bbs| && def[b] == Def(bbs[b])
      modifies `liveIn, `liveOut
      ensures Valid() && Ascending(bbs, liveIn, liveOut)
      ensures liveOut == old(liveOut)[b := liveOut[b]]
      ensures if grew then Room(AllUses(bbs), liveIn) < Room(AllUses(bbs), old(liveIn)) else liveIn == old(liveIn)
      ensures !grew ==> Settled(bbs, liveIn, liveOut, b)
    {
      hide Ascending, Solves, LiveUse, Def, Room, AllUses, Raised, Rising, Succ, GoodBlock;
      RaiseAscends(bbs, liveIn, liveOut, b);
      VisitComputes(bbs, liveIn, liveOut, b);
      var bb := bbs[b];
      var out := liveOut[b] + liveIn[bb.next0] + liveIn[bb.next1];
      out := out - def[b];
      grew := !(out <= liveIn[b]);
      liveIn := liveIn[b := liveIn[b] + out];
      out := out + liveIn[bb.next0] + liveIn[bb.next1];
      liveOut := liveOut[b := out];
    }
  }

  /** The sets a visit computes are the raised ones; when nothing is new the block's equations hold. */
  lemma VisitComputes(g: Graph, liveIn: Sets, liveOut: Sets, b: nat)
    requires Ascending(g, liveIn, liveOut) && b < |g|
    ensures var out := liveOut[b] + liveIn[g[b].next0] + liveIn[g[b].next1] - Def(g[b]);
            var more := liveIn[b] + out;
            var liveIn' := liveIn[b := more];
            var out' := out + liveIn'[g[b].next0] + liveIn'[g[b].next1];
            && more == Raised(g, liveIn, b) && out' == Succ(g[b], liveIn')
            && (out <= liveIn[b] ==> liveIn' == liveIn && Settled(g, liveIn, liveOut[b := out'], b))
  {
    RaiseWithin(g, liveIn, liveOut, b);
    assert Rising(g, liveIn, liveOut, b);
    hide Ascending, LiveUse, Def, AllUses;
    assert liveOut[b] + liveIn[g[b].next0] + liveIn[g[b].next1] == Succ(g[b], liveIn);
    var out := liveOut[b] + liveIn[g[b].next0] + liveIn[g[b].next1] - Def(g[b]);
    if out <= liveIn[b] {
      assert liveIn[b] + out == liveIn[b];
      assert liveIn[b := liveIn[b]] == liveIn;
    }
  }

  lemma StartsAscending(g: Graph, liveIn: Sets, liveOut: Sets)
    requires GoodGraph(g) && |liveIn| == |liveOut| == |g|
    requires forall b :: 0 <= b < |g| ==> liveIn[b] == LiveUse(g[b]) && liveOut[b] == {}
    ensures Ascending(g, liveIn, liveOut)
  {
    forall b | 0 <= b < |g| ensures Rising(g, liveIn, liveOut, b) { UsesInAll(g, b); }
    forall s, t | Solves(g, s, t) ensures Below(liveIn, s) {
      forall b | 0 <= b < |g| ensures liveIn[b] <= s[b] { assert Settled(g, s, t, b); }
    }
  }

  lemma BelowSolution(g: Graph, liveIn: Sets, liveOut: Sets, s: Sets, t: Sets)
    requires Ascending(g, liveIn, liveOut) && Solves(g, s, t)
    ensures Below(liveIn, s) && Below(liveOut, t)
  {
    hide LiveUse, Def, GoodBlock;
    assert Below(liveIn, s);
    forall b | 0 <= b < |g| ensures liveOut[b] <= t[b] {
      assert Rising(g, liveIn, liveOut, b) && Settled(g, s, t, b);
    }
  }

  lemma LeastSolution(g: Graph, liveIn: Sets, liveOut: Sets)
    requires Ascending(g, liveIn, liveOut)
    requires forall b :: 0 <= b < |g| ==> Settled(g, liveIn, liveOut, b)
    ensures Solves(g, liveIn, liveOut)
    ensures forall s, t :: Solves(g, s, t) ==> Below(liveIn, s) && Below(liveOut, t)
  {
    assert Solves(g, liveIn, liveOut);
    hide Ascending, Solves, Below, LiveUse, Def;
    forall s, t | Solves(g, s, t) ensures Below(liveIn, s) && Below(liveOut, t) {
      BelowSolution(g, liveIn, liveOut, s, t);
    }
  }

  // ----- The sets after each instruction of a block -----

  /** What is live right after instruction k of the block. */
  function LiveAfter(bb: BasicBlock, out: set<Temp>, k: nat): set<Temp>
    requires k < |bb.tacs|
  {
    LiveBefore(bb.tacs[k + 1..], out + OptSet(bb.var'))
  }

  /** The backward walk over a block, from its exit to its first instruction. */
  method AnalyzeBlock(bb: BasicBlock, out: set<Temp>) returns (after: seq<set<Temp>>)
    requires GoodBlock(bb)
    ensures |after| == |bb.tacs|
    ensures forall k :: 0 <= k < |bb.tacs| ==> after[k] == LiveAfter(bb, out, k)
    ensures bb.tacs != [] ==> Before(bb.tacs[0], after[0]) == LiveUse(bb) + (out - Def(bb))
  {
    var n := |bb.tacs|;
    after := seq(n, _ => {});
    if n == 0 { return; }
    var k := n - 1;
    assert bb.tacs[n..] == [];
    after := after[k := out];
    if bb.var'.Some? { after := after[k := after[k] + {bb.var'.value}]; }
    assert after[k] == LiveAfter(bb, out, k);
    while k > 0
      invariant 0 <= k < n == |after|
      invariant forall j :: k <= j < n ==> after[j] == LiveAfter(bb, out, j)
    {
      var tac := bb.tacs[k];
      assert bb.tacs[k..][0] == tac && bb.tacs[k..][1..] == bb.tacs[k + 1..];
      var live := after[k] - Defs(tac);
      live := live + Uses(tac);
      assert live == LiveBefore(bb.tacs[k..], out + OptSet(bb.var'));
      k := k - 1;
      after := after[k := live];
    }
    assert bb.tacs[0..] == bb.tacs;
    BlockTransfer(bb, out);
  }
}
