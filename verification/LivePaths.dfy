/** Liveness said outright: a temp is live where some path reads it before writing it, and what reading and writing are
    is said by what instructions do. */
module LivePaths {
  import opened Tac
  import opened Liveness
  import LS = LivenessSound

  // ----- Reading and writing, by what an instruction does -----

  /** A temp that is not written keeps its value, whatever the instructions mean. */
  lemma UnwrittenStays<W(!new)>(m: LS.Meaning<W>, tac: Instr, s: LS.State<W>, x: Temp)
    requires x !in Defs(tac)
    ensures LS.Step(m, tac, s).regs(x) == s.regs(x)
  {
  }

  /** One that is written need not keep it, and one that is written and not read has its old value overwritten. */
  lemma WrittenChanges(tac: Instr, x: Temp) returns (m: LS.Meaning<int>, s: LS.State<int>)
    requires x in Defs(tac)
    ensures LS.Step(m, tac, s).regs(x) != s.regs(x)
  {
    m := LS.Meaning((_, _, _) => 1, (_, _) => 1, _ => 1, _ => 1, (_, _, _) => 1, (w, _, _, _) => w, (w, _) => w, (w, _) => w,
                    (w, _) => (1, w), (w, _) => (1, w), (_, _) => true);
    s := LS.State((_: Temp) => if tac.LoadImm4? && tac.imm == 0 then 2 else 0, 0);
  }

  lemma WrittenForgets<W(!new)>(m: LS.Meaning<W>, tac: Instr, s: LS.State<W>, x: Temp, v: int)
    requires x in Defs(tac) && x !in Uses(tac)
    ensures LS.Step(m, tac, s.(regs := LS.Set(s.regs, x, v))).regs(x) == LS.Step(m, tac, s).regs(x)
  {
  }

  /** A temp that is not read makes no difference to anything but itself. */
  lemma UnreadDoesNotMatter<W(!new)>(m: LS.Meaning<W>, tac: Instr, s: LS.State<W>, x: Temp, v: int, y: Temp)
    requires x !in Uses(tac)
    ensures var t := s.(regs := LS.Set(s.regs, x, v));
      && LS.Step(m, tac, t).world == LS.Step(m, tac, s).world
      && (y != x ==> LS.Step(m, tac, t).regs(y) == LS.Step(m, tac, s).regs(y))
  {
  }

  /** One that is read can make a difference to the world, or to what is written. */
  lemma ReadMatters(tac: Instr, x: Temp) returns (m: LS.Meaning<int>, s: LS.State<int>, v: int)
    requires x in Uses(tac)
    ensures var a, b := LS.Step(m, tac, s), LS.Step(m, tac, s.(regs := LS.Set(s.regs, x, v)));
      a.world != b.world || exists y :: y in Defs(tac) && a.regs(y) != b.regs(y)
  {
    m := LS.Meaning((_, a, b) => a + 2 * b, (_, a) => a, _ => 0, _ => 0, (_, b, _) => b, (w, v, b, _) => v + 2 * b, (w, a) => a, (w, _) => w,
                    (w, f) => (0, f), (w, _) => (0, w), (_, _) => true);
    s, v := LS.State((_: Temp) => 0, 0), 1;
    var t := s.(regs := LS.Set(s.regs, x, v));
    match tac
    case Bin(_, d, _, _) => assert d in Defs(tac) && LS.Step(m, tac, s).regs(d) != LS.Step(m, tac, t).regs(d);
    case Un(_, d, _) => assert d in Defs(tac) && LS.Step(m, tac, s).regs(d) != LS.Step(m, tac, t).regs(d);
    case Load(d, _, _) => assert d in Defs(tac) && LS.Step(m, tac, s).regs(d) != LS.Step(m, tac, t).regs(d);
    case _ =>
  }

  // ----- One block -----

  /** Instruction k reads t, and none before it writes t. */
  ghost predicate ReadFirstAt(tacs: Code, t: Temp, k: int) {
    0 <= k < |tacs| && t in Uses(tacs[k]) && forall j :: 0 <= j < k ==> t !in Defs(tacs[j])
  }

  ghost predicate Through(tacs: Code, t: Temp) {
    forall j :: 0 <= j < |tacs| ==> t !in Defs(tacs[j])
  }

  /** The block reads t before writing it, in an instruction or for its end. */
  ghost predicate Reads(bb: BasicBlock, t: Temp) {
    (exists k :: ReadFirstAt(bb.tacs, t, k)) || (Through(bb.tacs, t) && bb.var' == Some(t))
  }

  lemma {:induction false} UseDefIs(tacs: Code, t: Temp)
    ensures t in UseDef(tacs).0 <==> exists k :: ReadFirstAt(tacs, t, k)
    ensures t !in UseDef(tacs).0 ==> (t in UseDef(tacs).1 <==> !Through(tacs, t))
    ensures t in UseDef(tacs).1 ==> !Through(tacs, t)
    decreases |tacs|
  {
    if tacs != [] {
      var n := |tacs| - 1;
      UseDefIs(tacs[..n], t);
      assert forall k :: ReadFirstAt(tacs[..n], t, k) ==> ReadFirstAt(tacs, t, k);
      assert forall k :: k < n && ReadFirstAt(tacs, t, k) ==> ReadFirstAt(tacs[..n], t, k);
      assert ReadFirstAt(tacs, t, n) <==> t in Uses(tacs[n]) && Through(tacs[..n], t);
      assert Through(tacs, t) <==> Through(tacs[..n], t) && t !in Defs(tacs[n]);
    }
  }

  lemma LiveUseIs(bb: BasicBlock, t: Temp)
    ensures t in LiveUse(bb) <==> Reads(bb, t)
    ensures t !in LiveUse(bb) ==> (t in Def(bb) <==> !Through(bb.tacs, t))
  {
    UseDefIs(bb.tacs, t);
  }

  // ----- Paths -----

  /** From block path[0] on, along the edges, t is not written until the last block reads it. */
  ghost predicate LivePath(g: Graph, path: seq<nat>, t: Temp)
    requires GoodGraph(g)
  {
    && path != [] && path[0] < |g|
    && if |path| == 1 then Reads(g[path[0]], t)
       else
         && Through(g[path[0]].tacs, t) && (path[1] == g[path[0]].next0 || path[1] == g[path[0]].next1)
         && LivePath(g, path[1..], t)
  }

  ghost predicate ReadLater(g: Graph, b: nat, t: Temp)
    requires GoodGraph(g)
  {
    exists path :: LivePath(g, path, t) && path[0] == b
  }

  lemma ReadNow(g: Graph, b: nat, t: Temp)
    requires GoodGraph(g) && b < |g| && Reads(g[b], t)
    ensures ReadLater(g, b, t)
  {
    assert LivePath(g, [b], t) && [b][0] == b;
  }

  lemma ReadAfter(g: Graph, b: nat, c: nat, t: Temp)
    requires GoodGraph(g) && b < |g| && (c == g[b].next0 || c == g[b].next1) && Through(g[b].tacs, t) && ReadLater(g, c, t)
    ensures ReadLater(g, b, t)
  {
    var path :| LivePath(g, path, t) && path[0] == c;
    var longer := [b] + path;
    assert longer[1..] == path && longer[1] == c;
    assert LivePath(g, longer, t) && longer[0] == b;
  }

  lemma ReadLaterStep(g: Graph, b: nat, t: Temp)
    requires GoodGraph(g) && b < |g| && ReadLater(g, b, t)
    ensures Reads(g[b], t) || (Through(g[b].tacs, t) && (ReadLater(g, g[b].next0, t) || ReadLater(g, g[b].next1, t)))
  {
    var path :| LivePath(g, path, t) && path[0] == b;
    if |path| > 1 { assert LivePath(g, path[1..], t) && path[1..][0] == path[1]; }
  }

  /** What is read on some path is in any solution. */
  lemma {:induction false} PathIsLive(g: Graph, liveIn: Sets, liveOut: Sets, path: seq<nat>, t: Temp)
    requires Solves(g, liveIn, liveOut) && LivePath(g, path, t)
    ensures t in liveIn[path[0]]
    decreases |path|
  {
    var b := path[0];
    assert Settled(g, liveIn, liveOut, b);
    LiveUseIs(g[b], t);
    if |path| > 1 { PathIsLive(g, liveIn, liveOut, path[1..], t); }
  }

  lemma {:induction false} PathInAll(g: Graph, path: seq<nat>, t: Temp)
    requires GoodGraph(g) && LivePath(g, path, t)
    ensures t in AllUses(g)
    decreases |path|
  {
    if |path| > 1 {
      PathInAll(g, path[1..], t);
    } else {
      LiveUseIs(g[path[0]], t);
      UsesInAll(g, path[0]);
    }
  }

  /** The temps read later, as sets. */
  ghost function PathIn(g: Graph): Sets
    requires GoodGraph(g)
  {
    seq(|g|, b requires 0 <= b < |g| => set t | t in AllUses(g) && ReadLater(g, b, t))
  }

  ghost function PathOut(g: Graph): Sets
    requires GoodGraph(g)
  {
    seq(|g|, b requires 0 <= b < |g| => Succ(g[b], PathIn(g)))
  }

  lemma PathInHas(g: Graph, b: nat, t: Temp)
    requires GoodGraph(g) && b < |g|
    ensures |PathIn(g)| == |g| && (t in PathIn(g)[b] <==> ReadLater(g, b, t))
  {
    if ReadLater(g, b, t) {
      var path :| LivePath(g, path, t) && path[0] == b;
      PathInAll(g, path, t);
    }
  }

  lemma PathsSolve(g: Graph)
    requires GoodGraph(g)
    ensures Solves(g, PathIn(g), PathOut(g))
  {
    var p, q := PathIn(g), PathOut(g);
    hide PathIn, ReadLater, Reads, Through, LiveUse, Def;
    assert |p| == |q| == |g| by { if g != [] { PathInHas(g, 0, 0); } else { NoBlocks(g); } }
    forall b | 0 <= b < |g| ensures Settled(g, p, q, b) {
      forall t ensures t in p[b] <==> t in LiveUse(g[b]) + (q[b] - Def(g[b])) {
        PathInHas(g, b, t);
        PathInHas(g, g[b].next0, t);
        PathInHas(g, g[b].next1, t);
        LiveUseIs(g[b], t);
        if ReadLater(g, b, t) { ReadLaterStep(g, b, t); }
        if Reads(g[b], t) { ReadNow(g, b, t); }
        if Through(g[b].tacs, t) && ReadLater(g, g[b].next0, t) { ReadAfter(g, b, g[b].next0, t); }
        if Through(g[b].tacs, t) && ReadLater(g, g[b].next1, t) { ReadAfter(g, b, g[b].next1, t); }
      }
    }
  }

  lemma NoBlocks(g: Graph)
    requires g == []
    ensures |PathIn(g)| == 0
  {
  }

  /** In the least solution a temp is live at a block exactly if some path from there reads it before writing it. */
  lemma LiveIff(g: Graph, liveIn: Sets, liveOut: Sets, b: nat, t: Temp)
    requires Solves(g, liveIn, liveOut) && b < |g| && forall s, r :: Solves(g, s, r) ==> Below(liveIn, s) && Below(liveOut, r)
    ensures t in liveIn[b] <==> ReadLater(g, b, t)
  {
    PathsSolve(g);
    assert Below(liveIn, PathIn(g));
    PathInHas(g, b, t);
    if ReadLater(g, b, t) {
      var path :| LivePath(g, path, t) && path[0] == b;
      PathIsLive(g, liveIn, liveOut, path, t);
    }
  }

  /** In particular a temp that the block writes before any read of it is not live at its start. */
  lemma WrittenFirstIsDead(g: Graph, liveIn: Sets, liveOut: Sets, b: nat, t: Temp, k: nat)
    requires Solves(g, liveIn, liveOut) && b < |g| && forall s, r :: Solves(g, s, r) ==> Below(liveIn, s) && Below(liveOut, r)
    requires k < |g[b].tacs| && t in Defs(g[b].tacs[k]) && forall j :: 0 <= j <= k ==> t !in Uses(g[b].tacs[j])
    ensures t !in liveIn[b]
  {
    LiveIff(g, liveIn, liveOut, b, t);
    assert !Through(g[b].tacs, t);
    forall i ensures !ReadFirstAt(g[b].tacs, t, i) { }
    if ReadLater(g, b, t) { ReadLaterStep(g, b, t); }
  }
}
