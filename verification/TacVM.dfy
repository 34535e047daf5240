/** The TAC virtual machine: how its loader lays a function out, and what each instruction does. */
module TacVM {
  import opened Tac
  import opened DecafTree

  /** A loaded instruction; jump targets are instruction indices and a frame cell is named by its temp. */
  datatype Inst =
    | EnterFunc
    | LeaveFunc
    | Op3(op3: BinKind, dst: Temp, src1: Temp, src2: Temp)
    | Op2(op2: UnKind, dst: Temp, src: Temp)
    | Imm(dst: Temp, imm: int)
    | PutParm(arg: Temp)
    | CallLib(intr: Intrinsic)
    | SetResult(arg: Temp)
    | Jump(pc: int)
    | JumpZero(arg: Temp, pc: int)
    | JumpNonZero(arg: Temp, pc: int)

  // ----- Loading -----

  /** The instructions of a function body over local temps; heap and user-call instructions are outside the model. */
  predicate Local(tac: Instr) {
    match tac
    case Bin(_, _, _, _) | Un(_, _, _) | LoadImm4(_, _) | Parm(_) | LibCall(_) | Return(_) | Branch(_)
       | Beqz(_, _) | Bnez(_, _) | Mark(_) => true
    case _ => false
  }

  predicate AllLocal(code: Code) { forall i :: 0 <= i < |code| ==> Local(code[i]) }

  /** How many machine instructions a TAC becomes: a mark none, a return with a value two. */
  function Width(tac: Instr): nat {
    match tac
    case Mark(_) => 0
    case Return(Some(_)) => 2
    case _ => 1
  }

  /** Index of the machine instruction that the code after `code` starts at; 0 is ENTER_FUNC. */
  function End(code: Code): nat {
    if code == [] then 1 else End(code[..|code| - 1]) + Width(code[|code| - 1])
  }

  /** A label names the place of its last mark, and -1 when it has none. */
  function Where(code: Code, l: Label): int {
    if code == [] then -1
    else if code[|code| - 1] == Mark(l) then End(code[..|code| - 1])
    else Where(code[..|code| - 1], l)
  }

  function Expand(code: Code, tac: Instr): seq<Inst>
    requires Local(tac)
  {
    match tac
    case Bin(op, d, a, b) => [Op3(op, d, a, b)]
    case Un(op, d, a) => [Op2(op, d, a)]
    case LoadImm4(d, n) => [Imm(d, n)]
    case Parm(a) => [PutParm(a)]
    case LibCall(r) => [CallLib(r)]
    case Return(Some(a)) => [SetResult(a), Jump(End(code))]
    case Return(None) => [Jump(End(code))]
    case Branch(l) => [Jump(Where(code, l))]
    case Beqz(a, l) => [JumpZero(a, Where(code, l))]
    case Bnez(a, l) => [JumpNonZero(a, Where(code, l))]
    case Mark(_) => []
  }

  function Body(whole: Code, code: Code): seq<Inst>
    requires AllLocal(code)
  {
    if code == [] then [EnterFunc] else Body(whole, code[..|code| - 1]) + Expand(whole, code[|code| - 1])
  }

  function Loaded(code: Code): seq<Inst>
    requires AllLocal(code)
  {
    Body(code, code) + [LeaveFunc]
  }

  // ----- Executing -----

  type Frame = map<Temp, int>

  datatype Machine = Machine(pc: int, rv: int, frame: Frame, parm: int, out: seq<Item>)

  /** Crashed: the machine reported an error and exited. */
  datatype Status = Running | Crashed

  datatype Config = Config(status: Status, m: Machine)

  function Cell(f: Frame, t: Temp): int { if t in f then f[t] else 0 }

  function ToBits(n: int): bv32 { (n % TWO32) as bv32 }

  function FromBits(b: bv32): int { Wrap(b as int) }

  function Alu3(op: BinKind, a: int, b: int): Option<int> {
    match op
    case ADD => Some(Wrap(a + b))
    case SUB => Some(Wrap(a - b))
    case MUL => Some(Wrap(a * b))
    case DIV => if b == 0 then None else Some(Wrap(TruncDiv(a, b)))
    case MOD => if b == 0 then None else Some(Wrap(TruncMod(a, b)))
    case LAND => Some(FromBits(ToBits(a) & ToBits(b)))
    case LOR => Some(FromBits(ToBits(a) | ToBits(b)))
    case GTR => Some(if a > b then 1 else 0)
    case GEQ => Some(if a >= b then 1 else 0)
    case EQU => Some(if a == b then 1 else 0)
    case NEQ => Some(if a != b then 1 else 0)
    case LEQ => Some(if a <= b then 1 else 0)
    case LES => Some(if a < b then 1 else 0)
  }

  function Alu2(op: UnKind, a: int): int {
    match op
    case NEG => Wrap(-a)
    case LNOT => Wrap(1 - a)
    case ASSIGN => a
  }

  function Perform(inst: Inst, m: Machine): Config {
    var next := m.(pc := m.pc + 1);
    match inst
    case EnterFunc => Config(Running, next)
    case LeaveFunc => Config(Running, m.(pc := -1))
    case Op3(op, d, a, b) =>
      var v := Alu3(op, Cell(m.frame, a), Cell(m.frame, b));
      if v.None? then Config(Crashed, next) else Config(Running, next.(frame := m.frame[d := v.value]))
    case Op2(op, d, a) => Config(Running, next.(frame := m.frame[d := Alu2(op, Cell(m.frame, a))]))
    case Imm(d, n) => Config(Running, next.(frame := m.frame[d := n]))
    case PutParm(a) => Config(Running, next.(parm := Cell(m.frame, a)))
    case CallLib(PRINT_INT) => Config(Running, next.(rv := 0, out := m.out + [IntItem(m.parm)]))
    case CallLib(PRINT_BOOL) => Config(Running, next.(rv := 0, out := m.out + [BoolItem(m.parm != 0)]))
    case SetResult(a) => Config(Running, next.(rv := Cell(m.frame, a)))
    case Jump(l) => Config(Running, m.(pc := l))
    case JumpZero(a, l) => Config(Running, if Cell(m.frame, a) == 0 then m.(pc := l) else next)
    case JumpNonZero(a, l) => Config(Running, if Cell(m.frame, a) != 0 then m.(pc := l) else next)
  }

  /** One turn of the loop; an index outside the program is a crash. */
  function Step(insts: seq<Inst>, m: Machine): Config {
    if 0 <= m.pc < |insts| then Perform(insts[m.pc], m) else Config(Crashed, m)
  }

  predicate Stopped(c: Config) { c.status == Crashed || c.m.pc == -1 }

  /** The configuration after n turns, or the one it stopped in before. */
  function Run(insts: seq<Inst>, c: Config, n: nat): Config
    decreases n
  {
    if n == 0 || Stopped(c) then c else Run(insts, Step(insts, c.m), n - 1)
  }

  /** A branch goes to the place of its label, a conditional one if the cell is zero, or if it is not. */
  lemma BranchesGo(code: Code, a: Temp, l: Label, m: Machine)
    ensures |Expand(code, Branch(l))| == 1 && Perform(Expand(code, Branch(l))[0], m) == Config(Running, m.(pc := Where(code, l)))
    ensures var c := Expand(code, Beqz(a, l));
            |c| == 1 && Perform(c[0], m) == Config(Running, m.(pc := if Cell(m.frame, a) == 0 then Where(code, l) else m.pc + 1))
    ensures var c := Expand(code, Bnez(a, l));
            |c| == 1 && Perform(c[0], m) == Config(Running, m.(pc := if Cell(m.frame, a) != 0 then Where(code, l) else m.pc + 1))
  {
  }

  lemma {:induction false} RunAdds(insts: seq<Inst>, c: Config, a: nat, b: nat)
    ensures Run(insts, c, a + b) == Run(insts, Run(insts, c, a), b)
    decreases a
  {
    if a > 0 && !Stopped(c) { RunAdds(insts, Step(insts, c.m), a - 1, b); }
  }

  /** Once stopped, more turns change nothing. */
  lemma StoppedStays(insts: seq<Inst>, c: Config, a: nat, b: nat)
    requires a <= b && Stopped(Run(insts, c, a))
    ensures Run(insts, c, b) == Run(insts, c, a)
  {
    RunAdds(insts, c, a, b - a);
  }

  datatype ExitKind = Done | Crash | TooLong

  /** The machine of the executor: its registers, the current frame, and what it printed. */
  class Executor {
    var pc: int
    var rv: int
    var frame: Frame
    var parm: int
    var out: seq<Item>
    const insts: seq<Inst>
    const maxRunInsts: nat

    ghost function Now(): Machine
      reads this
    {
      Machine(pc, rv, frame, parm, out)
    }

    constructor (insts: seq<Inst>, frame: Frame, parm: int, limit: nat)
      ensures this.insts == insts && maxRunInsts == limit
      ensures Now() == Machine(0, -1, frame, parm, [])
    {
      this.insts, maxRunInsts := insts, limit;
      pc, rv, this.frame, this.parm, out := 0, -1, frame, parm, [];
    }

    /** Runs from instruction 0 until the function returns to -1, an error, or too many instructions. */
    method Exec() returns (exit: ExitKind, count: nat)
      modifies this
      ensures var start := Config(Running, old(Now()).(pc := 0, rv := -1));
              var c := Run(insts, start, count);
              && Now() == c.m
              && count <= maxRunInsts + 1
              && match exit
                 case Done => c.status == Running && c.m.pc == -1
                 case Crash => c.status == Crashed
                 case TooLong => c.status == Running && count == maxRunInsts + 1
    {
      pc, rv := 0, -1;
      ghost var start := Config(Running, Now());
      count := 0;
      while pc != -1
        invariant Run(insts, start, count) == Config(Running, Now())
        invariant count <= maxRunInsts
        decreases maxRunInsts - count
      {
        ghost var before := Now();
        RunAdds(insts, start, count, 1);
        assert Run(insts, Config(Running, before), 1) == Step(insts, before) by {
          assert Run(insts, Step(insts, before), 0) == Step(insts, before);
        }
        count := count + 1;
        if !(0 <= pc < |insts|) { return Crash, count; }
        var inst := insts[pc];
        pc := pc + 1;
        match inst {
          case EnterFunc =>
          case LeaveFunc => pc := -1;
          case Op3(op, d, a, b) =>
            var v := Alu3(op, Cell(frame, a), Cell(frame, b));
            if v.None? { return Crash, count; }
            frame := frame[d := v.value];
          case Op2(op, d, a) => frame := frame[d := Alu2(op, Cell(frame, a))];
          case Imm(d, n) => frame := frame[d := n];
          case PutParm(a) => parm := Cell(frame, a);
          case CallLib(PRINT_INT) => out, rv := out + [IntItem(parm)], 0;
          case CallLib(PRINT_BOOL) => out, rv := out + [BoolItem(parm != 0)], 0;
          case SetResult(a) => rv := Cell(frame, a);
          case Jump(l) => pc := l;
          case JumpZero(a, l) => if Cell(frame, a) == 0 { pc := l; }
          case JumpNonZero(a, l) => if Cell(frame, a) != 0 { pc := l; }
        }
        if count > maxRunInsts { return TooLong, count; }
      }
      exit := Done;
    }
  }
}
