/** The three-address code shared by the translator, the data-flow analysis and the TAC virtual machine. */
module Tac {
  type Temp = nat
  type Label = nat

  datatype Option<+T> = None | Some(value: T)

  datatype BinKind = ADD | SUB | MUL | DIV | MOD | LAND | LOR | GTR | GEQ | EQU | NEQ | LEQ | LES
  datatype UnKind = NEG | LNOT | ASSIGN
  datatype Intrinsic = PRINT_INT | PRINT_BOOL

  datatype Instr =
    | Bin(bop: BinKind, dst: Temp, src1: Temp, src2: Temp)
    | Un(uop: UnKind, dst: Temp, src: Temp)
    | LoadImm4(dst: Temp, imm: int)
    | LoadStr(dst: Temp, str: string)
    | LoadVtbl(dst: Temp, vt: nat)
    | Load(dst: Temp, base: Temp, offset: int)
    | Store(val: Temp, base: Temp, offset: int)
    | Parm(arg: Temp)
    | LibCall(intr: Intrinsic)
    | DirectCall(res: Option<Temp>, func: Label)
    | IndirectCall(res: Option<Temp>, funcTemp: Temp)
    | Return(ret: Option<Temp>)
    | Branch(target: Label)
    | Beqz(cond: Temp, target: Label)
    | Bnez(cond: Temp, target: Label)
    | Mark(lab: Label)

  type Code = seq<Instr>
}
