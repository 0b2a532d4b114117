/** The instructions that expressions compile to, and what gafqV_execute (gvm.c) does with them. */
module CodeVm {

  /** Values as the code generator and the tests see them. */
  datatype Val = Nil | Bool(b: bool) | Other(id: int)

  /** l_isfalse. */
  predicate Falsy(v: Val) { v == Nil || v == Bool(false) }

  datatype CmpOp = Eq | Lt | Le

  const NO_JUMP := -1
  const NO_REG := 255
  const MAX_STACK := 250
  const BIT_RK := 256
  const MAX_INDEX_RK := 255
  const NUM_REGS := 256

  /** One instruction. The argument of Jmp is its target, or NO_JUMP while it is not known. */
  datatype Instr =
    | Move(a: int, b: int)
    | LoadK(a: int, bx: int)
    | LoadBool(a: int, v: bool, skip: bool)
    | LoadNil(a: int, b: int)
    | Not(a: int, b: int)
    | Jmp(dest: int)
    | Cmp(op: CmpOp, cond: bool, b: int, c: int)
    | Test(a: int, want: bool)
    | TestSet(a: int, b: int, want: bool)

  /** testTMode: instructions that are followed by a jump. */
  predicate IsTest(i: Instr) { i.Cmp? || i.Test? || i.TestSet? }

  /** Comparison is a parameter: it may be any relation on values. */
  datatype Machine = Machine(cmp: (CmpOp, Val, Val) -> bool, k: seq<Val>)

  type Regs = r: seq<Val> | |r| == NUM_REGS witness seq(NUM_REGS, _ => Nil)

  function Get(r: Regs, i: int): Val { if 0 <= i < NUM_REGS then r[i] else Nil }

  function Set(r: Regs, i: int, v: Val): Regs { if 0 <= i < NUM_REGS then r[i := v] else r }

  /** Registers `a` to `b` become nil. */
  function SetNil(r: Regs, a: int, b: int): Regs {
    seq(NUM_REGS, i requires 0 <= i < NUM_REGS => if a <= i <= b then Nil else r[i])
  }

  function Const(m: Machine, i: int): Val { if 0 <= i < |m.k| then m.k[i] else Nil }

  /** RK operands: a register, or a constant above BIT_RK. */
  function RK(m: Machine, r: Regs, x: int): Val { if x >= BIT_RK then Const(m, x - BIT_RK) else Get(r, x) }

  /** Where a run that starts in a piece of code ends: at its end, or by a jump with no target yet. */
  datatype Out = Done(regs: Regs) | Exit(jump: int, regs: Regs) | Stuck

  /** Does the test at `pc` take its jump? */
  predicate Taken(m: Machine, i: Instr, r: Regs)
    requires IsTest(i)
  {
    match i
    case Cmp(op, cond, b, c) => m.cmp(op, RK(m, r, b), RK(m, r, c)) == cond
    case Test(a, want) => Falsy(Get(r, a)) != want
    case TestSet(_, b, want) => Falsy(Get(r, b)) != want
  }

  /** The register that a taken TESTSET writes; NO_REG stands for "none yet". */
  function TestWrite(i: Instr, r: Regs): Regs {
    if i.TestSet? && i.a != NO_REG then Set(r, i.a, Get(r, i.b)) else r
  }

  /** The effect of an instruction that falls through. */
  function Step(m: Machine, i: Instr, r: Regs): Regs {
    match i
    case Move(a, b) => Set(r, a, Get(r, b))
    case LoadK(a, bx) => Set(r, a, Const(m, bx))
    case LoadBool(a, v, _) => Set(r, a, Bool(v))
    case LoadNil(a, b) => SetNil(r, a, b)
    case Not(a, b) => Set(r, a, Bool(Falsy(Get(r, b))))
    case _ => r
  }

  /** Run `code` from `pc`. Compiled expressions only jump forward. */
  function Run(m: Machine, code: seq<Instr>, pc: int, r: Regs): Out
    decreases |code| - pc
  {
    if pc == |code| then Done(r)
    else if pc < 0 || pc > |code| then Stuck
    else if code[pc].Jmp? then JumpFrom(m, code, pc, pc, r)
    else if IsTest(code[pc]) then
      if pc + 1 >= |code| || !code[pc + 1].Jmp? then Stuck
      else if Taken(m, code[pc], r) then JumpFrom(m, code, pc, pc + 1, TestWrite(code[pc], r))
      else Run(m, code, pc + 2, r)
    else if code[pc].LoadBool? && code[pc].skip then
      if pc + 2 > |code| then Stuck else Run(m, code, pc + 2, Step(m, code[pc], r))
    else Run(m, code, pc + 1, Step(m, code[pc], r))
  }

  /** Take the jump at `j`, coming from `pc`. */
  function JumpFrom(m: Machine, code: seq<Instr>, pc: int, j: int, r: Regs): Out
    requires 0 <= pc <= j < |code| && code[j].Jmp?
    decreases |code| - pc, 0
  {
    var d := code[j].dest;
    if d == NO_JUMP then Exit(j, r) else if j < d <= |code| then Run(m, code, d, r) else Stuck
  }
}
