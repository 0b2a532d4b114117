/** The expression part of the code generator (gcode.c) on values: jump lists are sets of
    positions, and a jump on a list has no target yet. */
module CodeGen {
  import opened CodeVm

  /** expkind, for the expressions modelled here. */
  datatype Kind = VNil | VTrue | VFalse | VK | VKNum | VLocal | VNonReloc | VReloc | VJmp

  /** expdesc: kind, position or register or constant, numeral, and the lists of jumps taken
      when the expression is true (`t`) and false (`f`). */
  datatype Exp = Exp(k: Kind, info: int, num: Val, t: set<int>, f: set<int>)

  /** FuncState: the code so far, the jumps pending to the next instruction, the last label, the
      registers, the constants, and whether a limit was exceeded. */
  datatype Fs = Fs(code: seq<Instr>, jpc: set<int>, lasttarget: int, freereg: int, nactvar: int, k: seq<Val>, err: bool)

  const MAX_CONSTANTS := 262143

  /** The largest offset of a jump. */
  const MAXARG_SBX := 131071

  /** A limit of the code generator was exceeded, or the code is so long that a jump may not fit. */
  predicate Limit(fs: Fs) { fs.err || |fs.code| > MAXARG_SBX }

  // ---------------------------------------------------------------- jump lists

  /** getjumpcontrol finds a TESTSET in front of the jump at `j`. */
  predicate HasTestSet(code: seq<Instr>, j: int) { 1 <= j <= |code| && code[j - 1].TestSet? }

  /** patchtestreg: the value goes to `reg`, or is not needed. */
  function PatchTest(i: Instr, reg: int): Instr
    requires i.TestSet?
  {
    if reg != NO_REG && reg != i.b then TestSet(reg, i.b, i.want) else Test(i.b, i.want)
  }

  function PatchAt(code: seq<Instr>, list: set<int>, vtarget: int, reg: int, dtarget: int, i: int): Instr
    requires 0 <= i < |code|
  {
    if i in list && code[i].Jmp? then Jmp(if HasTestSet(code, i) then vtarget else dtarget)
    else if i + 1 in list && code[i].TestSet? then PatchTest(code[i], reg)
    else code[i]
  }

  /** patchlistaux: give every jump of the list its target. */
  function Patch(code: seq<Instr>, list: set<int>, vtarget: int, reg: int, dtarget: int): (r: seq<Instr>)
    ensures |r| == |code|
    ensures forall i | 0 <= i < |code| :: r[i] == PatchAt(code, list, vtarget, reg, dtarget, i)
  {
    seq(|code|, i requires 0 <= i < |code| => PatchAt(code, list, vtarget, reg, dtarget, i))
  }

  /** removevalues: the jumps of the list will not produce a value. */
  function RemoveValues(code: seq<Instr>, list: set<int>): (r: seq<Instr>)
    ensures |r| == |code|
    ensures forall i | 0 <= i < |code| ::
              r[i] == if i + 1 in list && code[i].TestSet? then PatchTest(code[i], NO_REG) else code[i]
  {
    seq(|code|, i requires 0 <= i < |code| => if i + 1 in list && code[i].TestSet? then PatchTest(code[i], NO_REG) else code[i])
  }

  /** need_value: some jump of the list does not produce a value. */
  predicate NeedValue(code: seq<Instr>, list: set<int>) { exists j :: j in list && !HasTestSet(code, j) }

  // ---------------------------------------------------------------- emitting code

  /** gafqK_code: pending jumps come here, then the instruction is added. */
  function Emit(fs: Fs, i: Instr): Fs {
    var pc := |fs.code|;
    fs.(code := Patch(fs.code, fs.jpc, pc, NO_REG, pc) + [i], jpc := {})
  }

  /** gafqK_jump: a jump to be patched; jumps that were to come here join its list. */
  function EmitJump(fs: Fs): (Fs, set<int>) {
    (fs.(code := fs.code + [Jmp(NO_JUMP)], jpc := {}), fs.jpc + {|fs.code|})
  }

  /** condjump: a test and its jump. */
  function CondJump(fs: Fs, i: Instr): (Fs, set<int>) { EmitJump(Emit(fs, i)) }

  /** gafqK_getlabel. */
  function Label(fs: Fs): Fs { fs.(lasttarget := |fs.code|) }

  /** gafqK_patchtohere. */
  function PatchToHere(fs: Fs, list: set<int>): Fs { Label(fs).(jpc := fs.jpc + list) }

  /** gafqK_nil for one register, with its two ways of not emitting anything. */
  function EmitNil(fs: Fs, from: int): (r: Fs)
    ensures r.err == fs.err
    ensures |fs.code| <= |r.code|
  {
    var pc := |fs.code|;
    if pc > fs.lasttarget && pc == 0 && from >= fs.nactvar then fs
    else if pc > fs.lasttarget && pc > 0 && fs.code[pc - 1].LoadNil? &&
            fs.code[pc - 1].a <= from <= fs.code[pc - 1].b + 1 then
      if from > fs.code[pc - 1].b then fs.(code := fs.code[pc - 1 := LoadNil(fs.code[pc - 1].a, from)]) else fs
    else Emit(fs, LoadNil(from, from))
  }

  // ---------------------------------------------------------------- registers and constants

  /** gafqK_reserveregs for one register. */
  function Reserve(fs: Fs): Fs {
    fs.(freereg := fs.freereg + 1, err := fs.err || fs.freereg + 1 >= MAX_STACK)
  }

  function FreeReg(fs: Fs, reg: int): Fs {
    if reg < BIT_RK && reg >= fs.nactvar then fs.(freereg := fs.freereg - 1) else fs
  }

  function FreeExp(fs: Fs, d: Exp): Fs { if d.k == VNonReloc then FreeReg(fs, d.info) else fs }

  function IndexOf(k: seq<Val>, v: Val): (i: int)
    ensures i == -1 || (0 <= i < |k| && k[i] == v)
    ensures i == -1 ==> v !in k
  {
    if k == [] then -1
    else if k[|k| - 1] == v then |k| - 1
    else IndexOf(k[..|k| - 1], v)
  }

  /** addk: the index of a constant, added if it is new. */
  function AddK(fs: Fs, v: Val): (r: (Fs, int))
    ensures 0 <= r.1 < |r.0.k| && r.0.k[r.1] == v && fs.k <= r.0.k
    ensures r.0 == fs.(k := r.0.k, err := r.0.err) && (fs.err ==> r.0.err)
  {
    var i := IndexOf(fs.k, v);
    if i >= 0 then (fs, i)
    else (fs.(k := fs.k + [v], err := fs.err || |fs.k| + 1 > MAX_CONSTANTS), |fs.k|)
  }

  // ---------------------------------------------------------------- discharging

  /** gafqK_dischargevars. */
  function DischargeVars(d: Exp): Exp { if d.k == VLocal then d.(k := VNonReloc) else d }

  predicate HasJumps(d: Exp) { d.t != {} || d.f != {} }

  /** discharge2reg. */
  function Discharge2Reg(fs: Fs, d0: Exp, reg: int): (r: (Fs, Exp))
    ensures fs.err ==> r.0.err
    ensures |fs.code| <= |r.0.code|
  {
    var d := DischargeVars(d0);
    match d.k
    case VNil => (EmitNil(fs, reg), d.(k := VNonReloc, info := reg))
    case VFalse => (Emit(fs, LoadBool(reg, false, false)), d.(k := VNonReloc, info := reg))
    case VTrue => (Emit(fs, LoadBool(reg, true, false)), d.(k := VNonReloc, info := reg))
    case VK => (Emit(fs, LoadK(reg, d.info)), d.(k := VNonReloc, info := reg))
    case VKNum =>
      var (fs1, i) := AddK(fs, d.num);
      (Emit(fs1, LoadK(reg, i)), d.(k := VNonReloc, info := reg))
    case VReloc =>
      if 0 <= d.info < |fs.code| && fs.code[d.info].Not? then
        (fs.(code := fs.code[d.info := Not(reg, fs.code[d.info].b)]), d.(k := VNonReloc, info := reg))
      else (fs, d.(k := VNonReloc, info := reg))
    case VNonReloc =>
      (if reg != d.info then Emit(fs, Move(reg, d.info)) else fs, d.(info := reg))
    case _ => (fs, d)
  }

  /** discharge2anyreg. */
  function Discharge2AnyReg(fs: Fs, d: Exp): (r: (Fs, Exp))
    ensures fs.err || (d.k != VNonReloc && Reserve(fs).err) ==> r.0.err
    ensures |fs.code| <= |r.0.code|
  {
    if d.k == VNonReloc then (fs, d)
    else
      var fs1 := Reserve(fs);
      Discharge2Reg(fs1, d, fs1.freereg - 1)
  }

  /** code_label. */
  function CodeLabel(fs: Fs, a: int, v: bool, skip: bool): Fs { Emit(Label(fs), LoadBool(a, v, skip)) }

  /** The two loads that jumps without a value go to, skipped by the normal path. */
  function EmitLoads(fs: Fs, isJmp: bool, reg: int): (r: Fs)
    ensures r.err == fs.err
    ensures |fs.code| <= |r.code|
  {
    var (fs1, fj) := if isJmp then (fs, {}) else EmitJump(fs);
    PatchToHere(CodeLabel(CodeLabel(fs1, reg, false, true), reg, true, false), fj)
  }

  /** The loads are needed when some jump does not produce a value. */
  function LoadsIfNeeded(fs: Fs, t: set<int>, f: set<int>, isJmp: bool, reg: int): (r: Fs)
    ensures r.err == fs.err && |fs.code| <= |r.code|
  {
    if NeedValue(fs.code, t) || NeedValue(fs.code, f) then EmitLoads(fs, isJmp, reg) else fs
  }

  /** Every jump of the two lists gets its target, and the value that it leaves with gets to `reg`. */
  function FillLists(fs: Fs, t: set<int>, f: set<int>, isJmp: bool, reg: int): (r: Fs)
    ensures r.err == fs.err && |fs.code| <= |r.code|
  {
    var fs1 := LoadsIfNeeded(fs, t, f, isJmp, reg);
    var final := |fs1.code|;
    Label(fs1).(code := Patch(Patch(fs1.code, f, final, reg, final - 2), t, final, reg, final - 1))
  }

  /** The second half of exp2reg. */
  function FillJumps(fs: Fs, d: Exp, reg: int): (r: Fs)
    ensures r.err == fs.err && |fs.code| <= |r.code|
  {
    var t := if d.k == VJmp then d.t + {d.info} else d.t;
    if t == {} && d.f == {} then fs else FillLists(fs, t, d.f, d.k == VJmp, reg)
  }

  /** exp2reg: the value of the expression, however it is reached, ends up in `reg`. */
  function Exp2Reg(fs: Fs, d: Exp, reg: int): (r: (Fs, Exp))
    ensures fs.err ==> r.0.err
    ensures |fs.code| <= |r.0.code|
  {
    var (fs1, d1) := Discharge2Reg(fs, d, reg);
    (FillJumps(fs1, d1, reg), Exp(VNonReloc, reg, d1.num, {}, {}))
  }

  /** gafqK_exp2nextreg. */
  function Exp2NextReg(fs: Fs, d0: Exp): (r: (Fs, Exp))
    ensures fs.err ==> r.0.err
    ensures r.1.k == VNonReloc && !HasJumps(r.1)
    ensures |fs.code| <= |r.0.code|
  {
    var d := DischargeVars(d0);
    var fs1 := Reserve(FreeExp(fs, d));
    Exp2Reg(fs1, d, fs1.freereg - 1)
  }

  /** gafqK_exp2anyreg. */
  function Exp2AnyReg(fs: Fs, d0: Exp): (r: (Fs, Exp))
    ensures fs.err ==> r.0.err
    ensures |fs.code| <= |r.0.code|
  {
    var d := DischargeVars(d0);
    if d.k == VNonReloc && !HasJumps(d) then (fs, d)
    else if d.k == VNonReloc && d.info >= fs.nactvar then Exp2Reg(fs, d, d.info)
    else Exp2NextReg(fs, d)
  }

  /** gafqK_exp2val. */
  function Exp2Val(fs: Fs, d: Exp): (r: (Fs, Exp))
    ensures fs.err ==> r.0.err
    ensures |fs.code| <= |r.0.code|
  {
    if HasJumps(d) then Exp2AnyReg(fs, d) else (fs, DischargeVars(d))
  }

  function ConstOf(d: Exp): Val {
    match d.k
    case VTrue => Bool(true)
    case VFalse => Bool(false)
    case VKNum => d.num
    case _ => Nil
  }

  /** gafqK_exp2RK after gafqK_exp2val. */
  function OperandOf(fs: Fs, d: Exp): (r: (Fs, Exp, int))
    ensures fs.err ==> r.0.err
    ensures |fs.code| <= |r.0.code|
  {
    if (d.k == VKNum || d.k == VTrue || d.k == VFalse || d.k == VNil) && |fs.k| <= MAX_INDEX_RK then
      var (fs1, i) := AddK(fs, ConstOf(d));
      (fs1, d.(k := VK, info := i), i + BIT_RK)
    else if d.k == VK && d.info <= MAX_INDEX_RK then (fs, d, d.info + BIT_RK)
    else
      var (fs1, d1) := Exp2AnyReg(fs, d);
      (fs1, d1, d1.info)
  }

  /** gafqK_exp2RK: a register or a constant operand. */
  function Exp2RK(fs: Fs, d: Exp): (r: (Fs, Exp, int))
    ensures fs.err ==> r.0.err
    ensures |fs.code| <= |r.0.code|
  {
    var (fs1, d1) := Exp2Val(fs, d);
    OperandOf(fs1, d1)
  }

  // ---------------------------------------------------------------- conditions

  /** invertjump: the comparison in front of the jump changes its sense. */
  function InvertJump(fs: Fs, j: int): Fs {
    if 1 <= j <= |fs.code| && fs.code[j - 1].Cmp? then
      fs.(code := fs.code[j - 1 := fs.code[j - 1].(cond := !fs.code[j - 1].cond)])
    else fs
  }

  /** jumponcond: jump when the value is `cond`; a negation just computed is undone. */
  function JumpOnCond(fs: Fs, d: Exp, cond: bool): (r: (Fs, set<int>))
    ensures fs.err ==> r.0.err
    ensures |fs.code| <= |r.0.code|
  {
    if d.k == VReloc && 0 <= d.info == |fs.code| - 1 && fs.code[d.info].Not? then
      CondJump(fs.(code := fs.code[..d.info]), Test(fs.code[d.info].b, !cond))
    else
      var (fs1, d1) := Discharge2AnyReg(fs, d);
      CondJump(FreeExp(fs1, d1), TestSet(NO_REG, d1.info, cond))
  }

  /** The switch of gafqK_goiftrue (`cond` false) and gafqK_goiffalse (`cond` true): the jump that
      leaves when the value is `cond`, unless it is known not to be. */
  function LeaveOn(fs: Fs, d: Exp, cond: bool): (r: (Fs, set<int>))
    ensures fs.err ==> r.0.err
    ensures |fs.code| <= |r.0.code|
  {
    if (!cond && (d.k == VK || d.k == VKNum || d.k == VTrue)) || (cond && (d.k == VNil || d.k == VFalse)) then (fs, {})
    else if d.k == VJmp then (if cond then fs else InvertJump(fs, d.info), {d.info})
    else JumpOnCond(fs, d, cond)
  }

  /** gafqK_goiftrue: fall through when true, leave by `f` when false. */
  function GoIfTrue(fs: Fs, d0: Exp): (r: (Fs, Exp))
    ensures fs.err ==> r.0.err
    ensures |fs.code| <= |r.0.code|
  {
    var d := DischargeVars(d0);
    var (fs1, js) := LeaveOn(fs, d, false);
    (PatchToHere(fs1, d.t), d.(f := d.f + js, t := {}))
  }

  /** gafqK_goiffalse: fall through when false, leave by `t` when true. */
  function GoIfFalse(fs: Fs, d0: Exp): (r: (Fs, Exp))
    ensures fs.err ==> r.0.err
    ensures |fs.code| <= |r.0.code|
  {
    var d := DischargeVars(d0);
    var (fs1, js) := LeaveOn(fs, d, true);
    (PatchToHere(fs1, d.f), d.(t := d.t + js, f := {}))
  }

  /** The switch of codenot. */
  function Negate(fs: Fs, d: Exp): (r: (Fs, Exp))
    ensures fs.err || (d.k == VReloc && Reserve(fs).err) ==> r.0.err
    ensures |fs.code| <= |r.0.code|
  {
    if d.k == VNil || d.k == VFalse then (fs, d.(k := VTrue))
    else if d.k == VK || d.k == VKNum || d.k == VTrue then (fs, d.(k := VFalse))
    else if d.k == VJmp then (InvertJump(fs, d.info), d)
    else
      var (g, e) := Discharge2AnyReg(fs, d);
      (Emit(FreeExp(g, e), Not(0, e.info)), e.(k := VReloc, info := |g.code|))
  }

  /** codenot: the value is negated, and the lists change places. */
  function CodeNot(fs: Fs, d: Exp): (r: (Fs, Exp))
    ensures fs.err || (d.k == VReloc && Reserve(fs).err) ==> r.0.err
    ensures |fs.code| <= |r.0.code|
  {
    var (fs1, d1) := Negate(fs, DischargeVars(d));
    (fs1.(code := RemoveValues(RemoveValues(fs1.code, d1.t), d1.f)), d1.(t := d1.f, f := d1.t))
  }

  // ---------------------------------------------------------------- comparisons and the driver

  /** The comparison operators of the source, OPR_EQ to OPR_GE. */
  datatype RelOp = EqOp | NeOp | LtOp | LeOp | GtOp | GeOp

  /** posfix's choice of instruction and sense. */
  function RelCode(op: RelOp): (CmpOp, bool) {
    match op
    case EqOp => (Eq, true)
    case NeOp => (Eq, false)
    case LtOp => (Lt, true)
    case LeOp => (Le, true)
    case GtOp => (Lt, false)
    case GeOp => (Le, false)
  }

  /** codecomp: `a > b` becomes `b < a`. */
  function CodeComp(fs: Fs, op: RelOp, d1: Exp, d2: Exp): (r: (Fs, Exp))
    ensures fs.err ==> r.0.err
    ensures |fs.code| <= |r.0.code|
  {
    var (g1, e1, o1) := Exp2RK(fs, d1);
    var (g2, e2, o2) := Exp2RK(g1, d2);
    var g := FreeExp(FreeExp(g2, e2), e1);
    var (c, cond) := RelCode(op);
    var i := if !cond && c != Eq then Cmp(c, true, o2, o1) else Cmp(c, cond, o1, o2);
    var (r, js) := CondJump(g, i);
    (r, e1.(k := VJmp, info := |g.code| + 1))
  }

  /** Source expressions. */
  datatype Expr =
    | ENil | ETrue | EFalse
    | EStr(v: Val)
    | ENum(v: Val)
    | ELocal(i: int)
    | EParen(p: Expr)
    | ENot(e: Expr)
    | EAnd(l: Expr, r: Expr)
    | EOr(l: Expr, r: Expr)
    | ECmp(op: RelOp, l: Expr, r: Expr)

  /** The calls that subexpr (gparser.c) makes for an expression, in its order: operands through
      infix, second operand, posfix; prefix for negation. */
  function Compile(fs: Fs, e: Expr): (r: (Fs, Exp))
    ensures fs.err ==> r.0.err
    ensures |fs.code| <= |r.0.code|
    decreases e
  {
    match e
    case ENil => (fs, Exp(VNil, 0, Nil, {}, {}))
    case ETrue => (fs, Exp(VTrue, 0, Nil, {}, {}))
    case EFalse => (fs, Exp(VFalse, 0, Nil, {}, {}))
    case EStr(v) =>
      var (fs1, i) := AddK(fs, v);
      (fs1, Exp(VK, i, Nil, {}, {}))
    case ENum(v) => (fs, Exp(VKNum, 0, v, {}, {}))
    case ELocal(i) => (fs, Exp(VLocal, i, Nil, {}, {}))
    case EParen(e1) =>
      var (fs1, d) := Compile(fs, e1);
      (fs1, DischargeVars(d))
    case ENot(e1) =>
      var (fs1, d) := Compile(fs, e1);
      CodeNot(fs1, d)
    case EAnd(l, r) =>
      var (fs1, d1) := Compile(fs, l);
      var (fs2, d2) := GoIfTrue(fs1, d1);
      var (fs3, d3) := Compile(fs2, r);
      var d := DischargeVars(d3);
      (fs3, d.(f := d.f + d2.f))
    case EOr(l, r) =>
      var (fs1, d1) := Compile(fs, l);
      var (fs2, d2) := GoIfFalse(fs1, d1);
      var (fs3, d3) := Compile(fs2, r);
      var d := DischargeVars(d3);
      (fs3, d.(t := d.t + d2.t))
    case ECmp(op, l, r) =>
      var (fs1, d1) := Compile(fs, l);
      var (fs2, e1, _) := Exp2RK(fs1, d1);
      var (fs3, d3) := Compile(fs2, r);
      CodeComp(fs3, op, e1, d3)
  }

  datatype BinOp = AndOp | OrOp | Rel(op: RelOp)

  function Bin(b: BinOp, l: Expr, r: Expr): Expr {
    match b
    case AndOp => EAnd(l, r)
    case OrOp => EOr(l, r)
    case Rel(op) => ECmp(op, l, r)
  }

  /** gafqK_infix: the first operand, when its operator has been read. */
  function Infix(fs: Fs, b: BinOp, d: Exp): (Fs, Exp) {
    match b
    case AndOp => GoIfTrue(fs, d)
    case OrOp => GoIfFalse(fs, d)
    case Rel(_) => var (g, e, _) := Exp2RK(fs, d); (g, e)
  }

  /** gafqK_posfix: both operands. */
  function Posfix(fs: Fs, b: BinOp, d1: Exp, d2: Exp): (Fs, Exp) {
    match b
    case AndOp => var d := DischargeVars(d2); (fs, d.(f := d.f + d1.f))
    case OrOp => var d := DischargeVars(d2); (fs, d.(t := d.t + d1.t))
    case Rel(op) => CodeComp(fs, op, d1, d2)
  }

  lemma InfixLimit(fs: Fs, b: BinOp, d: Exp)
    ensures Limit(fs) ==> Limit(Infix(fs, b, d).0)
  {
    hide GoIfTrue, GoIfFalse, Exp2RK;
  }

  lemma PosfixLimit(fs: Fs, b: BinOp, d1: Exp, d2: Exp)
    ensures Limit(fs) ==> Limit(Posfix(fs, b, d1, d2).0)
  {
    hide CodeComp;
  }

  lemma BinUnfold(fs: Fs, b: BinOp, l: Expr, r: Expr)
    ensures var (g, d) := Compile(fs, l);
            var (g1, e) := Infix(g, b, d);
            var (g2, d2) := Compile(g1, r);
            Compile(fs, Bin(b, l, r)) == Posfix(g2, b, e, d2)
  {
    hide GoIfTrue, GoIfFalse, Exp2RK, CodeComp, DischargeVars;
    match b
    case AndOp =>
    case OrOp =>
    case Rel(op) =>
  }

  /** The code of a binary operator, in the order in which subexpr calls the code generator. */
  lemma BinIs(fs: Fs, b: BinOp, l: Expr, r: Expr)
    ensures var (g, d) := Compile(fs, l);
            var (g1, e) := Infix(g, b, d);
            var (g2, d2) := Compile(g1, r);
            var x := Posfix(g2, b, e, d2);
            Compile(fs, Bin(b, l, r)) == x && (Limit(g) ==> Limit(g1)) && (Limit(g1) ==> Limit(g2)) &&
            (Limit(g2) ==> Limit(x.0))
  {
    BinUnfold(fs, b, l, r);
    hide Compile, Infix, Posfix, Bin;
    var (g, d) := Compile(fs, l);
    var (g1, e) := Infix(g, b, d);
    var (g2, d2) := Compile(g1, r);
    InfixLimit(g, b, d);
    PosfixLimit(g2, b, e, d2);
  }

  // ---------------------------------------------------------------- what expressions mean

  /** Section 2.5.2 of the Lua 5.1 manual: a > b is b < a, a >= b is b <= a. */
  function RelValue(m: Machine, op: RelOp, x: Val, y: Val): bool {
    match op
    case EqOp => m.cmp(Eq, x, y)
    case NeOp => !m.cmp(Eq, x, y)
    case LtOp => m.cmp(Lt, x, y)
    case LeOp => m.cmp(Le, x, y)
    case GtOp => m.cmp(Lt, y, x)
    case GeOp => m.cmp(Le, y, x)
  }

  /** Section 2.5.3: and, or yield one of their operands; not yields a boolean. */
  function Eval(m: Machine, e: Expr, r: Regs): Val {
    match e
    case ENil => Nil
    case ETrue => Bool(true)
    case EFalse => Bool(false)
    case EStr(v) => v
    case ENum(v) => v
    case ELocal(i) => Get(r, i)
    case EParen(e1) => Eval(m, e1, r)
    case ENot(e1) => Bool(Falsy(Eval(m, e1, r)))
    case EAnd(l, r1) => if Falsy(Eval(m, l, r)) then Eval(m, l, r) else Eval(m, r1, r)
    case EOr(l, r1) => if Falsy(Eval(m, l, r)) then Eval(m, r1, r) else Eval(m, l, r)
    case ECmp(op, l, r1) => Bool(RelValue(m, op, Eval(m, l, r), Eval(m, r1, r)))
  }

  /** Locals are active, and string and number constants are true values. */
  predicate WellFormed(e: Expr, nactvar: int) {
    match e
    case EStr(v) => v.Other?
    case ENum(v) => v.Other?
    case ELocal(i) => 0 <= i < nactvar
    case EParen(e1) => WellFormed(e1, nactvar)
    case ENot(e1) => WellFormed(e1, nactvar)
    case EAnd(l, r) => WellFormed(l, nactvar) && WellFormed(r, nactvar)
    case EOr(l, r) => WellFormed(l, nactvar) && WellFormed(r, nactvar)
    case ECmp(_, l, r) => WellFormed(l, nactvar) && WellFormed(r, nactvar)
    case _ => true
  }
}
