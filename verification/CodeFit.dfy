/** What fits: how many registers, constants and instructions an expression needs, and that nothing else makes the
    compiler give up. */
module CodeFit {
  import opened CodeVm
  import opened CodeGen
  import opened CodeExt
  import opened CodeGood
  import opened CodeCond
  import opened CodeLogic
  import opened CodeCompose
  import opened CodeRel
  import opened CodeCorrect
  import opened CodeBlock

  function Max(a: nat, b: nat): nat { if a > b then a else b }

  /** Registers above those in use. */
  function Width(e: Expr): nat {
    match e
    case EParen(p) => Width(p)
    case ENot(x) => Max(Width(x), 1)
    case EAnd(l, r) => Max(Max(Width(l), Width(r)), 1)
    case EOr(l, r) => Max(Max(Width(l), Width(r)), 1)
    case ECmp(_, l, r) => Max(Width(l), Max(Width(r), 1) + 1)
    case _ => 0
  }

  /** Constants: one for each literal, and the operands of comparisons. */
  function Constants(e: Expr): nat {
    match e
    case EStr(_) => 1
    case ENum(_) => 1
    case EParen(p) => Constants(p)
    case ENot(x) => Constants(x)
    case EAnd(l, r) => Constants(l) + Constants(r)
    case EOr(l, r) => Constants(l) + Constants(r)
    case ECmp(_, l, r) => Constants(l) + Constants(r) + 2
    case _ => 0
  }

  function Instructions(e: Expr): nat {
    match e
    case EParen(p) => Instructions(p)
    case ENot(x) => Instructions(x) + 2
    case EAnd(l, r) => Instructions(l) + Instructions(r) + 3
    case EOr(l, r) => Instructions(l) + Instructions(r) + 3
    case ECmp(_, l, r) => Instructions(l) + Instructions(r) + 10
    case _ => 0
  }

  /** A constant that a descriptor may still add. */
  function Due(d: Exp): nat { if d.k == VKNum then 1 else 0 }

  /** `g` came from `fs` without an error, by at most so many instructions and constants. */
  predicate Grew(fs: Fs, g: Fs, code: nat, k: nat) {
    !g.err && |g.code| <= |fs.code| + code && |g.k| <= |fs.k| + k && g.nactvar == fs.nactvar
  }

  /** One more register, and some more constants. */
  predicate Spare(fs: Fs, k: nat) { !fs.err && fs.freereg + 1 < MAX_STACK && |fs.k| + k <= MAX_CONSTANTS }

  // ---------------------------------------------------------------- single steps

  lemma DischargeFits(fs: Fs, d: Exp, reg: int)
    requires !fs.err && |fs.k| + Due(d) <= MAX_CONSTANTS
    ensures Grew(fs, Discharge2Reg(fs, d, reg).0, 1, Due(d)) && Discharge2Reg(fs, d, reg).0.freereg == fs.freereg
  {}

  lemma DischargeAnyFits(fs: Fs, d: Exp)
    requires Spare(fs, Due(d))
    ensures Grew(fs, Discharge2AnyReg(fs, d).0, 1, Due(d))
  {
    if d.k != VNonReloc { DischargeFits(Reserve(fs), d, Reserve(fs).freereg - 1); }
    hide Discharge2Reg;
  }

  lemma FillFits(fs: Fs, d: Exp, reg: int)
    requires !fs.err
    ensures Grew(fs, FillJumps(fs, d, reg), 3, 0)
  {}

  lemma Exp2RegFits(fs: Fs, d: Exp, reg: int)
    requires !fs.err && |fs.k| + Due(d) <= MAX_CONSTANTS
    ensures Grew(fs, Exp2Reg(fs, d, reg).0, 4, Due(d))
  {
    DischargeFits(fs, d, reg);
    var (g, e) := Discharge2Reg(fs, d, reg);
    FillFits(g, e, reg);
    hide Discharge2Reg, FillJumps;
  }

  lemma NextRegFits(fs: Fs, d: Exp)
    requires Spare(fs, Due(d))
    ensures Grew(fs, Exp2NextReg(fs, d).0, 4, Due(d))
  {
    var x := DischargeVars(d);
    var g := Reserve(FreeExp(fs, x));
    Exp2RegFits(g, x, g.freereg - 1);
    hide Exp2Reg;
  }

  lemma AnyRegFits(fs: Fs, d: Exp)
    requires Spare(fs, Due(d))
    ensures Grew(fs, Exp2AnyReg(fs, d).0, 4, Due(d))
    ensures var e := Exp2AnyReg(fs, d).1; e.k == VNonReloc && !HasJumps(e)
  {
    var x := DischargeVars(d);
    NextRegFits(fs, x);
    Exp2RegFits(fs, x, x.info);
    hide Exp2NextReg, FillJumps, Discharge2Reg;
  }

  lemma OperandFits(fs: Fs, d: Exp)
    requires Spare(fs, 1)
    ensures Grew(fs, OperandOf(fs, d).0, 4, 1)
    ensures d.k == VNonReloc && !HasJumps(d) ==> OperandOf(fs, d).0 == fs
  {
    AnyRegFits(fs, d);
    if d.k == VNonReloc && !HasJumps(d) { assert Exp2AnyReg(fs, d) == (fs, d); }
    hide Exp2AnyReg;
  }

  lemma RKFits(fs: Fs, d: Exp)
    requires Spare(fs, 1)
    ensures Grew(fs, Exp2RK(fs, d).0, 4, 1)
  {
    if HasJumps(d) {
      AnyRegFits(fs, d);
      var (g, e) := Exp2AnyReg(fs, d);
      hide Exp2AnyReg;
      assert OperandOf(g, e).0 == g by { OperandSame(g, e); }
    } else {
      OperandFits(fs, DischargeVars(d));
    }
  }

  lemma OperandSame(fs: Fs, d: Exp)
    requires d.k == VNonReloc && !HasJumps(d)
    ensures OperandOf(fs, d).0 == fs
  {}

  lemma CondFits(fs: Fs, d: Exp, cond: bool)
    requires Spare(fs, Due(d))
    ensures Grew(fs, JumpOnCond(fs, d, cond).0, 3, Due(d))
  {
    DischargeAnyFits(fs, d);
    hide Discharge2AnyReg;
  }

  lemma GoIfFits(fs: Fs, d: Exp, cond: bool)
    requires Spare(fs, Due(d))
    ensures Grew(fs, (if cond then GoIfFalse(fs, d) else GoIfTrue(fs, d)).0, 3, Due(d))
  {
    CondFits(fs, DischargeVars(d), cond);
    hide JumpOnCond;
  }

  lemma NotFits(fs: Fs, d: Exp)
    requires Spare(fs, Due(d))
    ensures Grew(fs, CodeNot(fs, d).0, 2, 0) && CodeNot(fs, d).1.k != VKNum
  {
    var x := DischargeVars(d);
    if x.k == VReloc || x.k == VNonReloc || x.k == VLocal { DischargeAnyFits(fs, x); }
    hide Discharge2AnyReg;
  }

  /** An operand that has been through gafqK_exp2RK. */
  predicate IsOperand(d: Exp) { !HasJumps(d) && (d.k == VNonReloc || (d.k == VK && d.info <= MAX_INDEX_RK)) }

  lemma OperandStays(fs: Fs, d: Exp)
    requires IsOperand(d)
    ensures Exp2RK(fs, d).0 == fs && Exp2RK(fs, d).1 == d
  {}

  lemma CompFits(fs: Fs, op: RelOp, d1: Exp, d2: Exp)
    requires Spare(fs, 1) && IsOperand(d1)
    ensures Grew(fs, CodeComp(fs, op, d1, d2).0, 6, 1) && CodeComp(fs, op, d1, d2).1.k == VJmp
  {
    OperandStays(fs, d1);
    RKFits(fs, d2);
    hide Exp2RK;
  }

  // ---------------------------------------------------------------- expressions

  /** There is room for the registers and constants of the expression: 250 registers, 2^18 - 1 constants. */
  predicate Roomy(fs: Fs, e: Expr) { fs.freereg + Width(e) < 250 && |fs.k| + Constants(e) <= 262143 }

  /** What compiling gives when there is room. */
  ghost predicate Fitted(fs: Fs, e: Expr) {
    var (g, d) := Compile(fs, e);
    !g.err && g.freereg == fs.freereg && g.nactvar == fs.nactvar && |g.code| <= |fs.code| + Instructions(e) &&
    |g.k| + Due(d) <= |fs.k| + Constants(e)
  }

  /** An expression for which there is room compiles. */
  lemma {:induction false} CompileFits(fs: Fs, e: Expr)
    requires Ready(fs) && WellFormed(e, fs.nactvar) && Roomy(fs, e)
    ensures Fitted(fs, e)
    decreases e, 1
  {
    match e
    case EParen(p) =>
      hide Ready, WellFormed;
      assert WellFormed(p, fs.nactvar) by { ParenScope(p, fs.nactvar); }
      CompileFits(fs, p);
    case ENot(x) => NotCompiles(fs, x);
    case EAnd(l, r) => EitherCompiles(fs, l, r, false);
    case EOr(l, r) => EitherCompiles(fs, l, r, true);
    case ECmp(op, l, r) => CompCompiles(fs, op, l, r);
    case _ =>
  }

  lemma ParenScope(p: Expr, n: int)
    requires WellFormed(EParen(p), n)
    ensures WellFormed(p, n)
  {}

  const ANY := Machine((op, a, b) => false, [])

  lemma {:induction false} NotCompiles(fs: Fs, x: Expr)
    requires Ready(fs) && WellFormed(x, fs.nactvar) && Roomy(fs, ENot(x))
    ensures Fitted(fs, ENot(x))
    decreases x, 2
  {
    CompileFits(fs, x);
    var (g, d) := Compile(fs, x);
    NotFits(g, d);
    var (h, e) := CodeNot(g, d);
    assert Compile(fs, ENot(x)) == (h, e);
    CompileGood(ANY, fs, ENot(x));
    hide Compile, CodeNot, Wf, Denotes, Lists, Ext;
  }

  lemma {:induction false} EitherCompiles(fs: Fs, l: Expr, r: Expr, cond: bool)
    requires Ready(fs) && WellFormed(l, fs.nactvar) && WellFormed(r, fs.nactvar) && Roomy(fs, Either(l, r, cond))
    ensures Fitted(fs, Either(l, r, cond))
    decreases Either(l, r, cond), 0
  {
    hide Compile, GoIfTrue, GoIfFalse, Wf, Good, CondBody;
    EitherUnfold(fs, l, r, cond);
    CompileFits(fs, l);
    var (fs1, d1) := Compile(fs, l);
    GoIfFits(fs1, d1, cond);
    var (fs2, d2) := if cond then GoIfFalse(fs1, d1) else GoIfTrue(fs1, d1);
    CompileGood(ANY, fs, l);
    GoIfSplits(ANY, fs, fs1, d1, l, cond);
    CondParts(ANY, fs, fs2, d2, l, cond);
    WfEnd(fs2, |fs.code|);
    CompileFits(fs2, r);
  }

  lemma {:induction false} CompCompiles(fs: Fs, op: RelOp, l: Expr, r: Expr)
    requires Ready(fs) && WellFormed(l, fs.nactvar) && WellFormed(r, fs.nactvar) && Roomy(fs, ECmp(op, l, r))
    ensures Fitted(fs, ECmp(op, l, r))
    decreases ECmp(op, l, r), 0
  {
    hide Compile, Wf, Good, RkBody, Exp2RK, CodeComp, Ext, Operand;
    CompileFits(fs, l);
    var (fs1, d1) := Compile(fs, l);
    RKFits(fs1, d1);
    var (fs2, e1, o1) := Exp2RK(fs1, d1);
    CompileGood(ANY, fs, l);
    Exp2RKBody(ANY, fs, fs1, d1, l);
    RkParts(ANY, fs, fs2, e1, o1, l);
    WfEnd(fs2, |fs.code|);
    CompileFits(fs2, r);
    var (fs3, d3) := Compile(fs2, r);
    OperandKind(fs, fs2, e1, o1);
    CompFits(fs3, op, e1, d3);
    CompUnfolds(fs, op, l, r);
    CompileGood(ANY, fs, ECmp(op, l, r));
    GoodParts(ANY, fs, Compile(fs, ECmp(op, l, r)).0, Compile(fs, ECmp(op, l, r)).1, ECmp(op, l, r));
  }

  lemma CompUnfolds(fs: Fs, op: RelOp, l: Expr, r: Expr)
    ensures var (fs1, d1) := Compile(fs, l);
            var (fs2, e1, _) := Exp2RK(fs1, d1);
            var (fs3, d3) := Compile(fs2, r);
            Compile(fs, ECmp(op, l, r)) == CodeComp(fs3, op, e1, d3)
  {
    hide Exp2RK, CodeComp;
  }

  lemma OperandKind(fs0: Fs, fs: Fs, d: Exp, o: int)
    requires OperandShape(fs0, fs, d, o)
    ensures IsOperand(d)
  {}

  // ---------------------------------------------------------------- statements

  /** There is room for a statement or condition with this expression, and no jump of its code can be too far. */
  predicate Enough(fs: Fs, e: Expr) {
    fs.freereg + Max(Width(e), 1) < 250 && |fs.k| + Constants(e) <= 262143 && |fs.code| + Instructions(e) + 4 <= 131071
  }

  /** A declaration or an assignment for which there is room compiles. */
  lemma StatFits(fs: Fs, st: Stat)
    requires Ready(fs) && StatScoped(st, fs.nactvar) && fs.freereg + Max(Width(st.x), 1) < 250
    requires |fs.k| + Constants(st.x) <= 262143
    ensures var h := Stored(fs, st); !h.err && |h.code| <= |fs.code| + Instructions(st.x) + 4 && |h.k| <= |fs.k| + Constants(st.x)
  {
    hide Compile, Exp2NextReg, Exp2Reg, Wf;
    CompileFits(fs, st.x);
    var (g, d) := Compile(fs, st.x);
    NextRegFits(g, d);
    if st.Assign? { Exp2RegFits(FreeExp(g, d), d, st.v); }
  }

  /** So does a condition. */
  lemma CondStateFits(fs: Fs, x: Expr, d1: Exp)
    requires Ready(fs) && WellFormed(x, fs.nactvar) && Enough(fs, x)
    requires d1 == Compile(fs, x).1 || (Compile(fs, x).1.k == VNil && d1 == Compile(fs, x).1.(k := VFalse))
    ensures !Limit(Compile(fs, x).0) && !Limit(GoIfTrue(Compile(fs, x).0, d1).0)
  {
    hide Compile, GoIfTrue, Wf;
    CompileFits(fs, x);
    GoIfFits(Compile(fs, x).0, d1, false);
  }

  // ---------------------------------------------------------------- blocks

  function BlockWidth(ss: seq<Stat>): nat { if ss == [] then 0 else Max(BlockWidth(ss[..|ss| - 1]), Max(Width(ss[|ss| - 1].x), 1)) }

  function BlockConstants(ss: seq<Stat>): nat { if ss == [] then 0 else BlockConstants(ss[..|ss| - 1]) + Constants(ss[|ss| - 1].x) }

  /** A block compiles when its locals, with what its widest statement needs besides, fit in the registers, and its
      literals among the constants. */
  lemma {:induction false} BlockFits(ss: seq<Stat>, n: int)
    requires 0 <= n && Scoped(ss, n) && Locals(ss, n) + BlockWidth(ss) < 250 && BlockConstants(ss) <= 262143
    ensures var g := CompileBlock(Start(n), ss); !g.err && |g.k| <= BlockConstants(ss) && Locals(ss, n) >= n
    decreases |ss|
  {
    if ss != [] {
      hide CompileStat, StatScoped, Wf;
      var before, st := ss[..|ss| - 1], ss[|ss| - 1];
      BlockFits(before, n);
      BlockKeeps(before, n);
      var fs := CompileBlock(Start(n), before);
      WfEnd(fs, 0);
      StatFits(fs, st);
      StatErr(fs, st);
    }
  }

  lemma StatErr(fs: Fs, st: Stat)
    ensures CompileStat(fs, st).err == Stored(fs, st).err && CompileStat(fs, st).k == Stored(fs, st).k
  {
    hide Compile, Exp2NextReg, StoreLocal;
  }
}
