/** Operands in registers or constants, and comparisons. */
module CodeRel {
  import opened CodeVm
  import opened CodeGen
  import opened CodeRun
  import opened CodeExt
  import opened CodeOps
  import opened CodeGood
  import opened CodeFill
  import opened CodeCond
  import opened CodeLogic
  import opened CodeCompose

  /** Every run comes to the end with the value in operand `o`. */
  predicate OperandIs(m: Machine, res: Res, o: int, v: Val, r: Regs, f: int) {
    res.End? && Keep(r, res.regs, f, -1) && RK(m, res.regs, o) == v
  }

  ghost predicate Operand(m: Machine, fs0: Fs, fs: Fs, o: int, e: Expr) {
    fs.k <= m.k ==>
      forall r | Entry(fs.code, |fs0.code|, fs0.lasttarget, fs0.nactvar, r) ::
        OperandIs(m, RunTo(m, fs, |fs0.code|, r), o, Eval(m, e, r), r, fs0.freereg)
  }

  /** The operand is a constant, a local, or the first free register. */
  predicate OperandShape(fs0: Fs, fs: Fs, d: Exp, o: int) {
    d.t == {} && d.f == {} &&
    if o >= BIT_RK then
      d.k == VK && d.info == o - BIT_RK <= MAX_INDEX_RK && o - BIT_RK < |fs.k| && fs.freereg == fs0.freereg
    else
      d.k == VNonReloc && d.info == o &&
      ((0 <= o < fs0.nactvar && fs.freereg == fs0.freereg) || (o == fs0.freereg && fs.freereg == o + 1))
  }

  ghost predicate RkBody(m: Machine, fs0: Fs, fs: Fs, d: Exp, o: int, e: Expr) {
    var n0 := |fs0.code|;
    Wf(fs0, n0) && Wf(fs, n0) && Ext(fs0, fs, fs0.freereg, -1) && OperandShape(fs0, fs, d, o) &&
    Operand(m, fs0, fs, o, e)
  }

  /** A register without lists is an operand. */
  lemma RegOperand(m: Machine, fs0: Fs, fs: Fs, d: Exp, e: Expr)
    requires Body(m, fs0, fs, d, e, -1) && d.k == VNonReloc && d.t == {} && d.f == {} && 0 <= d.info < MAX_STACK
    requires OperandShape(fs0, fs, d, d.info)
    ensures RkBody(m, fs0, fs, d, d.info, e)
  {
    hide ExtAt, WfAt;
    var n0 := |fs0.code|;
    if fs.k <= m.k {
      forall r | Entry(fs.code, n0, fs0.lasttarget, fs0.nactvar, r)
        ensures OperandIs(m, RunTo(m, fs, n0, r), d.info, Eval(m, e, r), r, fs0.freereg)
      {
        DenotesAt(m, fs0, fs, d, e, -1, r);
      }
    }
  }

  /** A constant is an operand once it is in the table. */
  lemma ConstOperand(m: Machine, fs0: Fs, fs: Fs, d: Exp, e: Expr, g: Fs, i: int, d1: Exp)
    requires Good(m, fs0, fs, d, e) && d.t == {} && d.f == {}
    requires d.k == VNil || d.k == VTrue || d.k == VFalse || d.k == VKNum || d.k == VK
    requires g == fs.(k := g.k, err := g.err) && fs.k <= g.k && 0 <= i < |g.k| && i <= MAX_INDEX_RK
    requires g.k[i] == if d.k == VK then fs.k[d.info] else ConstOf(d)
    requires d1 == d.(k := VK, info := i)
    ensures RkBody(m, fs0, g, d1, i + BIT_RK, e)
  {
    hide ExtAt, WfAt;
    var n0 := |fs0.code|;
    ExtCode(fs0, fs, g, fs0.freereg, -1);
    if g.k <= m.k {
      PrefixTrans(fs.k, g.k, m.k);
      forall r | Entry(g.code, n0, fs0.lasttarget, fs0.nactvar, r)
        ensures OperandIs(m, RunTo(m, g, n0, r), i + BIT_RK, Eval(m, e, r), r, fs0.freereg)
      {
        DenotesAt(m, fs0, fs, d, e, -1, r);
        assert RunTo(m, g, n0, r) == RunTo(m, fs, n0, r);
      }
    }
  }

  /** gafqK_exp2nextreg: the value goes to the first free register. */
  lemma NextRegBody(m: Machine, fs0: Fs, fs: Fs, d: Exp, e: Expr)
    requires Good(m, fs0, fs, d, e) && !Exp2NextReg(fs, d).0.err
    ensures var (g, d1) := Exp2NextReg(fs, d);
            d1 == Exp(VNonReloc, fs0.freereg, d.num, {}, {}) && Body(m, fs0, g, d1, e, -1) &&
            g.freereg == fs0.freereg + 1 &&
            g.nactvar == fs0.nactvar && fs0.freereg < MAX_STACK - 1
  {
    hide Good, Body, Exp2Reg;
    LocalGood(m, fs0, fs, d, e);
    var d0 := DischargeVars(d);
    assert FreeExp(fs, d0) == fs by {
      GoodParts(m, fs0, fs, d0, e);
      if d0.k == VNonReloc { NoFree(fs, d0, |fs0.code|); }
    }
    GoodParts(m, fs0, fs, d0, e);
    Reserved(m, fs0, fs, d0, e);
    Exp2RegBody(m, fs0, Reserve(fs), d0, e, fs0.freereg, -1);
  }

  lemma NextRegOperand(m: Machine, fs0: Fs, fs: Fs, d: Exp, e: Expr)
    requires Good(m, fs0, fs, d, e) && !Exp2NextReg(fs, d).0.err
    ensures var (g, d1) := Exp2NextReg(fs, d); RkBody(m, fs0, g, d1, d1.info, e) && d1.k == VNonReloc && d1.t == {} && d1.f == {}
  {
    hide Good, Body, Exp2NextReg, RkBody;
    NextRegBody(m, fs0, fs, d, e);
    var (g, d1) := Exp2NextReg(fs, d);
    GoodParts(m, fs0, fs, d, e);
    RegOperand(m, fs0, g, d1, e);
  }

  /** gafqK_exp2RK: the value is in a register or a constant. */
  lemma Exp2RKBody(m: Machine, fs0: Fs, fs: Fs, d: Exp, e: Expr)
    requires Good(m, fs0, fs, d, e) && !Exp2RK(fs, d).0.err
    ensures var (g, d1, o) := Exp2RK(fs, d); RkBody(m, fs0, g, d1, o, e)
  {
    hide Good, RkBody, Exp2RK;
    LocalGood(m, fs0, fs, d, e);
    var d0 := DischargeVars(d);
    GoodParts(m, fs0, fs, d0, e);
    if HasJumps(d0) || !(d0.k == VKNum || d0.k == VTrue || d0.k == VFalse || d0.k == VNil || d0.k == VK || d0.k == VNonReloc) {
      ViaNextReg(fs, d);
      NextRegOperand(m, fs0, fs, d0, e);
    } else if d0.k == VNonReloc {
      GoodBody(m, fs0, fs, d0, e);
      ViaSame(fs, d);
      RegOperand(m, fs0, fs, d0, e);
    } else {
      ConstRK(m, fs0, fs, d, e);
    }
  }

  lemma ConstRK(m: Machine, fs0: Fs, fs: Fs, d: Exp, e: Expr)
    requires Good(m, fs0, fs, d, e) && !Exp2RK(fs, d).0.err && !HasJumps(d)
    requires d.k == VKNum || d.k == VTrue || d.k == VFalse || d.k == VNil || d.k == VK
    ensures var (g, d1, o) := Exp2RK(fs, d); RkBody(m, fs0, g, d1, o, e)
  {
    hide Good, RkBody, Exp2NextReg, Denotes, Wf, Ext, Lists;
    GoodParts(m, fs0, fs, d, e);
    if d.k != VK && |fs.k| <= MAX_INDEX_RK {
      var (g, i) := AddK(fs, ConstOf(d));
      AddKIndex(fs, ConstOf(d));
      ConstOperand(m, fs0, fs, d, e, g, i, d.(k := VK, info := i));
    } else if d.k == VK && d.info <= MAX_INDEX_RK {
      ConstOperand(m, fs0, fs, d, e, fs, d.info, d);
    } else {
      NextRegOperand(m, fs0, fs, d, e);
    }
  }

  lemma GoodBody(m: Machine, fs0: Fs, fs: Fs, d: Exp, e: Expr)
    requires Good(m, fs0, fs, d, e)
    ensures Body(m, fs0, fs, d, e, -1)
  {}

  lemma AddKIndex(fs: Fs, v: Val)
    requires |fs.k| <= MAX_INDEX_RK
    ensures AddK(fs, v).1 <= MAX_INDEX_RK
  {}

  lemma ViaNextReg(fs: Fs, d: Exp)
    requires DischargeVars(d).k == VNonReloc ==> DischargeVars(d).info < fs.nactvar
    requires var d0 := DischargeVars(d);
             HasJumps(d0) || !(d0.k == VKNum || d0.k == VTrue || d0.k == VFalse || d0.k == VNil || d0.k == VK || d0.k == VNonReloc)
    ensures var d0 := DischargeVars(d); var (g, d1) := Exp2NextReg(fs, d0); Exp2RK(fs, d) == (g, d1, d1.info)
  {
    hide Exp2NextReg;
  }

  lemma ViaSame(fs: Fs, d: Exp)
    requires var d0 := DischargeVars(d); d0.k == VNonReloc && !HasJumps(d0)
    ensures var d0 := DischargeVars(d); Exp2RK(fs, d) == (fs, d0, d0.info)
  {}

  // ---------------------------------------------------------------- comparisons

  lemma OperandAt(m: Machine, fs0: Fs, fs: Fs, o: int, e: Expr, r: Regs)
    requires Operand(m, fs0, fs, o, e) && fs.k <= m.k && Entry(fs.code, |fs0.code|, fs0.lasttarget, fs0.nactvar, r)
    ensures OperandIs(m, RunTo(m, fs, |fs0.code|, r), o, Eval(m, e, r), r, fs0.freereg)
  {}

  lemma RkParts(m: Machine, fs0: Fs, fs: Fs, d: Exp, o: int, e: Expr)
    requires RkBody(m, fs0, fs, d, o, e)
    ensures Wf(fs0, |fs0.code|) && Wf(fs, |fs0.code|) && Ext(fs0, fs, fs0.freereg, -1) && OperandShape(fs0, fs, d, o)
    ensures Operand(m, fs0, fs, o, e) && fs0.k <= fs.k && |fs0.code| <= |fs.code| && fs0.lasttarget <= fs.lasttarget
    ensures fs.nactvar == fs0.nactvar && fs0.freereg <= fs.freereg && JpcOk(fs) && 0 <= fs0.nactvar <= fs0.freereg
  {
    hide Operand;
  }

  /** Both operands have their values once the second has been run. */
  lemma PairRun(m: Machine, fs0: Fs, fs2: Fs, e1: Exp, o1: int, l: Expr, g2: Fs, e2: Exp, o2: int, r: Expr, x: Regs)
    requires RkBody(m, fs0, fs2, e1, o1, l) && RkBody(m, fs2, g2, e2, o2, r) && WellFormed(r, fs0.nactvar)
    requires g2.k <= m.k && Entry(g2.code, |fs0.code|, fs0.lasttarget, fs0.nactvar, x)
    ensures OperandIs(m, RunTo(m, g2, |fs0.code|, x), o1, Eval(m, l, x), x, fs0.freereg)
    ensures OperandIs(m, RunTo(m, g2, |fs0.code|, x), o2, Eval(m, r, x), x, fs0.freereg)
  {
    hide RkBody, Operand, Entry, RunTo, Ext, Wf, Eval, Keep, Arrived, OperandIs, OperandShape;
    var n0, f := |fs0.code|, fs2.freereg;
    RkParts(m, fs0, fs2, e1, o1, l);
    RkParts(m, fs2, g2, e2, o2, r);
    PrefixTrans(fs2.k, g2.k, m.k);
    EntryBack(fs2, g2, n0, fs0.lasttarget, fs0.nactvar, f, -1, x);
    OperandAt(m, fs0, fs2, o1, l, x);
    var q := RunTo(m, fs2, n0, x);
    OperandEnds(m, q, o1, Eval(m, l, x), x, fs0.freereg);
    RunToExt(m, fs2, g2, n0, f, -1, x);
    ArrivedKeeps(m, fs2, g2, n0, fs0.lasttarget, f, -1, x);
    var a := Arrived(m, fs2, g2, n0, x);
    OperandAt(m, fs2, g2, o2, r, a);
    var y := RunTo(m, g2, |fs2.code|, a);
    OperandEnds(m, y, o2, Eval(m, r, a), a, f);
    OperandChain(m, fs0, fs2, e1, o1, o2, q.regs, a, y, x, Eval(m, l, x), Eval(m, r, a));
    assert Eval(m, r, x) == Eval(m, r, a) by {
      KeepLess(q.regs, a, f, fs0.freereg);
      KeepTrans(x, q.regs, a, fs0.freereg);
      EvalKeep(m, r, fs0.nactvar, x, a, fs0.freereg);
    }
  }

  lemma OperandEnds(m: Machine, res: Res, o: int, v: Val, r: Regs, f: int)
    requires OperandIs(m, res, o, v, r, f)
    ensures res.End? && Keep(r, res.regs, f, -1) && RK(m, res.regs, o) == v
  {}

  lemma KeepLess(r1: Regs, r2: Regs, f1: int, f2: int)
    requires Keep(r1, r2, f1, -1) && f2 <= f1
    ensures Keep(r1, r2, f2, -1)
  {}

  lemma OperandChain(m: Machine, fs0: Fs, fs2: Fs, e1: Exp, o1: int, o2: int, q: Regs, a: Regs, y: Res, x: Regs,
                     v1: Val, v2: Val)
    requires Keep(x, q, fs0.freereg, -1) && Keep(q, a, fs2.freereg, -1) && y.End? && Keep(a, y.regs, fs2.freereg, -1)
    requires RK(m, q, o1) == v1 && RK(m, y.regs, o2) == v2 && OperandShape(fs0, fs2, e1, o1)
    requires fs0.nactvar <= fs0.freereg <= fs2.freereg
    ensures OperandIs(m, y, o1, v1, x, fs0.freereg) && OperandIs(m, y, o2, v2, x, fs0.freereg)
  {}

  /** freeexp of both operands. */
  lemma FreedBoth(fs0: Fs, fs2: Fs, e1: Exp, o1: int, g2: Fs, e2: Exp, o2: int)
    requires OperandShape(fs0, fs2, e1, o1) && OperandShape(fs2, g2, e2, o2)
    requires fs0.nactvar == fs2.nactvar == g2.nactvar && fs0.nactvar <= fs0.freereg && g2.freereg < MAX_STACK
    ensures FreeExp(FreeExp(g2, e2), e1) == g2.(freereg := fs0.freereg)
  {}

  /** An operand stays one. */
  lemma RKAgain(fs0: Fs, fs: Fs, d: Exp, o: int, g: Fs)
    requires OperandShape(fs0, fs, d, o)
    ensures Exp2RK(g, d) == (g, d, o)
  {}

  function CmpInstr(op: RelOp, o1: int, o2: int): Instr {
    var (c, cond) := RelCode(op);
    if !cond && c != Eq then Cmp(c, true, o2, o1) else Cmp(c, cond, o1, o2)
  }

  lemma CmpDecides(m: Machine, op: RelOp, o1: int, o2: int, r: Regs)
    ensures Taken(m, CmpInstr(op, o1, o2), r) == RelValue(m, op, RK(m, r, o1), RK(m, r, o2))
  {}

  lemma CmpDenotes(m: Machine, fs0: Fs, fs2: Fs, e1: Exp, o1: int, l: Expr, g2: Fs, e2: Exp, o2: int, r: Expr,
                   op: RelOp, b: Fs)
    requires RkBody(m, fs0, fs2, e1, o1, l) && RkBody(m, fs2, g2, e2, o2, r) && WellFormed(r, fs0.nactvar)
    requires b == g2.(freereg := fs0.freereg) && Wf(b, |fs0.code|) && e1.t == {} && e1.f == {}
    ensures var g := CondJump(b, CmpInstr(op, o1, o2)).0;
            Denotes(m, fs0, g, e1.(k := VJmp, info := |b.code| + 1), ECmp(op, l, r), -1)
  {
    hide RkBody, RunTo, Entry, Wf, CondJump, CmpInstr, Ext;
    var n0, f := |fs0.code|, fs0.freereg;
    var i := CmpInstr(op, o1, o2);
    assert i.Cmp? by { CmpIs(op, o1, o2); }
    var g := CondJump(b, i).0;
    var d := e1.(k := VJmp, info := |b.code| + 1);
    RkParts(m, fs0, fs2, e1, o1, l);
    RkParts(m, fs2, g2, e2, o2, r);
    CondJumpExt(b, i, n0, f, -1);
    if g.k <= m.k {
      forall x | Entry(g.code, n0, fs0.lasttarget, fs0.nactvar, x)
        ensures Outcome(m, g, d, RunTo(m, Base(g, d), n0, x), Eval(m, ECmp(op, l, r), x), x, f, -1)
      {
        EntryBack(b, g, n0, fs0.lasttarget, fs0.nactvar, f, -1, x) by { WfJpc(b, n0); }
        PairRun(m, fs0, fs2, e1, o1, l, g2, e2, o2, r, x);
        SameRun(m, g2, b, n0, x);
        CondJumpRun(m, b, i, n0, x);
        CmpDecides(m, op, o1, o2, RunTo(m, b, n0, x).regs);
      }
    }
  }

  lemma WfJpc(fs: Fs, n0: nat)
    requires Wf(fs, n0)
    ensures JpcOk(fs)
  {}

  lemma CmpIs(op: RelOp, o1: int, o2: int)
    ensures CmpInstr(op, o1, o2).Cmp?
  {}

  lemma SameRun(m: Machine, a: Fs, b: Fs, n0: nat, r: Regs)
    requires a.code == b.code && a.jpc == b.jpc
    ensures RunTo(m, a, n0, r) == RunTo(m, b, n0, r)
  {}

  /** codecomp: jumps when the comparison is true, falls through when it is false. */
  lemma CompGood(m: Machine, fs0: Fs, fs2: Fs, e1: Exp, o1: int, l: Expr, fs3: Fs, d3: Exp, r: Expr, op: RelOp)
    requires RkBody(m, fs0, fs2, e1, o1, l) && Good(m, fs2, fs3, d3, r) && WellFormed(r, fs0.nactvar)
    requires !CodeComp(fs3, op, e1, d3).0.err
    ensures Good(m, fs0, CodeComp(fs3, op, e1, d3).0, CodeComp(fs3, op, e1, d3).1, ECmp(op, l, r))
  {
    hide RkBody, Good, Exp2RK, CondJump, CmpInstr;
    RkParts(m, fs0, fs2, e1, o1, l);
    RKAgain(fs0, fs2, e1, o1, fs3);
    var (g2, e2, o2) := Exp2RK(fs3, d3);
    var b := FreeExp(FreeExp(g2, e2), e1);
    var i := CmpInstr(op, o1, o2);
    assert CodeComp(fs3, op, e1, d3) == (CondJump(b, i).0, e1.(k := VJmp, info := |b.code| + 1)) by { CompIs(fs3, op, e1, d3, o1); }
    CmpIs(op, o1, o2);
    CondJumpErr(b, i);
    Exp2RKBody(m, fs2, fs3, d3, r);
    CompFinish(m, fs0, fs2, e1, o1, l, g2, e2, o2, r, op);
  }

  lemma CondJumpErr(b: Fs, i: Instr)
    ensures CondJump(b, i).0.err == b.err
  {}

  lemma CompIs(fs: Fs, op: RelOp, d1: Exp, d2: Exp, o1: int)
    requires Exp2RK(fs, d1) == (fs, d1, o1)
    ensures var (g2, e2, o2) := Exp2RK(fs, d2);
            var b := FreeExp(FreeExp(g2, e2), d1);
            CodeComp(fs, op, d1, d2) == (CondJump(b, CmpInstr(op, o1, o2)).0, d1.(k := VJmp, info := |b.code| + 1))
  {
    hide Exp2RK, CondJump, FreeExp;
  }

  lemma CompFinish(m: Machine, fs0: Fs, fs2: Fs, e1: Exp, o1: int, l: Expr, g2: Fs, e2: Exp, o2: int, r: Expr,
                   op: RelOp)
    requires RkBody(m, fs0, fs2, e1, o1, l) && RkBody(m, fs2, g2, e2, o2, r) && WellFormed(r, fs0.nactvar)
    ensures var b := FreeExp(FreeExp(g2, e2), e1);
            Good(m, fs0, CondJump(b, CmpInstr(op, o1, o2)).0, e1.(k := VJmp, info := |b.code| + 1), ECmp(op, l, r))
  {
    hide Denotes, Operand, FreeExp, CondJump, CmpInstr, WfAt, ExtAt;
    var n0, f := |fs0.code|, fs0.freereg;
    FreedBoth(fs0, fs2, e1, o1, g2, e2, o2);
    var b := g2.(freereg := f);
    WfLower(g2, |fs2.code|, |fs0.code|, fs2, fs2.freereg, -1);
    ExtLower(fs2, g2, fs2.freereg, f, -1);
    ExtTrans(fs0, fs2, g2, n0, f, -1);
    ExtCode(fs0, g2, b, f, -1);
    var i := CmpInstr(op, o1, o2);
    CmpIs(op, o1, o2);
    CondJumpExt(b, i, n0, f, -1);
    ExtTrans(fs0, b, CondJump(b, i).0, n0, f, -1);
    CmpDenotes(m, fs0, fs2, e1, o1, l, g2, e2, o2, r, op, b);
  }
}
