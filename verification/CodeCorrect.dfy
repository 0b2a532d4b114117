/** The code generated for an expression computes its value. */
module CodeCorrect {
  import opened CodeVm
  import opened CodeGen
  import opened CodeRun
  import opened CodeExt
  import opened CodeOps
  import opened CodeGood
  import opened CodeFill
  import opened CodeCond
  import opened CodeLogic
  import opened CodeCompose
  import opened CodeRel

  /** A state in which an expression can be compiled. */
  predicate Ready(fs: Fs) { Wf(fs, |fs.code|) && !fs.err }

  /** Expressions that emit nothing. */
  lemma LeafGood(m: Machine, fs0: Fs, fs: Fs, d: Exp, e: Expr)
    requires Wf(fs0, |fs0.code|) && fs == fs0.(k := fs.k, err := fs.err) && fs0.k <= fs.k && d.t == {} && d.f == {}
    requires d.k != VReloc && d.k != VJmp && Shape(fs, d, |fs0.code|)
    requires fs.k <= m.k ==> forall r: Regs :: ValueAt(m, fs, d, r) == Eval(m, e, r)
    ensures Good(m, fs0, fs, d, e)
  {
    hide ValueAt, Eval;
    ExtRefl(fs0, fs0.freereg, -1);
    ExtCode(fs0, fs0, fs, fs0.freereg, -1);
  }

  /** Compiling an expression: for all expressions, every run yields the value the expression has. */
  lemma {:induction false} CompileGood(m: Machine, fs0: Fs, e: Expr)
    requires Wf(fs0, |fs0.code|) && WellFormed(e, fs0.nactvar) && !Compile(fs0, e).0.err
    ensures Good(m, fs0, Compile(fs0, e).0, Compile(fs0, e).1, e)
    decreases e
  {
    hide Good, Wf, CodeNot, GoIfTrue, GoIfFalse, CodeComp, Exp2RK, CondBody, RkBody;
    match e
    case EParen(e1) =>
      CompileGood(m, fs0, e1);
      LocalGood(m, fs0, Compile(fs0, e1).0, Compile(fs0, e1).1, e1);
      ParenGood(m, fs0, Compile(fs0, e).0, Compile(fs0, e).1, e1);
    case ENot(e1) =>
      CompileGood(m, fs0, e1);
      NotGood(m, fs0, Compile(fs0, e1).0, Compile(fs0, e1).1, e1);
    case EAnd(l, r) => BinaryGood(m, fs0, l, r, false);
    case EOr(l, r) => BinaryGood(m, fs0, l, r, true);
    case ECmp(op, l, r) =>
      CompileGood(m, fs0, l);
      var (fs1, d1) := Compile(fs0, l);
      var (fs2, e1, o1) := Exp2RK(fs1, d1);
      Exp2RKBody(m, fs0, fs1, d1, l);
      RkParts(m, fs0, fs2, e1, o1, l);
      var (fs3, d3) := Compile(fs2, r);
      WfEnd(fs2, |fs0.code|);
      CompileGood(m, fs2, r);
      CompGood(m, fs0, fs2, e1, o1, l, fs3, d3, r, op);
    case _ => CompileLeaf(m, fs0, e);
  }

  lemma CompileLeaf(m: Machine, fs0: Fs, e: Expr)
    requires Wf(fs0, |fs0.code|) && WellFormed(e, fs0.nactvar)
    requires !e.EParen? && !e.ENot? && !e.EAnd? && !e.EOr? && !e.ECmp?
    ensures Good(m, fs0, Compile(fs0, e).0, Compile(fs0, e).1, e)
  {
    hide Good, Wf;
    LeafGood(m, fs0, Compile(fs0, e).0, Compile(fs0, e).1, e);
  }

  /** Parentheses do not change the value. */
  lemma ParenGood(m: Machine, fs0: Fs, fs: Fs, d: Exp, e: Expr)
    requires Good(m, fs0, fs, d, e)
    ensures Good(m, fs0, fs, d, EParen(e))
  {
    hide Wf, Ext, Lists, Shape, Outcome;
    assert forall r :: Eval(m, EParen(e), r) == Eval(m, e, r);
  }

  lemma WfEnd(fs: Fs, n0: nat)
    requires Wf(fs, n0)
    ensures Wf(fs, |fs.code|)
  {
    assert |fs.code| > n0 ==> WfAt(fs.code, fs.lasttarget, |fs.code| - 1);
  }

  lemma EitherUnfold(fs: Fs, l: Expr, r: Expr, cond: bool)
    ensures var (fs1, d1) := Compile(fs, l);
            var (fs2, d2) := if cond then GoIfFalse(fs1, d1) else GoIfTrue(fs1, d1);
            var (fs3, d3) := Compile(fs2, r);
            Compile(fs, Either(l, r, cond)) == (fs3, Merge(DischargeVars(d3), d2, cond))
  {
    hide GoIfTrue, GoIfFalse, Compile, DischargeVars;
    BinUnfold(fs, if cond then OrOp else AndOp, l, r);
  }

  lemma {:induction false} BinaryGood(m: Machine, fs0: Fs, l: Expr, r: Expr, cond: bool)
    requires Wf(fs0, |fs0.code|) && WellFormed(l, fs0.nactvar) && WellFormed(r, fs0.nactvar)
    requires !Compile(fs0, Either(l, r, cond)).0.err
    ensures Good(m, fs0, Compile(fs0, Either(l, r, cond)).0, Compile(fs0, Either(l, r, cond)).1, Either(l, r, cond))
    decreases Either(l, r, cond), 0
  {
    hide Good, Wf, GoIfTrue, GoIfFalse, CondBody, Compile;
    EitherUnfold(fs0, l, r, cond);
    var (fs1, d1) := Compile(fs0, l);
    var (fs2, d2) := if cond then GoIfFalse(fs1, d1) else GoIfTrue(fs1, d1);
    var (fs3, d3) := Compile(fs2, r);
    CompileGood(m, fs0, l);
    GoIfSplits(m, fs0, fs1, d1, l, cond);
    CondParts(m, fs0, fs2, d2, l, cond);
    WfEnd(fs2, |fs0.code|);
    CompileGood(m, fs2, r);
    LocalGood(m, fs2, fs3, d3, r);
    EitherGood(m, fs0, fs2, d2, l, fs3, DischargeVars(d3), r, cond);
  }

  // ---------------------------------------------------------------- main results

  /** Running all of `fs` from `n`, with `r` in the registers, comes to its end with `v` in `reg`, and
      no other register below `f` changed. */
  predicate Delivers(m: Machine, fs: Fs, n: int, r: Regs, reg: int, v: Val, f: int) {
    var o := RunTo(m, fs, n, r);
    o.End? && Get(o.regs, reg) == v && forall i | 0 <= i < f && i < NUM_REGS && i != reg :: o.regs[i] == r[i]
  }

  lemma DeliversBody(m: Machine, fs0: Fs, fs: Fs, d: Exp, e: Expr, ex: int, r: Regs)
    requires Body(m, fs0, fs, d, e, ex) && d.k == VNonReloc && d.t == {} && d.f == {} && (ex == -1 || ex == d.info)
    requires fs.k <= m.k && Entry(fs.code, |fs0.code|, fs0.lasttarget, fs0.nactvar, r)
    ensures Delivers(m, fs, |fs0.code|, r, d.info, Eval(m, e, r), fs0.freereg)
  {
    hide WfAt, ExtAt;
    DenotesAt(m, fs0, fs, d, e, ex, r);
  }

  /** gafqK_exp2nextreg after compiling: the value is in the first free register, and no local has
      changed, whatever the registers hold and whatever comparison means. */
  lemma NextRegCorrect(m: Machine, fs0: Fs, e: Expr, r: Regs)
    requires Ready(fs0) && WellFormed(e, fs0.nactvar)
    requires var (fs, d) := Compile(fs0, e); var g := Exp2NextReg(fs, d).0;
             !g.err && g.k <= m.k && Entry(g.code, |fs0.code|, fs0.lasttarget, fs0.nactvar, r)
    ensures var (fs, d) := Compile(fs0, e); var (g, x) := Exp2NextReg(fs, d);
            x == Exp(VNonReloc, fs0.freereg, d.num, {}, {}) &&
            Delivers(m, g, |fs0.code|, r, fs0.freereg, Eval(m, e, r), fs0.freereg)
  {
    hide Good, Body, Compile, Exp2NextReg, Entry, Delivers;
    var (fs, d) := Compile(fs0, e);
    CompileGood(m, fs0, e);
    NextRegBody(m, fs0, fs, d, e);
    var (g, x) := Exp2NextReg(fs, d);
    DeliversBody(m, fs0, g, x, e, -1, r);
  }

  /** gafqK_storevar for a local: the local has the value, and no other register in use has changed. */
  function StoreLocal(fs: Fs, d: Exp, local: int): Fs { Exp2Reg(FreeExp(fs, d), d, local).0 }

  lemma StoreLocalCorrect(m: Machine, fs0: Fs, e: Expr, local: int, r: Regs)
    requires Ready(fs0) && WellFormed(e, fs0.nactvar) && 0 <= local < fs0.nactvar
    requires var (fs, d) := Compile(fs0, e); var g := StoreLocal(fs, d, local);
             !g.err && g.k <= m.k && Entry(g.code, |fs0.code|, fs0.lasttarget, fs0.nactvar, r)
    ensures var (fs, d) := Compile(fs0, e);
            Delivers(m, StoreLocal(fs, d, local), |fs0.code|, r, local, Eval(m, e, r), fs0.freereg)
  {
    hide Good, Body, Compile, Exp2Reg, Entry, Delivers, Wf, Denotes, Lists, Ext;
    var (fs, d) := Compile(fs0, e);
    FreeErr(fs, d);
    CompileGood(m, fs0, e);
    GoodParts(m, fs0, fs, d, e);
    GoodBody(m, fs0, fs, d, e);
    if d.k == VNonReloc { NoFree(fs, d, |fs0.code|); }
    LocalRange(fs0);
    Exp2RegBody(m, fs0, fs, d, e, local, local);
    DeliversBody(m, fs0, StoreLocal(fs, d, local), Exp(VNonReloc, local, d.num, {}, {}), e, local, r);
  }

  lemma LocalRange(fs: Fs)
    requires Wf(fs, |fs.code|)
    ensures fs.nactvar < MAX_STACK
  {}

  lemma FreeErr(fs: Fs, d: Exp)
    ensures FreeExp(fs, d).err == fs.err && FreeExp(fs, d).k == fs.k
  {}

  /** gafqK_goiftrue after compiling: control goes on exactly when the value is true, and reaches the
      false list exactly when it is nil or false; no register in use has changed. */
  lemma GoIfTrueCorrect(m: Machine, fs0: Fs, e: Expr, r: Regs)
    requires Ready(fs0) && WellFormed(e, fs0.nactvar)
    requires var (fs, d) := Compile(fs0, e); var g := GoIfTrue(fs, d).0;
             !g.err && g.k <= m.k && Entry(g.code, |fs0.code|, fs0.lasttarget, fs0.nactvar, r)
    ensures var (fs, d) := Compile(fs0, e); var (g, x) := GoIfTrue(fs, d);
            var o := RunTo(m, g, |fs0.code|, r);
            !o.Bad? && x.t == {} && (o.End? <==> !Falsy(Eval(m, e, r))) &&
            ((o.Pend? && o.jump in x.f) <==> Falsy(Eval(m, e, r))) && Keep(r, o.regs, fs0.freereg, -1)
  {
    hide Good, CondBody, Compile, GoIfTrue, Entry, Wf;
    var (fs, d) := Compile(fs0, e);
    CompileGood(m, fs0, e);
    GoIfSplits(m, fs0, fs, d, e, false);
    var (g, x) := GoIfTrue(fs, d);
    CondParts(m, fs0, g, x, e, false);
    BranchesAt(m, fs0, g, x, e, false, r);
  }

  lemma GoIfFalseCorrect(m: Machine, fs0: Fs, e: Expr, r: Regs)
    requires Ready(fs0) && WellFormed(e, fs0.nactvar)
    requires var (fs, d) := Compile(fs0, e); var g := GoIfFalse(fs, d).0;
             !g.err && g.k <= m.k && Entry(g.code, |fs0.code|, fs0.lasttarget, fs0.nactvar, r)
    ensures var (fs, d) := Compile(fs0, e); var (g, x) := GoIfFalse(fs, d);
            var o := RunTo(m, g, |fs0.code|, r);
            !o.Bad? && x.f == {} && (o.End? <==> Falsy(Eval(m, e, r))) &&
            ((o.Pend? && o.jump in x.t) <==> !Falsy(Eval(m, e, r))) && Keep(r, o.regs, fs0.freereg, -1)
  {
    hide Good, CondBody, Compile, GoIfFalse, Entry, Wf;
    var (fs, d) := Compile(fs0, e);
    CompileGood(m, fs0, e);
    GoIfSplits(m, fs0, fs, d, e, true);
    var (g, x) := GoIfFalse(fs, d);
    CondParts(m, fs0, g, x, e, true);
    BranchesAt(m, fs0, g, x, e, true, r);
  }
}
