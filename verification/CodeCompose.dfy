/** Composing the code of operands: and / or, and comparisons. */
module CodeCompose {
  import opened CodeVm
  import opened CodeGen
  import opened CodeRun
  import opened CodeExt
  import opened CodeOps
  import opened CodeGood
  import opened CodeFill
  import opened CodeCond
  import opened CodeLogic

  /** The value of an expression depends on the active locals only. */
  lemma {:induction false} EvalKeep(m: Machine, e: Expr, nactvar: int, r1: Regs, r2: Regs, f: int)
    requires WellFormed(e, nactvar) && nactvar <= f && Keep(r1, r2, f, -1)
    ensures Eval(m, e, r1) == Eval(m, e, r2)
  {
    match e
    case EParen(e1) => EvalKeep(m, e1, nactvar, r1, r2, f);
    case ENot(e1) => EvalKeep(m, e1, nactvar, r1, r2, f);
    case EAnd(l, r) => EvalKeep(m, l, nactvar, r1, r2, f); EvalKeep(m, r, nactvar, r1, r2, f);
    case EOr(l, r) => EvalKeep(m, l, nactvar, r1, r2, f); EvalKeep(m, r, nactvar, r1, r2, f);
    case ECmp(_, l, r) => EvalKeep(m, l, nactvar, r1, r2, f); EvalKeep(m, r, nactvar, r1, r2, f);
    case _ =>
  }

  // ---------------------------------------------------------------- and, or

  function Merge(d3: Exp, d2: Exp, cond: bool): Exp { if cond then d3.(t := d3.t + d2.t) else d3.(f := d3.f + d2.f) }

  function Either(l: Expr, r: Expr, cond: bool): Expr { if cond then EOr(l, r) else EAnd(l, r) }

  lemma MergeLists(fs0: Fs, fs2: Fs, d2: Exp, fs3: Fs, d3: Exp, cond: bool, f: int)
    requires Wf(fs2, |fs0.code|) && Lists(fs2, d2, |fs0.code|) && Ext(fs2, fs3, f, -1) && Lists(fs3, d3, |fs2.code|)
    requires Closing(d2, cond) == {} && Shape(fs3, d3, |fs2.code|)
    ensures Lists(fs3, Merge(d3, d2, cond), |fs0.code|) && Shape(fs3, Merge(d3, d2, cond), |fs0.code|)
  {
    ListsExt(fs2, fs3, d2, |fs0.code|, f, -1);
    var d := Merge(d3, d2, cond);
    assert forall j | j in d.t + d.f :: j in d2.t + d2.f || j in d3.t + d3.f;
    assert forall j | j in d2.t + d2.f :: j < |fs2.code|;
    assert forall j | j in d3.t + d3.f :: j >= |fs2.code|;
  }

  /** The second operand runs when the first did not decide. */
  lemma EitherGood(m: Machine, fs0: Fs, fs2: Fs, d2: Exp, l: Expr, fs3: Fs, d3: Exp, r: Expr, cond: bool)
    requires CondBody(m, fs0, fs2, d2, l, cond) && Closing(d2, cond) == {} && Good(m, fs2, fs3, d3, r)
    requires WellFormed(r, fs0.nactvar)
    ensures Good(m, fs0, fs3, Merge(d3, d2, cond), Either(l, r, cond))
  {
    hide Denotes, Branches, WfAt, ExtAt, Shape;
    var n0, f := |fs0.code|, fs0.freereg;
    var d := Merge(d3, d2, cond);
    assert Base(fs3, d) == Base(fs3, d3);
    BaseWf(fs3, d3, |fs2.code|);
    WfLower(fs3, |fs2.code|, |fs0.code|, fs2, f, -1);
    ExtTrans(fs0, fs2, fs3, n0, f, -1);
    ExtTrans(fs0, fs2, Base(fs3, d3), n0, f, -1);
    MergeLists(fs0, fs2, d2, fs3, d3, cond, f);
    assert Denotes(m, fs0, fs3, d, Either(l, r, cond), -1) by { EitherDenotes(m, fs0, fs2, d2, l, fs3, d3, r, cond); }
  }

  /** Code that extends well-formed code is well formed from the earlier start. */
  lemma WfLower(fs3: Fs, n2: nat, n0: nat, fs2: Fs, f: int, ex: int)
    requires Wf(fs3, n2) && n2 == |fs2.code| && Wf(fs2, n0) && Ext(fs2, fs3, f, ex)
    ensures Wf(fs3, n0)
  {
    assert |fs2.code| > n0 ==> WfAt(fs2.code, fs2.lasttarget, n2 - 1);
    forall i | 0 <= i < n2 ensures IsTest(fs3.code[i]) == IsTest(fs2.code[i]) && fs3.code[i].Jmp? == fs2.code[i].Jmp? {
      assert ExtAt(fs2, fs3, f, ex, i);
    }
    forall i | n0 <= i < |fs3.code| ensures WfAt(fs3.code, fs3.lasttarget, i) {
      if i >= n2 { assert WfAt(fs3.code, fs3.lasttarget, i); }
      else {
        assert WfAt(fs2.code, fs2.lasttarget, i) && ExtAt(fs2, fs3, f, ex, i);
        if i + 1 < n2 { assert ExtAt(fs2, fs3, f, ex, i + 1); }
      }
    }
  }

  lemma EitherDenotes(m: Machine, fs0: Fs, fs2: Fs, d2: Exp, l: Expr, fs3: Fs, d3: Exp, r: Expr, cond: bool)
    requires CondBody(m, fs0, fs2, d2, l, cond) && Closing(d2, cond) == {} && Good(m, fs2, fs3, d3, r)
    requires WellFormed(r, fs0.nactvar)
    ensures Denotes(m, fs0, fs3, Merge(d3, d2, cond), Either(l, r, cond), -1)
  {
    hide Outcome, Entry, Eval, RunTo, CondBody, Good;
    var n0, f := |fs0.code|, fs0.freereg;
    var d := Merge(d3, d2, cond);
    if fs3.k <= m.k {
      forall x | Entry(fs3.code, n0, fs0.lasttarget, fs0.nactvar, x)
        ensures Outcome(m, fs3, d, RunTo(m, Base(fs3, d), n0, x), Eval(m, Either(l, r, cond), x), x, f, -1)
      {
        assert Base(fs3, d) == Base(fs3, d3);
        EitherRun(m, fs0, fs2, d2, l, fs3, d3, r, cond, x);
      }
    }
  }

  /** One run through both operands. */
  lemma EitherRun(m: Machine, fs0: Fs, fs2: Fs, d2: Exp, l: Expr, fs3: Fs, d3: Exp, r: Expr, cond: bool, x: Regs)
    requires CondBody(m, fs0, fs2, d2, l, cond) && Closing(d2, cond) == {} && Good(m, fs2, fs3, d3, r)
    requires WellFormed(r, fs0.nactvar) && fs3.k <= m.k && Entry(fs3.code, |fs0.code|, fs0.lasttarget, fs0.nactvar, x)
    ensures Outcome(m, fs3, Merge(d3, d2, cond), RunTo(m, Base(fs3, d3), |fs0.code|, x), Eval(m, Either(l, r, cond), x), x, fs0.freereg, -1)
  {
    hide Good, CondBody, Outcome, Split, Entry, RunTo, Keep, Merge, Ext, Wf, Denotes, Branches, Lists, Shape, Closing;
    hide Arrived, WellFormed, Eval, Either;
    var n0, f := |fs0.code|, fs0.freereg;
    var b := Base(fs3, d3);
    CondParts(m, fs0, fs2, d2, l, cond);
    GoodParts(m, fs2, fs3, d3, r);
    PrefixTrans(fs2.k, fs3.k, m.k);
    EitherValue(m, l, r, x, cond);
    EntryPrefix(b.code, fs3.code, n0, fs0.lasttarget, fs0.nactvar, x);
    EntryBack(fs2, b, n0, fs0.lasttarget, fs0.nactvar, f, -1, x);
    var o2, v := RunTo(m, fs2, n0, x), Eval(m, l, x);
    BranchesAt(m, fs0, fs2, d2, l, cond, x);
    ExitRange(m, fs2, n0, x);
    RunToExt(m, fs2, b, n0, f, -1, x);
    if o2.Pend? {
      EitherExit(m, fs2, d2, fs3, d3, n0, o2, v, x, f, cond);
      SplitExit(fs2, d2, o2, v, x, f, cond);
    } else {
      SplitEnd(fs2, d2, o2, v, x, f, cond);
      var a := Arrived(m, fs2, b, n0, x);
      ArrivedKeeps(m, fs2, b, n0, fs0.lasttarget, f, -1, x);
      EntryPrefix(b.code, fs3.code, |fs2.code|, fs2.lasttarget, fs2.nactvar, a);
      DenotesAt(m, fs2, fs3, d3, r, -1, a);
      KeepTrans(x, o2.regs, a, f);
      EvalKeep(m, r, fs0.nactvar, x, a, f);
      EitherEnd(m, fs3, d3, d2, RunTo(m, b, |fs2.code|, a), Eval(m, r, x), x, a, f, cond);
    }
  }

  lemma DenotesAt(m: Machine, fs0: Fs, fs: Fs, d: Exp, e: Expr, ex: int, r: Regs)
    requires Denotes(m, fs0, fs, d, e, ex) && fs.k <= m.k && Entry(fs.code, |fs0.code|, fs0.lasttarget, fs0.nactvar, r)
    ensures Outcome(m, fs, d, RunTo(m, Base(fs, d), |fs0.code|, r), Eval(m, e, r), r, fs0.freereg, ex)
  {}

  lemma BranchesAt(m: Machine, fs0: Fs, fs: Fs, d: Exp, e: Expr, cond: bool, r: Regs)
    requires Branches(m, fs0, fs, d, e, cond) && fs.k <= m.k
    requires Entry(fs.code, |fs0.code|, fs0.lasttarget, fs0.nactvar, r)
    ensures Split(fs, d, RunTo(m, fs, |fs0.code|, r), Eval(m, e, r), r, fs0.freereg, cond)
  {}

  lemma CondParts(m: Machine, fs0: Fs, fs: Fs, d: Exp, e: Expr, cond: bool)
    requires CondBody(m, fs0, fs, d, e, cond)
    ensures Wf(fs0, |fs0.code|) && Wf(fs, |fs0.code|) && Ext(fs0, fs, fs0.freereg, -1) && JpcOk(fs)
    ensures |fs0.code| <= |fs.code|
    ensures fs.freereg == fs0.freereg && fs.nactvar == fs0.nactvar && fs0.lasttarget <= fs.lasttarget && fs0.k <= fs.k
    ensures Branches(m, fs0, fs, d, e, cond) && Lists(fs, d, |fs0.code|) && 0 <= fs0.nactvar <= fs0.freereg
  {}

  lemma GoodParts(m: Machine, fs0: Fs, fs: Fs, d: Exp, e: Expr)
    requires Good(m, fs0, fs, d, e)
    ensures var b := Base(fs, d);
            Wf(b, |fs0.code|) && Ext(fs0, b, fs0.freereg, -1) && b.code <= fs.code && |fs0.code| <= |b.code| &&
            fs0.k <= b.k == fs.k &&
            b.nactvar == fs.nactvar && b.freereg == fs.freereg && b.lasttarget == fs.lasttarget
    ensures Wf(fs0, |fs0.code|) && Wf(fs, |fs0.code|) && Ext(fs0, fs, fs0.freereg, -1) && fs0.k <= fs.k
    ensures fs.freereg == fs0.freereg && fs.nactvar == fs0.nactvar && fs0.lasttarget <= fs.lasttarget
    ensures Denotes(m, fs0, fs, d, e, -1) && Lists(fs, d, |fs0.code|) && Shape(fs, d, |fs0.code|)
  {
    hide Denotes, Lists, ExtAt, WfAt;
    BaseWf(fs, d, |fs0.code|);
  }

  lemma EitherValue(m: Machine, l: Expr, r: Expr, x: Regs, cond: bool)
    ensures Eval(m, Either(l, r, cond), x) == if Falsy(Eval(m, l, x)) == cond then Eval(m, r, x) else Eval(m, l, x)
  {}

  lemma PrefixTrans(a: seq<Val>, b: seq<Val>, c: seq<Val>)
    requires a <= b <= c
    ensures a <= c
  {}

  lemma KeepTrans(r1: Regs, r2: Regs, r3: Regs, f: int)
    requires Keep(r1, r2, f, -1) && Keep(r2, r3, f, -1)
    ensures Keep(r1, r3, f, -1)
  {}

  lemma SplitEnd(fs: Fs, d: Exp, o: Res, v: Val, r: Regs, f: int, cond: bool)
    requires Split(fs, d, o, v, r, f, cond) && o.End?
    ensures Keep(r, o.regs, f, -1) && Falsy(v) == cond
  {}

  lemma SplitExit(fs: Fs, d: Exp, o: Res, v: Val, r: Regs, f: int, cond: bool)
    requires Split(fs, d, o, v, r, f, cond) && o.Pend? && Closing(d, cond) == {}
    ensures Falsy(v) != cond
  {}

  lemma EitherExit(m: Machine, fs2: Fs, d2: Exp, fs3: Fs, d3: Exp, n0: nat, o: Res, v: Val, r: Regs, f: int, cond: bool)
    requires Wf(fs2, n0) && Split(fs2, d2, o, v, r, f, cond) && Closing(d2, cond) == {} && Ext(fs2, fs3, f, -1)
    requires o.Pend? && n0 <= o.jump < |fs2.code| && o.jump !in fs2.jpc
    ensures Outcome(m, fs3, Merge(d3, d2, cond), o, v, r, f, -1)
  {
    ExitValExt(fs2, fs3, n0, f, -1, o.jump, o.regs, v, !Falsy(v));
  }

  lemma EitherEnd(m: Machine, fs3: Fs, d3: Exp, d2: Exp, o: Res, v: Val, r: Regs, a: Regs, f: int, cond: bool)
    requires Outcome(m, fs3, d3, o, v, a, f, -1) && Keep(r, a, f, -1)
    ensures Outcome(m, fs3, Merge(d3, d2, cond), o, v, r, f, -1)
  {}
}
