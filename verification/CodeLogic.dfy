/** goiftrue, goiffalse, codenot, and the composition of and / or. */
module CodeLogic {
  import opened CodeVm
  import opened CodeGen
  import opened CodeRun
  import opened CodeExt
  import opened CodeOps
  import opened CodeGood
  import opened CodeCond

  function Close(d: Exp, cond: bool): Exp { if cond then d.(f := {}) else d.(t := {}) }

  function Closing(d: Exp, cond: bool): set<int> { if cond then d.f else d.t }

  /** The jumps that leave on the other value come to the end. */
  lemma PatchSplits(m: Machine, fs0: Fs, fs: Fs, d: Exp, e: Expr, cond: bool)
    requires CondBody(m, fs0, fs, d, e, cond)
    ensures CondBody(m, fs0, PatchToHere(fs, Closing(d, cond)), Close(d, cond), e, cond)
  {
    hide ExtAt, WfAt;
    var n0 := |fs0.code|;
    var list, d1 := Closing(d, cond), Close(d, cond);
    var g := PatchToHere(fs, list);
    assert forall j | j in list :: j in d.t + d.f;
    PatchToHereWf(fs, list, n0);
    HereExt(fs0, fs, list, fs0.freereg);
    assert forall j | j in d1.t + d1.f :: j in d.t + d.f && j !in list;
    if g.k <= m.k {
      forall r | Entry(g.code, n0, fs0.lasttarget, fs0.nactvar, r)
        ensures Split(g, d1, RunTo(m, g, n0, r), Eval(m, e, r), r, fs0.freereg, cond)
      {
        assert Split(fs, d, RunTo(m, fs, n0, r), Eval(m, e, r), r, fs0.freereg, cond);
        PatchToHereRun(m, fs, list, n0, r);
      }
    }
  }

  lemma HereExt(fs0: Fs, fs: Fs, list: set<int>, f: int)
    requires Ext(fs0, fs, f, -1) && fs.lasttarget <= |fs.code| && forall j | j in list :: |fs0.code| <= j < |fs.code|
    ensures Ext(fs0, PatchToHere(fs, list), f, -1)
  {
    var g := PatchToHere(fs, list);
    if |fs.code| == |fs0.code| {
      assert forall j :: j !in list;
      assert list == {};
      assert g.jpc == fs.jpc;
    }
    forall i | 0 <= i < |fs0.code| ensures ExtAt(fs0, g, f, -1, i) { assert ExtAt(fs0, fs, f, -1, i); }
  }

  /** Discharging a local changes nothing else. */
  lemma LocalGood(m: Machine, fs0: Fs, fs: Fs, d: Exp, e: Expr)
    requires Good(m, fs0, fs, d, e)
    ensures Good(m, fs0, fs, DischargeVars(d), e)
  {
    hide Ext, Wf, Denotes;
    if d.k == VLocal { SameBody(m, fs0, fs, d, e, -1); }
  }

  /** gafqK_goiftrue (`cond` false) and gafqK_goiffalse (`cond` true): control goes on exactly when the
      value has the wanted truth, and otherwise leaves by the remaining list. */
  lemma GoIfSplits(m: Machine, fs0: Fs, fs: Fs, d: Exp, e: Expr, cond: bool)
    requires Good(m, fs0, fs, d, e)
    requires !(if cond then GoIfFalse(fs, d) else GoIfTrue(fs, d)).0.err
    ensures var (g, d1) := if cond then GoIfFalse(fs, d) else GoIfTrue(fs, d);
            CondBody(m, fs0, g, d1, e, cond) && Closing(d1, cond) == {}
  {
    hide Good, CondBody, JumpOnCond, InvertJump;
    LocalGood(m, fs0, fs, d, e);
    var d0 := DischargeVars(d);
    if if cond then d0.k == VNil || d0.k == VFalse else d0.k == VTrue || d0.k == VK || d0.k == VKNum {
      ConstSplits(m, fs0, fs, d0, e, cond);
      assert Join(d0, {}, cond) == d0;
      PatchSplits(m, fs0, fs, d0, e, cond);
    } else if d0.k == VJmp {
      JumpSplits(m, fs0, fs, d0, e, cond);
      PatchSplits(m, fs0, if cond then fs else InvertJump(fs, d0.info), Join(d0, {d0.info}, cond), e, cond);
    } else {
      JumpOnCondSplits(m, fs0, fs, d0, e, cond);
      var (g, js) := JumpOnCond(fs, d0, cond);
      PatchSplits(m, fs0, g, Join(d0, js, cond), e, cond);
    }
  }

  // ---------------------------------------------------------------- not

  /** Before the lists change places: the end has the negated value, the exits the old one. */
  predicate Half(m: Machine, fs: Fs, d: Exp, o: Res, v: Val, r: Regs, f: int) {
    match o
    case End(r1) => Keep(r, r1, f, -1) && ValueAt(m, fs, d, r1) == Bool(Falsy(v))
    case Pend(j, r1) =>
      Keep(r, r1, f, -1) && if Falsy(v) then j in d.f || (d.k == VJmp && j == d.info) else j in d.t
    case Bad => false
  }

  ghost predicate Halfway(m: Machine, fs0: Fs, fs: Fs, d: Exp, e: Expr) {
    fs.k <= m.k ==>
      forall r | Entry(fs.code, |fs0.code|, fs0.lasttarget, fs0.nactvar, r) ::
        Half(m, fs, d, RunTo(m, Base(fs, d), |fs0.code|, r), Eval(m, e, r), r, fs0.freereg)
  }

  ghost predicate HalfBody(m: Machine, fs0: Fs, fs: Fs, d: Exp, e: Expr) {
    var n0 := |fs0.code|;
    Wf(fs0, n0) && Wf(fs, n0) && Ext(fs0, fs, fs0.freereg, -1) && Ext(fs0, Base(fs, d), fs0.freereg, -1) &&
    Lists(fs, d, n0) && Shape(fs, d, n0) && fs.freereg == fs0.freereg && Halfway(m, fs0, fs, d, e)
  }

  /** The test in front of a listed jump gives up its value. */
  function Removed(fs: Fs, d: Exp): Fs { fs.(code := RemoveValues(RemoveValues(fs.code, d.t), d.f)) }

  lemma RemovedAt(fs: Fs, d: Exp, i: int)
    requires 0 <= i < |fs.code|
    ensures |Removed(fs, d).code| == |fs.code|
    ensures Removed(fs, d).code[i] ==
            if i + 1 in d.t + d.f && fs.code[i].TestSet? then Test(fs.code[i].b, fs.code[i].want) else fs.code[i]
  {
    assert RemoveValues(fs.code, d.t)[i] == if i + 1 in d.t && fs.code[i].TestSet? then PatchTest(fs.code[i], NO_REG) else fs.code[i];
  }

  lemma RemovedKeeps(fs0: Fs, fs: Fs, d: Exp, f: int)
    requires Wf(fs, |fs0.code|) && Ext(fs0, fs, f, -1) && Lists(fs, d, |fs0.code|)
    ensures var g := Removed(fs, d); Wf(g, |fs0.code|) && Lists(g, d, |fs0.code|) && Ext(fs0, g, f, -1)
  {
    hide Removed;
    var n0 := |fs0.code|;
    var g := Removed(fs, d);
    assert g == fs.(code := g.code) && |g.code| == |fs.code| by { RemovedRest(fs, d); }
    forall i | 0 <= i < |fs.code|
      ensures g.code[i] == if i + 1 in d.t + d.f && fs.code[i].TestSet? then Test(fs.code[i].b, fs.code[i].want) else fs.code[i]
    {
      RemovedAt(fs, d, i);
    }
    forall i | n0 <= i < |g.code| ensures WfAt(g.code, g.lasttarget, i) { assert WfAt(fs.code, fs.lasttarget, i); }
    forall i | 0 <= i < n0 ensures ExtAt(fs0, g, f, -1, i) { assert ExtAt(fs0, fs, f, -1, i); }
  }

  lemma RemovedRest(fs: Fs, d: Exp)
    ensures var g := Removed(fs, d); g == fs.(code := g.code) && |g.code| == |fs.code|
  {}

  lemma RemovedRun(m: Machine, fs: Fs, d: Exp, n0: nat, r: Regs)
    requires Wf(fs, n0) && Lists(fs, d, n0)
    ensures RunTo(m, Removed(fs, d), n0, r) == RunTo(m, fs, n0, r)
  {
    hide Removed;
    var g := Removed(fs, d);
    RemovedRest(fs, d);
    forall i | n0 <= i < |fs.code| ensures PatchedAt(fs.code, g.code, fs.lasttarget, map[], i) {
      RemovedAt(fs, d, i);
      assert WfAt(fs.code, fs.lasttarget, i);
    }
    if |fs.code| > 0 { RemovedAt(fs, d, |fs.code| - 1); }
    RunLeaves(m, fs.code, n0, fs.lasttarget, n0, r);
    RunPatch(m, fs.code, g.code, n0, fs.lasttarget, map[], n0, r);
    var o := Run(m, fs.code, n0, r);
    assert o.Done? ==> Run(m, g.code, |g.code|, o.regs) == Done(o.regs);
  }

  function Swapped(d: Exp): Exp { d.(t := d.f, f := d.t) }

  lemma BaseRemoved(fs: Fs, d: Exp)
    ensures Base(Removed(fs, d), Swapped(d)) == Removed(Base(fs, d), d)
  {
    var x, y := Base(Removed(fs, d), Swapped(d)), Removed(Base(fs, d), d);
    RemovedRest(fs, d);
    RemovedRest(Base(fs, d), d);
    assert |x.code| == |y.code|;
    forall i | 0 <= i < |x.code| ensures x.code[i] == y.code[i] {
      RemovedAt(fs, d, i);
      RemovedAt(Base(fs, d), d, i);
    }
    assert x.code == y.code;
  }

  /** The lists change places: every exit now leaves with the negated value, as a boolean. */
  lemma SwapGood(m: Machine, fs0: Fs, fs: Fs, d: Exp, e: Expr)
    requires HalfBody(m, fs0, fs, d, e)
    ensures Good(m, fs0, Removed(fs, d), Swapped(d), ENot(e))
  {
    hide Removed, Halfway, Denotes, WfAt, ExtAt;
    var n0, f := |fs0.code|, fs0.freereg;
    var g, d1 := Removed(fs, d), Swapped(d);
    RemovedKeeps(fs0, fs, d, f);
    BaseWf(fs, d, n0);
    BaseLists(fs, d, n0);
    RemovedKeeps(fs0, Base(fs, d), d, f);
    BaseRemoved(fs, d);
    RemovedShape(fs, d, n0);
    RemovedRest(fs, d);
    assert Denotes(m, fs0, g, d1, ENot(e), -1) by { SwapDenotes(m, fs0, fs, d, e); }
  }

  lemma BaseLists(fs: Fs, d: Exp, n0: nat)
    requires Lists(fs, d, n0) && Shape(fs, d, n0)
    ensures Lists(Base(fs, d), d, n0)
  {}

  lemma RemovedShape(fs: Fs, d: Exp, n0: nat)
    requires Lists(fs, d, n0) && Shape(fs, d, n0)
    ensures Shape(Removed(fs, d), Swapped(d), n0)
  {
    hide Removed;
    RemovedRest(fs, d);
    if |fs.code| > 0 { RemovedAt(fs, d, |fs.code| - 1); }
    if |fs.code| > 1 { RemovedAt(fs, d, |fs.code| - 2); }
  }

  lemma SwapDenotes(m: Machine, fs0: Fs, fs: Fs, d: Exp, e: Expr)
    requires HalfBody(m, fs0, fs, d, e)
    ensures Denotes(m, fs0, Removed(fs, d), Swapped(d), ENot(e), -1)
  {
    hide Removed, WfAt, ExtAt, Outcome, Half;
    var n0, f := |fs0.code|, fs0.freereg;
    var g, d1 := Removed(fs, d), Swapped(d);
    BaseWf(fs, d, n0);
    BaseLists(fs, d, n0);
    BaseRemoved(fs, d);
    RemovedRest(fs, d);
    if g.k <= m.k {
      forall r | Entry(g.code, n0, fs0.lasttarget, fs0.nactvar, r)
        ensures Outcome(m, g, d1, RunTo(m, Base(g, d1), n0, r), Eval(m, ENot(e), r), r, f, -1)
      {
        if n0 > 0 { RemovedAt(fs, d, n0 - 1); }
        var o := RunTo(m, Base(fs, d), n0, r);
        assert Half(m, fs, d, o, Eval(m, e, r), r, f);
        RemovedRun(m, Base(fs, d), d, n0, r);
        ExitRange(m, Base(fs, d), n0, r);
        SwapOutcome(m, fs, d, n0, o, Eval(m, e, r), r, f);
      }
    }
  }

  lemma SwapOutcome(m: Machine, fs: Fs, d: Exp, n0: nat, o: Res, v: Val, r: Regs, f: int)
    requires Half(m, fs, d, o, v, r, f) && Lists(fs, d, n0) && Shape(fs, d, n0)
    requires o.Pend? ==> n0 <= o.jump < |fs.code|
    ensures Outcome(m, Removed(fs, d), Swapped(d), o, Bool(Falsy(v)), r, f, -1)
  {
    hide Removed;
    RemovedRest(fs, d);
    match o
    case End(r1) => if 0 <= d.info < |fs.code| { RemovedAt(fs, d, d.info); }
    case Pend(j, r1) =>
      if j > 0 { RemovedAt(fs, d, j - 1); }
      assert j in d.t + d.f || j == d.info;
  }

  // ---------------------------------------------------------------- codenot's cases

  lemma ConstHalf(m: Machine, fs0: Fs, fs: Fs, d: Exp, e: Expr)
    requires Good(m, fs0, fs, d, e)
    requires d.k == VNil || d.k == VFalse || d.k == VTrue || d.k == VK || d.k == VKNum
    ensures HalfBody(m, fs0, fs, d.(k := if d.k == VNil || d.k == VFalse then VTrue else VFalse), e)
  {
    var n0 := |fs0.code|;
    var d1 := d.(k := if d.k == VNil || d.k == VFalse then VTrue else VFalse);
    if fs.k <= m.k {
      forall r | Entry(fs.code, n0, fs0.lasttarget, fs0.nactvar, r)
        ensures Half(m, fs, d1, RunTo(m, fs, n0, r), Eval(m, e, r), r, fs0.freereg)
      {
        assert Outcome(m, fs, d, RunTo(m, Base(fs, d), n0, r), Eval(m, e, r), r, fs0.freereg, -1);
      }
    }
  }

  lemma JumpHalf(m: Machine, fs0: Fs, fs: Fs, d: Exp, e: Expr)
    requires Good(m, fs0, fs, d, e) && d.k == VJmp
    ensures HalfBody(m, fs0, InvertJump(fs, d.info), d, e)
  {
    hide InvertJump, ExtAt, WfAt;
    var n0 := |fs0.code|;
    var g := InvertJump(fs, d.info);
    InvertKeeps(fs0, fs, d, fs0.freereg);
    InvertCode(fs, d, n0);
    if g.k <= m.k {
      forall r | Entry(g.code, n0, fs0.lasttarget, fs0.nactvar, r)
        ensures Half(m, g, d, RunTo(m, g, n0, r), Eval(m, e, r), r, fs0.freereg)
      {
        assert Entry(fs.code, n0, fs0.lasttarget, fs0.nactvar, r);
        assert Outcome(m, fs, d, RunTo(m, Base(fs, d), n0, r), Eval(m, e, r), r, fs0.freereg, -1);
        InvertRun(m, fs, d, n0, r);
      }
    }
  }

  /** Emitting an instruction resolves the pending jumps; the code before it runs as it did. */
  lemma EmitBase(fs: Fs, i: Instr, d: Exp, n0: nat, f: int)
    requires Wf(fs, n0) && Plain(i) && d.k == VReloc
    ensures var b := Base(Emit(fs, i), d); Ext(fs, b, f, -1) && JpcOk(b) && |b.code| == |fs.code| && b.jpc == {}
  {
    EmitExt(fs, i, n0, f, -1);
    var g := Emit(fs, i);
    var b := Base(g, d);
    forall p | 0 <= p < |fs.code| ensures ExtAt(fs, b, f, -1, p) {
      assert ExtAt(fs, g, f, -1, p);
      if Waits(fs, b) { assert fs.jpc == {}; }
    }
  }

  lemma EmitBaseRun(m: Machine, fs: Fs, i: Instr, d: Exp, n0: nat, r: Regs)
    requires Wf(fs, n0) && Plain(i) && d.k == VReloc
    ensures RunTo(m, Base(Emit(fs, i), d), n0, r) == RunTo(m, fs, n0, r)
  {
    var b := Base(Emit(fs, i), d);
    EmitBase(fs, i, d, n0, 0);
    RunToExt(m, fs, b, n0, 0, -1, r);
    if RunTo(m, fs, n0, r).End? {
      ArrivedSame(m, fs, b, n0, r);
      assert Run(m, b.code, |fs.code|, RunTo(m, fs, n0, r).regs) == Done(RunTo(m, fs, n0, r).regs);
    }
  }

  /** A value in a register is negated by an instruction whose target is still open. */
  lemma RegHalf(m: Machine, fs0: Fs, fs: Fs, d: Exp, e: Expr)
    requires Body(m, fs0, fs, d, e, -1) && fs.freereg == fs0.freereg && d.k == VNonReloc
    ensures HalfBody(m, fs0, Emit(fs, Not(0, d.info)), d.(k := VReloc, info := |fs.code|), e)
  {
    hide Emit, WfAt, ExtAt, Denotes, Halfway;
    var n0, f := |fs0.code|, fs0.freereg;
    var i, d1 := Not(0, d.info), d.(k := VReloc, info := |fs.code|);
    var g := Emit(fs, i);
    EmitExt(fs, i, n0, f, -1);
    EmitBase(fs, i, d1, n0, f);
    EmitParts(fs, i);
    ExtTrans(fs0, fs, g, n0, f, -1);
    ExtTrans(fs0, fs, Base(g, d1), n0, f, -1);
    ListsExt(fs, g, d, n0, f, -1);
    assert Lists(g, d1, n0);
    assert Halfway(m, fs0, g, d1, e) by { RegHalfway(m, fs0, fs, d, e); }
  }

  lemma EmitParts(fs: Fs, i: Instr)
    ensures var g := Emit(fs, i); |g.code| == |fs.code| + 1 && g.code[|fs.code|] == i && g == fs.(code := g.code, jpc := {})
  {}

  lemma RegHalfway(m: Machine, fs0: Fs, fs: Fs, d: Exp, e: Expr)
    requires Denotes(m, fs0, fs, d, e, -1) && Wf(fs, |fs0.code|) && d.k == VNonReloc
    ensures Halfway(m, fs0, Emit(fs, Not(0, d.info)), d.(k := VReloc, info := |fs.code|), e)
  {
    hide Emit, WfAt, ExtAt;
    var n0, f := |fs0.code|, fs0.freereg;
    var i, d1 := Not(0, d.info), d.(k := VReloc, info := |fs.code|);
    var g := Emit(fs, i);
    EmitParts(fs, i);
    if g.k <= m.k {
      forall r | Entry(g.code, n0, fs0.lasttarget, fs0.nactvar, r)
        ensures Half(m, g, d1, RunTo(m, Base(g, d1), n0, r), Eval(m, e, r), r, f)
      {
        EmitExt(fs, i, n0, f, -1);
        EntryBack(fs, g, n0, fs0.lasttarget, fs0.nactvar, f, -1, r);
        assert Outcome(m, fs, d, RunTo(m, Base(fs, d), n0, r), Eval(m, e, r), r, f, -1);
        EmitBaseRun(m, fs, i, d1, n0, r);
      }
    }
  }

  /** codenot. */
  lemma NotGood(m: Machine, fs0: Fs, fs: Fs, d: Exp, e: Expr)
    requires Good(m, fs0, fs, d, e) && !CodeNot(fs, d).0.err
    ensures Good(m, fs0, CodeNot(fs, d).0, CodeNot(fs, d).1, ENot(e))
  {
    hide Good, HalfBody, Body, InvertJump, Emit, Discharge2AnyReg, FreeExp;
    LocalGood(m, fs0, fs, d, e);
    var d0 := DischargeVars(d);
    if d0.k == VNil || d0.k == VFalse || d0.k == VTrue || d0.k == VK || d0.k == VKNum {
      var d1 := d0.(k := if d0.k == VNil || d0.k == VFalse then VTrue else VFalse);
      ConstHalf(m, fs0, fs, d0, e);
      SwapGood(m, fs0, fs, d1, e);
    } else if d0.k == VJmp {
      JumpHalf(m, fs0, fs, d0, e);
      SwapGood(m, fs0, InvertJump(fs, d0.info), d0, e);
    } else {
      NotReg(m, fs0, fs, d0, e);
      var (g, e1) := Discharge2AnyReg(fs, d0);
      var b := FreeExp(g, e1);
      RegHalf(m, fs0, b, e1, e);
      SwapGood(m, fs0, Emit(b, Not(0, e1.info)), e1.(k := VReloc, info := |g.code|), e);
    }
  }

  lemma NotReg(m: Machine, fs0: Fs, fs: Fs, d: Exp, e: Expr)
    requires Good(m, fs0, fs, d, e) && (d.k == VReloc || d.k == VNonReloc)
    requires d.k == VReloc ==> !Reserve(fs).err
    ensures var (g, e1) := Discharge2AnyReg(fs, d);
            Body(m, fs0, FreeExp(g, e1), e1, e, -1) && FreeExp(g, e1).freereg == fs0.freereg && e1.k == VNonReloc &&
            FreeExp(g, e1).code == g.code
  {
    hide Body;
    if d.k == VReloc { Discharged(m, fs0, fs, d, e); }
    else { NoFree(fs, d, |fs0.code|); }
  }
}
