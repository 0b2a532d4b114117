/** The second half of exp2reg: all exits of an expression end with its value in the register. */
module CodeFill {
  import opened Sets
  import opened CodeVm
  import opened CodeGen
  import opened CodeRun
  import opened CodeExt
  import opened CodeOps
  import opened CodeGood

  predicate Need(g: Fs, d: Exp) { NeedValue(g.code, TrueExits(d)) || NeedValue(g.code, d.f) }

  function Extra(g: Fs, d: Exp): int { if !Need(g, d) then 0 else if d.k == VJmp then 2 else 3 }

  /** Where the code ends once the loads are there. */
  function Final(g: Fs, d: Exp): int { |g.code| + Extra(g, d) }

  function FillTarget(g: Fs, d: Exp, j: int): int {
    if HasTestSet(g.code, j) then Final(g, d) else if j in TrueExits(d) then Final(g, d) - 1 else Final(g, d) - 2
  }

  function FillTargets(g: Fs, d: Exp): map<int, int> { map j | j in TrueExits(d) + d.f :: FillTarget(g, d, j) }

  /** What FillJumps needs of the state it starts from. */
  predicate CanFill(g: Fs, d: Exp, reg: int, n0: nat) {
    Wf(g, n0) && Lists(g, d, n0) && 0 <= reg < MAX_STACK && TrueExits(d) + d.f != {} &&
    ((d.k == VNonReloc && d.info == reg) || (d.k == VJmp && Shape(g, d, n0)))
  }

  lemma ExitsPending(g: Fs, d: Exp, reg: int, n0: nat, j: int)
    requires CanFill(g, d, reg, n0) && j in TrueExits(d) + d.f
    ensures n0 <= j < |g.code| && g.code[j] == Jmp(NO_JUMP) && j !in g.jpc
    ensures HasTestSet(g.code, j) ==> j > n0 && g.code[j - 1].a == NO_REG
    ensures |g.code| <= FillTarget(g, d, j) <= Final(g, d)
    ensures j in TrueExits(d) ==> j !in d.f
  {
    if j != d.info { assert j in d.t + d.f; }
    if HasTestSet(g.code, j) { assert j > n0 ==> WfAt(g.code, g.lasttarget, j - 1); }
  }

  lemma PatchNone(c: seq<Instr>, v: int, reg: int, dt: int)
    ensures Patch(c, {}, v, reg, dt) == c
  {}

  /** The two loads, and the jump around them. */
  lemma LoadsCode(g: Fs, isJmp: bool, reg: int)
    requires isJmp ==> g.jpc == {}
    ensures var h := EmitLoads(g, isJmp, reg);
            var loads := [LoadBool(reg, false, true), LoadBool(reg, true, false)];
            h.code == g.code + (if isJmp then [] else [Jmp(NO_JUMP)]) + loads &&
            h.jpc == (if isJmp then {} else g.jpc + {|g.code|}) && h.lasttarget == |h.code| &&
            h == g.(code := h.code, jpc := h.jpc, lasttarget := h.lasttarget)
  {
    var (g1, fj) := if isJmp then (g, {}) else EmitJump(g);
    PatchNone(g1.code, |g1.code|, NO_REG, |g1.code|);
    var g2 := CodeLabel(g1, reg, false, true);
    PatchNone(g2.code, |g2.code|, NO_REG, |g2.code|);
    assert g2.code == g1.code + [LoadBool(reg, false, true)];
    assert CodeLabel(g2, reg, true, false).code == g2.code + [LoadBool(reg, true, false)];
  }

  /** The instruction that FillJumps leaves at an old position. */
  function FilledAt(g: Fs, d: Exp, reg: int, i: int): Instr
    requires 0 <= i < |g.code|
  {
    if i in TrueExits(d) + d.f then Jmp(FillTarget(g, d, i))
    else if i + 1 in TrueExits(d) + d.f && g.code[i].TestSet? then PatchTest(g.code[i], reg)
    else g.code[i]
  }

  /** The code that FillJumps leaves. */
  predicate Filled(g: Fs, d: Exp, reg: int, h: Fs) {
    var n, final := |g.code|, Final(g, d);
    |h.code| == final && h.lasttarget == final && h == g.(code := h.code, jpc := h.jpc, lasttarget := h.lasttarget) &&
    (forall i | 0 <= i < n :: h.code[i] == FilledAt(g, d, reg, i)) &&
    (Need(g, d) ==> h.code[final - 2] == LoadBool(reg, false, true) && h.code[final - 1] == LoadBool(reg, true, false)) &&
    (Need(g, d) && d.k != VJmp ==> h.code[n] == Jmp(NO_JUMP)) &&
    h.jpc == if Need(g, d) && d.k != VJmp then g.jpc + {n} else g.jpc
  }

  function WithLoads(g: Fs, d: Exp, reg: int): Fs { if Need(g, d) then EmitLoads(g, d.k == VJmp, reg) else g }

  lemma FillUnfold(g: Fs, d: Exp, reg: int)
    requires TrueExits(d) + d.f != {}
    ensures var g1 := WithLoads(g, d, reg);
            FillJumps(g, d, reg) == Label(g1).(code :=
              Patch(Patch(g1.code, d.f, |g1.code|, reg, |g1.code| - 2), TrueExits(d), |g1.code|, reg, |g1.code| - 1))
  {}

  lemma LoadsShape(g: Fs, d: Exp, reg: int, n0: nat)
    requires CanFill(g, d, reg, n0)
    ensures var g1 := WithLoads(g, d, reg);
            |g1.code| == Final(g, d) && g1.code[..|g.code|] == g.code &&
            g1 == g.(code := g1.code, jpc := g1.jpc, lasttarget := g1.lasttarget) &&
            (forall p | |g.code| <= p < |g1.code| :: !g1.code[p].TestSet?) &&
            (Need(g, d) ==> g1.code[|g1.code| - 2] == LoadBool(reg, false, true) && g1.code[|g1.code| - 1] == LoadBool(reg, true, false)) &&
            (Need(g, d) && d.k != VJmp ==> g1.code[|g.code|] == Jmp(NO_JUMP)) &&
            g1.jpc == if Need(g, d) && d.k != VJmp then g.jpc + {|g.code|} else g.jpc
  {
    hide EmitLoads;
    if Need(g, d) { LoadsCode(g, d.k == VJmp, reg); }
  }

  lemma FilledCode(g: Fs, d: Exp, reg: int, n0: nat)
    requires CanFill(g, d, reg, n0)
    ensures Filled(g, d, reg, FillJumps(g, d, reg))
  {
    hide FillJumps, WithLoads, Need;
    var h := FillJumps(g, d, reg);
    FillUnfold(g, d, reg);
    LoadsShape(g, d, reg, n0);
    var g1 := WithLoads(g, d, reg);
    forall i | 0 <= i < |g1.code| ensures h.code[i] == if i < |g.code| then FilledAt(g, d, reg, i) else g1.code[i] {
      hide FilledAt, PatchAt, Filled;
      PatchTwice(g, d, reg, n0, g1.code, i);
    }
  }

  lemma PatchTwice(g: Fs, d: Exp, reg: int, n0: nat, c: seq<Instr>, i: int)
    requires CanFill(g, d, reg, n0) && |c| == Final(g, d) && c[..|g.code|] == g.code && 0 <= i < |c|
    requires forall p | |g.code| <= p < |c| :: !c[p].TestSet?
    ensures var c1 := Patch(c, d.f, |c|, reg, |c| - 2);
            Patch(c1, TrueExits(d), |c|, reg, |c| - 1)[i] == if i < |g.code| then FilledAt(g, d, reg, i) else c[i]
  {
    var c1 := Patch(c, d.f, |c|, reg, |c| - 2);
    assert c1[i] == PatchAt(c, d.f, |c|, reg, |c| - 2, i);
    assert forall p | 0 <= p < |g.code| :: c[p] == g.code[p];
    if i in TrueExits(d) + d.f { ExitsPending(g, d, reg, n0, i); }
    if i + 1 in TrueExits(d) + d.f { ExitsPending(g, d, reg, n0, i + 1); }
    if i in TrueExits(d) && i > 0 {
      assert c1[i - 1] == PatchAt(c, d.f, |c|, reg, |c| - 2, i - 1);
    }
  }

  lemma FilledPatched(g: Fs, d: Exp, reg: int, n0: nat, h: Fs)
    requires CanFill(g, d, reg, n0) && Filled(g, d, reg, h)
    ensures Patched(g.code, h.code, n0, g.lasttarget, FillTargets(g, d))
  {
    hide Need;
    forall i | n0 <= i < |g.code| ensures PatchedAt(g.code, h.code, g.lasttarget, FillTargets(g, d), i) {
      assert h.code[i] == FilledAt(g, d, reg, i);
      if i in TrueExits(d) + d.f { ExitsPending(g, d, reg, n0, i); }
      else if i + 1 in TrueExits(d) + d.f { ExitsPending(g, d, reg, n0, i + 1); }
    }
  }

  lemma FilledTests(g: Fs, d: Exp, reg: int, n0: nat, h: Fs, i: int)
    requires CanFill(g, d, reg, n0) && Filled(g, d, reg, h) && 0 <= i < |g.code|
    ensures IsTest(h.code[i]) == IsTest(g.code[i]) && h.code[i].Jmp? == g.code[i].Jmp?
    ensures i in g.jpc ==> h.code[i] == Jmp(NO_JUMP)
  {
    hide Need;
    if i in TrueExits(d) + d.f { ExitsPending(g, d, reg, n0, i); }
  }

  lemma FilledWf(g: Fs, d: Exp, reg: int, n0: nat, h: Fs)
    requires CanFill(g, d, reg, n0) && Filled(g, d, reg, h)
    ensures Wf(h, n0)
  {
    hide Need, FilledAt;
    var n := |g.code|;
    assert n > n0 ==> WfAt(g.code, g.lasttarget, n - 1);
    forall i | 0 <= i < n
      ensures IsTest(h.code[i]) == IsTest(g.code[i]) && h.code[i].Jmp? == g.code[i].Jmp?
      ensures i in g.jpc ==> h.code[i] == Jmp(NO_JUMP)
    {
      FilledTests(g, d, reg, n0, h, i);
    }
    forall i | n0 <= i < |h.code| ensures WfAt(h.code, h.lasttarget, i) {
      if i < n { FilledWfAt(g, d, reg, n0, h, i); }
    }
  }

  lemma FilledWfAt(g: Fs, d: Exp, reg: int, n0: nat, h: Fs, i: int)
    requires CanFill(g, d, reg, n0) && Filled(g, d, reg, h) && n0 <= i < |g.code|
    requires forall i | 0 <= i < |g.code| :: IsTest(h.code[i]) == IsTest(g.code[i]) && h.code[i].Jmp? == g.code[i].Jmp?
    requires |g.code| > 0 ==> !IsTest(g.code[|g.code| - 1])
    ensures WfAt(h.code, h.lasttarget, i)
  {
    hide Need;
    assert WfAt(g.code, g.lasttarget, i);
    if i in TrueExits(d) + d.f { ExitsPending(g, d, reg, n0, i); }
    if i + 1 in TrueExits(d) + d.f { ExitsPending(g, d, reg, n0, i + 1); }
  }

  // ---------------------------------------------------------------- runs

  /** Running the loads. */
  lemma RunLoads(m: Machine, h: Fs, reg: int, r: Regs)
    requires |h.code| >= 2 && h.code[|h.code| - 2] == LoadBool(reg, false, true)
    requires h.code[|h.code| - 1] == LoadBool(reg, true, false)
    ensures Run(m, h.code, |h.code| - 2, r) == Done(Set(r, reg, Bool(false)))
    ensures Run(m, h.code, |h.code| - 1, r) == Done(Set(r, reg, Bool(true)))
  {
    var n := |h.code|;
    assert Run(m, h.code, n, Set(r, reg, Bool(false))) == Done(Set(r, reg, Bool(false)));
    assert Run(m, h.code, n, Set(r, reg, Bool(true))) == Done(Set(r, reg, Bool(true)));
  }

  /** From the end of the old code. */
  lemma FillEnd(m: Machine, g: Fs, d: Exp, reg: int, n0: nat, h: Fs, r: Regs)
    requires CanFill(g, d, reg, n0) && Filled(g, d, reg, h)
    ensures RunTo(m, h, |g.code|, r) == End(if d.k == VJmp then Set(r, reg, Bool(false)) else r)
  {
    if d.k == VJmp {
      assert !HasTestSet(g.code, d.info);
      assert Need(g, d);
      RunLoads(m, h, reg, r);
    } else if Need(g, d) {
      assert Run(m, h.code, |g.code|, r) == Exit(|g.code|, r);
    }
  }

  /** From a listed exit. */
  lemma FillExit(m: Machine, g: Fs, d: Exp, reg: int, n0: nat, h: Fs, j: int, r: Regs, v: Val)
    requires CanFill(g, d, reg, n0) && Filled(g, d, reg, h) && j in TrueExits(d) + d.f
    requires ExitVal(g.code, j, r, v, !Falsy(v)) && (if Falsy(v) then j in d.f else j in TrueExits(d))
    ensures var o := Run(m, h.code, FillTarget(g, d, j), ExitRegs(h.code, n0, j, r));
            o.Done? && Keep(r, o.regs, NUM_REGS, reg) && Get(o.regs, reg) == v
  {
    ExitsPending(g, d, reg, n0, j);
    if j > n0 { assert h.code[j - 1] == FilledAt(g, d, reg, j - 1); }
    if HasTestSet(g.code, j) {
      assert Run(m, h.code, |h.code|, ExitRegs(h.code, n0, j, r)) == Done(ExitRegs(h.code, n0, j, r));
    } else {
      assert ExitRegs(h.code, n0, j, r) == r;
      assert Need(g, d);
      RunLoads(m, h, reg, r);
    }
  }

  /** One run through the filled code. */
  lemma FillRun(m: Machine, g: Fs, d: Exp, reg: int, n0: nat, h: Fs, r: Regs, v: Val, f: int, ex: int)
    requires CanFill(g, d, reg, n0) && Filled(g, d, reg, h) && Scratch(reg, f, ex)
    requires Outcome(m, g, d, RunTo(m, g, n0, r), v, r, f, ex)
    ensures var o := RunTo(m, h, n0, r); o.End? && Keep(r, o.regs, f, ex) && Get(o.regs, reg) == v
  {
    hide Filled, FilledAt, Need;
    var tgt := FillTargets(g, d);
    FilledPatched(g, d, reg, n0, h);
    RunLeaves(m, g.code, n0, g.lasttarget, n0, r);
    RunPatch(m, g.code, h.code, n0, g.lasttarget, tgt, n0, r);
    match Run(m, g.code, n0, r)
    case Done(r1) =>
      FillArrive(g, d, reg, n0, h, r1);
      FillEnd(m, g, d, reg, n0, h, r1);
    case Exit(j, r1) =>
      if j in g.jpc {
        JpcStays(g, d, reg, n0, h, j);
        assert d.k != VJmp;
      } else {
        FillExit(m, g, d, reg, n0, h, j, r1, v);
      }
  }

  lemma FillArrive(g: Fs, d: Exp, reg: int, n0: nat, h: Fs, r: Regs)
    requires CanFill(g, d, reg, n0) && Filled(g, d, reg, h)
    ensures Arrive(g.code, h.code, n0, r) == r
  {
    if |g.code| > 0 { assert h.code[|g.code| - 1] == FilledAt(g, d, reg, |g.code| - 1); }
  }

  lemma JpcStays(g: Fs, d: Exp, reg: int, n0: nat, h: Fs, j: int)
    requires CanFill(g, d, reg, n0) && Filled(g, d, reg, h) && j in g.jpc
    ensures j in h.jpc && j !in FillTargets(g, d)
  {
    if j in TrueExits(d) + d.f { ExitsPending(g, d, reg, n0, j); }
  }

  lemma FilledExt(fs0: Fs, g: Fs, d: Exp, reg: int, h: Fs, f: int, ex: int)
    requires Ext(fs0, g, f, ex) && CanFill(g, d, reg, |fs0.code|) && Filled(g, d, reg, h)
    ensures Ext(fs0, h, f, ex)
  {
    var n0 := |fs0.code|;
    var j := SomeOf(TrueExits(d) + d.f);
    ExitsPending(g, d, reg, n0, j);
    assert |g.code| > n0;
    forall i | 0 <= i < n0 ensures ExtAt(fs0, h, f, ex, i) {
      assert ExtAt(fs0, g, f, ex, i);
      assert h.code[i] == FilledAt(g, d, reg, i);
      if i in TrueExits(d) + d.f { ExitsPending(g, d, reg, n0, i); }
      if i + 1 in TrueExits(d) + d.f { ExitsPending(g, d, reg, n0, i + 1); }
      assert h.code[i] == g.code[i];
    }
  }

  /** All exits of the expression now end with its value in `reg`. */
  lemma FillBody(m: Machine, fs0: Fs, g: Fs, d: Exp, e: Expr, reg: int, ex: int)
    requires Body(m, fs0, g, d, e, ex) && 0 <= reg < MAX_STACK && Scratch(reg, fs0.freereg, ex)
    requires (d.k == VNonReloc && d.info == reg) || (d.k == VJmp && Shape(g, d, |fs0.code|))
    ensures Body(m, fs0, FillJumps(g, d, reg), Exp(VNonReloc, reg, d.num, {}, {}), e, ex)
    ensures var h := FillJumps(g, d, reg); h.freereg == g.freereg && h.nactvar == g.nactvar
  {
    hide Filled, FillJumps;
    var n0, f := |fs0.code|, fs0.freereg;
    var h, d1 := FillJumps(g, d, reg), Exp(VNonReloc, reg, d.num, {}, {});
    if TrueExits(d) + d.f == {} {
      FillNothing(g, d, reg);
      assert Denotes(m, fs0, h, d1, e, ex) by { NoLists(m, fs0, g, d, e, reg, ex); }
    } else {
      assert CanFill(g, d, reg, n0);
      FilledCode(g, d, reg, n0);
      FilledWf(g, d, reg, n0, h);
      FilledExt(fs0, g, d, reg, h, f, ex);
      FilledRest(g, d, reg, h);
      assert Denotes(m, fs0, h, d1, e, ex) by { FillDenotes(m, fs0, g, d, e, reg, ex, h); }
    }
  }

  lemma FilledRest(g: Fs, d: Exp, reg: int, h: Fs)
    requires Filled(g, d, reg, h)
    ensures h.freereg == g.freereg && h.nactvar == g.nactvar && h.k == g.k
  {}

  lemma FillNothing(g: Fs, d: Exp, reg: int)
    requires TrueExits(d) + d.f == {}
    ensures FillJumps(g, d, reg) == g && d.k != VJmp && d.t == {} && d.f == {}
  {
    assert TrueExits(d) <= TrueExits(d) + d.f && d.f <= TrueExits(d) + d.f;
    assert d.k == VJmp ==> d.info in TrueExits(d);
  }

  lemma NoLists(m: Machine, fs0: Fs, g: Fs, d: Exp, e: Expr, reg: int, ex: int)
    requires Denotes(m, fs0, g, d, e, ex) && d.k == VNonReloc && d.info == reg && d.t == {} && d.f == {}
    ensures Denotes(m, fs0, g, Exp(VNonReloc, reg, d.num, {}, {}), e, ex)
  {
    assert d == Exp(VNonReloc, reg, d.num, {}, {});
  }

  lemma FillDenotes(m: Machine, fs0: Fs, g: Fs, d: Exp, e: Expr, reg: int, ex: int, h: Fs)
    requires Denotes(m, fs0, g, d, e, ex) && CanFill(g, d, reg, |fs0.code|) && Filled(g, d, reg, h)
    requires Scratch(reg, fs0.freereg, ex)
    ensures Denotes(m, fs0, h, Exp(VNonReloc, reg, d.num, {}, {}), e, ex)
  {
    hide CanFill, Filled;
    var n0, f := |fs0.code|, fs0.freereg;
    var d1 := Exp(VNonReloc, reg, d.num, {}, {});
    FilledRest(g, d, reg, h);
    if h.k <= m.k {
      forall r | Entry(h.code, n0, fs0.lasttarget, fs0.nactvar, r)
        ensures Outcome(m, h, d1, RunTo(m, h, n0, r), Eval(m, e, r), r, f, ex)
      {
        FillEntry(fs0, g, d, reg, h, r);
        assert Base(g, d) == g by { assert d.k != VReloc by { assert CanFill(g, d, reg, n0); NotReloc(g, d, reg, n0); } }
        assert Outcome(m, g, d, RunTo(m, g, n0, r), Eval(m, e, r), r, f, ex);
        FillRun(m, g, d, reg, n0, h, r, Eval(m, e, r), f, ex);
      }
    }
  }

  lemma NotReloc(g: Fs, d: Exp, reg: int, n0: nat)
    requires CanFill(g, d, reg, n0)
    ensures d.k != VReloc
  {}

  lemma FillEntry(fs0: Fs, g: Fs, d: Exp, reg: int, h: Fs, r: Regs)
    requires CanFill(g, d, reg, |fs0.code|) && Filled(g, d, reg, h)
    requires Entry(h.code, |fs0.code|, fs0.lasttarget, fs0.nactvar, r)
    ensures Entry(g.code, |fs0.code|, fs0.lasttarget, fs0.nactvar, r)
  {
    var n0 := |fs0.code|;
    if n0 > 0 {
      assert h.code[n0 - 1] == FilledAt(g, d, reg, n0 - 1);
      if n0 - 1 in TrueExits(d) + d.f { ExitsPending(g, d, reg, n0, n0 - 1); }
    }
  }

  // ---------------------------------------------------------------- exp2reg

  /** exp2reg: from a compiled expression, its value gets to `reg` and nothing else below the
      free registers changes. */
  lemma Exp2RegBody(m: Machine, fs0: Fs, fs: Fs, d: Exp, e: Expr, reg: int, ex: int)
    requires Body(m, fs0, fs, d, e, -1) && Shape(fs, d, |fs0.code|)
    requires 0 <= reg < MAX_STACK && Scratch(reg, fs0.freereg, ex)
    ensures Exp2Reg(fs, d, reg).1 == Exp(VNonReloc, reg, d.num, {}, {})
    ensures Body(m, fs0, Exp2Reg(fs, d, reg).0, Exp(VNonReloc, reg, d.num, {}, {}), e, ex)
    ensures var g := Exp2Reg(fs, d, reg).0; g.freereg == fs.freereg && g.nactvar == fs.nactvar
  {
    hide Body, FillJumps;
    if d.k == VJmp {
      WiderBody(m, fs0, fs, d, e, ex);
      FillBody(m, fs0, fs, d, e, reg, ex);
    } else {
      DischargeBody(m, fs0, fs, d, e, reg, ex);
      FillBody(m, fs0, Discharge2Reg(fs, d, reg).0, d.(k := VNonReloc, info := reg), e, reg, ex);
    }
  }

  lemma WiderBody(m: Machine, fs0: Fs, fs: Fs, d: Exp, e: Expr, ex: int)
    requires Body(m, fs0, fs, d, e, -1)
    ensures Body(m, fs0, fs, d, e, ex)
  {
    hide ExtAt, WfAt;
    ExtLower(fs0, fs, fs0.freereg, fs0.freereg, ex);
    ExtLower(fs0, Base(fs, d), fs0.freereg, fs0.freereg, ex);
    var n0 := |fs0.code|;
    if fs.k <= m.k {
      forall r | Entry(fs.code, n0, fs0.lasttarget, fs0.nactvar, r)
        ensures Outcome(m, fs, d, RunTo(m, Base(fs, d), n0, r), Eval(m, e, r), r, fs0.freereg, ex)
      {
        assert Outcome(m, fs, d, RunTo(m, Base(fs, d), n0, r), Eval(m, e, r), r, fs0.freereg, -1);
      }
    }
  }
}
