/** What each emitting step of the code generator does to runs. */
module CodeOps {
  import opened CodeVm
  import opened CodeGen
  import opened CodeRun
  import opened CodeExt

  predicate Plain(i: Instr) { !IsTest(i) && !i.Jmp? && !(i.LoadBool? && i.skip) }

  /** gafqK_code keeps the code well formed, and old code but for the pending jumps. */
  lemma EmitExt(fs: Fs, i: Instr, n0: int, f: int, ex: int)
    requires Wf(fs, n0) && Plain(i)
    ensures Wf(Emit(fs, i), n0) && Ext(fs, Emit(fs, i), f, ex)
  {
    var g := Emit(fs, i);
    var n := |fs.code|;
    assert n > n0 ==> WfAt(fs.code, fs.lasttarget, n - 1);
    forall p | 0 <= p < n ensures ExtAt(fs, g, f, ex, p) && IsTest(g.code[p]) == IsTest(fs.code[p]) {
      assert g.code[p] == PatchAt(fs.code, fs.jpc, n, NO_REG, n, p);
    }
    forall p | n0 <= p < n + 1 ensures WfAt(g.code, g.lasttarget, p) {
      if p < n { assert WfAt(fs.code, fs.lasttarget, p) && ExtAt(fs, g, f, ex, p); }
      if p + 1 < n { assert ExtAt(fs, g, f, ex, p + 1); }
    }
  }

  /** Code that is not touched at its end is left with the registers it had. */
  lemma ArrivedSame(m: Machine, fs1: Fs, fs2: Fs, n0: int, r: Regs)
    requires |fs1.code| <= |fs2.code| && RunTo(m, fs1, n0, r).End?
    requires |fs1.code| > 0 && fs2.code[|fs1.code| - 1].LoadNil? ==> fs1.code[|fs1.code| - 1] == fs2.code[|fs1.code| - 1]
    ensures Arrived(m, fs1, fs2, n0, r) == RunTo(m, fs1, n0, r).regs
  {}

  /** gafqK_code appends the effect of the instruction. */
  lemma EmitRun(m: Machine, fs: Fs, i: Instr, n0: int, r: Regs)
    requires Wf(fs, n0) && Plain(i)
    ensures !RunTo(m, fs, n0, r).Bad?
    ensures RunTo(m, Emit(fs, i), n0, r) ==
            if RunTo(m, fs, n0, r).End? then End(Step(m, i, RunTo(m, fs, n0, r).regs)) else RunTo(m, fs, n0, r)
  {
    var g := Emit(fs, i);
    EmitExt(fs, i, n0, 0, -1);
    RunToExt(m, fs, g, n0, 0, -1, r);
    if RunTo(m, fs, n0, r).End? {
      ArrivedSame(m, fs, g, n0, r);
      var a := RunTo(m, fs, n0, r).regs;
      assert Run(m, g.code, |fs.code|, a) == Run(m, g.code, |fs.code| + 1, Step(m, i, a));
    }
  }

  /** condjump: the pending jumps come to the test, and a new jump is on a list of its own. */
  lemma CondJumpExt(fs: Fs, i: Instr, n0: int, f: int, ex: int)
    requires Wf(fs, n0) && IsTest(i) && (i.TestSet? ==> i.a == NO_REG)
    ensures CondJump(fs, i).1 == {|fs.code| + 1}
    ensures var g := CondJump(fs, i).0;
            Wf(g, n0) && Ext(fs, g, f, ex) && g.jpc == {} && |g.code| == |fs.code| + 2 &&
            g.code[|fs.code|] == i && g.code[|fs.code| + 1] == Jmp(NO_JUMP) && g == fs.(code := g.code, jpc := {})
  {
    var g := CondJump(fs, i).0;
    var n := |fs.code|;
    assert n > n0 ==> WfAt(fs.code, fs.lasttarget, n - 1);
    forall p | 0 <= p < n ensures ExtAt(fs, g, f, ex, p) && IsTest(g.code[p]) == IsTest(fs.code[p]) {
      assert g.code[p] == PatchAt(fs.code, fs.jpc, n, NO_REG, n, p);
    }
    forall p | n0 <= p < n + 2 ensures WfAt(g.code, g.lasttarget, p) {
      if p < n { WfLonger(fs, g, n0, f, ex, p); }
    }
  }

  /** Old code stays well formed when more is added. */
  lemma WfLonger(fs: Fs, g: Fs, n0: int, f: int, ex: int, p: int)
    requires Wf(fs, n0) && n0 <= p < |fs.code| < |g.code| && g.jpc == {} && g.lasttarget == fs.lasttarget
    requires forall i | 0 <= i < |fs.code| :: ExtAt(fs, g, f, ex, i) && IsTest(g.code[i]) == IsTest(fs.code[i])
    requires |fs.code| > 0 && !IsTest(fs.code[|fs.code| - 1])
    ensures WfAt(g.code, g.lasttarget, p)
  {
    assert WfAt(fs.code, fs.lasttarget, p) && ExtAt(fs, g, f, ex, p);
    if p + 1 < |fs.code| { assert ExtAt(fs, g, f, ex, p + 1); }
  }

  /** condjump: leave by the new jump exactly when the test takes it. */
  lemma CondJumpRun(m: Machine, fs: Fs, i: Instr, n0: int, r: Regs)
    requires Wf(fs, n0) && IsTest(i) && (i.TestSet? ==> i.a == NO_REG)
    ensures !RunTo(m, fs, n0, r).Bad?
    ensures RunTo(m, CondJump(fs, i).0, n0, r) ==
            match RunTo(m, fs, n0, r)
            case End(r1) => if Taken(m, i, r1) then Pend(|fs.code| + 1, r1) else End(r1)
            case x => x
  {
    var g := CondJump(fs, i).0;
    CondJumpExt(fs, i, n0, 0, -1);
    RunToExt(m, fs, g, n0, 0, -1, r);
    if RunTo(m, fs, n0, r).End? {
      ArrivedSame(m, fs, g, n0, r);
      TestPair(m, g.code, |fs.code|, RunTo(m, fs, n0, r).regs);
    }
  }

  lemma TestPair(m: Machine, c: seq<Instr>, n: int, r: Regs)
    requires 0 <= n && |c| == n + 2 && IsTest(c[n]) && (c[n].TestSet? ==> c[n].a == NO_REG) && c[n + 1] == Jmp(NO_JUMP)
    ensures Run(m, c, n, r) == if Taken(m, c[n], r) then Exit(n + 1, r) else Done(r)
  {
    assert Run(m, c, n + 2, r) == Done(r);
  }

  /** gafqK_patchtohere: a listed jump now comes to the end. */
  lemma PatchToHereWf(fs: Fs, list: set<int>, n0: int)
    requires Wf(fs, n0) && forall j | j in list :: 0 <= j < |fs.code| && fs.code[j] == Jmp(NO_JUMP)
    ensures Wf(PatchToHere(fs, list), n0)
  {
    forall p | n0 <= p < |fs.code| ensures WfAt(fs.code, |fs.code|, p) { assert WfAt(fs.code, fs.lasttarget, p); }
  }

  lemma PatchToHereRun(m: Machine, fs: Fs, list: set<int>, n0: int, r: Regs)
    ensures RunTo(m, PatchToHere(fs, list), n0, r) ==
            match RunTo(m, fs, n0, r)
            case Pend(j, r1) => if j in list then End(r1) else Pend(j, r1)
            case x => x
  {}

  // ---------------------------------------------------------------- nil

  lemma EmitNilExt(fs: Fs, reg: int, n0: int, f: int, ex: int)
    requires Wf(fs, n0) && Scratch(reg, f, ex)
    ensures Wf(EmitNil(fs, reg), n0) && Ext(fs, EmitNil(fs, reg), f, ex)
    ensures EmitNil(fs, reg).jpc == {}
  {
    var g := EmitNil(fs, reg);
    var n := |fs.code|;
    if g == fs {
      ExtRefl(fs, f, ex);
    } else if |g.code| == n {
      var i := fs.code[n - 1];
      assert g.code == fs.code[n - 1 := LoadNil(i.a, reg)];
      forall p | 0 <= p < n ensures ExtAt(fs, g, f, ex, p) {}
      forall p | n0 <= p < n ensures WfAt(g.code, g.lasttarget, p) { assert WfAt(fs.code, fs.lasttarget, p); }
    } else {
      EmitExt(fs, LoadNil(reg, reg), n0, f, ex);
    }
  }

  /** gafqK_nil: whether or not something is emitted, the register is nil at the end. */
  lemma EmitNilRun(m: Machine, fs: Fs, reg: int, n0: int, lt0: int, r: Regs)
    requires Wf(fs, n0) && 0 <= reg < NUM_REGS && lt0 <= fs.lasttarget
    requires Entry(EmitNil(fs, reg).code, n0, lt0, fs.nactvar, r)
    ensures !RunTo(m, fs, n0, r).Bad?
    ensures RunTo(m, fs, n0, r).Pend? ==> RunTo(m, EmitNil(fs, reg), n0, r) == RunTo(m, fs, n0, r)
    ensures RunTo(m, fs, n0, r).End? ==>
              var r1, o := RunTo(m, fs, n0, r).regs, RunTo(m, EmitNil(fs, reg), n0, r);
              o.End? && o.regs[reg] == Nil && Keep(r1, o.regs, NUM_REGS, reg)
  {
    var g := EmitNil(fs, reg);
    var n := |fs.code|;
    EmitNilExt(fs, reg, n0, NUM_REGS, reg);
    RunToExt(m, fs, g, n0, NUM_REGS, reg, r);
    if RunTo(m, fs, n0, r).End? {
      ArrivedKeeps(m, fs, g, n0, lt0, NUM_REGS, reg, r);
      if |g.code| > n { EmitRun(m, fs, LoadNil(reg, reg), n0, r); }
    }
  }
}
