/** Conditions: goiftrue, goiffalse and codenot keep the meaning of an expression. */
module CodeCond {
  import opened CodeVm
  import opened CodeGen
  import opened CodeRun
  import opened CodeExt
  import opened CodeOps
  import opened CodeGood

  // ---------------------------------------------------------------- inverting a comparison

  lemma PrefixRun(m: Machine, fs: Fs, c2: seq<Instr>, n0: nat, r: Regs)
    requires Wf(fs, n0) && n0 + 2 <= |fs.code| && fs.lasttarget <= |fs.code| - 2 && fs.code[|fs.code| - 2].Cmp?
    requires |c2| == |fs.code| && c2[..|c2| - 2] == fs.code[..|c2| - 2] && c2[|c2| - 2].Cmp?
    requires c2[|c2| - 1] == Jmp(NO_JUMP)
    ensures var o := Run(m, fs.code[..|c2| - 2], n0, r);
            var n := |c2| - 2;
            match o
            case Done(r1) => Run(m, c2, n0, r) == if Taken(m, c2[n], r1) then Exit(n + 1, r1) else Done(r1)
            case Exit(j, r1) => j < n && Run(m, c2, n0, r) == o
            case Stuck => false
  {
    var n := |c2| - 2;
    var p := fs.code[..n];
    assert n > n0 ==> WfAt(fs.code, fs.lasttarget, n - 1);
    assert n0 > 0 ==> p[n0 - 1] == fs.code[n0 - 1];
    forall i | n0 <= i < n ensures WfAt(p, fs.lasttarget, i) && PatchedAt(p, c2, fs.lasttarget, map[], i) {
      assert WfAt(fs.code, fs.lasttarget, i);
      assert c2[..n][i] == c2[i] && fs.code[..n][i] == p[i];
    }
    RunLeaves(m, p, n0, fs.lasttarget, n0, r);
    RunPatch(m, p, c2, n0, fs.lasttarget, map[], n0, r);
    var o := Run(m, p, n0, r);
    if o.Done? {
      if n > 0 { assert c2[..n][n - 1] == c2[n - 1] == p[n - 1]; }
      assert Arrive(p, c2, n0, o.regs) == o.regs;
      TestPair(m, c2, n, o.regs);
    }
  }

  /** invertjump: falling through and taking the last jump change places. */
  lemma InvertRun(m: Machine, fs: Fs, d: Exp, n0: nat, r: Regs)
    requires Wf(fs, n0) && Shape(fs, d, n0) && d.k == VJmp
    ensures RunTo(m, InvertJump(fs, d.info), n0, r) ==
            match RunTo(m, fs, n0, r)
            case End(r1) => Pend(d.info, r1)
            case Pend(j, r1) => if j == d.info then End(r1) else Pend(j, r1)
            case Bad => Bad
    ensures !RunTo(m, fs, n0, r).Bad?
  {
    var g := InvertJump(fs, d.info);
    assert g.code[..|g.code| - 2] == fs.code[..|g.code| - 2];
    PrefixRun(m, fs, fs.code, n0, r);
    PrefixRun(m, fs, g.code, n0, r);
  }

  lemma InvertKeeps(fs0: Fs, fs: Fs, d: Exp, f: int)
    requires Wf(fs, |fs0.code|) && Shape(fs, d, |fs0.code|) && d.k == VJmp && Lists(fs, d, |fs0.code|)
    requires Ext(fs0, fs, f, -1)
    ensures var g := InvertJump(fs, d.info);
            Wf(g, |fs0.code|) && Shape(g, d, |fs0.code|) && Lists(g, d, |fs0.code|) && Ext(fs0, g, f, -1) &&
            g == fs.(code := g.code)
  {
    var n0 := |fs0.code|;
    var g := InvertJump(fs, d.info);
    assert forall i | 0 <= i < |g.code| && i != d.info - 1 :: g.code[i] == fs.code[i];
    forall i | n0 <= i < |g.code| ensures WfAt(g.code, g.lasttarget, i) { assert WfAt(fs.code, fs.lasttarget, i); }
    forall i | 0 <= i < n0 ensures ExtAt(fs0, g, f, -1, i) { assert ExtAt(fs0, fs, f, -1, i); }
  }

  lemma InvertExit(fs: Fs, d: Exp, n0: nat, j: int, r: Regs, v: Val, truth: bool)
    requires Shape(fs, d, n0) && d.k == VJmp && n0 <= j < |fs.code|
    ensures ExitVal(InvertJump(fs, d.info).code, j, r, v, truth) == ExitVal(fs.code, j, r, v, truth)
  {}

  // ---------------------------------------------------------------- going on one value only

  /** Falling through means the value is not `cond`; the rest leave by the right list. */
  predicate Split(fs: Fs, d: Exp, o: Res, v: Val, r: Regs, f: int, cond: bool) {
    match o
    case End(r1) => Keep(r, r1, f, -1) && Falsy(v) == cond
    case Pend(j, r1) =>
      Keep(r, r1, f, -1) && ExitVal(fs.code, j, r1, v, !Falsy(v)) && (if Falsy(v) then j in d.f else j in d.t)
    case Bad => false
  }

  ghost predicate Branches(m: Machine, fs0: Fs, fs: Fs, d: Exp, e: Expr, cond: bool) {
    fs.k <= m.k ==>
      forall r | Entry(fs.code, |fs0.code|, fs0.lasttarget, fs0.nactvar, r) ::
        Split(fs, d, RunTo(m, fs, |fs0.code|, r), Eval(m, e, r), r, fs0.freereg, cond)
  }

  ghost predicate CondBody(m: Machine, fs0: Fs, fs: Fs, d: Exp, e: Expr, cond: bool) {
    var n0 := |fs0.code|;
    Wf(fs0, n0) && Wf(fs, n0) && Ext(fs0, fs, fs0.freereg, -1) && Lists(fs, d, n0) &&
    Branches(m, fs0, fs, d, e, cond) && fs.freereg == fs0.freereg
  }

  /** The jump that leaves on `cond` joins the list for that value. */
  function Join(d: Exp, js: set<int>, cond: bool): Exp { if cond then d.(t := d.t + js) else d.(f := d.f + js) }

  /** A constant of the known truth value needs no jump. */
  lemma ConstSplits(m: Machine, fs0: Fs, fs: Fs, d: Exp, e: Expr, cond: bool)
    requires Good(m, fs0, fs, d, e)
    requires if cond then d.k == VNil || d.k == VFalse else d.k == VTrue || d.k == VK || d.k == VKNum
    ensures CondBody(m, fs0, fs, d, e, cond)
  {
    var n0 := |fs0.code|;
    if fs.k <= m.k {
      forall r | Entry(fs.code, n0, fs0.lasttarget, fs0.nactvar, r)
        ensures Split(fs, d, RunTo(m, fs, n0, r), Eval(m, e, r), r, fs0.freereg, cond)
      {
        assert Outcome(m, fs, d, RunTo(m, Base(fs, d), n0, r), Eval(m, e, r), r, fs0.freereg, -1);
      }
    }
  }

  /** A comparison leaves by its own jump, inverted when it should leave on false. */
  lemma JumpSplits(m: Machine, fs0: Fs, fs: Fs, d: Exp, e: Expr, cond: bool)
    requires Good(m, fs0, fs, d, e) && d.k == VJmp
    ensures CondBody(m, fs0, if cond then fs else InvertJump(fs, d.info), Join(d, {d.info}, cond), e, cond)
  {
    hide InvertJump, Denotes;
    var n0 := |fs0.code|;
    var g, d1 := if cond then fs else InvertJump(fs, d.info), Join(d, {d.info}, cond);
    InvertKeeps(fs0, fs, d, fs0.freereg);
    assert Lists(g, d1, n0);
    assert Branches(m, fs0, g, d1, e, cond) by { JumpBranches(m, fs0, fs, d, e, cond); }
  }

  lemma JumpBranches(m: Machine, fs0: Fs, fs: Fs, d: Exp, e: Expr, cond: bool)
    requires Wf(fs, |fs0.code|) && Denotes(m, fs0, fs, d, e, -1) && Shape(fs, d, |fs0.code|) && d.k == VJmp
    ensures Branches(m, fs0, if cond then fs else InvertJump(fs, d.info), Join(d, {d.info}, cond), e, cond)
  {
    hide InvertJump, Shape, Wf, Ext;
    var n0 := |fs0.code|;
    var g, d1 := if cond then fs else InvertJump(fs, d.info), Join(d, {d.info}, cond);
    InvertCode(fs, d, n0);
    if g.k <= m.k {
      forall r | Entry(g.code, n0, fs0.lasttarget, fs0.nactvar, r)
        ensures Split(g, d1, RunTo(m, g, n0, r), Eval(m, e, r), r, fs0.freereg, cond)
      {
        assert Entry(fs.code, n0, fs0.lasttarget, fs0.nactvar, r);
        var o, v := RunTo(m, fs, n0, r), Eval(m, e, r);
        assert Outcome(m, fs, d, o, v, r, fs0.freereg, -1);
        InvertRun(m, fs, d, n0, r);
        ExitRange(m, fs, n0, r);
        if o.Pend? { InvertExit(fs, d, n0, o.jump, o.regs, v, !Falsy(v)); }
      }
    }
  }

  lemma InvertCode(fs: Fs, d: Exp, n0: nat)
    requires Shape(fs, d, n0) && d.k == VJmp
    ensures var g := InvertJump(fs, d.info);
            g == fs.(code := g.code) && |g.code| == |fs.code| && !HasTestSet(fs.code, d.info) &&
            !HasTestSet(g.code, d.info) &&
            d.info !in d.t && d.info !in d.f &&
            (forall i | 0 <= i < n0 :: g.code[i] == fs.code[i])
  {}

  lemma ExitRange(m: Machine, fs: Fs, n0: nat, r: Regs)
    requires Wf(fs, n0)
    ensures var o := RunTo(m, fs, n0, r); !o.Bad? && (o.Pend? ==> n0 <= o.jump < |fs.code| && o.jump !in fs.jpc)
  {
    RunLeaves(m, fs.code, n0, fs.lasttarget, n0, r);
  }

  /** The test decides on the value that `d` stands for, and leaves with it. */
  ghost predicate Decides(m: Machine, x: Fs, d: Exp, i: Instr, cond: bool)
    requires IsTest(i)
  {
    (i.TestSet? ==> i.a == NO_REG) &&
    forall r: Regs :: var v := ValueAt(m, x, d, r);
      Taken(m, i, r) == (Falsy(v) != cond) && (if i.TestSet? then Get(r, i.b) == v else v == Bool(!Falsy(v)))
  }

  lemma TestLists(fs0: Fs, b: Fs, d: Exp, i: Instr, cond: bool)
    requires Wf(fs0, |fs0.code|) && Wf(b, |fs0.code|) && Ext(fs0, b, fs0.freereg, -1) && Lists(b, d, |fs0.code|)
    requires IsTest(i) && (i.TestSet? ==> i.a == NO_REG)
    ensures var (g, js) := CondJump(b, i);
            js == {|b.code| + 1} && Wf(g, |fs0.code|) && Ext(fs0, g, fs0.freereg, -1) &&
            Lists(g, Join(d, js, cond), |fs0.code|) && Ext(b, g, fs0.freereg, -1) &&
            g.freereg == b.freereg && g.k == b.k && |g.code| == |b.code| + 2 && g.code[|b.code|] == i
  {
    hide CondJump, WfAt, ExtAt;
    var n0, f := |fs0.code|, fs0.freereg;
    var (g, js) := CondJump(b, i);
    CondJumpExt(b, i, n0, f, -1);
    ExtTrans(fs0, b, g, n0, f, -1);
    ListsExt(b, g, d, n0, f, -1);
    assert forall j | j in d.t + d.f :: j < |b.code|;
  }

  lemma TestSplits(m: Machine, fs0: Fs, x: Fs, d: Exp, e: Expr, b: Fs, i: Instr, cond: bool)
    requires Wf(fs0, |fs0.code|) && Wf(b, |fs0.code|) && Ext(fs0, b, fs0.freereg, -1) && Lists(b, d, |fs0.code|)
    requires b.freereg == fs0.freereg
    requires b.code <= x.code && b.k == x.k && d.k != VJmp
    requires Denotes(m, fs0, x, d, e, -1) && Base(x, d).code == b.code && Base(x, d).jpc == b.jpc
    requires IsTest(i) && Decides(m, x, d, i, cond)
    ensures var (g, js) := CondJump(b, i); CondBody(m, fs0, g, Join(d, js, cond), e, cond)
  {
    hide CondJump, Denotes, Lists, Ext, Wf, Join;
    TestLists(fs0, b, d, i, cond);
    TestBranches(m, fs0, x, d, e, b, i, cond);
  }

  lemma TestBranches(m: Machine, fs0: Fs, x: Fs, d: Exp, e: Expr, b: Fs, i: Instr, cond: bool)
    requires Wf(b, |fs0.code|) && b.code <= x.code && b.k == x.k && d.k != VJmp
    requires Denotes(m, fs0, x, d, e, -1) && Base(x, d).code == b.code && Base(x, d).jpc == b.jpc
    requires IsTest(i) && Decides(m, x, d, i, cond) && (i.TestSet? ==> i.a == NO_REG)
    requires var (g, js) := CondJump(b, i);
            js == {|b.code| + 1} && Ext(b, g, fs0.freereg, -1) && g.k == b.k && |g.code| == |b.code| + 2 &&
            g.code[|b.code|] == i
    ensures var (g, js) := CondJump(b, i); Branches(m, fs0, g, Join(d, js, cond), e, cond)
  {
    hide CondJump, ValueAt, ExtAt, WfAt, Taken, Outcome, Split, Decides, Join;
    var n0, f := |fs0.code|, fs0.freereg;
    var (g, js) := CondJump(b, i);
    if g.k <= m.k {
      forall r | Entry(g.code, n0, fs0.lasttarget, fs0.nactvar, r)
        ensures Split(g, Join(d, js, cond), RunTo(m, g, n0, r), Eval(m, e, r), r, f, cond)
      {
        EntryBack(b, g, n0, fs0.lasttarget, fs0.nactvar, f, -1, r);
        EntryPrefix(b.code, x.code, n0, fs0.lasttarget, fs0.nactvar, r);
        assert RunTo(m, b, n0, r) == RunTo(m, Base(x, d), n0, r);
        assert Outcome(m, x, d, RunTo(m, b, n0, r), Eval(m, e, r), r, f, -1);
        CondJumpRun(m, b, i, n0, r);
        ExitRange(m, b, n0, r);
        TestSplit(m, x, d, b, g, n0, RunTo(m, b, n0, r), RunTo(m, g, n0, r), Eval(m, e, r), r, f, i, cond);
      }
    }
  }

  lemma TestSplit(m: Machine, x: Fs, d: Exp, b: Fs, g: Fs, n0: nat, o: Res, o2: Res, v: Val, r: Regs, f: int,
                  i: Instr, cond: bool)
    requires Wf(b, n0) && Ext(b, g, f, -1) && b.code <= x.code && |g.code| == |b.code| + 2 && g.code[|b.code|] == i
    requires d.k != VJmp
    requires Outcome(m, x, d, o, v, r, f, -1) && IsTest(i) && Decides(m, x, d, i, cond)
    requires o.Pend? ==> n0 <= o.jump < |b.code| && o.jump !in b.jpc
    requires o2 == match o
                   case End(r1) => if Taken(m, i, r1) then Pend(|b.code| + 1, r1) else End(r1)
                   case _ => o
    ensures Split(g, Join(d, {|b.code| + 1}, cond), o2, v, r, f, cond)
  {
    hide ValueAt, ExtAt, WfAt, Taken;
    if o.Pend? {
      assert ExitVal(b.code, o.jump, o.regs, v, !Falsy(v));
      ExitValExt(b, g, n0, f, -1, o.jump, o.regs, v, !Falsy(v));
    } else {
      assert v == ValueAt(m, x, d, o.regs);
    }
  }

  lemma EntryPrefix(c1: seq<Instr>, c2: seq<Instr>, n: int, lt: int, nactvar: int, r: Regs)
    requires c1 <= c2 && n <= |c1|
    ensures Entry(c1, n, lt, nactvar, r) == Entry(c2, n, lt, nactvar, r)
  {}

  /** jumponcond. */
  lemma JumpOnCondSplits(m: Machine, fs0: Fs, fs: Fs, d: Exp, e: Expr, cond: bool)
    requires Good(m, fs0, fs, d, e) && d.k != VJmp && d.k != VLocal && !JumpOnCond(fs, d, cond).0.err
    ensures var (g, js) := JumpOnCond(fs, d, cond); CondBody(m, fs0, g, Join(d, js, cond), e, cond)
  {
    hide Denotes, Lists, Ext, Wf, CondBody, Join, ValueAt;
    var n0, f := |fs0.code|, fs0.freereg;
    if d.k == VReloc {
      var b, i := Base(fs, d), Test(fs.code[d.info].b, !cond);
      BaseWf(fs, d, n0);
      assert Decides(m, fs, d, i, cond) by { NotDecides(m, fs, d, cond); }
      TestSplits(m, fs0, fs, d, e, b, i, cond);
    } else if d.k == VNonReloc {
      NoFree(fs, d, n0);
      assert Decides(m, fs, d, TestSet(NO_REG, d.info, cond), cond) by { RegDecides(m, fs, d, cond); }
      TestSplits(m, fs0, fs, d, e, fs, TestSet(NO_REG, d.info, cond), cond);
    } else {
      DischargedSplits(m, fs0, fs, d, e, cond);
    }
  }

  lemma NoFree(fs: Fs, d: Exp, n0: nat)
    requires Shape(fs, d, n0) && d.k == VNonReloc
    ensures FreeExp(fs, d) == fs
  {}

  lemma NotDecides(m: Machine, fs: Fs, d: Exp, cond: bool)
    requires d.k == VReloc && 0 <= d.info < |fs.code| && fs.code[d.info].Not?
    ensures Decides(m, fs, d, Test(fs.code[d.info].b, !cond), cond)
  {}

  lemma RegDecides(m: Machine, fs: Fs, d: Exp, cond: bool)
    requires d.k == VNonReloc
    ensures Decides(m, fs, d, TestSet(NO_REG, d.info, cond), cond)
  {}

  /** Runs do not depend on the count of registers in use. */
  lemma SameDenotes(m: Machine, fs0: Fs, a: Fs, b: Fs, d: Exp, e: Expr, ex: int)
    requires Denotes(m, fs0, a, d, e, ex) && b == a.(freereg := b.freereg, err := b.err)
    ensures Denotes(m, fs0, b, d, e, ex)
  {
    hide Outcome, Entry, Eval, Run;
    var n0 := |fs0.code|;
    if b.k <= m.k {
      forall r | Entry(b.code, n0, fs0.lasttarget, fs0.nactvar, r)
        ensures Outcome(m, b, d, RunTo(m, Base(b, d), n0, r), Eval(m, e, r), r, fs0.freereg, ex)
      {
        var o := RunTo(m, Base(a, d), n0, r);
        assert o == RunTo(m, Base(b, d), n0, r);
        assert Outcome(m, a, d, o, Eval(m, e, r), r, fs0.freereg, ex);
        SameOutcome(m, a, b, d, o, Eval(m, e, r), r, fs0.freereg, ex);
      }
    }
  }

  lemma SameOutcome(m: Machine, a: Fs, b: Fs, d: Exp, o: Res, v: Val, r: Regs, f: int, ex: int)
    requires Outcome(m, a, d, o, v, r, f, ex) && b.code == a.code
    ensures Outcome(m, b, d, o, v, r, f, ex)
  {}

  lemma SameBody2(m: Machine, fs0: Fs, a: Fs, b: Fs, d: Exp, e: Expr, ex: int)
    requires Body(m, fs0, a, d, e, ex) && b == a.(freereg := b.freereg, err := b.err)
    requires a.nactvar <= b.freereg < MAX_STACK
    ensures Body(m, fs0, b, d, e, ex)
  {
    hide Denotes, ExtAt, WfAt;
    ExtCode(fs0, a, b, fs0.freereg, ex);
    ExtCode(fs0, Base(a, d), Base(b, d), fs0.freereg, ex);
    SameDenotes(m, fs0, a, b, d, e, ex);
  }

  /** The next register is reserved. */
  lemma Reserved(m: Machine, fs0: Fs, fs: Fs, d: Exp, e: Expr)
    requires Good(m, fs0, fs, d, e) && !Reserve(fs).err
    ensures Body(m, fs0, Reserve(fs), d, e, -1) && Shape(Reserve(fs), d, |fs0.code|) && fs.freereg < MAX_STACK - 1
    ensures Scratch(fs.freereg, fs0.freereg, -1) && fs.freereg >= 0
  {
    hide Denotes, Ext;
    SameBody2(m, fs0, fs, Reserve(fs), d, e, -1);
  }

  /** The register of the value is freed. */
  lemma Freed(m: Machine, fs0: Fs, fs: Fs, d: Exp, e: Expr)
    requires Body(m, fs0, fs, d, e, -1) && d.k == VNonReloc && fs.nactvar <= d.info < MAX_STACK
    requires fs.freereg == fs0.freereg + 1
    ensures Body(m, fs0, FreeExp(fs, d), d, e, -1) && FreeExp(fs, d) == fs.(freereg := fs0.freereg)
  {
    hide Denotes;
    SameBody2(m, fs0, fs, FreeExp(fs, d), d, e, -1);
  }

  /** discharge2anyreg, then freeexp: the value is in a register that is free again. */
  lemma Discharged(m: Machine, fs0: Fs, fs: Fs, d: Exp, e: Expr)
    requires Good(m, fs0, fs, d, e) && d.k != VJmp && d.k != VLocal && d.k != VNonReloc && !Reserve(fs).err
    ensures var (g, d1) := Discharge2AnyReg(fs, d);
            d1 == d.(k := VNonReloc, info := fs.freereg) && Body(m, fs0, FreeExp(g, d1), d1, e, -1) &&
            FreeExp(g, d1).freereg == fs0.freereg &&
            FreeExp(g, d1) == g.(freereg := fs0.freereg)
  {
    hide Body;
    Reserved(m, fs0, fs, d, e);
    var fs1 := Reserve(fs);
    DischargeBody(m, fs0, fs1, d, e, fs.freereg, -1);
    assert fs.nactvar <= fs.freereg by { assert Body(m, fs0, fs, d, e, -1); NactBelow(m, fs0, fs, d, e); }
    Freed(m, fs0, Discharge2Reg(fs1, d, fs.freereg).0, d.(k := VNonReloc, info := fs.freereg), e);
  }

  lemma NactBelow(m: Machine, fs0: Fs, fs: Fs, d: Exp, e: Expr)
    requires Body(m, fs0, fs, d, e, -1)
    ensures fs.nactvar <= fs.freereg && fs.nactvar == fs0.nactvar
  {}

  lemma DischargedSplits(m: Machine, fs0: Fs, fs: Fs, d: Exp, e: Expr, cond: bool)
    requires Good(m, fs0, fs, d, e) && d.k != VJmp && d.k != VReloc && d.k != VLocal && d.k != VNonReloc
    requires !Reserve(fs).err
    ensures var (g, js) := JumpOnCond(fs, d, cond); CondBody(m, fs0, g, Join(d, js, cond), e, cond)
  {
    hide Denotes, Lists, Ext, Wf, Discharge2AnyReg, FreeExp, ValueAt, CondJump;
    Discharged(m, fs0, fs, d, e);
    var (g, d1) := Discharge2AnyReg(fs, d);
    var b := FreeExp(g, d1);
    assert Decides(m, b, d1, TestSet(NO_REG, d1.info, cond), cond) by { RegDecides(m, b, d1, cond); }
    TestSplits(m, fs0, b, d1, e, b, TestSet(NO_REG, d1.info, cond), cond);
    var (h, js) := CondJump(b, TestSet(NO_REG, d1.info, cond));
    OnlyLists(m, fs0, h, Join(d1, js, cond), Join(d, js, cond), e, cond);
  }

  /** Only the lists of the descriptor matter once its value has been decided on. */
  lemma OnlyLists(m: Machine, fs0: Fs, fs: Fs, d1: Exp, d2: Exp, e: Expr, cond: bool)
    requires CondBody(m, fs0, fs, d1, e, cond) && d1.t == d2.t && d1.f == d2.f
    ensures CondBody(m, fs0, fs, d2, e, cond)
  {
    var n0 := |fs0.code|;
    if fs.k <= m.k {
      forall r | Entry(fs.code, n0, fs0.lasttarget, fs0.nactvar, r)
        ensures Split(fs, d2, RunTo(m, fs, n0, r), Eval(m, e, r), r, fs0.freereg, cond)
      {
        assert Split(fs, d1, RunTo(m, fs, n0, r), Eval(m, e, r), r, fs0.freereg, cond);
      }
    }
  }
}
