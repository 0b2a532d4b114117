/** What an expression descriptor means, and how discharging it to a register keeps that. */
module CodeGood {
  import opened CodeVm
  import opened CodeGen
  import opened CodeRun
  import opened CodeExt
  import opened CodeOps

  /** The code that leads to the value: a relocatable NOT at the end is not yet part of it. */
  function Base(fs: Fs, d: Exp): Fs {
    if d.k == VReloc && |fs.code| > 0 then fs.(code := fs.code[..|fs.code| - 1]) else fs
  }

  /** The value a descriptor stands for at the end of its code. A VJMP that falls through is false. */
  function ValueAt(m: Machine, fs: Fs, d: Exp, r: Regs): Val {
    match d.k
    case VNil => Nil
    case VTrue => Bool(true)
    case VFalse => Bool(false)
    case VK => Const(m, d.info)
    case VKNum => d.num
    case VLocal => Get(r, d.info)
    case VNonReloc => Get(r, d.info)
    case VReloc => if 0 <= d.info < |fs.code| && fs.code[d.info].Not? then Bool(Falsy(Get(r, fs.code[d.info].b))) else Nil
    case VJmp => Bool(false)
  }

  function TrueExits(d: Exp): set<int> { if d.k == VJmp then d.t + {d.info} else d.t }

  /** The value with which the jump at `j` leaves: in its TESTSET's register, or a boolean. */
  predicate ExitVal(code: seq<Instr>, j: int, r: Regs, v: Val, truth: bool) {
    if HasTestSet(code, j) then v == Get(r, code[j - 1].b) else v == Bool(truth)
  }

  /** A run ends as the descriptor says: with value `v`, by the end or by the right list. */
  predicate Outcome(m: Machine, fs: Fs, d: Exp, o: Res, v: Val, r: Regs, f: int, ex: int) {
    match o
    case End(r1) => Keep(r, r1, f, ex) && ValueAt(m, fs, d, r1) == v
    case Pend(j, r1) =>
      Keep(r, r1, f, -1) && ExitVal(fs.code, j, r1, v, !Falsy(v)) &&
      if Falsy(v) then j in d.f else j in TrueExits(d)
    case Bad => false
  }

  /** Every run of the code from the end of `fs0` yields the value of `e`. */
  ghost predicate Denotes(m: Machine, fs0: Fs, fs: Fs, d: Exp, e: Expr, ex: int) {
    fs.k <= m.k ==>
      forall r | Entry(fs.code, |fs0.code|, fs0.lasttarget, fs0.nactvar, r) ::
        Outcome(m, fs, d, RunTo(m, Base(fs, d), |fs0.code|, r), Eval(m, e, r), r, fs0.freereg, ex)
  }

  /** The lists hold jumps that wait for their targets. */
  predicate Lists(fs: Fs, d: Exp, n0: nat) {
    (forall j | j in d.t + d.f :: n0 <= j < |fs.code| && fs.code[j] == Jmp(NO_JUMP) && j !in fs.jpc) && d.t !! d.f
  }

  /** What the kinds promise. */
  predicate Shape(fs: Fs, d: Exp, n0: nat) {
    var n := |fs.code|;
    match d.k
    case VK => 0 <= d.info < |fs.k| && fs.k[d.info].Other?
    case VKNum => d.num.Other?
    case VLocal => 0 <= d.info < fs.nactvar
    case VNonReloc => 0 <= d.info < fs.nactvar
    case VReloc => n0 <= d.info == n - 1 && fs.code[d.info].Not? && fs.jpc == {} && fs.lasttarget <= n - 1
    case VJmp =>
      n0 <= n - 2 && d.info == n - 1 && fs.code[n - 2].Cmp? && fs.code[n - 1] == Jmp(NO_JUMP) &&
      fs.jpc == {} && fs.lasttarget <= n - 2 && d.info !in d.t + d.f
    case _ => true
  }

  /** Everything but the number of registers in use. */
  ghost predicate Body(m: Machine, fs0: Fs, fs: Fs, d: Exp, e: Expr, ex: int) {
    var n0 := |fs0.code|;
    Wf(fs0, n0) && Wf(fs, n0) && Ext(fs0, fs, fs0.freereg, ex) && Ext(fs0, Base(fs, d), fs0.freereg, ex) &&
    Lists(fs, d, n0) && Denotes(m, fs0, fs, d, e, ex)
  }

  /** What holds of the result of compiling `e` from state `fs0`. */
  ghost predicate Good(m: Machine, fs0: Fs, fs: Fs, d: Exp, e: Expr) {
    Body(m, fs0, fs, d, e, -1) && Shape(fs, d, |fs0.code|) && fs.freereg == fs0.freereg
  }

  lemma BaseWf(fs: Fs, d: Exp, n0: nat)
    requires Wf(fs, n0) && Shape(fs, d, n0)
    ensures Wf(Base(fs, d), n0) && Base(fs, d).jpc == fs.jpc
    ensures d.k == VReloc ==> Lists(fs, d, n0) ==> Lists(Base(fs, d), d, n0)
  {
    if d.k == VReloc {
      var b := Base(fs, d);
      var n := |b.code|;
      forall p | n0 <= p < n ensures WfAt(b.code, b.lasttarget, p) { assert WfAt(fs.code, fs.lasttarget, p); }
    }
  }

  // ---------------------------------------------------------------- discharging

  lemma ExitValExt(fs1: Fs, fs2: Fs, n0: nat, f: int, ex: int, j: int, r: Regs, v: Val, truth: bool)
    requires Wf(fs1, n0) && Ext(fs1, fs2, f, ex) && n0 <= j < |fs1.code| && j !in fs1.jpc
    requires ExitVal(fs1.code, j, r, v, truth)
    ensures ExitVal(fs2.code, j, r, v, truth)
  {
    if j > 0 { assert ExtAt(fs1, fs2, f, ex, j - 1); }
  }

  lemma ListsExt(fs1: Fs, fs2: Fs, d: Exp, n0: nat, f: int, ex: int)
    requires Wf(fs1, n0) && Ext(fs1, fs2, f, ex) && Lists(fs1, d, n0)
    ensures Lists(fs2, d, n0)
  {
    forall j | j in d.t + d.f ensures n0 <= j < |fs2.code| && fs2.code[j] == Jmp(NO_JUMP) && j !in fs2.jpc {
      assert ExtAt(fs1, fs2, f, ex, j);
    }
  }

  /** Only code, pending jumps and labels matter. */
  lemma ExtCode(fs0: Fs, a: Fs, b: Fs, f: int, ex: int)
    requires Ext(fs0, a, f, ex) && b == a.(k := b.k, err := b.err, freereg := b.freereg) && a.k <= b.k
    ensures Ext(fs0, b, f, ex)
  {
    forall p | 0 <= p < |fs0.code| ensures ExtAt(fs0, b, f, ex, p) { assert ExtAt(fs0, a, f, ex, p); }
  }

  /** Appending an instruction that puts the value into `reg`. */
  lemma EmitBody(m: Machine, fs0: Fs, fs: Fs, d: Exp, e: Expr, b: Fs, i: Instr, reg: int, ex: int)
    requires Body(m, fs0, fs, d, e, -1) && Shape(fs, d, |fs0.code|) && d.k != VJmp
    requires b == Base(fs, d).(k := b.k, err := b.err) && fs.k <= b.k
    requires Plain(i) && 0 <= reg < MAX_STACK && Scratch(reg, fs0.freereg, ex)
    requires b.k <= m.k ==> forall r1: Regs :: Step(m, i, r1) == Set(r1, reg, ValueAt(m, fs, d, r1))
    ensures Body(m, fs0, Emit(b, i), d.(k := VNonReloc, info := reg), e, ex)
  {
    hide Denotes, ValueAt, Step, ExtAt, WfAt, Shape;
    var n0, f := |fs0.code|, fs0.freereg;
    var g, d1 := Emit(b, i), d.(k := VNonReloc, info := reg);
    BaseWf(fs, d, n0);
    assert Wf(b, n0);
    EmitExt(b, i, n0, f, ex);
    assert Ext(fs0, b, f, -1) by { ExtCode(fs0, Base(fs, d), b, f, -1); }
    ExtLower(fs0, b, f, f, ex);
    ExtTrans(fs0, b, g, n0, f, ex);
    assert Lists(b, d, n0);
    ListsExt(b, g, d, n0, f, ex);
    assert Denotes(m, fs0, g, d1, e, ex) by { EmitDenotes(m, fs0, fs, d, e, b, i, reg, ex); }
  }

  lemma EmitDenotes(m: Machine, fs0: Fs, fs: Fs, d: Exp, e: Expr, b: Fs, i: Instr, reg: int, ex: int)
    requires Denotes(m, fs0, fs, d, e, -1) && Shape(fs, d, |fs0.code|) && d.k != VJmp && |fs0.code| <= |b.code|
    requires Wf(b, |fs0.code|) && Ext(b, Emit(b, i), fs0.freereg, ex)
    requires b == Base(fs, d).(k := b.k, err := b.err) && fs.k <= b.k
    requires Plain(i) && 0 <= reg < MAX_STACK && Scratch(reg, fs0.freereg, ex)
    requires b.k <= m.k ==> forall r1: Regs :: Step(m, i, r1) == Set(r1, reg, ValueAt(m, fs, d, r1))
    ensures Denotes(m, fs0, Emit(b, i), d.(k := VNonReloc, info := reg), e, ex)
  {
    hide Outcome, ValueAt, Step, Shape;
    var n0, f := |fs0.code|, fs0.freereg;
    var g, d1 := Emit(b, i), d.(k := VNonReloc, info := reg);
    if g.k <= m.k {
      forall r | Entry(g.code, n0, fs0.lasttarget, fs0.nactvar, r)
        ensures Outcome(m, g, d1, RunTo(m, g, n0, r), Eval(m, e, r), r, f, ex)
      {
        EntryBack(b, g, n0, fs0.lasttarget, fs0.nactvar, f, ex, r);
        assert Outcome(m, fs, d, RunTo(m, Base(fs, d), n0, r), Eval(m, e, r), r, f, -1);
        assert RunTo(m, b, n0, r) == RunTo(m, Base(fs, d), n0, r);
        EmitRun(m, b, i, n0, r);
        RunLeaves(m, b.code, n0, b.lasttarget, n0, r);
        EmitOutcome(m, fs, d, b, g, n0, RunTo(m, b, n0, r), Eval(m, e, r), r, f, ex, i, reg);
      }
    }
  }

  lemma EmitOutcome(m: Machine, fs: Fs, d: Exp, b: Fs, g: Fs, n0: nat, o: Res, v: Val, r: Regs, f: int, ex: int,
                    i: Instr, reg: int)
    requires Wf(b, n0) && Ext(b, g, f, ex) && d.k != VJmp && Shape(fs, d, n0)
    requires b == Base(fs, d).(k := b.k, err := b.err)
    requires Outcome(m, fs, d, o, v, r, f, -1) && 0 <= reg < MAX_STACK && Scratch(reg, f, ex)
    requires o.Pend? ==> n0 <= o.jump < |b.code| && o.jump !in b.jpc
    requires o.End? ==> Step(m, i, o.regs) == Set(o.regs, reg, ValueAt(m, fs, d, o.regs))
    ensures Outcome(m, g, d.(k := VNonReloc, info := reg), if o.End? then End(Step(m, i, o.regs)) else o, v, r, f, ex)
  {
    if o.Pend? {
      var j := o.jump;
      assert ExitVal(b.code, j, o.regs, v, !Falsy(v));
      ExitValExt(b, g, n0, f, ex, j, o.regs, v, !Falsy(v));
    }
  }

  /** gafqK_nil for a descriptor of nil. */
  lemma NilBody(m: Machine, fs0: Fs, fs: Fs, d: Exp, e: Expr, reg: int, ex: int)
    requires Body(m, fs0, fs, d, e, -1) && d.k == VNil
    requires 0 <= reg < MAX_STACK && Scratch(reg, fs0.freereg, ex)
    ensures Body(m, fs0, EmitNil(fs, reg), d.(k := VNonReloc, info := reg), e, ex)
  {
    var n0, f := |fs0.code|, fs0.freereg;
    hide Denotes, ExtAt, WfAt, EmitNil;
    var g, d1 := EmitNil(fs, reg), d.(k := VNonReloc, info := reg);
    EmitNilExt(fs, reg, n0, f, ex);
    ExtLower(fs0, fs, f, f, ex);
    ExtTrans(fs0, fs, g, n0, f, ex);
    ListsExt(fs, g, d, n0, f, ex);
    assert Denotes(m, fs0, g, d1, e, ex) by { NilDenotes(m, fs0, fs, d, e, reg, ex); }
  }

  lemma NilDenotes(m: Machine, fs0: Fs, fs: Fs, d: Exp, e: Expr, reg: int, ex: int)
    requires Denotes(m, fs0, fs, d, e, -1) && d.k == VNil && fs0.nactvar == fs.nactvar
    requires fs0.lasttarget <= fs.lasttarget
    requires Wf(fs, |fs0.code|) && Ext(fs, EmitNil(fs, reg), fs0.freereg, ex)
    requires 0 <= reg < MAX_STACK && Scratch(reg, fs0.freereg, ex)
    ensures Denotes(m, fs0, EmitNil(fs, reg), d.(k := VNonReloc, info := reg), e, ex)
  {
    hide EmitNil;
    var n0, f := |fs0.code|, fs0.freereg;
    var g, d1 := EmitNil(fs, reg), d.(k := VNonReloc, info := reg);
    if g.k <= m.k {
      forall r | Entry(g.code, n0, fs0.lasttarget, fs0.nactvar, r)
        ensures Outcome(m, g, d1, RunTo(m, g, n0, r), Eval(m, e, r), r, f, ex)
      {
        EntryBack(fs, g, n0, fs0.lasttarget, fs0.nactvar, f, ex, r);
        var o, v := RunTo(m, fs, n0, r), Eval(m, e, r);
        assert Outcome(m, fs, d, o, v, r, f, -1);
        EmitNilRun(m, fs, reg, n0, fs0.lasttarget, r);
        RunLeaves(m, fs.code, n0, fs.lasttarget, n0, r);
        if o.Pend? { ExitValExt(fs, g, n0, f, ex, o.jump, o.regs, v, !Falsy(v)); }
      }
    }
  }

  /** The value is where it should be already. */
  lemma SameBody(m: Machine, fs0: Fs, fs: Fs, d: Exp, e: Expr, ex: int)
    requires Body(m, fs0, fs, d, e, -1) && (d.k == VLocal || d.k == VNonReloc)
    ensures Body(m, fs0, fs, d.(k := VNonReloc), e, ex)
  {
    ExtLower(fs0, fs, fs0.freereg, fs0.freereg, ex);
    var n0 := |fs0.code|;
    if fs.k <= m.k {
      forall r | Entry(fs.code, n0, fs0.lasttarget, fs0.nactvar, r)
        ensures Outcome(m, fs, d.(k := VNonReloc), RunTo(m, fs, n0, r), Eval(m, e, r), r, fs0.freereg, ex)
      {
        assert Outcome(m, fs, d, RunTo(m, Base(fs, d), n0, r), Eval(m, e, r), r, fs0.freereg, -1);
      }
    }
  }

  lemma RelocIsEmit(fs: Fs, d: Exp, reg: int, n0: nat)
    requires Shape(fs, d, n0) && d.k == VReloc && n0 <= |fs.code|
    ensures Discharge2Reg(fs, d, reg).0 == Emit(Base(fs, d), Not(reg, fs.code[d.info].b))
  {
    var b := Base(fs, d);
    assert Patch(b.code, {}, |b.code|, NO_REG, |b.code|) == b.code;
    assert Emit(b, Not(reg, fs.code[d.info].b)).code == fs.code[d.info := Not(reg, fs.code[d.info].b)];
  }

  /** discharge2reg puts the value of the end of the code into `reg`; the listed exits stay. */
  lemma DischargeBody(m: Machine, fs0: Fs, fs: Fs, d: Exp, e: Expr, reg: int, ex: int)
    requires Body(m, fs0, fs, d, e, -1) && Shape(fs, d, |fs0.code|) && d.k != VJmp
    requires 0 <= reg < MAX_STACK && Scratch(reg, fs0.freereg, ex)
    ensures Discharge2Reg(fs, d, reg).1 == d.(k := VNonReloc, info := reg)
    ensures Body(m, fs0, Discharge2Reg(fs, d, reg).0, d.(k := VNonReloc, info := reg), e, ex)
    ensures var g := Discharge2Reg(fs, d, reg).0; g.freereg == fs.freereg && g.nactvar == fs.nactvar
    ensures (d.k != VLocal && d.k != VNonReloc) || d.info != reg ==> Discharge2Reg(fs, d, reg).0.jpc == {}
  {
    hide Denotes, Ext, Wf, Lists;
    BaseWf(fs, d, |fs0.code|);
    match d.k
    case VNil => NilBody(m, fs0, fs, d, e, reg, ex); EmitNilExt(fs, reg, |fs0.code|, fs0.freereg, ex);
    case VFalse => EmitBody(m, fs0, fs, d, e, fs, LoadBool(reg, false, false), reg, ex);
    case VTrue => EmitBody(m, fs0, fs, d, e, fs, LoadBool(reg, true, false), reg, ex);
    case VK => EmitBody(m, fs0, fs, d, e, fs, LoadK(reg, d.info), reg, ex);
    case VKNum =>
      var (b, i) := AddK(fs, d.num);
      EmitBody(m, fs0, fs, d, e, b, LoadK(reg, i), reg, ex);
    case VReloc =>
      RelocIsEmit(fs, d, reg, |fs0.code|);
      EmitBody(m, fs0, fs, d, e, Base(fs, d), Not(reg, fs.code[d.info].b), reg, ex);
    case _ =>
      if d.info == reg { SameBody(m, fs0, fs, d, e, ex); }
      else { EmitBody(m, fs0, fs, d, e, fs, Move(reg, d.info), reg, ex); }
  }
}
