/** Blocks of statements: local declarations and assignments one after the other, from the start of a function. */
module CodeBlock {
  import opened CodeVm
  import opened CodeGen
  import opened CodeRun
  import opened CodeExt
  import opened CodeOps
  import opened CodeGood
  import opened CodeFill
  import opened CodeCond
  import opened CodeLogic
  import opened CodeCompose
  import opened CodeRel
  import opened CodeCorrect

  /** `local v = x`, and `v = x` for a local. */
  datatype Stat = Local(x: Expr) | Assign(v: int, x: Expr)

  /** localstat with adjustlocalvars, or an assignment with gafqK_storevar; at the end no temporaries are in use. */
  function CompileStat(fs: Fs, st: Stat): (r: Fs)
    ensures fs.err ==> r.err
  {
    var (g, d) := Compile(fs, st.x);
    match st
    case Local(_) => var h := Exp2NextReg(g, d).0; h.(nactvar := h.freereg)
    case Assign(v, _) => var h := StoreLocal(g, d, v); h.(freereg := h.nactvar)
  }

  function CompileBlock(fs: Fs, ss: seq<Stat>): (r: Fs)
    ensures fs.err ==> r.err
  {
    if ss == [] then fs else CompileStat(CompileBlock(fs, ss[..|ss| - 1]), ss[|ss| - 1])
  }

  /** What a statement does to the locals, of which there are `n`. */
  function Exec(m: Machine, st: Stat, r: Regs, n: int): Regs {
    Set(r, if st.Local? then n else st.v, Eval(m, st.x, r))
  }

  function Locals(ss: seq<Stat>, n: int): int { if ss == [] then n else Locals(ss[..|ss| - 1], n) + if ss[|ss| - 1].Local? then 1 else 0 }

  function ExecBlock(m: Machine, ss: seq<Stat>, r: Regs, n: int): Regs {
    if ss == [] then r else Exec(m, ss[|ss| - 1], ExecBlock(m, ss[..|ss| - 1], r, n), Locals(ss[..|ss| - 1], n))
  }

  predicate StatScoped(st: Stat, n: int) { WellFormed(st.x, n) && (st.Assign? ==> 0 <= st.v < n) }

  predicate Scoped(ss: seq<Stat>, n: int) {
    ss == [] || (Scoped(ss[..|ss| - 1], n) && StatScoped(ss[|ss| - 1], Locals(ss[..|ss| - 1], n)))
  }

  /** A state between statements. */
  predicate Between(fs: Fs) { Wf(fs, 0) && fs.freereg == fs.nactvar && fs.lasttarget >= -1 }

  // ---------------------------------------------------------------- one statement

  /** The register that the statement writes. */
  function Target(fs: Fs, st: Stat): int { if st.Local? then fs.freereg else st.v }

  /** The registers that its code may fill with nil too early. */
  function Early(st: Stat): int { if st.Local? then -1 else st.v }

  /** The state in which the value has been delivered, before the registers are counted anew. */
  function Stored(fs: Fs, st: Stat): Fs {
    var (g, d) := Compile(fs, st.x);
    if st.Local? then Exp2NextReg(g, d).0 else StoreLocal(g, d, st.v)
  }

  function Delivered(fs: Fs, st: Stat): Exp { Exp(VNonReloc, Target(fs, st), Compile(fs, st.x).1.num, {}, {}) }

  lemma StatBody(m: Machine, fs: Fs, st: Stat)
    requires Between(fs) && !CompileStat(fs, st).err && StatScoped(st, fs.nactvar)
    ensures Body(m, fs, Stored(fs, st), Delivered(fs, st), st.x, Early(st))
    ensures Stored(fs, st).nactvar == fs.nactvar && Stored(fs, st).freereg == fs.freereg + if st.Local? then 1 else 0
  {
    hide Good, Body, Compile, Exp2NextReg, Exp2Reg, Wf, Denotes, Lists, Ext;
    WfEnd(fs, 0);
    var (g, d) := Compile(fs, st.x);
    if st.Local? {
      CompileGood(m, fs, st.x);
      NextRegBody(m, fs, g, d, st.x);
    } else {
      FreeErr(g, d);
      CompileGood(m, fs, st.x);
      GoodParts(m, fs, g, d, st.x);
      GoodBody(m, fs, g, d, st.x);
      if d.k == VNonReloc { NoFree(g, d, |fs.code|); }
      LocalRange(fs);
      Exp2RegBody(m, fs, g, d, st.x, st.v, st.v);
    }
  }

  // ---------------------------------------------------------------- a LOADNIL that a later assignment extends

  lemma EmitKeeps(fs: Fs, ins: Instr, i: int)
    requires 0 <= i < |fs.code| && fs.code[i].LoadNil?
    ensures i < |Emit(fs, ins).code| && Emit(fs, ins).code[i] == fs.code[i]
  {}

  lemma PatchKeeps(c: seq<Instr>, l: set<int>, vt: int, reg: int, dt: int, i: int)
    requires 0 <= i < |c| && c[i].LoadNil?
    ensures Patch(c, l, vt, reg, dt)[i] == c[i]
  {}

  lemma DischargeKeeps(g: Fs, d: Exp, v: int, i: int)
    requires 0 <= i < |g.code| - 1 && g.code[i].LoadNil? && (d.k == VReloc ==> d.info == |g.code| - 1)
    ensures Discharge2Reg(g, d, v).0.code[i] == g.code[i]
  {
    hide Emit;
    forall ins: Instr, h: Fs | h.code == g.code
      ensures i < |Emit(h, ins).code| && Emit(h, ins).code[i] == g.code[i]
    {
      EmitKeeps(h, ins, i);
    }
  }

  lemma FillKeeps(g: Fs, d: Exp, v: int, i: int)
    requires 0 <= i < |g.code| && g.code[i].LoadNil?
    ensures FillJumps(g, d, v).code[i] == g.code[i]
  {
    var t := if d.k == VJmp then d.t + {d.info} else d.t;
    if t != {} || d.f != {} {
      var h := LoadsIfNeeded(g, t, d.f, d.k == VJmp, v);
      LoadsKeep(g, d.k == VJmp, v, i);
      assert h.code[i] == g.code[i];
      hide LoadsIfNeeded, Patch;
      var n := |h.code|;
      PatchKeeps(h.code, d.f, n, v, n - 2, i);
      PatchKeeps(Patch(h.code, d.f, n, v, n - 2), t, n, v, n - 1, i);
    }
  }

  lemma LoadsKeep(g: Fs, isJmp: bool, reg: int, i: int)
    requires 0 <= i < |g.code| && g.code[i].LoadNil?
    ensures EmitLoads(g, isJmp, reg).code[i] == g.code[i]
  {
    var h := if isJmp then g else EmitJump(g).0;
    var h1 := CodeLabel(h, reg, false, true);
    EmitKeeps(Label(h), LoadBool(reg, false, true), i);
    EmitKeeps(Label(h1), LoadBool(reg, true, false), i);
    hide Emit;
  }

  /** Storing the value leaves an earlier LOADNIL alone. */
  lemma StoreKeeps(g: Fs, d: Exp, v: int, i: int)
    requires 0 <= i < |g.code| - 1 && g.code[i].LoadNil? && (d.k == VReloc ==> d.info == |g.code| - 1)
    ensures StoreLocal(g, d, v).code[i] == g.code[i]
  {
    var f := FreeExp(g, d);
    DischargeKeeps(f, d, v, i);
    var (h, e) := Discharge2Reg(f, d, v);
    FillKeeps(h, e, v, i);
    hide Discharge2Reg, FillJumps;
  }

  /** With no code of its own, an expression is a constant or a local. */
  lemma PlainValue(m: Machine, fs: Fs, x: Expr, q: Regs)
    requires Between(fs) && WellFormed(x, fs.nactvar)
    requires var (g, d) := Compile(fs, x);
             !g.err && |g.code| == |fs.code| && g.k <= m.k && Entry(g.code, |fs.code|, fs.lasttarget, fs.nactvar, q)
    ensures var (g, d) := Compile(fs, x);
            Eval(m, x, q) == ValueAt(m, g, d, q) && d.k != VReloc && d.k != VJmp && d.t == {} && d.f == {} &&
            Shape(g, d, |fs.code|)
  {
    hide Good, Wf, Compile, Eval, ValueAt, Entry, Denotes, Ext;
    WfEnd(fs, 0);
    CompileGood(m, fs, x);
    var (g, d) := Compile(fs, x);
    GoodParts(m, fs, g, d, x);
    DenotesAt(m, fs, g, d, x, -1, q);
    assert forall j | j in d.t + d.f :: false;
    assert d.t == {} && d.f == {};
  }

  /** An assignment can extend a LOADNIL before it only if its expression has no code of its own. */
  lemma EarlyOnly(m: Machine, fs: Fs, v: int, x: Expr, q1: Regs, q2: Regs)
    requires Between(fs) && !CompileStat(fs, Assign(v, x)).err && StatScoped(Assign(v, x), fs.nactvar)
    requires Entry(fs.code, |fs.code|, fs.lasttarget, fs.nactvar, q1) && |Compile(fs, x).0.code| > |fs.code|
    requires q2 == Arrive(fs.code, Stored(fs, Assign(v, x)).code, 0, q1)
    ensures q1[v] == q2[v]
  {
    hide Good, Wf, Compile, Eval, Denotes, StoreLocal;
    var (g, d) := Compile(fs, x);
    var n := |fs.code|;
    var h := StoreLocal(g, d, v);
    WfEnd(fs, 0);
    LocalRange(fs);
    FreeErr(g, d);
    assert !g.err by { StoreErr(g, d, v); }
    CompileGood(m, fs, x);
    GoodParts(m, fs, g, d, x);
    StatBody(m, fs, Assign(v, x));
    assert Ext(fs, h, fs.freereg, v) && h == Stored(fs, Assign(v, x));
    if n > 0 && fs.code[n - 1] != h.code[n - 1] && h.code[n - 1].LoadNil? {
      assert ExtAt(fs, h, fs.freereg, v, n - 1) && ExtAt(fs, g, fs.freereg, -1, n - 1);
      assert fs.code[n - 1].LoadNil? && g.code[n - 1].LoadNil?;
      StoreKeeps(g, d, v, n - 1);
      assert v <= fs.code[n - 1].b || v > h.code[n - 1].b by { assert !Scratch(v, fs.freereg, -1); }
    }
  }

  lemma StoreErr(g: Fs, d: Exp, v: int)
    ensures g.err ==> StoreLocal(g, d, v).err
  {
    hide Exp2Reg;
  }

  /** Registers from `f` on are nil. */
  function Fresh(q: Regs, f: int): Regs { SetNil(q, f, NUM_REGS) }

  lemma FreshEntry(fs: Fs, g: Fs, q: Regs)
    requires Ext(fs, g, fs.freereg, -1) && Between(fs) && Entry(fs.code, |fs.code|, fs.lasttarget, fs.nactvar, q)
    ensures Entry(g.code, |fs.code|, fs.lasttarget, fs.nactvar, Fresh(q, fs.freereg))
    ensures Keep(q, Fresh(q, fs.freereg), fs.freereg, -1)
  {
    var n := |fs.code|;
    var p := Fresh(q, fs.freereg);
    if n > 0 && n > fs.lasttarget && g.code[n - 1].LoadNil? {
      assert ExtAt(fs, g, fs.freereg, -1, n - 1);
      assert fs.code[n - 1].LoadNil? && fs.code[n - 1].a == g.code[n - 1].a;
      forall i | g.code[n - 1].a <= i <= g.code[n - 1].b && 0 <= i < NUM_REGS ensures p[i] == Nil {
        if i > fs.code[n - 1].b { assert Scratch(i, fs.freereg, -1); }
      }
    }
  }

  lemma SelfStore(g: Fs, d: Exp, v: int)
    requires (d.k == VLocal || d.k == VNonReloc) && d.info == v && d.t == {} && d.f == {}
    ensures StoreLocal(g, d, v).code == g.code
  {}

  /** What an extension by Compile alone leaves in the locals. */
  lemma ArriveKeeps(fs: Fs, g: Fs, q: Regs, v: int)
    requires Ext(fs, g, fs.freereg, -1) && |g.code| == |fs.code| && Between(fs) && 0 <= v < fs.nactvar < NUM_REGS
    requires Entry(fs.code, |fs.code|, fs.lasttarget, fs.nactvar, q)
    ensures Arrive(fs.code, g.code, 0, q)[v] == q[v]
  {
    var n := |fs.code|;
    if n > 0 {
      assert ExtAt(fs, g, fs.freereg, -1, n - 1);
      assert !Scratch(v, fs.freereg, -1);
    }
  }

  /** Then the expression is a constant, or a local that the assignment does not touch. */
  lemma EarlyValue(m: Machine, fs: Fs, v: int, x: Expr, q1: Regs, q2: Regs)
    requires Between(fs) && !CompileStat(fs, Assign(v, x)).err && StatScoped(Assign(v, x), fs.nactvar)
    requires var h := Stored(fs, Assign(v, x)); h.k <= m.k && Entry(h.code, |fs.code|, fs.lasttarget, fs.nactvar, q2)
    requires Entry(fs.code, |fs.code|, fs.lasttarget, fs.nactvar, q1) && Keep(q1, q2, fs.freereg, v)
    requires q2 == Arrive(fs.code, Stored(fs, Assign(v, x)).code, 0, q1) && |Compile(fs, x).0.code| == |fs.code|
    ensures Eval(m, x, q1) == Eval(m, x, q2)
  {
    hide Good, Wf, Compile, Eval, Denotes, StoreLocal, Entry, Ext, ValueAt, Body, Arrive, Fresh;
    var (g, d) := Compile(fs, x);
    var h := StoreLocal(g, d, v);
    var p1, p2 := Fresh(q1, fs.freereg), Fresh(q2, fs.freereg);
    StoreParts(m, fs, v, x);
    EntryBack(fs, h, |fs.code|, fs.lasttarget, fs.nactvar, fs.freereg, v, q2);
    FreshEntry(fs, g, q1);
    FreshEntry(fs, g, q2);
    PlainValue(m, fs, x, p1);
    PlainValue(m, fs, x, p2);
    EvalKeep(m, x, fs.nactvar, q1, p1, fs.freereg);
    EvalKeep(m, x, fs.nactvar, q2, p2, fs.freereg);
    if (d.k == VLocal || d.k == VNonReloc) && d.info == v {
      SelfStore(g, d, v);
      ArriveKeeps(fs, g, q1, v);
      assert q2 == Arrive(fs.code, g.code, 0, q1);
    }
    LeafSame(m, g, d, v, fs.freereg, p1, p2);
  }

  lemma LeafSame(m: Machine, g: Fs, d: Exp, v: int, f: int, p1: Regs, p2: Regs)
    requires d.k != VReloc && d.k != VJmp && Keep(p1, p2, f, v)
    requires (d.k == VLocal || d.k == VNonReloc) ==> 0 <= d.info < f
    requires (d.k == VLocal || d.k == VNonReloc) && d.info == v ==> Keep(p1, p2, f, -1)
    ensures ValueAt(m, g, d, p1) == ValueAt(m, g, d, p2)
  {}

  /** What is known of the states that an assignment goes through. */
  lemma StoreParts(m: Machine, fs: Fs, v: int, x: Expr)
    requires Between(fs) && !CompileStat(fs, Assign(v, x)).err && StatScoped(Assign(v, x), fs.nactvar)
    ensures var (g, d) := Compile(fs, x);
            var h := Stored(fs, Assign(v, x));
            !g.err && Ext(fs, g, fs.freereg, -1) && Ext(fs, h, fs.freereg, v) && JpcOk(fs) && g.k <= h.k &&
            g.nactvar == fs.nactvar &&
            fs.nactvar < MAX_STACK
  {
    hide Good, Wf, Compile, Denotes, StoreLocal, Ext;
    var (g, d) := Compile(fs, x);
    StoreErr(g, d, v);
    WfEnd(fs, 0);
    LocalRange(fs);
    CompileGood(m, fs, x);
    GoodParts(m, fs, g, d, x);
    StatBody(m, fs, Assign(v, x));
    StoreKs(g, d, v);
    WfJpc(fs, 0);
  }

  lemma StoreKs(g: Fs, d: Exp, v: int)
    ensures g.k <= StoreLocal(g, d, v).k
  {
    var (h, e) := Discharge2Reg(FreeExp(g, d), d, v);
    FillSameK(h, e, v);
    hide FillJumps;
  }

  lemma FillSameK(g: Fs, d: Exp, v: int)
    ensures FillJumps(g, d, v).k == g.k
  {}

  /** The registers at the end of `fs`, before and after a LOADNIL there has been extended by the assignment that
      follows, give the expression of the assignment the same value. */
  lemma EarlyNil(m: Machine, fs: Fs, v: int, x: Expr, q1: Regs, q2: Regs)
    requires Between(fs) && !CompileStat(fs, Assign(v, x)).err && StatScoped(Assign(v, x), fs.nactvar)
    requires var h := Stored(fs, Assign(v, x)); h.k <= m.k && Entry(h.code, |fs.code|, fs.lasttarget, fs.nactvar, q2)
    requires Entry(fs.code, |fs.code|, fs.lasttarget, fs.nactvar, q1) && Keep(q1, q2, fs.freereg, v)
    requires q1 == q2 || q2 == Arrive(fs.code, Stored(fs, Assign(v, x)).code, 0, q1)
    ensures Eval(m, x, q1) == Eval(m, x, q2)
  {
    hide Compile, Eval, Entry, StoreLocal, Arrive, Ext;
    StoreParts(m, fs, v, x);
    if q1 != q2 {
      if |Compile(fs, x).0.code| > |fs.code| {
        EarlyOnly(m, fs, v, x, q1, q2);
        EvalKeep(m, x, fs.nactvar, q1, q2, fs.freereg);
      } else {
        EarlyValue(m, fs, v, x, q1, q2);
      }
    }
  }

  // ---------------------------------------------------------------- running one statement after the code before it

  /** Registers that no local uses are nil when the function starts. */
  predicate Entered(r: Regs, n: int) { forall i | n <= i < NUM_REGS && 0 <= i :: r[i] == Nil }

  /** A statement after code that comes to its end: its code comes to the end as well, with what the statement does
      done. */
  lemma StatRun(m: Machine, fs: Fs, st: Stat, r: Regs)
    requires Between(fs) && StatScoped(st, fs.nactvar) && RunTo(m, fs, 0, r).End? && Entered(r, fs.nactvar)
    requires var g := CompileStat(fs, st); !g.err && g.k <= m.k
    ensures var g := CompileStat(fs, st);
            var o := RunTo(m, g, 0, r);
            Between(g) && g.nactvar == fs.nactvar + (if st.Local? then 1 else 0) &&
            o.End? && Keep(o.regs, Exec(m, st, RunTo(m, fs, 0, r).regs, fs.nactvar), g.nactvar, -1)
  {
    hide Body, Wf, Ext, Compile, Eval, Entry, Delivers, Exp2NextReg, StoreLocal, Denotes, RunTo;
    var h, g, n, f, ex := Stored(fs, st), CompileStat(fs, st), |fs.code|, fs.freereg, Early(st);
    var q1, q2 := RunTo(m, fs, 0, r).regs, Arrived(m, fs, h, 0, r);
    StatBody(m, fs, st);
    BodyParts(m, fs, h, Delivered(fs, st), st.x, ex);
    WfLower(h, n, 0, fs, f, ex);
    WfMore(h, g);
    RunToExt(m, fs, h, 0, f, ex, r);
    EnteredEntry(h.code, fs.nactvar, r);
    ArrivedKeeps(m, fs, h, 0, -1, f, ex, r);
    SelfEntry(m, fs, r);
    DeliversBody(m, fs, h, Delivered(fs, st), st.x, ex, q2);
    ArrivedIs(m, fs, h, r);
    if st.Local? { EvalKeep(m, st.x, fs.nactvar, q1, q2, f); } else { EarlyNil(m, fs, st.v, st.x, q1, q2); }
    assert RunTo(m, g, 0, r) == RunTo(m, h, 0, r) by { SameRun(m, g, h, 0, r); }
    DeliveredKeeps(m, h, n, q1, q2, Target(fs, st), Eval(m, st.x, q2), f, ex, g.nactvar);
  }

  lemma BodyParts(m: Machine, fs: Fs, h: Fs, d: Exp, x: Expr, ex: int)
    requires Body(m, fs, h, d, x, ex)
    ensures Wf(h, |fs.code|) && Ext(fs, h, fs.freereg, ex) && fs.lasttarget <= h.lasttarget && fs.k <= h.k
  {
    hide Denotes, WfAt, ExtAt;
  }

  lemma WfMore(h: Fs, g: Fs)
    requires Wf(h, 0) && g == h.(nactvar := g.nactvar, freereg := g.freereg) && 0 <= g.nactvar == g.freereg <= h.freereg
    ensures Wf(g, 0)
  {
    hide WfAt;
  }

  lemma EnteredEntry(code: seq<Instr>, n: int, r: Regs)
    requires Entered(r, n)
    ensures Entry(code, 0, -1, n, r)
  {}

  /** What is known at the end of code that has not been extended. */
  lemma SelfEntry(m: Machine, fs: Fs, r: Regs)
    requires Between(fs) && RunTo(m, fs, 0, r).End? && Entered(r, fs.nactvar)
    ensures Entry(fs.code, |fs.code|, fs.lasttarget, fs.nactvar, RunTo(m, fs, 0, r).regs)
  {
    hide Wf, Ext, Entry;
    ExtRefl(fs, fs.freereg, -1);
    EnteredEntry(fs.code, fs.nactvar, r);
    ArrivedKeeps(m, fs, fs, 0, -1, fs.freereg, -1, r);
    ArrivedSame(m, fs, fs, 0, r);
  }

  lemma ArrivedIs(m: Machine, fs: Fs, h: Fs, r: Regs)
    requires RunTo(m, fs, 0, r).End?
    ensures var q1, q2 := RunTo(m, fs, 0, r).regs, Arrived(m, fs, h, 0, r); q1 == q2 || q2 == Arrive(fs.code, h.code, 0, q1)
  {}

  lemma DeliveredKeeps(m: Machine, h: Fs, n: int, q1: Regs, q2: Regs, reg: int, v: Val, f: int, ex: int, top: int)
    requires Delivers(m, h, n, q2, reg, v, f) && Keep(q1, q2, f, ex) && (ex == -1 || ex == reg) && 0 <= reg < NUM_REGS
    requires top <= f || (top == f + 1 && reg == f)
    ensures var o := RunTo(m, h, n, q2); o.End? && Keep(o.regs, Set(q1, reg, v), top, -1)
  {}

  // ---------------------------------------------------------------- blocks

  /** open_func: nothing is emitted yet, and the first `n` registers hold the parameters. */
  function Start(n: int): Fs { Fs([], {}, -1, n, n, [], false) }

  lemma StatKeeps(fs: Fs, st: Stat)
    requires Between(fs) && StatScoped(st, fs.nactvar) && !CompileStat(fs, st).err
    ensures var g := CompileStat(fs, st); Between(g) && g.nactvar == fs.nactvar + (if st.Local? then 1 else 0) && fs.k <= g.k
  {
    hide Body, Wf, Ext, Compile, Exp2NextReg, StoreLocal;
    var m := Machine((op, a, b) => false, []);
    var h, g := Stored(fs, st), CompileStat(fs, st);
    StatBody(m, fs, st);
    BodyParts(m, fs, h, Delivered(fs, st), st.x, Early(st));
    WfLower(h, |fs.code|, 0, fs, fs.freereg, Early(st));
    LocalCount(fs);
    WfMore(h, g);
  }

  lemma LocalCount(fs: Fs)
    requires Wf(fs, 0)
    ensures 0 <= fs.nactvar < NUM_REGS
  {}

  lemma {:induction false} BlockKeeps(ss: seq<Stat>, n: int)
    requires 0 <= n < MAX_STACK && Scoped(ss, n) && !CompileBlock(Start(n), ss).err
    ensures var g := CompileBlock(Start(n), ss); Between(g) && g.nactvar == Locals(ss, n) >= n
    decreases |ss|
  {
    if ss != [] {
      hide CompileStat, Wf, StatScoped;
      var before := ss[..|ss| - 1];
      BlockKeeps(before, n);
      StatKeeps(CompileBlock(Start(n), before), ss[|ss| - 1]);
    }
  }

  /** Statements do the same to locals that are the same. */
  lemma ExecKeep(m: Machine, st: Stat, r1: Regs, r2: Regs, n: int)
    requires StatScoped(st, n) && Keep(r1, r2, n, -1) && 0 <= n < NUM_REGS
    ensures Keep(Exec(m, st, r1, n), Exec(m, st, r2, n), n + (if st.Local? then 1 else 0), -1)
  {
    EvalKeep(m, st.x, n, r1, r2, n);
    hide Eval;
  }

  /** Running the code of a block from the start of the function does to the locals what its statements do one after the
      other, for all blocks, on every machine and with all arguments. */
  lemma {:induction false} BlockRun(m: Machine, ss: seq<Stat>, n: int, r: Regs)
    requires 0 <= n < MAX_STACK && Scoped(ss, n) && Entered(r, n)
    requires var g := CompileBlock(Start(n), ss); !g.err && g.k <= m.k
    ensures var g := CompileBlock(Start(n), ss);
            var o := RunTo(m, g, 0, r);
            g.nactvar == Locals(ss, n) && o.End? && Keep(o.regs, ExecBlock(m, ss, r, n), g.nactvar, -1)
    decreases |ss|
  {
    if ss != [] {
      hide CompileStat, RunTo, Eval, Wf, Exec, StatScoped;
      var before, st := ss[..|ss| - 1], ss[|ss| - 1];
      var fs := CompileBlock(Start(n), before);
      BlockKeeps(before, n);
      StatKeeps(fs, st);
      BlockRun(m, before, n, r);
      StatRun(m, fs, st, r);
      LocalCount(fs);
      ExecKeep(m, st, RunTo(m, fs, 0, r).regs, ExecBlock(m, before, r, n), fs.nactvar);
      var q := Exec(m, st, RunTo(m, fs, 0, r).regs, fs.nactvar);
      KeepTrans(RunTo(m, CompileStat(fs, st), 0, r).regs, q, ExecBlock(m, ss, r, n), Locals(ss, n));
    }
  }
}
