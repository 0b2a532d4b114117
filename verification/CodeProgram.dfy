/** Whole statements: what compiling an expression in place leaves in the registers at run time. */
module CodeProgram {
  import opened CodeVm
  import opened CodeGen
  import opened CodeExt
  import opened CodeLists
  import opened CodeMachine
  import opened CodeParser
  import opened CodeSource
  import opened CodeCorrect
  import B = CodeBlock
  import opened CodeFit

  /** The code added after `fs0` delivers the value of `x` to `reg`, on every machine and from all registers
      that can be there, and changes no other register that was in use. */
  ghost predicate Computes(fs0: Fs, fs: Fs, x: Expr, reg: int) {
    forall m: Machine, r: Regs | fs.k <= m.k && Entry(fs.code, |fs0.code|, fs0.lasttarget, fs0.nactvar, r) ::
      Delivers(m, fs, |fs0.code|, r, reg, Eval(m, x, r), fs0.freereg)
  }

  /** A rejection is justified, and an accepted expression has been read. */
  ghost predicate Answers(ls: LexState, s: Status, p: Parsed, c: nat)
    reads ls, ls.fs
  {
    (s.Rejected? ==> p.Bad?) && (s.Accepted? ==> ls.Reached(p, c) && ls.fs.Valid())
  }

  /** Tokens that parse are accepted, when there is room for what they need. */
  lemma NoFailure(s: Status, p: Parsed, a: Fs)
    requires Justified(s, p, a) && p.Tree? && Ready(a) && WellFormed(p.e, a.nactvar) && Enough(a, p.e)
    ensures s.Accepted?
  {
    hide Compile;
    CompileFits(a, p.e);
  }

  /** `local v = x`: expr and gafqK_exp2nextreg. */
  method CompileLocal(ls: LexState) returns (s: Status)
    requires ls.Ok() && ls.fs.Valid() && Ready(ls.fs.Abs()) && InScope(ls.Rest(), ls.fs.nactvar)
    modifies ls, ls.fs
    ensures var p := SubExpr(old(ls.Rest()), 0, old(ls.Room()));
            Answers(ls, s, p, old(ls.calls)) && (s.TooBig? && p.Tree? ==> Limit(B.Stored(old(ls.fs.Abs()), B.Local(p.e))))
    ensures var p := SubExpr(old(ls.Rest()), 0, old(ls.Room()));
            s.Accepted? ==> ls.fs.freereg == old(ls.fs.freereg) + 1 && ls.fs.Abs() == B.Stored(old(ls.fs.Abs()), B.Local(p.e)) &&
                            Computes(old(ls.fs.Abs()), ls.fs.Abs(), p.e, old(ls.fs.freereg))
    ensures var p := SubExpr(old(ls.Rest()), 0, old(ls.Room())); p.Tree? && Enough(old(ls.fs.Abs()), p.e) ==> s.Accepted?
  {
    hide SubExpr, Compile, CodeGen.Exp2NextReg, Computes, AbsCode, Kept, InScope;
    var fs := ls.fs;
    ghost var a0, p := fs.Abs(), SubExpr(ls.Rest(), 0, ls.Room());
    if p.Tree? { ParseScope(ls.Rest(), 0, ls.Room(), fs.nactvar); }
    if p.Tree? && Enough(a0, p.e) { StatFits(a0, B.Local(p.e)); }
    var d, op;
    s, d, op := ls.SubExpr(0);
    if !s.Accepted? { return; }
    var r := fs.Exp2NextReg(d);
    if r.Fail? { return TooBig; }
    LocalComputes(a0, fs.Abs(), p.e);
  }

  lemma LocalComputes(a0: Fs, a: Fs, x: Expr)
    requires Ready(a0) && WellFormed(x, a0.nactvar) && !a.err
    requires var (g, d) := Compile(a0, x); a == CodeGen.Exp2NextReg(g, d).0
    ensures a.freereg == a0.freereg + 1 && Computes(a0, a, x, a0.freereg)
  {
    hide Compile, CodeGen.Exp2NextReg, Entry, Delivers, Eval;
    forall m: Machine, q: Regs | a.k <= m.k && Entry(a.code, |a0.code|, a0.lasttarget, a0.nactvar, q)
      ensures Delivers(m, a, |a0.code|, q, a0.freereg, Eval(m, x, q), a0.freereg)
    {
      NextRegCorrect(m, a0, x, q);
    }
    NextRegUse(a0, x);
  }

  /** The next register is in use afterwards. */
  lemma NextRegUse(fs0: Fs, x: Expr)
    requires Ready(fs0) && WellFormed(x, fs0.nactvar)
    requires var (fs, d) := Compile(fs0, x); !CodeGen.Exp2NextReg(fs, d).0.err
    ensures var (fs, d) := Compile(fs0, x); CodeGen.Exp2NextReg(fs, d).0.freereg == fs0.freereg + 1
  {
    hide Compile, CodeGen.Exp2NextReg;
    var (fs, d) := Compile(fs0, x);
    var m := Machine((op, a, b) => false, CodeGen.Exp2NextReg(fs, d).0.k);
    CompileGood(m, fs0, x);
    CodeRel.NextRegBody(m, fs0, fs, d, x);
  }

  /** `v = x` for a local: expr and gafqK_storevar. */
  method CompileAssign(ls: LexState, local: int) returns (s: Status)
    requires ls.Ok() && ls.fs.Valid() && Ready(ls.fs.Abs()) && InScope(ls.Rest(), ls.fs.nactvar)
    requires 0 <= local < ls.fs.nactvar
    modifies ls, ls.fs
    ensures var p := SubExpr(old(ls.Rest()), 0, old(ls.Room()));
            Answers(ls, s, p, old(ls.calls)) && (s.TooBig? && p.Tree? ==> Limit(B.Stored(old(ls.fs.Abs()), B.Assign(local, p.e))))
    ensures var p := SubExpr(old(ls.Rest()), 0, old(ls.Room()));
            s.Accepted? ==> ls.fs.Abs() == B.Stored(old(ls.fs.Abs()), B.Assign(local, p.e)) &&
                            Computes(old(ls.fs.Abs()), ls.fs.Abs(), p.e, local)
    ensures var p := SubExpr(old(ls.Rest()), 0, old(ls.Room())); p.Tree? && Enough(old(ls.fs.Abs()), p.e) ==> s.Accepted?
  {
    hide SubExpr, Compile, CodeGen.Exp2Reg, Computes, AbsCode, Kept, InScope;
    var fs := ls.fs;
    ghost var a0, p := fs.Abs(), SubExpr(ls.Rest(), 0, ls.Room());
    if p.Tree? { ParseScope(ls.Rest(), 0, ls.Room(), fs.nactvar); }
    if p.Tree? && Enough(a0, p.e) { StatFits(a0, B.Assign(local, p.e)); }
    var d, op;
    s, d, op := ls.SubExpr(0);
    if !s.Accepted? { return; }
    fs.FreeExpr(d);
    var r := fs.Exp2Reg(d, local);
    if r.Fail? { return TooBig; }
    AssignComputes(a0, fs.Abs(), p.e, local);
  }

  lemma AssignComputes(a0: Fs, a: Fs, x: Expr, local: int)
    requires Ready(a0) && WellFormed(x, a0.nactvar) && !a.err && 0 <= local < a0.nactvar
    requires var (g, d) := Compile(a0, x); a == StoreLocal(g, d, local)
    ensures Computes(a0, a, x, local)
  {
    hide Compile, StoreLocal, Entry, Delivers, Eval;
    forall m: Machine, q: Regs | a.k <= m.k && Entry(a.code, |a0.code|, a0.lasttarget, a0.nactvar, q)
      ensures Delivers(m, a, |a0.code|, q, local, Eval(m, x, q), a0.freereg)
    {
      StoreLocalCorrect(m, a0, x, local, q);
    }
  }

  /** The descriptor of a condition, in which nil and false are the same. */
  function CondExp(d: Exp): Exp { if d.k == VNil then d.(k := VFalse) else d }

  /** cond, from the state in which the condition starts. */
  function CondState(fs: Fs, x: Expr): (Fs, Exp) { var (g, d) := Compile(fs, x); CodeGen.GoIfTrue(g, CondExp(d)) }

  /** The condition with false for the nil that its value may come from. */
  function FalseFor(x: Expr): Expr {
    match x
    case ENil => EFalse
    case EParen(p) => EParen(FalseFor(p))
    case EAnd(l, r) => EAnd(l, FalseFor(r))
    case EOr(l, r) => EOr(l, FalseFor(r))
    case _ => x
  }

  /** What cond does to a nil descriptor is what compiling false instead would have given; the condition decides the
      same. */
  lemma {:induction false} CondIsFalse(fs: Fs, x: Expr, nactvar: int)
    requires Compile(fs, x).1.k == VNil
    ensures Compile(fs, FalseFor(x)) == (Compile(fs, x).0, Compile(fs, x).1.(k := VFalse))
    ensures WellFormed(x, nactvar) ==> WellFormed(FalseFor(x), nactvar)
    ensures forall m: Machine, r: Regs :: Falsy(Eval(m, FalseFor(x), r)) == Falsy(Eval(m, x, r))
    decreases x
  {
    hide CodeGen.GoIfTrue, CodeGen.GoIfFalse, CodeGen.CodeNot, CodeGen.CodeComp, CodeGen.Exp2RK;
    match x
    case ENil =>
    case EParen(p) => CondIsFalse(fs, p, nactvar);
    case EAnd(l, r) =>
      BinUnfold(fs, AndOp, l, r);
      BinUnfold(fs, AndOp, l, FalseFor(r));
      var (g, d) := Compile(fs, l);
      CondIsFalse(CodeGen.GoIfTrue(g, d).0, r, nactvar);
    case EOr(l, r) =>
      BinUnfold(fs, OrOp, l, r);
      BinUnfold(fs, OrOp, l, FalseFor(r));
      var (g, d) := Compile(fs, l);
      CondIsFalse(CodeGen.GoIfFalse(g, d).0, r, nactvar);
    case ENot(p) =>
      NotNeverNil(Compile(fs, p).0, Compile(fs, p).1);
      assert false;
    case ECmp(op, l, r) =>
      CompNeverNil(fs, op, l, r);
      assert false;
    case _ => assert false;
  }

  lemma NotNeverNil(fs: Fs, d: Exp)
    ensures CodeGen.CodeNot(fs, d).1.k != VNil
  {}

  lemma CompNeverNil(fs: Fs, op: RelOp, l: Expr, r: Expr)
    ensures Compile(fs, ECmp(op, l, r)).1.k != VNil
  {
    hide CodeGen.Exp2RK, CodeGen.CondJump;
  }

  /** `if x then`: cond, that is expr, nil to false, and gafqK_goiftrue; `h` is the list for when `x` is false. */
  method CompileCondition(ls: LexState) returns (s: Status, h: int, ghost l: seq<int>)
    requires ls.Ok() && ls.fs.Valid() && Ready(ls.fs.Abs()) && InScope(ls.Rest(), ls.fs.nactvar)
    modifies ls, ls.fs
    ensures var p := SubExpr(old(ls.Rest()), 0, old(ls.Room()));
            Answers(ls, s, p, old(ls.calls)) && (s.TooBig? && p.Tree? ==> Limit(CondState(old(ls.fs.Abs()), p.e).0))
    ensures var p := SubExpr(old(ls.Rest()), 0, old(ls.Room()));
            s.Accepted? ==> ls.fs.List(h, l) && Decides(old(ls.fs.Abs()), ls.fs.Abs(), p.e, Members(l))
    ensures var p := SubExpr(old(ls.Rest()), 0, old(ls.Room())); p.Tree? && Enough(old(ls.fs.Abs()), p.e) ==> s.Accepted?
  {
    hide SubExpr, Compile, CodeGen.GoIfTrue, Decides, AbsCode, Kept, InScope;
    h, l := NO_JUMP, [];
    var fs := ls.fs;
    ghost var a0, p := fs.Abs(), SubExpr(ls.Rest(), 0, ls.Room());
    if p.Tree? { ParseScope(ls.Rest(), 0, ls.Room(), fs.nactvar); }
    if p.Tree? && Enough(a0, p.e) { CondStateFits(a0, p.e, CondExp(Compile(a0, p.e).1)); }
    var d, op;
    s, d, op := ls.SubExpr(0);
    if !s.Accepted? { return; }
    if d.k == VNil { d.k := VFalse; }
    var r := fs.GoIfTrue(d);
    if r.Fail? { return TooBig, h, l; }
    h, l := d.f, d.fl;
    ConditionDecides(a0, fs.Abs(), p.e, Members(l));
  }

  lemma ConditionDecides(a0: Fs, a: Fs, x: Expr, list: set<int>)
    requires Ready(a0) && WellFormed(x, a0.nactvar) && !a.err
    requires var (g, d) := Compile(a0, x); var (g1, d1) := CodeGen.GoIfTrue(g, CondExp(d)); a == g1 && list == d1.f
    ensures Decides(a0, a, x, list)
  {
    hide Compile, CodeGen.GoIfTrue, Entry, Eval;
    if Compile(a0, x).1.k == VNil {
      CondIsFalse(a0, x, a0.nactvar);
      FalsyDecides(a0, a, FalseFor(x), list);
    } else {
      FalsyDecides(a0, a, x, list);
    }
  }

  lemma FalsyDecides(a0: Fs, a: Fs, x: Expr, list: set<int>)
    requires Ready(a0) && WellFormed(x, a0.nactvar) && !a.err
    requires var (g, d) := Compile(a0, x); var (g1, d1) := CodeGen.GoIfTrue(g, d); a == g1 && list == d1.f
    ensures Decides(a0, a, x, list)
  {
    hide Compile, CodeGen.GoIfTrue, Entry, Eval;
    forall m: Machine, q: Regs | a.k <= m.k && Entry(a.code, |a0.code|, a0.lasttarget, a0.nactvar, q)
      ensures Leaves(m, a0, a, q, Falsy(Eval(m, x, q)), list)
    {
      GoIfTrueCorrect(m, a0, x, q);
    }
  }

  /** Control leaves by the list exactly when it should, and goes on otherwise. */
  predicate Leaves(m: Machine, fs0: Fs, fs: Fs, r: Regs, leave: bool, list: set<int>) {
    var o := RunTo(m, fs, |fs0.code|, r);
    !o.Bad? && (o.End? <==> !leave) && ((o.Pend? && o.jump in list) <==> leave) && Keep(r, o.regs, fs0.freereg, -1)
  }

  ghost predicate Decides(fs0: Fs, fs: Fs, x: Expr, list: set<int>) {
    forall m: Machine, r: Regs | fs.k <= m.k && Entry(fs.code, |fs0.code|, fs0.lasttarget, fs0.nactvar, r) ::
      Leaves(m, fs0, fs, r, Falsy(Eval(m, x, r)), list)
  }

  /** Code for the parsed tokens of an expression is code for the expression: no expression is lost by its printed
      form. */
  lemma PrintedMeaning(fs0: Fs, fs: Fs, e: Expr, rest: seq<Token>, room: nat, reg: int, list: set<int>)
    requires Follows(rest, 0) && room >= Levels(e, 0)
    ensures var p := SubExpr(Show(e, 0) + rest, 0, room);
            p.Tree? && p.rest == rest && (Computes(fs0, fs, p.e, reg) <==> Computes(fs0, fs, e, reg)) &&
            (Decides(fs0, fs, p.e, list) <==> Decides(fs0, fs, e, list))
  {
    hide SubExpr, Show, Shown, Eval, Entry, Delivers, Leaves, Follows, Levels;
    forall m: Machine, r: Regs
      ensures var p := SubExpr(Show(e, 0) + rest, 0, room); p == Tree(Shown(e, 0), rest) && Eval(m, p.e, r) == Eval(m, e, r)
    {
      PrintParse(m, e, rest, room, r);
    }
    var m: Machine, r: Regs := Machine((op, a, b) => false, []), seq(NUM_REGS, _ => Val.Nil);
    PrintParse(m, e, rest, room, r);
  }
}
