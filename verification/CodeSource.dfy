/** subexpr of gparser.c in place: it reads tokens and drives the code generator as it goes. */
module CodeSource {
  import opened CodeVm
  import opened CodeGen
  import opened CodeLists
  import opened CodeMachine
  import opened CodeParser

  const MAX_C_CALLS: nat := 200

  /** A syntax error, or a limit of the code generator. */
  datatype Status = Accepted | Rejected | TooBig

  /** The first operator that was left, or OPR_NOBINOPR. */
  datatype Next = NoBinOpr | Opr(b: BinOp)

  function Ahead(ts: seq<Token>): Next { if ts != [] && ts[0].TBin? then Opr(ts[0].b) else NoBinOpr }

  /** Code that has outgrown a limit does so whatever else the loop of subexpr reads. */
  lemma {:induction false} OperatorsLimit(fs: Fs, ts: seq<Token>, limit: int, e: Expr, room: nat)
    requires Limit(Compile(fs, e).0)
    ensures var x := Operators(ts, limit, e, room); x.Tree? ==> Limit(Compile(fs, x.e).0)
    decreases |ts|
  {
    hide Compile, CodeGen.Infix, CodeGen.Posfix, SubExpr, Bin;
    if ts != [] && ts[0].TBin? && Priority(ts[0].b) > limit {
      var x := SubExpr(ts[1..], Priority(ts[0].b), room);
      if x.Tree? {
        BinIs(fs, ts[0].b, e, x.e);
        OperatorsLimit(fs, x.rest, limit, Bin(ts[0].b, e, x.e), room);
      }
    }
  }

  /** What a round of the loop leaves alone, from what its parts leave alone. */
  lemma RoundKept(c0: seq<Instr>, p0: set<int>, w0: set<int>, c1: seq<Instr>, p1: set<int>, o1: set<int>,
                  c2: seq<Instr>, p2: set<int>, w2: set<int>, left: set<int>, c3: seq<Instr>, p3: set<int>, o3: set<int>,
                  c4: seq<Instr>, p4: set<int>, o4: set<int>)
    requires Kept(c0, p0, w0, c1, p1, o1) && Kept(c1, p1, o1, c2, p2, w2 + left) && Kept(c2, p2, w2, c3, p3, o3)
    requires Kept(c3, p3, o3 + left, c4, p4, o4)
    ensures Kept(c0, p0, w0, c4, p4, o4)
  {
    hide Kept;
    KeptMore(c2, p2, w2, c3, p3, o3, left);
    KeptTrans(c2, p2, w2 + left, c3, p3, o3 + left, c4, p4, o4);
    KeptTrans(c1, p1, o1, c2, p2, w2 + left, c4, p4, o4);
    KeptTrans(c0, p0, w0, c1, p1, o1, c4, p4, o4);
  }

  /** A point in the generation of code: the state, its code, the jumps that wait, and those pending to the next
      instruction. */
  datatype Point = Point(a: Fs, code: seq<Instr>, pending: set<int>, own: set<int>)

  /** A failure is a syntax error of the tokens, or a limit that the code of their tree exceeds. */
  ghost predicate Justified(s: Status, p: Parsed, a: Fs) {
    (s.Rejected? ==> p.Bad?) && (s.TooBig? && p.Tree? ==> Limit(Compile(a, p.e).0))
  }

  /** The tree of the second operand becomes that of both. */
  function Joined(b: BinOp, e: Expr, p: Parsed): Parsed { if p.Bad? then Bad else Tree(Bin(b, e, p.e), p.rest) }

  class LexState {
    const source: seq<Token>
    const fs: FuncState
    var pos: nat
    var calls: nat

    constructor (source: seq<Token>, fs: FuncState)
      ensures this.source == source && this.fs == fs && pos == 0 && calls == 0
    {
      this.source, this.fs, pos, calls := source, fs, 0, 0;
    }

    predicate Ok()
      reads this
    {
      pos <= |source| && calls <= MAX_C_CALLS
    }

    function Rest(): seq<Token>
      requires Ok()
      reads this
    {
      source[pos..]
    }

    function Room(): nat
      requires Ok()
      reads this
    {
      MAX_C_CALLS - calls
    }

    ghost function Here(): Point
      reads fs
    {
      Point(fs.Abs(), fs.code, fs.pending, Members(fs.waiting))
    }

    /** The descriptor is what compiling `e` from `q` on gives, and lists of others are intact. */
    ghost predicate Compiled(q: Point, e: Expr, d: ExpDesc)
      reads fs, d
    {
      fs.Valid() && fs.Holds(d) && (fs.Abs(), d.Abs()) == Compile(q.a, e) &&
      Kept(q.code, q.pending, q.own, fs.code, fs.pending, fs.Own(d))
    }

    /** The parser is past the tree, at the level where it was. */
    predicate Reached(p: Parsed, c: nat)
      reads this
    {
      p.Tree? && Ok() && calls == c && Rest() == p.rest
    }

    /** The tree has been read and compiled. */
    ghost predicate Read(p: Parsed, c: nat, q: Point, d: ExpDesc)
      reads this, fs, d
    {
      Reached(p, c) && Compiled(q, p.e, d)
    }

    /** subexpr. */
    method SubExpr(limit: int) returns (s: Status, d: ExpDesc, op: Next)
      requires Ok() && fs.Valid()
      modifies this, fs
      ensures Justified(s, CodeParser.SubExpr(old(Rest()), limit, old(Room())), old(fs.Abs()))
      ensures s.Accepted? ==> Read(CodeParser.SubExpr(old(Rest()), limit, old(Room())), old(calls), old(Here()), d)
      ensures s.Accepted? ==> fresh(d) && op == Ahead(Rest())
      decreases |source| - pos, 3
    {
      hide CodeParser.SubExpr, CodeParser.Operand, Compile, Kept, FuncState.Holds, FuncState.Valid, FuncState.Abs;
      hide ExpDesc.Abs, FuncState.Own;
      ghost var ts, q := Rest(), Here();
      ghost var room := Room();
      ghost var whole := CodeParser.SubExpr(ts, limit, room);
      op := NoBinOpr;
      SubExprNone(ts, limit);
      if calls == MAX_C_CALLS {
        d := new ExpDesc(VNil, 0, Val.Nil);
        return Rejected, d, op;
      }
      SubExprIs(ts, limit, room);
      calls := calls + 1;
      ghost var x := CodeParser.Operand(ts, room - 1);
      s, d := Operand();
      if !s.Accepted? {
        if s.TooBig? && x.Tree? { OperatorsLimit(q.a, x.rest, limit, x.e, room - 1); }
        return;
      }
      ghost var e := x.e;
      op := Ahead(Rest());
      while op.Opr? && Priority(op.b) > limit
        invariant Ok() && calls == old(calls) + 1 && op == Ahead(Rest()) && pos > old(pos) && fresh(d)
        invariant Compiled(q, e, d) && whole == Operators(Rest(), limit, e, room - 1)
        decreases |source| - pos
      {
        ghost var b, before := op.b, Rest();
        pos := pos + 1;
        assert Rest() == before[1..];
        ghost var y := CodeParser.SubExpr(Rest(), Priority(b), room - 1);
        s, op := Apply(op.b, d, e, q);
        if !s.Accepted? {
          if s.TooBig? && y.Tree? { OperatorsLimit(q.a, y.rest, limit, Bin(b, e, y.e), room - 1); }
          return;
        }
        e := Bin(b, e, y.e);
      }
      if pos < |source| && source[pos] == TOutside { return Rejected, d, op; }
      calls := calls - 1;
      return Accepted, d, op;
    }

    /** One round of the loop: infix, the second operand, posfix. */
    method Apply(b: BinOp, d: ExpDesc, ghost e: Expr, ghost q: Point) returns (s: Status, op: Next)
      requires Ok() && Compiled(q, e, d)
      modifies this, fs, d
      ensures Justified(s, Joined(b, e, CodeParser.SubExpr(old(Rest()), Priority(b), old(Room()))), q.a)
      ensures s.Accepted? ==> Read(Joined(b, e, CodeParser.SubExpr(old(Rest()), Priority(b), old(Room()))), old(calls), q, d)
      ensures s.Accepted? ==> op == Ahead(Rest())
      decreases |source| - pos, 4
    {
      hide CodeParser.SubExpr, Compile, Kept, FuncState.Holds, FuncState.Valid, CodeGen.Infix, CodeGen.Posfix, Bin;
      hide Members, IsList, FuncState.Abs, ExpDesc.Abs, FuncState.Own, Limit, ExpDesc.Own;
      ghost var p := CodeParser.SubExpr(Rest(), Priority(b), Room());
      if p.Tree? { BinIs(q.a, b, e, p.e); }
      op := NoBinOpr;
      ghost var c1, p1, o1 := fs.code, fs.pending, fs.Own(d);
      ghost var (g, f) := CodeGen.Infix(fs.Abs(), b, d.Abs());
      var r := fs.Infix(b, d);
      if r.Fail? { return TooBig, op; }
      ghost var c2, p2, w2, left := fs.code, fs.pending, fs.waiting, fs.Left(b, d);
      var d2;
      s, d2, op := SubExpr(Priority(b));
      if !s.Accepted? { return; }
      StillBetween(b, d, d2, f, c2, p2, w2);
      ghost var c3, p3, o3 := fs.code, fs.pending, fs.Own(d2);
      r := fs.Posfix(b, d, d2, f);
      if r.Fail? { return TooBig, op; }
      RoundKept(q.code, q.pending, q.own, c1, p1, o1, c2, p2, Members(w2), Members(left), c3, p3, o3, fs.code, fs.pending,
                fs.Own(d));
    }

    /** What the second operand does leaves the first one's list as it was. */
    lemma StillBetween(b: BinOp, d: ExpDesc, d2: ExpDesc, f: Exp, c2: seq<Instr>, p2: set<int>, w2: seq<int>)
      requires Kept(c2, p2, Members(w2), fs.code, fs.pending, fs.Own(d2))
      requires b.AndOp? ==> IsList(c2, p2, w2, d.f, d.fl) && Members(d.fl) == f.f
      requires b.OrOp? ==> IsList(c2, p2, w2, d.t, d.tl) && Members(d.tl) == f.t
      requires b.Rel? ==> fs.Between(b, d, f)
      ensures fs.Between(b, d, f) && (forall j | j in fs.Left(b, d) :: j !in fs.Own(d2))
      ensures fs.List(if b.AndOp? then d.f else if b.OrOp? then d.t else NO_JUMP, fs.Left(b, d))
    {
      hide Kept, IsList, Members;
      match b
      case AndOp => ListApart(c2, p2, w2, fs.code, fs.pending, fs.waiting, fs.Own(d2), d.f, d.fl);
      case OrOp => ListApart(c2, p2, w2, fs.code, fs.pending, fs.waiting, fs.Own(d2), d.t, d.tl);
      case Rel(_) => EmptyList(fs.code, fs.pending, fs.waiting);
    }

    /** A unary operator with its operand, or a simple expression. */
    method Operand() returns (s: Status, d: ExpDesc)
      requires Ok() && fs.Valid()
      modifies this, fs
      ensures Justified(s, CodeParser.Operand(old(Rest()), old(Room())), old(fs.Abs()))
      ensures s.Accepted? ==> Read(CodeParser.Operand(old(Rest()), old(Room())), old(calls), old(Here()), d) && fresh(d)
      decreases |source| - pos, 2
    {
      hide CodeParser.SubExpr, CodeParser.Simple, Kept, FuncState.Holds, FuncState.Valid, CodeGen.CodeNot, Members;
      hide IsList, AbsCode;
      if pos < |source| && source[pos] == TNot {
        ghost var before := Rest();
        pos := pos + 1;
        assert Rest() == before[1..];
        ghost var c0, p0, w0 := fs.code, fs.pending, Members(fs.waiting);
        var op;
        s, d, op := SubExpr(UNARY_PRIORITY);
        if !s.Accepted? { return; }
        ghost var c1, p1, o1 := fs.code, fs.pending, fs.Own(d);
        var r := fs.CodeNot(d);
        if r.Fail? { return TooBig, d; }
        KeptTrans(c0, p0, w0, c1, p1, o1, fs.code, fs.pending, fs.Own(d));
      } else {
        s, d := Simple();
      }
    }

    /** simpleexp, with a name or a parenthesis of primaryexp. */
    method Simple() returns (s: Status, d: ExpDesc)
      requires Ok() && fs.Valid()
      modifies this, fs
      ensures Justified(s, CodeParser.Simple(old(Rest()), old(Room())), old(fs.Abs()))
      ensures s.Accepted? ==> Read(CodeParser.Simple(old(Rest()), old(Room())), old(calls), old(Here()), d) && fresh(d)
      decreases |source| - pos, 1
    {
      hide CodeParser.SubExpr, Kept, FuncState.Holds, FuncState.Valid, Members, IsList, AbsCode, Compile;
      if pos < |source| && source[pos].TOpen? {
        s, d := Parenthesis();
      } else if pos == |source| || Atom(source[pos]).Bad? {
        d := new ExpDesc(VNil, 0, Val.Nil);
        return Rejected, d;
      } else {
        ghost var before := Rest();
        var t := source[pos];
        pos := pos + 1;
        assert Rest() == before[1..];
        var r;
        r, d := fs.Simple(Atom(t).e);
        if r.Fail? { return TooBig, d; }
        s := if t.TName? && pos < |source| && (source[pos].TOpen? || source[pos].TString?) then Rejected else Accepted;
      }
    }

    /** An expression in parentheses. */
    method Parenthesis() returns (s: Status, d: ExpDesc)
      requires Ok() && fs.Valid() && pos < |source| && source[pos].TOpen?
      modifies this, fs
      ensures Justified(s, CodeParser.Simple(old(Rest()), old(Room())), old(fs.Abs()))
      ensures s.Accepted? ==> Read(CodeParser.Simple(old(Rest()), old(Room())), old(calls), old(Here()), d) && fresh(d)
      decreases |source| - pos, 0
    {
      hide CodeParser.SubExpr, Kept, FuncState.Holds, FuncState.Valid, Members, IsList, AbsCode;
      ghost var before := Rest();
      pos := pos + 1;
      assert Rest() == before[1..];
      var op;
      s, d, op := SubExpr(0);
      if !s.Accepted? { return; }
      if pos == |source| || source[pos] != TClose { return Rejected, d; }
      pos := pos + 1;
      fs.DischargeVar(d);
      if pos < |source| && (source[pos].TOpen? || source[pos].TString?) { return Rejected, d; }
    }
  }

  /** A token that is an expression. */
  function Atom(t: Token): Parsed {
    match t
    case TNil => Tree(ENil, [])
    case TTrue => Tree(ETrue, [])
    case TFalse => Tree(EFalse, [])
    case TString(v) => Tree(EStr(v), [])
    case TNumber(v) => Tree(ENum(v), [])
    case TName(i) => Tree(ELocal(i), [])
    case _ => Bad
  }

  lemma SubExprNone(ts: seq<Token>, limit: int)
    ensures CodeParser.SubExpr(ts, limit, 0).Bad?
  {}
}
