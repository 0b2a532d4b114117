/** Operator precedence: subexpr of gparser.c as a function on tokens, and printing as its inverse. */
module CodeParser {
  import opened CodeVm
  import opened CodeGen

  /** Tokens, with names resolved to the registers of their locals. `TOutside` is any token that goes on with an
      expression outside this language (arithmetic, indexing, calls with a table, functions); `TOther` is any token that
      cannot be in an expression. */
  datatype Token =
    | TNil | TTrue | TFalse | TString(s: Val) | TNumber(n: Val) | TName(i: int) | TNot | TBin(b: BinOp)
    | TOpen | TClose | TOutside | TOther

  const UNARY_PRIORITY := 8

  /** The priority table; left and right priorities are equal for these operators. */
  function Priority(b: BinOp): int {
    match b
    case OrOp => 1
    case AndOp => 2
    case Rel(_) => 3
  }

  /** A syntax error or an expression outside this language, or the tree and the tokens that are left. */
  datatype Parsed = Bad | Tree(e: Expr, rest: seq<Token>)

  // ---------------------------------------------------------------- parsing

  predicate StartsCall(ts: seq<Token>) { ts != [] && (ts[0].TOpen? || ts[0].TString?) }

  /** simpleexp and primaryexp; after a name or a parenthesis an argument would make it a call. */
  function Simple(ts: seq<Token>, room: nat): (r: Parsed)
    ensures r.Tree? ==> |r.rest| < |ts|
    decreases |ts|, 0
  {
    if ts == [] then Bad
    else
      match ts[0]
      case TNil => Tree(ENil, ts[1..])
      case TTrue => Tree(ETrue, ts[1..])
      case TFalse => Tree(EFalse, ts[1..])
      case TString(v) => Tree(EStr(v), ts[1..])
      case TNumber(v) => Tree(ENum(v), ts[1..])
      case TName(i) => if StartsCall(ts[1..]) then Bad else Tree(ELocal(i), ts[1..])
      case TOpen =>
        var x := SubExpr(ts[1..], 0, room);
        if x.Bad? || x.rest == [] || x.rest[0] != TClose || StartsCall(x.rest[1..]) then Bad else Tree(EParen(x.e), x.rest[1..])
      case _ => Bad
  }

  /** subexpr; `room` is how many levels enterlevel still allows. */
  function SubExpr(ts: seq<Token>, limit: int, room: nat): (r: Parsed)
    ensures r.Tree? ==> |r.rest| < |ts|
    decreases |ts|, 2
  {
    if room == 0 then Bad
    else
      var x := Operand(ts, room - 1);
      if x.Bad? then Bad else Operators(x.rest, limit, x.e, room - 1)
  }

  /** The first operand: a unary operator with its operand, or a simple expression. */
  function Operand(ts: seq<Token>, room: nat): (r: Parsed)
    ensures r.Tree? ==> |r.rest| < |ts|
    decreases |ts|, 1
  {
    if ts != [] && ts[0] == TNot then
      var x := SubExpr(ts[1..], UNARY_PRIORITY, room);
      if x.Bad? then Bad else Tree(ENot(x.e), x.rest)
    else Simple(ts, room)
  }

  /** The loop: operators with a priority higher than `limit`. */
  function Operators(ts: seq<Token>, limit: int, e: Expr, room: nat): (r: Parsed)
    ensures r.Tree? ==> |r.rest| <= |ts|
    decreases |ts|, 2
  {
    if ts != [] && ts[0].TBin? && Priority(ts[0].b) > limit then
      var x := SubExpr(ts[1..], Priority(ts[0].b), room);
      if x.Bad? then Bad else Operators(x.rest, limit, Bin(ts[0].b, e, x.e), room)
    else if ts != [] && ts[0] == TOutside then Bad
    else Tree(e, ts)
  }

  // ---------------------------------------------------------------- printing

  /** The operator of a binary expression, or none. */
  function Root(e: Expr): int {
    match e
    case EAnd(_, _) => 2
    case EOr(_, _) => 1
    case ECmp(_, _, _) => 3
    case _ => UNARY_PRIORITY + 1
  }

  /** The tokens of an expression where operators above `limit` need no parentheses. */
  function Show(e: Expr, limit: int): seq<Token>
    decreases e, 1
  {
    if Root(e) <= limit then [TOpen] + ShowBare(e) + [TClose] else ShowBare(e)
  }

  function ShowBare(e: Expr): seq<Token>
    decreases e, 0
  {
    match e
    case ENil => [TNil]
    case ETrue => [TTrue]
    case EFalse => [TFalse]
    case EStr(v) => [TString(v)]
    case ENum(v) => [TNumber(v)]
    case ELocal(i) => [TName(i)]
    case EParen(x) => [TOpen] + Show(x, 0) + [TClose]
    case ENot(x) => [TNot] + Show(x, UNARY_PRIORITY)
    case EAnd(l, r) => Show(l, 1) + [TBin(AndOp)] + Show(r, 2)
    case EOr(l, r) => Show(l, 0) + [TBin(OrOp)] + Show(r, 1)
    case ECmp(op, l, r) => Show(l, 2) + [TBin(Rel(op))] + Show(r, 3)
  }

  /** The expression with the parentheses that printing adds. */
  function Shown(e: Expr, limit: int): Expr
    decreases e, 1
  {
    if Root(e) <= limit then EParen(ShownBare(e)) else ShownBare(e)
  }

  function ShownBare(e: Expr): Expr
    decreases e, 0
  {
    match e
    case EParen(x) => EParen(Shown(x, 0))
    case ENot(x) => ENot(Shown(x, UNARY_PRIORITY))
    case EAnd(l, r) => EAnd(Shown(l, 1), Shown(r, 2))
    case EOr(l, r) => EOr(Shown(l, 0), Shown(r, 1))
    case ECmp(op, l, r) => ECmp(op, Shown(l, 2), Shown(r, 3))
    case _ => e
  }

  /** How many levels of subexpr the tokens need. */
  function Levels(e: Expr, limit: int): (n: nat)
    ensures n >= 1
    decreases e, 1
  {
    if Root(e) <= limit then 1 + LevelsBare(e) else LevelsBare(e)
  }

  function LevelsBare(e: Expr): (n: nat)
    ensures n >= 1
    decreases e, 0
  {
    match e
    case EParen(x) => 1 + Levels(x, 0)
    case ENot(x) => 1 + Levels(x, UNARY_PRIORITY)
    case EAnd(l, r) => Max(Levels(l, 1), 1 + Levels(r, 2))
    case EOr(l, r) => Max(Levels(l, 0), 1 + Levels(r, 1))
    case ECmp(_, l, r) => Max(Levels(l, 2), 1 + Levels(r, 3))
    case _ => 1
  }

  function Max(a: nat, b: nat): nat { if a > b then a else b }

  // ---------------------------------------------------------------- round trip

  /** What follows does not belong to an expression printed at this limit. */
  predicate Follows(rest: seq<Token>, limit: int) {
    rest != [] ==> !StartsCall(rest) && rest[0] != TOutside && (rest[0].TBin? ==> Priority(rest[0].b) <= limit)
  }

  /** Parsing a printed expression, at any limit that its operators exceed, gives the expression and goes on with what
      follows. */
  lemma {:induction false} ShowParses(e: Expr, limit: int, outer: int, rest: seq<Token>, room: nat)
    requires 0 <= outer <= limit <= UNARY_PRIORITY && Follows(rest, limit + 1) && room >= Levels(e, limit)
    ensures SubExpr(Show(e, limit) + rest, outer, room) == Operators(rest, outer, Shown(e, limit), room - 1)
    decreases e, 2
  {
    if Root(e) <= limit { ParenParses(e, outer, rest, room); }
    else { BareParses(e, outer, rest, room); }
  }

  lemma {:induction false} ParenParses(e: Expr, outer: int, rest: seq<Token>, room: nat)
    requires outer >= 0 && !StartsCall(rest) && Root(e) <= UNARY_PRIORITY && room >= 1 + LevelsBare(e)
    ensures SubExpr([TOpen] + ShowBare(e) + [TClose] + rest, outer, room) == Operators(rest, outer, EParen(ShownBare(e)), room - 1)
    decreases e, 1
  {
    hide SubExpr, Operators, ShowBare, LevelsBare, ShownBare;
    BareParses(e, 0, [TClose] + rest, room - 1);
    GroupStep(ShowBare(e), ShownBare(e), outer, rest, room);
  }

  lemma GroupStep(inner: seq<Token>, x: Expr, outer: int, rest: seq<Token>, room: nat)
    requires room >= 2 && !StartsCall(rest)
    requires SubExpr(inner + ([TClose] + rest), 0, room - 1) == Operators([TClose] + rest, 0, x, room - 2)
    ensures SubExpr([TOpen] + inner + [TClose] + rest, outer, room) == Operators(rest, outer, EParen(x), room - 1)
  {
    hide SubExpr, Operators;
    var after := [TClose] + rest;
    var ts := [TOpen] + inner + [TClose] + rest;
    StopsAt(after, 0, x, room - 2);
    assert ts[0] == TOpen && ts[1..] == inner + after && after[1..] == rest;
    SubExprIs(ts, outer, room);
  }

  lemma NotStep(inner: seq<Token>, x: Expr, outer: int, rest: seq<Token>, room: nat)
    requires room >= 2 && Follows(rest, UNARY_PRIORITY)
    requires SubExpr(inner + rest, UNARY_PRIORITY, room - 1) == Operators(rest, UNARY_PRIORITY, x, room - 2)
    ensures SubExpr([TNot] + inner + rest, outer, room) == Operators(rest, outer, ENot(x), room - 1)
  {
    hide SubExpr, Operators;
    var ts := [TNot] + inner + rest;
    StopsAt(rest, UNARY_PRIORITY, x, room - 2);
    assert ts[0] == TNot && ts[1..] == inner + rest;
    SubExprIs(ts, outer, room);
  }

  lemma StopsAt(ts: seq<Token>, limit: int, e: Expr, room: nat)
    requires Follows(ts, limit)
    ensures Operators(ts, limit, e, room) == Tree(e, ts)
  {}

  lemma SubExprIs(ts: seq<Token>, limit: int, room: nat)
    requires room > 0
    ensures var x := Operand(ts, room - 1);
            SubExpr(ts, limit, room) == if x.Bad? then Bad else Operators(x.rest, limit, x.e, room - 1)
  {}

  lemma AtomParses(e: Expr, outer: int, rest: seq<Token>, room: nat)
    requires !e.EParen? && !e.ENot? && !e.EAnd? && !e.EOr? && !e.ECmp? && !StartsCall(rest) && room >= 1
    ensures SubExpr(ShowBare(e) + rest, outer, room) == Operators(rest, outer, e, room - 1)
  {
    hide SubExpr, Operators;
    var ts := ShowBare(e) + rest;
    assert ts[0] == ShowBare(e)[0] && ts[1..] == rest;
    SubExprIs(ts, outer, room);
  }

  lemma {:induction false} BareParses(e: Expr, outer: int, rest: seq<Token>, room: nat)
    requires 0 <= outer < Root(e) && Follows(rest, Root(e)) && room >= LevelsBare(e)
    ensures SubExpr(ShowBare(e) + rest, outer, room) == Operators(rest, outer, ShownBare(e), room - 1)
    decreases e, 0
  {
    hide SubExpr, Operators, Show, Shown, Levels;
    match e
    case EParen(x) =>
      ShowParses(x, 0, 0, [TClose] + rest, room - 1);
      GroupStep(Show(x, 0), Shown(x, 0), outer, rest, room);
    case ENot(x) =>
      AllBelow(rest, Root(e));
      ShowParses(x, UNARY_PRIORITY, UNARY_PRIORITY, rest, room - 1);
      NotStep(Show(x, UNARY_PRIORITY), Shown(x, UNARY_PRIORITY), outer, rest, room);
    case EAnd(l, r) => BinParses(AndOp, l, r, outer, rest, room);
    case EOr(l, r) => BinParses(OrOp, l, r, outer, rest, room);
    case ECmp(op, l, r) => BinParses(Rel(op), l, r, outer, rest, room);
    case _ => AtomParses(e, outer, rest, room);
  }

  lemma AllBelow(rest: seq<Token>, limit: int)
    requires Follows(rest, limit)
    ensures Follows(rest, UNARY_PRIORITY)
  {}

  lemma {:induction false} BinParses(b: BinOp, l: Expr, r: Expr, outer: int, rest: seq<Token>, room: nat)
    requires 0 <= outer < Priority(b) && Follows(rest, Priority(b))
    requires room >= Max(Levels(l, Priority(b) - 1), 1 + Levels(r, Priority(b)))
    ensures SubExpr(Show(l, Priority(b) - 1) + [TBin(b)] + Show(r, Priority(b)) + rest, outer, room) ==
            Operators(rest, outer, Bin(b, Shown(l, Priority(b) - 1), Shown(r, Priority(b))), room - 1)
    decreases Bin(b, l, r), 0, 0
  {
    hide SubExpr, Operators, Show, Shown, Levels;
    var p := Priority(b);
    assert l < Bin(b, l, r) && r < Bin(b, l, r);
    hide Bin, Priority;
    var right := Show(r, p) + rest;
    ShowParses(l, p - 1, outer, [TBin(b)] + right, room);
    ShowParses(r, p, p, rest, room - 1);
    StopsAt(rest, p, Shown(r, p), room - 2);
    OperatorsStep(b, right, outer, Shown(l, p - 1), room - 1);
    assert Show(l, p - 1) + [TBin(b)] + Show(r, p) + rest == Show(l, p - 1) + ([TBin(b)] + right);
  }

  lemma OperatorsStep(b: BinOp, ts: seq<Token>, limit: int, e: Expr, room: nat)
    requires Priority(b) > limit
    ensures var x := SubExpr(ts, Priority(b), room);
            Operators([TBin(b)] + ts, limit, e, room) == if x.Bad? then Bad else Operators(x.rest, limit, Bin(b, e, x.e), room)
  {
    assert ([TBin(b)] + ts)[1..] == ts;
  }

  // ---------------------------------------------------------------- every parse is a printed expression

  /** No operator that still belongs to an expression with this priority comes next. */
  predicate Stops(ts: seq<Token>, limit: int) { ts != [] && ts[0].TBin? ==> Priority(ts[0].b) <= limit }

  /** `e` prints as itself where operators must be above `limit`. */
  predicate Exact(e: Expr, limit: int) { Root(e) > limit && ShownBare(e) == e }

  /** The tree that subexpr finds prints as the tokens that it took, with no parentheses added. */
  lemma {:induction false} ParseShows(ts: seq<Token>, limit: int, room: nat)
    requires SubExpr(ts, limit, room).Tree? && 0 <= limit <= UNARY_PRIORITY
    ensures var x := SubExpr(ts, limit, room); ts == Show(x.e, limit) + x.rest && Exact(x.e, limit) && Stops(x.rest, limit)
    decreases |ts|, 2
  {
    hide Simple, Operand, Operators, ShowBare, ShownBare;
    assert room > 0;
    hide SubExpr;
    SubExprIs(ts, limit, room);
    var x := Operand(ts, room - 1);
    OperandShows(ts, room - 1);
    OperatorsShow(x.rest, limit, x.e, room - 1);
  }

  lemma {:induction false} OperandShows(ts: seq<Token>, room: nat)
    requires Operand(ts, room).Tree?
    ensures var x := Operand(ts, room); ts == ShowBare(x.e) + x.rest && Exact(x.e, UNARY_PRIORITY)
    decreases |ts|, 1
  {
    hide Simple, SubExpr, Operators;
    if ts != [] && ts[0] == TNot {
      ParseShows(ts[1..], UNARY_PRIORITY, room);
      var x := SubExpr(ts[1..], UNARY_PRIORITY, room);
      assert ts == [TNot] + ts[1..] == [TNot] + Show(x.e, UNARY_PRIORITY) + x.rest;
      ExactShow(x.e, UNARY_PRIORITY);
      assert ShowBare(ENot(x.e)) == [TNot] + Show(x.e, UNARY_PRIORITY) &&
             ShownBare(ENot(x.e)) == ENot(Shown(x.e, UNARY_PRIORITY));
    } else {
      SimpleShows(ts, room);
    }
  }

  lemma {:induction false} SimpleShows(ts: seq<Token>, room: nat)
    requires Simple(ts, room).Tree?
    ensures var x := Simple(ts, room); ts == ShowBare(x.e) + x.rest && Exact(x.e, UNARY_PRIORITY)
    decreases |ts|, 0
  {
    hide SubExpr;
    assert ts == [ts[0]] + ts[1..];
    if ts[0] == TOpen {
      ParseShows(ts[1..], 0, room);
      var x := SubExpr(ts[1..], 0, room);
      assert x.rest == [TClose] + x.rest[1..];
      assert ts == [TOpen] + Show(x.e, 0) + [TClose] + x.rest[1..];
      ExactShow(x.e, 0);
      assert ShownBare(EParen(x.e)) == EParen(Shown(x.e, 0));
    }
  }

  lemma {:induction false} OperatorsShow(ts: seq<Token>, limit: int, e: Expr, room: nat)
    requires Operators(ts, limit, e, room).Tree? && Exact(e, limit) && 0 <= limit <= UNARY_PRIORITY
    requires Stops(ts, Root(e))
    ensures var x := Operators(ts, limit, e, room); ShowBare(e) + ts == ShowBare(x.e) + x.rest && Exact(x.e, limit) && Stops(x.rest, limit)
    decreases |ts|, 3
  {
    hide SubExpr, ShowBare, ShownBare;
    if ts != [] && ts[0].TBin? && Priority(ts[0].b) > limit {
      var b := ts[0].b;
      var x := SubExpr(ts[1..], Priority(b), room);
      ParseShows(ts[1..], Priority(b), room);
      BinExact(b, e, x.e);
      assert ts == [TBin(b)] + ts[1..];
      assert ShowBare(e) + ts == ShowBare(Bin(b, e, x.e)) + x.rest;
      OperatorsShow(x.rest, limit, Bin(b, e, x.e), room);
    }
  }

  lemma BinExact(b: BinOp, l: Expr, r: Expr)
    requires Exact(l, Priority(b) - 1) && Exact(r, Priority(b))
    ensures Root(Bin(b, l, r)) == Priority(b) && Exact(Bin(b, l, r), Priority(b) - 1)
    ensures ShowBare(Bin(b, l, r)) == ShowBare(l) + [TBin(b)] + ShowBare(r)
  {
    hide Show, Shown;
    ExactShow(l, Priority(b) - 1);
    ExactShow(r, Priority(b));
  }

  lemma ExactShow(e: Expr, limit: int)
    requires Exact(e, limit)
    ensures Show(e, limit) == ShowBare(e) && Shown(e, limit) == e
  {}

  /** Names are in scope and literals are values. */
  predicate InScope(ts: seq<Token>, nactvar: int) {
    forall t | t in ts ::
      (t.TName? ==> 0 <= t.i < nactvar) && (t.TString? ==> t.s.Other?) && (t.TNumber? ==> t.n.Other?)
  }

  lemma {:induction false} ShowScope(e: Expr, limit: int, nactvar: int)
    requires InScope(Show(e, limit), nactvar)
    ensures WellFormed(e, nactvar)
    decreases e
  {
    var ts := ShowBare(e);
    assert forall t | t in ts :: t in Show(e, limit);
    hide Show;
    match e
    case EParen(x) => assert forall t | t in Show(x, 0) :: t in ts; ShowScope(x, 0, nactvar);
    case ENot(x) => assert forall t | t in Show(x, UNARY_PRIORITY) :: t in ts; ShowScope(x, UNARY_PRIORITY, nactvar);
    case EAnd(l, r) => assert forall t | t in Show(l, 1) || t in Show(r, 2) :: t in ts; ShowScope(l, 1, nactvar); ShowScope(r, 2, nactvar);
    case EOr(l, r) => assert forall t | t in Show(l, 0) || t in Show(r, 1) :: t in ts; ShowScope(l, 0, nactvar); ShowScope(r, 1, nactvar);
    case ECmp(_, l, r) => assert forall t | t in Show(l, 2) || t in Show(r, 3) :: t in ts; ShowScope(l, 2, nactvar); ShowScope(r, 3, nactvar);
    case _ => assert ts[0] in ts;
  }

  lemma ParseScope(ts: seq<Token>, limit: int, room: nat, nactvar: int)
    requires InScope(ts, nactvar) && SubExpr(ts, limit, room).Tree? && 0 <= limit <= UNARY_PRIORITY
    ensures WellFormed(SubExpr(ts, limit, room).e, nactvar)
  {
    hide SubExpr, Show;
    ParseShows(ts, limit, room);
    var x := SubExpr(ts, limit, room);
    assert forall t | t in Show(x.e, limit) :: t in ts;
    ShowScope(x.e, limit, nactvar);
  }

  // ---------------------------------------------------------------- the added parentheses mean nothing

  lemma {:induction false} ShownValue(m: Machine, e: Expr, limit: int, r: Regs)
    ensures Eval(m, Shown(e, limit), r) == Eval(m, e, r) && Eval(m, ShownBare(e), r) == Eval(m, e, r)
    decreases e
  {
    match e
    case EParen(x) => ShownValue(m, x, 0, r);
    case ENot(x) => ShownValue(m, x, UNARY_PRIORITY, r);
    case EAnd(l, x) => ShownValue(m, l, 1, r); ShownValue(m, x, 2, r);
    case EOr(l, x) => ShownValue(m, l, 0, r); ShownValue(m, x, 1, r);
    case ECmp(_, l, x) => ShownValue(m, l, 2, r); ShownValue(m, x, 3, r);
    case _ =>
  }

  /** Printing an expression with parentheses only where the priorities need them, and parsing it, gives an expression
      with the same value; what follows the expression is left alone. */
  lemma PrintParse(m: Machine, e: Expr, rest: seq<Token>, room: nat, r: Regs)
    requires Follows(rest, 0) && room >= Levels(e, 0)
    ensures var x := SubExpr(Show(e, 0) + rest, 0, room);
            x == Tree(Shown(e, 0), rest) && Eval(m, x.e, r) == Eval(m, e, r)
  {
    hide SubExpr, Operators, Eval;
    ShowParses(e, 0, 0, rest, room);
    StopsAt(rest, 0, Shown(e, 0), room - 1);
    ShownValue(m, e, 0, r);
  }
}
