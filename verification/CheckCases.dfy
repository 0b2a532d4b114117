/** Which single instructions the bytecode checker of gdebug.c accepts, field by field. */
module CheckCases {
  import opened CheckCode

  /** CREATE_ABC and CREATE_ABx of gopcodes.h: 6 bits of opcode, 8 of A, 9 of C, 9 of B; Bx is B and C together. */
  function MakeABC(op: int, a: int, b: int, c: int): Word
    requires 0 <= op < 64 && 0 <= a < 256 && 0 <= b < 512 && 0 <= c < 512
  {
    op + 64 * a + 16384 * c + 8388608 * b
  }

  function MakeABx(op: int, a: int, bx: int): Word
    requires 0 <= op < 64 && 0 <= a < 256 && 0 <= bx < 262144
  {
    op + 64 * a + 16384 * bx
  }

  lemma FieldsABC(op: int, a: int, b: int, c: int)
    requires 0 <= op < 64 && 0 <= a < 256 && 0 <= b < 512 && 0 <= c < 512
    ensures var w := MakeABC(op, a, b, c); Op(w) == op && ArgA(w) == a && ArgB(w) == b && ArgC(w) == c
  {
    var w := MakeABC(op, a, b, c);
    Field(w, 64, op, a + 256 * (c + 512 * b));
    Field(w, 16384, op + 64 * a, c + 512 * b);
    Field(w, 8388608, op + 64 * a + 16384 * c, b);
    Field(a + 256 * (c + 512 * b), 256, a, c + 512 * b);
    Field(c + 512 * b, 512, c, b);
  }

  /** A word is its low part and its high part. */
  lemma Field(w: int, m: int, low: int, high: int)
    requires (m == 64 || m == 256 || m == 512 || m == 16384 || m == 8388608) && w == low + m * high && 0 <= low < m
    ensures w % m == low && w / m == high
  {}

  lemma FieldsABx(op: int, a: int, bx: int)
    requires 0 <= op < 64 && 0 <= a < 256 && 0 <= bx < 262144
    ensures var w := MakeABx(op, a, bx); Op(w) == op && ArgA(w) == a && ArgBx(w) == bx && ArgSBx(w) == bx - 131071
  {
    var w := MakeABx(op, a, bx);
    Field(w, 64, op, a + 256 * bx);
    Field(w, 16384, op + 64 * a, bx);
    Field(a + 256 * bx, 256, a, bx);
  }

  /** A function of one instruction and its RETURN, with `size` registers, upvalues and constants. */
  function Lone(w: Word, size: int, nups: int, ks: seq<bool>): Proto {
    Proto([w, MakeABC(OP_RETURN, 0, 1, 0)], ks, [], nups, 0, 0, size, 0, 0)
  }

  predicate Simple(op: int) {
    0 <= op < NUM_OPCODES && !IsTest(op) && op != OP_JMP && op != OP_FORLOOP && op != OP_FORPREP && op != OP_CLOSURE
  }

  lemma LoneIff(w: Word, size: int, nups: int, ks: seq<bool>)
    requires 0 < size <= MAXSTACK && nups >= 0 && !CountFollows(w)
    ensures var pt := Lone(w, size, nups, ks); Accepted(pt) <==> ArgsOk(pt, 0) && OpcodeOk(pt, 0)
  {
    hide Op, ArgA, ArgB, ArgC, ArgBx, ArgSBx, MakeABC, ArgsOk, OpcodeOk, Precheck;
    var pt := Lone(w, size, nups, ks);
    ReturnOk(w, size, nups, ks);
    assert Real(pt.code, 0) && Real(pt.code, 1);
    if ArgsOk(pt, 0) && OpcodeOk(pt, 0) {
      forall pc | 0 <= pc < |pt.code| && Real(pt.code, pc)
        ensures ArgsOk(pt, pc) && OpcodeOk(pt, pc)
      {
        assert pc == 0 || pc == 1;
      }
    }
  }

  lemma ReturnOk(w: Word, size: int, nups: int, ks: seq<bool>)
    requires 0 < size <= MAXSTACK && nups >= 0
    ensures var pt := Lone(w, size, nups, ks); Precheck(pt) && ArgsOk(pt, 1) && OpcodeOk(pt, 1)
  {
    hide Op, ArgA, ArgB, ArgC, ArgBx, ArgSBx, MakeABC;
    FieldsABC(OP_RETURN, 0, 1, 0);
  }

  /** A register or a constant. */
  predicate InRK(x: int, size: int, ks: seq<bool>) { if x < 256 then x < size else x - 256 < |ks| }

  /** What is demanded of the fields of an instruction in such a function: the registers, upvalues and constants that it
      uses are there. */
  predicate Demands(op: int, a: int, b: int, c: int, size: int, nups: int, ks: seq<bool>) {
    a < size &&
    if op == OP_MOVE || op == OP_LOADNIL || OP_UNM <= op <= OP_LEN then b < size && c == 0
    else if op == OP_LOADBOOL then c != 1
    else if op == OP_GETUPVAL || op == OP_SETUPVAL then b < nups && c == 0
    else if op == OP_GETTABLE then b < size && InRK(c, size, ks)
    else if op == OP_SELF then a + 1 < size && b < size && InRK(c, size, ks)
    else if op == OP_SETTABLE || OP_ADD <= op <= OP_POW then InRK(b, size, ks) && InRK(c, size, ks)
    else if op == OP_NEWTABLE then true
    else if op == OP_CONCAT then b < c && c < size
    else if op == OP_CALL || op == OP_TAILCALL then (b == 0 || a + b <= size) && (c == 1 || (c > 1 && a + c - 1 <= size))
    else if op == OP_RETURN then (b <= 1 || a + b - 1 <= size) && c == 0
    else if op == OP_SETLIST then (b == 0 || a + b < size) && c > 0
    else if op == OP_CLOSE then b == 0 && c == 0
    else false
  }

  /** The checker accepts an instruction with operands A, B and C exactly when its demands are met. */
  lemma AcceptsIff(op: int, a: int, b: int, c: int, size: int, nups: int, ks: seq<bool>)
    requires Simple(op) && op != OP_LOADK && op != OP_GETGLOBAL && op != OP_SETGLOBAL && op != OP_VARARG
    requires 0 <= a < 256 && 0 <= b < 512 && 0 <= c < 512 && 0 < size <= MAXSTACK && nups >= 0
    requires op == OP_SETLIST ==> c > 0
    ensures Accepted(Lone(MakeABC(op, a, b, c), size, nups, ks)) <==> Demands(op, a, b, c, size, nups, ks)
  {
    hide Op, ArgA, ArgB, ArgC, ArgBx, ArgSBx, MakeABC, Accepted, ArgsOk, OpcodeOk;
    var w := MakeABC(op, a, b, c);
    var pt := Lone(w, size, nups, ks);
    FieldsABC(op, a, b, c);
    FieldsABC(OP_RETURN, 0, 1, 0);
    LoneIff(w, size, nups, ks);
    ArgsIff(pt, op, a, b, c);
    OpcodeIff(pt, op, a, b, c);
  }

  /** The modes of the operands, in a function of two words whose second is no open instruction. */
  lemma ArgsIff(pt: Proto, op: int, a: int, b: int, c: int)
    requires |pt.code| == 2 && Simple(op) && FormatOf(op) == ABC
    requires Op(pt.code[0]) == op && ArgA(pt.code[0]) == a && ArgB(pt.code[0]) == b && ArgC(pt.code[0]) == c
    ensures ArgsOk(pt, 0) <==> a < pt.maxstack && ArgOk(pt, b, ModeB(op)) && ArgOk(pt, c, ModeC(op))
  {
    hide Op, ArgA, ArgB, ArgC, ArgBx, ModeB, ModeC, ArgOk;
  }

  lemma OpcodeIff(pt: Proto, op: int, a: int, b: int, c: int)
    requires |pt.code| == 2 && Simple(op) && FormatOf(op) == ABC && op != OP_VARARG && (op == OP_SETLIST ==> c > 0)
    requires Op(pt.code[0]) == op && ArgA(pt.code[0]) == a && ArgB(pt.code[0]) == b && ArgC(pt.code[0]) == c
    requires !OpenOk(pt.code[1]) && b >= 0 && c >= 0
    ensures OpcodeOk(pt, 0) <==>
              (op == OP_LOADBOOL ==> c != 1) && (op == OP_GETUPVAL || op == OP_SETUPVAL ==> b < pt.nups) &&
              (op == OP_SELF ==> a + 1 < pt.maxstack) && (op == OP_CONCAT ==> b < c) &&
              (op == OP_CALL || op == OP_TAILCALL ==> (b == 0 || a + b <= pt.maxstack) && (c == 1 || (c > 1 && a + c - 1 <= pt.maxstack))) &&
              (op == OP_RETURN ==> b <= 1 || a + b - 1 <= pt.maxstack) && (op == OP_SETLIST ==> b == 0 || a + b < pt.maxstack)
  {
    hide Op, ArgA, ArgB, ArgC, ArgBx, OpenOk;
  }

  /** The same for constants and globals, whose names must be strings. */
  lemma AcceptsConstant(op: int, a: int, bx: int, size: int, nups: int, ks: seq<bool>)
    requires (op == OP_LOADK || op == OP_GETGLOBAL || op == OP_SETGLOBAL) && 0 <= a < 256 && 0 <= bx < 262144
    requires 0 < size <= MAXSTACK && nups >= 0
    ensures Accepted(Lone(MakeABx(op, a, bx), size, nups, ks)) <==> a < size && bx < |ks| && (op == OP_LOADK || ks[bx])
  {
    FieldsABx(op, a, bx);
    LoneIff(MakeABx(op, a, bx), size, nups, ks);
    hide Accepted;
  }

  // ---------------------------------------------------------------- control

  /** A jump, or the start or the end of a loop, is accepted exactly when it leads to one of the two instructions and,
      for a loop, its four registers are there. */
  lemma AcceptsJump(op: int, a: int, sbx: int, size: int, nups: int, ks: seq<bool>)
    requires (op == OP_JMP || op == OP_FORLOOP || op == OP_FORPREP) && 0 <= a < 256 && -131071 <= sbx <= 131072
    requires 0 < size <= MAXSTACK && nups >= 0
    ensures Accepted(Lone(MakeABx(op, a, sbx + 131071), size, nups, ks)) <==>
              a < size && (sbx == -1 || sbx == 0) && (op != OP_JMP ==> a + 3 < size)
  {
    var w := MakeABx(op, a, sbx + 131071);
    var pt := Lone(w, size, nups, ks);
    FieldsABx(op, a, sbx + 131071);
    hide Op, ArgA, ArgB, ArgC, ArgBx, ArgSBx, MakeABx, MakeABC, Accepted, Precheck;
    LoneIff(w, size, nups, ks);
    assert RunBefore(pt.code, 0) == 0 && RunBefore(pt.code, 1) == 0;
  }

  /** A test, the jump after it, and a RETURN. */
  function Branch(w: Word, size: int, nups: int, ks: seq<bool>): Proto {
    Proto([w, MakeABx(OP_JMP, 0, 131071), MakeABC(OP_RETURN, 0, 1, 0)], ks, [], nups, 0, 0, size, 0, 0)
  }

  lemma BranchIff(w: Word, size: int, nups: int, ks: seq<bool>)
    requires 0 < size <= MAXSTACK && nups >= 0 && IsTest(Op(w))
    ensures var pt := Branch(w, size, nups, ks); Accepted(pt) <==> ArgsOk(pt, 0) && OpcodeOk(pt, 0)
  {
    var pt := Branch(w, size, nups, ks);
    hide Op, ArgA, ArgB, ArgC, ArgBx, ArgSBx, MakeABC, MakeABx, ArgsOk, OpcodeOk, Precheck;
    BranchRest(w, size, nups, ks);
    if ArgsOk(pt, 0) && OpcodeOk(pt, 0) {
      forall pc | 0 <= pc < |pt.code| && Real(pt.code, pc)
        ensures ArgsOk(pt, pc) && OpcodeOk(pt, pc)
      {
        assert pc == 0 || pc == 1 || pc == 2;
      }
    }
    assert Real(pt.code, 0);
  }

  lemma BranchRest(w: Word, size: int, nups: int, ks: seq<bool>)
    requires 0 < size <= MAXSTACK && nups >= 0 && IsTest(Op(w))
    ensures var pt := Branch(w, size, nups, ks); Precheck(pt) && ArgsOk(pt, 1) && OpcodeOk(pt, 1) && ArgsOk(pt, 2) && OpcodeOk(pt, 2)
  {
    var pt := Branch(w, size, nups, ks);
    hide Op, ArgA, ArgB, ArgC, ArgBx, ArgSBx, MakeABC, MakeABx;
    FieldsABC(OP_RETURN, 0, 1, 0);
    FieldsABx(OP_JMP, 0, 131071);
    assert RunBefore(pt.code, 2) == 0;
  }

  /** Comparisons, tests and the generic loop, followed by a jump, are accepted exactly when what they use is there. */
  lemma AcceptsTest(op: int, a: int, b: int, c: int, size: int, nups: int, ks: seq<bool>)
    requires (OP_EQ <= op <= OP_TESTSET || op == OP_TFORLOOP) && 0 <= a < 256 && 0 <= b < 512 && 0 <= c < 512
    requires 0 < size <= MAXSTACK && nups >= 0
    ensures Accepted(Branch(MakeABC(op, a, b, c), size, nups, ks)) <==>
              a < size &&
              if op == OP_TFORLOOP then b == 0 && c >= 1 && a + 2 + c < size
              else if op == OP_TEST || op == OP_TESTSET then b < size
              else InRK(b, size, ks) && InRK(c, size, ks)
  {
    var w := MakeABC(op, a, b, c);
    FieldsABC(op, a, b, c);
    FieldsABx(OP_JMP, 0, 131071);
    hide Op, ArgA, ArgB, ArgC, ArgBx, ArgSBx, MakeABC, MakeABx, Accepted;
    BranchIff(w, size, nups, ks);
  }

  /** VARARG needs a function that takes a variable number of arguments and has no table of them, and room for the
      values; with B zero an open instruction has to follow. */
  lemma AcceptsVararg(a: int, b: int, vararg: int, size: int)
    requires 0 <= a < 256 && 0 <= b < 512 && 0 < size <= MAXSTACK && 0 <= vararg < 8
    ensures Accepted(Lone(MakeABC(OP_VARARG, a, b, 0), size, 0, []).(vararg := vararg)) <==>
              a < size && a + b - 2 < size && b > 0 && (vararg == 2 || vararg == 3)
  {
    hide Op, ArgA, ArgB, ArgC, ArgBx, ArgSBx, MakeABC, Accepted;
    var w := MakeABC(OP_VARARG, a, b, 0);
    var pt := Lone(w, size, 0, []).(vararg := vararg);
    FieldsABC(OP_VARARG, a, b, 0);
    FieldsABC(OP_RETURN, 0, 1, 0);
    VarargIff(pt, a, b);
  }

  lemma VarargIff(pt: Proto, a: int, b: int)
    requires |pt.code| == 2 && Op(pt.code[0]) == OP_VARARG && ArgA(pt.code[0]) == a && ArgB(pt.code[0]) == b
    requires ArgC(pt.code[0]) == 0
    requires Op(pt.code[1]) == OP_RETURN && ArgA(pt.code[1]) == 0 && ArgB(pt.code[1]) == 1 && ArgC(pt.code[1]) == 0
    requires b >= 0
    requires 0 < pt.maxstack <= MAXSTACK && pt.numparams == 0 && pt.sizeupvalues == 0 && pt.nups == 0
    requires pt.sizelineinfo == 0
    requires 0 <= pt.vararg < 8
    ensures Accepted(pt) <==> a < pt.maxstack && a + b - 2 < pt.maxstack && b > 0 && (pt.vararg == 2 || pt.vararg == 3)
  {
    hide Op, ArgA, ArgB, ArgC, ArgBx, ArgSBx;
    assert ArgsOk(pt, 0) && OpcodeOk(pt, 0) <==>
           a < pt.maxstack && a + b - 2 < pt.maxstack && b > 0 && (pt.vararg == 2 || pt.vararg == 3 || pt.vararg == 6 || pt.vararg == 7) &&
           Bit(pt.vararg, VARARG_NEEDSARG) == 0;
    assert ArgsOk(pt, 1) && OpcodeOk(pt, 1);
    hide ArgsOk, OpcodeOk;
    assert Real(pt.code, 0) && Real(pt.code, 1);
    if ArgsOk(pt, 0) && OpcodeOk(pt, 0) {
      forall pc | 0 <= pc < |pt.code| && Real(pt.code, pc)
        ensures ArgsOk(pt, pc) && OpcodeOk(pt, pc)
      {
        assert pc == 0 || pc == 1;
      }
    }
  }
}
