/** The bytecode checker of gdebug.c: symbexec run over all code, as gafqG_checkcode does. */
module CheckCode {

  /** An instruction as the word it is; a SETLIST count is any word. */
  type Word = w: int | 0 <= w < 0x1_0000_0000

  function Op(w: Word): int { w % 64 }
  function ArgA(w: Word): int { w / 64 % 256 }
  function ArgC(w: Word): int { w / 16384 % 512 }
  function ArgB(w: Word): int { w / 8388608 % 512 }
  function ArgBx(w: Word): int { w / 16384 % 262144 }
  function ArgSBx(w: Word): int { ArgBx(w) - 131071 }

  const OP_MOVE := 0
  const OP_LOADK := 1
  const OP_LOADBOOL := 2
  const OP_LOADNIL := 3
  const OP_GETUPVAL := 4
  const OP_GETGLOBAL := 5
  const OP_GETTABLE := 6
  const OP_SETGLOBAL := 7
  const OP_SETUPVAL := 8
  const OP_SETTABLE := 9
  const OP_NEWTABLE := 10
  const OP_SELF := 11
  const OP_ADD := 12
  const OP_POW := 17
  const OP_UNM := 18
  const OP_LEN := 20
  const OP_CONCAT := 21
  const OP_JMP := 22
  const OP_EQ := 23
  const OP_LE := 25
  const OP_TEST := 26
  const OP_TESTSET := 27
  const OP_CALL := 28
  const OP_TAILCALL := 29
  const OP_RETURN := 30
  const OP_FORLOOP := 31
  const OP_FORPREP := 32
  const OP_TFORLOOP := 33
  const OP_SETLIST := 34
  const OP_CLOSE := 35
  const OP_CLOSURE := 36
  const OP_VARARG := 37
  const NUM_OPCODES := 38

  const MAXSTACK := 250
  const NO_REG := 255
  const BITRK := 256

  datatype Format = ABC | ABx | AsBx
  datatype ArgMode = ArgN | ArgU | ArgR | ArgK

  /** gafqP_opmodes. */
  function FormatOf(op: int): Format {
    if op == OP_LOADK || op == OP_GETGLOBAL || op == OP_SETGLOBAL || op == OP_CLOSURE then ABx
    else if op == OP_JMP || op == OP_FORLOOP || op == OP_FORPREP then AsBx
    else ABC
  }

  function ModeB(op: int): ArgMode {
    if op == OP_LOADK || op == OP_GETGLOBAL || op == OP_SETGLOBAL || op == OP_SETTABLE ||
       OP_ADD <= op <= OP_POW || OP_EQ <= op <= OP_LE then ArgK
    else if op == OP_TFORLOOP || op == OP_CLOSE then ArgN
    else if op == OP_LOADBOOL || op == OP_GETUPVAL || op == OP_SETUPVAL || op == OP_NEWTABLE || op == OP_CALL || op == OP_TAILCALL ||
            op == OP_RETURN || op == OP_SETLIST || op == OP_CLOSURE || op == OP_VARARG then ArgU
    else ArgR
  }

  function ModeC(op: int): ArgMode {
    if op == OP_GETTABLE || op == OP_SETTABLE || op == OP_SELF || OP_ADD <= op <= OP_POW || OP_EQ <= op <= OP_LE then ArgK
    else if op == OP_LOADBOOL || op == OP_NEWTABLE || op == OP_TEST || op == OP_TESTSET || op == OP_CALL || op == OP_TAILCALL ||
            op == OP_TFORLOOP || op == OP_SETLIST then ArgU
    else if op == OP_CONCAT then ArgR
    else ArgN
  }

  /** testTMode. */
  predicate IsTest(op: int) { OP_EQ <= op <= OP_TESTSET || op == OP_TFORLOOP }

  /** testAMode. */
  predicate SetsA(op: int) {
    !(op == OP_SETGLOBAL || op == OP_SETUPVAL || op == OP_SETTABLE || op == OP_JMP || OP_EQ <= op <= OP_LE || op == OP_RETURN ||
      op == OP_TFORLOOP || op == OP_SETLIST || op == OP_CLOSE)
  }

  const VARARG_HASARG := 1
  const VARARG_ISVARARG := 2
  const VARARG_NEEDSARG := 4

  function Bit(x: int, b: int): int { if b > 0 && x / b % 2 == 1 then b else 0 }

  /** What the checker looks at. `kstr` says which constants are strings, `subnups` how many upvalues the nested
      prototypes have. */
  datatype Proto = Proto(code: seq<Word>, kstr: seq<bool>, subnups: seq<nat>, nups: int, numparams: int, vararg: int, maxstack: int,
                         sizeupvalues: int, sizelineinfo: int)

  // ---------------------------------------------------------------- the checks

  /** precheck. */
  predicate Precheck(pt: Proto) {
    pt.maxstack <= MAXSTACK && pt.numparams + Bit(pt.vararg, VARARG_HASARG) <= pt.maxstack &&
    (Bit(pt.vararg, VARARG_NEEDSARG) == 0 || Bit(pt.vararg, VARARG_HASARG) != 0) && pt.sizeupvalues <= pt.nups &&
    (pt.sizelineinfo == |pt.code| || pt.sizelineinfo == 0) && |pt.code| > 0 && Op(pt.code[|pt.code| - 1]) == OP_RETURN
  }

  /** gafqG_checkopenop. */
  predicate OpenOk(w: Word) { (Op(w) == OP_CALL || Op(w) == OP_TAILCALL || Op(w) == OP_RETURN || Op(w) == OP_SETLIST) && ArgB(w) == 0 }

  /** checkArgMode. */
  predicate ArgOk(pt: Proto, r: int, mode: ArgMode) {
    match mode
    case ArgN => r == 0
    case ArgU => true
    case ArgR => r < pt.maxstack
    case ArgK => if r >= BITRK then r - BITRK < |pt.kstr| else r < pt.maxstack
  }

  /** A word that looks like a SETLIST whose count is in the next word. */
  predicate CountFollows(w: Word) { Op(w) == OP_SETLIST && ArgC(w) == 0 }

  /** The word at `pc` is an instruction: it is not the count of the instruction before. */
  predicate Real(code: seq<Word>, pc: int)
    requires 0 <= pc <= |code|
    decreases pc
  {
    pc == 0 || !(Real(code, pc - 1) && CountFollows(code[pc - 1]))
  }

  /** How many words that look like a SETLIST with a count come right before `dest`. */
  function RunBefore(code: seq<Word>, dest: int): (j: int)
    requires 0 <= dest <= |code|
    ensures 0 <= j <= dest
  {
    if dest > 0 && CountFollows(code[dest - 1]) then 1 + RunBefore(code, dest - 1) else 0
  }

  /** The parity argument: whatever words precede it, `dest` is an instruction exactly when an even number of them looks
      like a SETLIST with a count. */
  lemma {:induction false} Parity(code: seq<Word>, dest: int)
    requires 0 <= dest <= |code|
    ensures Real(code, dest) <==> RunBefore(code, dest) % 2 == 0
    decreases dest
  {
    if dest > 0 { Parity(code, dest - 1); }
  }

  /** The checks on the arguments, before the switch on the opcode. */
  predicate ArgsOk(pt: Proto, pc: int)
    requires 0 <= pc < |pt.code|
  {
    var i := pt.code[pc];
    var op, n := Op(i), |pt.code|;
    op < NUM_OPCODES && ArgA(i) < pt.maxstack &&
    (match FormatOf(op)
     case ABC => ArgOk(pt, ArgB(i), ModeB(op)) && ArgOk(pt, ArgC(i), ModeC(op))
     case ABx => ModeB(op) == ArgK ==> ArgBx(i) < |pt.kstr|
     case AsBx => ModeB(op) == ArgR ==>
       var dest := pc + 1 + ArgSBx(i);
       0 <= dest < n && RunBefore(pt.code, dest) % 2 == 0) &&
    (IsTest(op) ==> pc + 2 < n && Op(pt.code[pc + 1]) == OP_JMP)
  }

  /** The switch on the opcode. */
  predicate OpcodeOk(pt: Proto, pc: int)
    requires 0 <= pc < |pt.code|
  {
    var i := pt.code[pc];
    var op, a, n := Op(i), ArgA(i), |pt.code|;
    var b, c := ArgB(i), ArgC(i);
    if op == OP_LOADBOOL then c == 1 ==> pc + 2 < n && !CountFollows(pt.code[pc + 1])
    else if op == OP_GETUPVAL || op == OP_SETUPVAL then b < pt.nups
    else if op == OP_GETGLOBAL || op == OP_SETGLOBAL then ArgBx(i) < |pt.kstr| && pt.kstr[ArgBx(i)]
    else if op == OP_SELF then a + 1 < pt.maxstack
    else if op == OP_CONCAT then b < c
    else if op == OP_TFORLOOP then c >= 1 && a + 2 + c < pt.maxstack
    else if op == OP_FORLOOP || op == OP_FORPREP then a + 3 < pt.maxstack
    else if op == OP_CALL || op == OP_TAILCALL then
      (b != 0 ==> a + b - 1 < pt.maxstack) &&
      (if c == 0 then pc + 1 < n && OpenOk(pt.code[pc + 1]) else c == 1 || a + c - 2 < pt.maxstack)
    else if op == OP_RETURN then b > 1 ==> a + b - 2 < pt.maxstack
    else if op == OP_SETLIST then (b > 0 ==> a + b < pt.maxstack) && (c == 0 ==> pc + 1 < n - 1)
    else if op == OP_CLOSURE then
      ArgBx(i) < |pt.subnups| && pc + pt.subnups[ArgBx(i)] < n &&
      forall j | pc < j <= pc + pt.subnups[ArgBx(i)] :: Op(pt.code[j]) == OP_GETUPVAL || Op(pt.code[j]) == OP_MOVE
    else if op == OP_VARARG then
      Bit(pt.vararg, VARARG_ISVARARG) != 0 && Bit(pt.vararg, VARARG_NEEDSARG) == 0 &&
      (b == 0 ==> pc + 1 < n && OpenOk(pt.code[pc + 1])) && a + b - 2 < pt.maxstack
    else true
  }

  /** Every instruction passes its checks. */
  predicate Accepted(pt: Proto) {
    Precheck(pt) && forall pc | 0 <= pc < |pt.code| && Real(pt.code, pc) :: ArgsOk(pt, pc) && OpcodeOk(pt, pc)
  }

  // ---------------------------------------------------------------- control flow

  /** gafqV_execute: `q` may be executed after the instruction at `pc` of the same function. */
  predicate Follows(pt: Proto, pc: int, q: int)
    requires 0 <= pc < |pt.code|
  {
    var i := pt.code[pc];
    var op := Op(i);
    if op == OP_LOADBOOL then q == if ArgC(i) != 0 then pc + 2 else pc + 1
    else if op == OP_JMP || op == OP_FORPREP then q == pc + 1 + ArgSBx(i)
    else if op == OP_FORLOOP then q == pc + 1 || q == pc + 1 + ArgSBx(i)
    else if IsTest(op) then q == pc + 2 || (pc + 1 < |pt.code| && q == pc + 2 + ArgSBx(pt.code[pc + 1]))
    else if op == OP_RETURN then false
    else if op == OP_SETLIST then q == if ArgC(i) == 0 then pc + 2 else pc + 1
    else if op == OP_CLOSURE then q == pc + 1 + if ArgBx(i) < |pt.subnups| then pt.subnups[ArgBx(i)] else 0
    else q == pc + 1
  }

  /** `pc` is an instruction of the code. */
  predicate Inside(pt: Proto, pc: int) { 0 <= pc < |pt.code| && Real(pt.code, pc) }

  /** Skips by LOADBOOL with an operand other than 0 and 1, which the checker does not look at. */
  predicate SkipOk(pt: Proto, pc: int)
    requires 0 <= pc < |pt.code|
  {
    Op(pt.code[pc]) == OP_LOADBOOL && ArgC(pt.code[pc]) > 1 ==> pc + 2 < |pt.code| && !CountFollows(pt.code[pc + 1])
  }

  predicate SkipsOk(pt: Proto) { forall pc | 0 <= pc < |pt.code| && Real(pt.code, pc) :: SkipOk(pt, pc) }

  /** Control stays at instructions. */
  ghost predicate Closed(pt: Proto) { forall pc, q | Inside(pt, pc) && Follows(pt, pc, q) :: Inside(pt, q) }

  /** The last word is an instruction. */
  lemma LastReal(pt: Proto)
    requires Accepted(pt)
    ensures Inside(pt, |pt.code| - 1)
  {
    var n := |pt.code|;
    if n > 1 && Real(pt.code, n - 2) { assert OpcodeOk(pt, n - 2); }
  }

  lemma StepInside(pt: Proto, pc: int, q: int)
    requires Accepted(pt) && Inside(pt, pc) && Follows(pt, pc, q) && SkipOk(pt, pc)
    ensures Inside(pt, q)
  {
    var op := Op(pt.code[pc]);
    LastReal(pt);
    FallInside(pt, pc);
    if op == OP_JMP || op == OP_FORPREP || op == OP_FORLOOP {
      assert ArgsOk(pt, pc) by { hide OpcodeOk; }
      hide ArgsOk, OpcodeOk, Accepted;
      JumpInside(pt, pc);
    } else if IsTest(op) {
      TestInside(pt, pc);
    } else if op == OP_CLOSURE {
      hide ArgsOk;
      assert OpcodeOk(pt, pc);
      ClosureSkips(pt, pc, pt.subnups[ArgBx(pt.code[pc])]);
    } else {
      hide ArgsOk;
      assert OpcodeOk(pt, pc);
      if op == OP_LOADBOOL && ArgC(pt.code[pc]) != 0 { SkipInside(pt, pc); }
      else if CountFollows(pt.code[pc]) { CountInside(pt, pc); }
    }
  }

  lemma SkipInside(pt: Proto, pc: int)
    requires Inside(pt, pc) && Op(pt.code[pc]) == OP_LOADBOOL && pc + 2 < |pt.code| && !CountFollows(pt.code[pc + 1])
    ensures Inside(pt, pc + 2)
  {}

  lemma CountInside(pt: Proto, pc: int)
    requires Inside(pt, pc) && CountFollows(pt.code[pc]) && pc + 2 < |pt.code|
    ensures Inside(pt, pc + 2)
  {
    assert !Real(pt.code, pc + 1);
  }

  lemma TestInside(pt: Proto, pc: int)
    requires Accepted(pt) && Inside(pt, pc) && IsTest(Op(pt.code[pc]))
    ensures pc + 1 < |pt.code| && Inside(pt, pc + 2) && Inside(pt, pc + 2 + ArgSBx(pt.code[pc + 1]))
  {
    hide OpcodeOk;
    assert ArgsOk(pt, pc);
    assert Real(pt.code, pc + 1);
    assert ArgsOk(pt, pc + 1);
    JumpInside(pt, pc + 1);
  }

  /** A checked jump goes to an instruction. */
  lemma JumpInside(pt: Proto, pc: int)
    requires 0 <= pc < |pt.code| && ArgsOk(pt, pc) && FormatOf(Op(pt.code[pc])) == AsBx
    ensures Inside(pt, pc + 1 + ArgSBx(pt.code[pc]))
  {
    hide Real, RunBefore;
    Parity(pt.code, pc + 1 + ArgSBx(pt.code[pc]));
  }

  /** What follows an instruction that is not the last, and not a SETLIST with a count, is an instruction. */
  lemma FallInside(pt: Proto, pc: int)
    requires Accepted(pt) && Inside(pt, pc)
    ensures Op(pt.code[pc]) != OP_RETURN && !CountFollows(pt.code[pc]) ==> Inside(pt, pc + 1)
  {
    hide ArgsOk, OpcodeOk;
  }

  /** After CLOSURE, its pseudo-instructions are instructions, and so is the word after them. */
  lemma {:induction false} ClosureSkips(pt: Proto, pc: int, n: nat)
    requires Inside(pt, pc) && Op(pt.code[pc]) == OP_CLOSURE && pc + n < |pt.code|
    requires forall j | pc < j <= pc + n :: Op(pt.code[j]) == OP_GETUPVAL || Op(pt.code[j]) == OP_MOVE
    ensures Real(pt.code, pc + 1 + n)
    decreases n
  {
    if n > 0 { ClosureSkips(pt, pc, n - 1); }
  }

  /** Code that the checker accepts keeps control at instructions exactly when its LOADBOOL skips are in order. */
  lemma ClosedIff(pt: Proto)
    requires Accepted(pt)
    ensures Closed(pt) <==> SkipsOk(pt)
  {
    if SkipsOk(pt) {
      forall pc, q | Inside(pt, pc) && Follows(pt, pc, q) ensures Inside(pt, q) { StepInside(pt, pc, q); }
    }
    if Closed(pt) {
      forall pc | Inside(pt, pc) ensures SkipOk(pt, pc) {
        if Op(pt.code[pc]) == OP_LOADBOOL && ArgC(pt.code[pc]) > 1 {
          assert Follows(pt, pc, pc + 2);
          assert Inside(pt, pc + 2);
          assert Real(pt.code, pc + 1);
        }
      }
    }
  }

  /** A control-flow path from the first instruction. */
  ghost predicate Path(pt: Proto, p: seq<int>) {
    |p| > 0 && p[0] == 0 && forall i | 0 <= i < |p| - 1 :: 0 <= p[i] < |pt.code| && Follows(pt, p[i], p[i + 1])
  }

  /** Every index that the instruction at `pc` uses is in range. */
  predicate IndicesOk(pt: Proto, pc: int)
    requires 0 <= pc < |pt.code|
  {
    var i := pt.code[pc];
    var op := Op(i);
    op < NUM_OPCODES && ArgA(i) < pt.maxstack &&
    (op == OP_LOADK ==> ArgBx(i) < |pt.kstr|) &&
    (op == OP_GETGLOBAL || op == OP_SETGLOBAL ==> ArgBx(i) < |pt.kstr| && pt.kstr[ArgBx(i)]) &&
    (op == OP_GETUPVAL || op == OP_SETUPVAL ==> ArgB(i) < pt.nups) &&
    (op == OP_CLOSURE ==> ArgBx(i) < |pt.subnups|) &&
    (FormatOf(op) == ABC && ModeB(op) == ArgK && ArgB(i) >= BITRK ==> ArgB(i) - BITRK < |pt.kstr|) &&
    (FormatOf(op) == ABC && ModeC(op) == ArgK && ArgC(i) >= BITRK ==> ArgC(i) - BITRK < |pt.kstr|)
  }

  /** Every path of accepted code whose LOADBOOL operands are 0 or 1 stays at instructions, and uses only indices in
      range. */
  lemma {:induction false} PathsSafe(pt: Proto, p: seq<int>, i: int)
    requires Accepted(pt) && Path(pt, p) && 0 <= i < |p|
    requires forall pc | Inside(pt, pc) && Op(pt.code[pc]) == OP_LOADBOOL :: ArgC(pt.code[pc]) <= 1
    ensures Inside(pt, p[i]) && IndicesOk(pt, p[i])
    decreases i
  {
    if i > 0 {
      PathsSafe(pt, p, i - 1);
      assert SkipOk(pt, p[i - 1]);
      StepInside(pt, p[i - 1], p[i]);
    }
    assert ArgsOk(pt, p[i]) && OpcodeOk(pt, p[i]);
  }

  /** With a larger LOADBOOL operand, accepted code can leave the instructions: it is skipped to a SETLIST count. */
  lemma SkipCounterexample() returns (pt: Proto)
    ensures Accepted(pt) && !SkipsOk(pt) && !Closed(pt)
  {
    var loadbool: Word := OP_LOADBOOL + 2 * 16384;
    var setlist: Word := OP_SETLIST;
    var ret: Word := OP_RETURN;
    pt := Proto([loadbool, setlist, ret, ret], [], [], 0, 0, 0, 2, 0, 0);
    var c := pt.code;
    assert Op(loadbool) == OP_LOADBOOL && ArgC(loadbool) == 2 && ArgA(loadbool) == 0 && ArgB(loadbool) == 0;
    assert Op(setlist) == OP_SETLIST && ArgC(setlist) == 0 && ArgB(setlist) == 0 && ArgA(setlist) == 0;
    assert Op(ret) == OP_RETURN && ArgA(ret) == 0 && ArgB(ret) == 0 && ArgC(ret) == 0;
    assert Real(c, 0) && Real(c, 1) && !Real(c, 2) && Real(c, 3);
    assert Inside(pt, 0) && Follows(pt, 0, 2) && !Inside(pt, 2);
    forall pc | 0 <= pc < |c| && Real(c, pc) ensures ArgsOk(pt, pc) && OpcodeOk(pt, pc) {
      assert pc == 0 || pc == 1 || pc == 3;
    }
  }

  // ---------------------------------------------------------------- the loops

  /** The loop that goes back over what looks like SETLISTs with counts. */
  method CountBack(code: seq<Word>, dest: int) returns (j: int)
    requires 0 <= dest <= |code|
    ensures j == RunBefore(code, dest)
  {
    j := 0;
    while j < dest
      invariant 0 <= j <= dest && RunBefore(code, dest) == j + RunBefore(code, dest - j)
    {
      if !CountFollows(code[dest - 1 - j]) { break; }
      j := j + 1;
    }
  }

  method CheckArgs(pt: Proto, pc: int) returns (ok: bool)
    requires 0 <= pc < |pt.code|
    ensures ok == ArgsOk(pt, pc)
  {
    var i := pt.code[pc];
    var op := Op(i);
    if op >= NUM_OPCODES || ArgA(i) >= pt.maxstack { return false; }
    match FormatOf(op) {
      case ABC => if !ArgOk(pt, ArgB(i), ModeB(op)) || !ArgOk(pt, ArgC(i), ModeC(op)) { return false; }
      case ABx => if ModeB(op) == ArgK && ArgBx(i) >= |pt.kstr| { return false; }
      case AsBx =>
        if ModeB(op) == ArgR {
          var dest := pc + 1 + ArgSBx(i);
          if dest < 0 || dest >= |pt.code| { return false; }
          var j := CountBack(pt.code, dest);
          if j % 2 != 0 { return false; }
        }
    }
    return !IsTest(op) || (pc + 2 < |pt.code| && Op(pt.code[pc + 1]) == OP_JMP);
  }

  /** symbexec with lastpc at the end of the code and reg NO_REG: 0 when a check fails, and else the last instruction
      that changed NO_REG, or the final return. */
  method Symbexec(pt: Proto) returns (w: Word)
    ensures w != 0 <==> Accepted(pt)
  {
    if !Precheck(pt) { return 0; }
    var last, pc := |pt.code| - 1, 0;
    while pc < |pt.code|
      invariant 0 <= pc <= |pt.code| && Real(pt.code, pc) && 0 <= last < |pt.code| && pt.code[last] != 0
      invariant forall q | 0 <= q < pc && Real(pt.code, q) :: ArgsOk(pt, q) && OpcodeOk(pt, q)
    {
      var i := pt.code[pc];
      var op, a, b, c := Op(i), ArgA(i), ArgB(i), ArgC(i);
      var ok := CheckArgs(pt, pc);
      if !ok { return 0; }
      if SetsA(op) && a == NO_REG { last := pc; }
      if !OpcodeOk(pt, pc) { return 0; }
      if (op == OP_LOADNIL && a <= NO_REG <= b) || (op == OP_SELF && NO_REG == a + 1) { last := pc; }
      if (op == OP_TFORLOOP && NO_REG >= a + 2) || ((op == OP_CALL || op == OP_TAILCALL) && NO_REG >= a) { last := pc; }
      if op == OP_SETLIST && c == 0 { pc := pc + 1; }
      pc := pc + 1;
    }
    return pt.code[last];
  }

  /** gafqG_checkcode. */
  method CheckCode(pt: Proto) returns (ok: bool)
    ensures ok == Accepted(pt)
  {
    var w := Symbexec(pt);
    return w != 0;
  }
}
