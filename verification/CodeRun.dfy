/** How a run changes when jumps get their targets, tests lose or get their register, and the
    last LOADNIL is extended. */
module CodeRun {
  import opened CodeVm
  import opened CodeGen

  /** What holds of the instruction at `i` in code whose last label is `lt`. */
  predicate WfAt(code: seq<Instr>, lt: int, i: int)
    requires 0 <= i < |code| && lt <= |code|
  {
    (IsTest(code[i]) ==> i + 1 < |code| && code[i + 1].Jmp?) &&
    (code[i].TestSet? && i + 1 < |code| && code[i + 1] == Jmp(NO_JUMP) ==> code[i].a == NO_REG) &&
    (code[i].Jmp? && code[i].dest != NO_JUMP ==> i < code[i].dest <= lt && !IsTest(code[code[i].dest - 1])) &&
    (code[i].LoadBool? && code[i].skip ==> i + 2 <= lt && !IsTest(code[i + 1]))
  }

  predicate WfCode(code: seq<Instr>, lo: int, lt: int) {
    0 <= lo <= |code| && lt <= |code| &&
    (lo > 0 ==> !IsTest(code[lo - 1])) &&
    forall i | lo <= i < |code| :: WfAt(code, lt, i)
  }

  /** `c2` is `c1` at `i`, but for the patches; jumps in `tgt` have got their targets. */
  predicate PatchedAt(c1: seq<Instr>, c2: seq<Instr>, lt: int, tgt: map<int, int>, i: int)
    requires 0 <= i < |c1| <= |c2|
  {
    if i in tgt then c1[i] == Jmp(NO_JUMP) && c2[i] == Jmp(tgt[i]) && |c1| <= tgt[i] <= |c2|
    else if c1[i].TestSet? && c1[i].a == NO_REG then
      (c2[i].TestSet? && c2[i].b == c1[i].b && c2[i].want == c1[i].want && (i + 1 in tgt || c2[i].a == NO_REG)) ||
      c2[i] == Test(c1[i].b, c1[i].want)
    else if c1[i].LoadNil? && i == |c1| - 1 && i >= lt then
      c2[i].LoadNil? && c2[i].a == c1[i].a && c2[i].b >= c1[i].b
    else c2[i] == c1[i]
  }

  predicate Patched(c1: seq<Instr>, c2: seq<Instr>, lo: int, lt: int, tgt: map<int, int>) {
    0 <= lo <= |c1| <= |c2| && forall i | lo <= i < |c1| :: PatchedAt(c1, c2, lt, tgt, i)
  }

  /** The registers on arriving at the end of `c1`, once it is part of `c2`. */
  function Arrive(c1: seq<Instr>, c2: seq<Instr>, pc: int, r: Regs): Regs {
    if 0 <= pc < |c1| <= |c2| && c1[|c1| - 1] != c2[|c1| - 1] && c2[|c1| - 1].LoadNil?
    then SetNil(r, c2[|c1| - 1].a, c2[|c1| - 1].b) else r
  }

  /** The registers after the jump at `j`, once its test has got a register. */
  function ExitRegs(c2: seq<Instr>, lo: int, j: int, r: Regs): Regs {
    if 0 <= lo < j <= |c2| then TestWrite(c2[j - 1], r) else r
  }

  /** How a run of `c1` goes on in `c2`. */
  function Continue(m: Machine, c1: seq<Instr>, c2: seq<Instr>, lo: int, tgt: map<int, int>, pc: int, o: Out): Out {
    match o
    case Done(r) => Run(m, c2, |c1|, Arrive(c1, c2, pc, r))
    case Exit(j, r) => if j in tgt then Run(m, c2, tgt[j], ExitRegs(c2, lo, j, r)) else o
    case Stuck => o
  }

  predicate FromHere(code: seq<Instr>, lo: int, pc: int) {
    0 <= lo <= pc <= |code| && (pc > 0 ==> !IsTest(code[pc - 1]))
  }

  /** Runs never get stuck, and leave only by jumps that have no target. */
  lemma {:induction false} RunLeaves(m: Machine, c: seq<Instr>, lo: int, lt: int, pc: int, r: Regs)
    requires WfCode(c, lo, lt) && FromHere(c, lo, pc)
    ensures !Run(m, c, pc, r).Stuck?
    ensures Run(m, c, pc, r).Exit? ==>
              var j := Run(m, c, pc, r).jump;
              pc <= j < |c| && c[j] == Jmp(NO_JUMP)
    decreases |c| - pc
  {
    if pc < |c| {
      assert WfAt(c, lt, pc);
      if c[pc].Jmp? {
        if c[pc].dest != NO_JUMP { RunLeaves(m, c, lo, lt, c[pc].dest, r); }
      } else if IsTest(c[pc]) {
        assert WfAt(c, lt, pc + 1);
        if Taken(m, c[pc], r) {
          if c[pc + 1].dest != NO_JUMP { RunLeaves(m, c, lo, lt, c[pc + 1].dest, TestWrite(c[pc], r)); }
        } else {
          RunLeaves(m, c, lo, lt, pc + 2, r);
        }
      } else if c[pc].LoadBool? && c[pc].skip {
        RunLeaves(m, c, lo, lt, pc + 2, Step(m, c[pc], r));
      } else {
        RunLeaves(m, c, lo, lt, pc + 1, Step(m, c[pc], r));
      }
    }
  }

  lemma {:induction false} RunPatch(m: Machine, c1: seq<Instr>, c2: seq<Instr>, lo: int, lt: int, tgt: map<int, int>,
                                    pc: int, r: Regs)
    requires WfCode(c1, lo, lt) && Patched(c1, c2, lo, lt, tgt) && FromHere(c1, lo, pc)
    ensures Run(m, c2, pc, r) == Continue(m, c1, c2, lo, tgt, pc, Run(m, c1, pc, r))
    decreases |c1| - pc
  {
    if pc < |c1| {
      assert WfAt(c1, lt, pc) && PatchedAt(c1, c2, lt, tgt, pc);
      if c1[pc].Jmp? {
        if c1[pc].dest != NO_JUMP { RunPatch(m, c1, c2, lo, lt, tgt, c1[pc].dest, r); ArriveLater(m, c1, c2, lo, lt, tgt, pc, c1[pc].dest, r); }
        else { ExitAt(m, c1, c2, lo, lt, tgt, pc, r); }
      } else if IsTest(c1[pc]) {
        RunPatchTest(m, c1, c2, lo, lt, tgt, pc, r);
      } else if c1[pc].LoadBool? && c1[pc].skip {
        RunPatch(m, c1, c2, lo, lt, tgt, pc + 2, Step(m, c1[pc], r));
        ArriveLater(m, c1, c2, lo, lt, tgt, pc, pc + 2, Step(m, c1[pc], r));
      } else if pc + 1 < |c1| {
        RunPatch(m, c1, c2, lo, lt, tgt, pc + 1, Step(m, c1[pc], r));
      } else {
        LastStep(m, c1, c2, lt, tgt, r);
      }
    }
  }

  lemma ExitAt(m: Machine, c1: seq<Instr>, c2: seq<Instr>, lo: int, lt: int, tgt: map<int, int>, pc: int, r: Regs)
    requires WfCode(c1, lo, lt) && Patched(c1, c2, lo, lt, tgt) && FromHere(c1, lo, pc) && pc < |c1|
    requires c1[pc] == Jmp(NO_JUMP)
    ensures Run(m, c2, pc, r) == Continue(m, c1, c2, lo, tgt, pc, Exit(pc, r))
  {
    assert PatchedAt(c1, c2, lt, tgt, pc);
    if pc > lo { assert PatchedAt(c1, c2, lt, tgt, pc - 1); }
  }

  lemma LastStep(m: Machine, c1: seq<Instr>, c2: seq<Instr>, lt: int, tgt: map<int, int>, r: Regs)
    requires 0 < |c1| <= |c2| && PatchedAt(c1, c2, lt, tgt, |c1| - 1)
    requires var i := c1[|c1| - 1]; !IsTest(i) && !i.Jmp? && !(i.LoadBool? && i.skip)
    ensures Run(m, c1, |c1| - 1, r).Done?
    ensures Run(m, c2, |c1| - 1, r) == Run(m, c2, |c1|, Arrive(c1, c2, |c1| - 1, Run(m, c1, |c1| - 1, r).regs))
  {
    var n := |c1| - 1;
    assert Run(m, c1, n, r) == Done(Step(m, c1[n], r));
    assert Run(m, c2, n, r) == Run(m, c2, n + 1, Step(m, c2[n], r));
    if c1[n] != c2[n] {
      assert SetNil(SetNil(r, c1[n].a, c1[n].b), c2[n].a, c2[n].b) == SetNil(r, c2[n].a, c2[n].b);
    }
  }

  /** Jumping forward to `to` arrives with the same registers as going on from there. */
  lemma ArriveLater(m: Machine, c1: seq<Instr>, c2: seq<Instr>, lo: int, lt: int, tgt: map<int, int>, pc: int,
                    to: int, r: Regs)
    requires Patched(c1, c2, lo, lt, tgt) && lo <= pc < to <= lt <= |c1|
    ensures Continue(m, c1, c2, lo, tgt, pc, Run(m, c1, to, r)) == Continue(m, c1, c2, lo, tgt, to, Run(m, c1, to, r))
  {
    if to == |c1| { assert PatchedAt(c1, c2, lt, tgt, |c1| - 1); ArriveSame(c1, c2, lt, tgt, pc, r); }
  }

  lemma ArriveSame(c1: seq<Instr>, c2: seq<Instr>, lt: int, tgt: map<int, int>, pc: int, r: Regs)
    requires 0 <= pc < |c1| <= |c2| && lt == |c1| && PatchedAt(c1, c2, lt, tgt, |c1| - 1)
    ensures Arrive(c1, c2, pc, r) == r
  {}

  lemma {:induction false} RunPatchTest(m: Machine, c1: seq<Instr>, c2: seq<Instr>, lo: int, lt: int,
                                        tgt: map<int, int>, pc: int, r: Regs)
    requires WfCode(c1, lo, lt) && Patched(c1, c2, lo, lt, tgt) && FromHere(c1, lo, pc)
    requires pc < |c1| && IsTest(c1[pc])
    ensures Run(m, c2, pc, r) == Continue(m, c1, c2, lo, tgt, pc, Run(m, c1, pc, r))
    decreases |c1| - pc, 0
  {
    hide PatchedAt;
    assert WfAt(c1, lt, pc) && WfAt(c1, lt, pc + 1);
    SameTest(m, c1, c2, lo, lt, tgt, pc, r);
    if Taken(m, c1[pc], r) {
      var d := c1[pc + 1].dest;
      if d != NO_JUMP {
        var r1 := TestWrite(c1[pc], r);
        RunPatch(m, c1, c2, lo, lt, tgt, d, r1);
        ArriveLater(m, c1, c2, lo, lt, tgt, pc, d, r1);
        assert Run(m, c1, pc, r) == Run(m, c1, d, r1);
        assert Run(m, c2, pc, r) == Run(m, c2, d, r1);
      } else {
        TestExit(m, c1, c2, lo, lt, tgt, pc, r);
      }
    } else {
      RunPatch(m, c1, c2, lo, lt, tgt, pc + 2, r);
      assert Run(m, c1, pc, r) == Run(m, c1, pc + 2, r);
      assert Run(m, c2, pc, r) == Run(m, c2, pc + 2, r);
    }
  }

  /** The patched test makes the same choice. */
  lemma SameTest(m: Machine, c1: seq<Instr>, c2: seq<Instr>, lo: int, lt: int, tgt: map<int, int>, pc: int, r: Regs)
    requires WfCode(c1, lo, lt) && Patched(c1, c2, lo, lt, tgt) && lo <= pc
    requires pc < |c1| && IsTest(c1[pc])
    ensures pc + 1 < |c1| && c1[pc + 1].Jmp? && IsTest(c2[pc]) && c2[pc + 1].Jmp?
    ensures Taken(m, c1[pc], r) == Taken(m, c2[pc], r)
    ensures c1[pc + 1].dest != NO_JUMP ==> c2[pc + 1] == c1[pc + 1] && TestWrite(c2[pc], r) == TestWrite(c1[pc], r)
    ensures pc + 1 !in tgt ==> c2[pc + 1] == c1[pc + 1]
    ensures pc + 1 in tgt ==> c2[pc + 1] == Jmp(tgt[pc + 1]) && pc + 1 < tgt[pc + 1] <= |c2|
    ensures c1[pc + 1].dest == NO_JUMP && pc + 1 !in tgt ==> TestWrite(c2[pc], r) == r
    ensures c1[pc + 1].dest == NO_JUMP ==> TestWrite(c1[pc], r) == r
  {
    assert WfAt(c1, lt, pc) && PatchedAt(c1, c2, lt, tgt, pc) && PatchedAt(c1, c2, lt, tgt, pc + 1);
  }

  lemma TestExit(m: Machine, c1: seq<Instr>, c2: seq<Instr>, lo: int, lt: int, tgt: map<int, int>, pc: int, r: Regs)
    requires WfCode(c1, lo, lt) && Patched(c1, c2, lo, lt, tgt) && lo <= pc
    requires pc + 1 < |c1| && IsTest(c1[pc]) && c1[pc + 1] == Jmp(NO_JUMP) && Taken(m, c1[pc], r)
    ensures Run(m, c1, pc, r) == Exit(pc + 1, r)
    ensures Run(m, c2, pc, r) == Continue(m, c1, c2, lo, tgt, pc, Exit(pc + 1, r))
  {
    SameTest(m, c1, c2, lo, lt, tgt, pc, r);
    assert Run(m, c1, pc, r) == JumpFrom(m, c1, pc, pc + 1, TestWrite(c1[pc], r));
    assert Run(m, c2, pc, r) == JumpFrom(m, c2, pc, pc + 1, TestWrite(c2[pc], r));
  }

  /** Code that ends in a LOADNIL that no jump skips leaves those registers nil. */
  lemma {:induction false} ArrivesNil(m: Machine, c: seq<Instr>, lo: int, lt: int, pc: int, r: Regs, i: int)
    requires WfCode(c, lo, lt) && FromHere(c, lo, pc) && pc < |c| && lt < |c|
    requires c[|c| - 1].LoadNil? && c[|c| - 1].a <= i <= c[|c| - 1].b && 0 <= i < NUM_REGS
    ensures Run(m, c, pc, r).Done? ==> Run(m, c, pc, r).regs[i] == Nil
    decreases |c| - pc
  {
    assert WfAt(c, lt, pc);
    if c[pc].Jmp? {
      if c[pc].dest != NO_JUMP { ArrivesNil(m, c, lo, lt, c[pc].dest, r, i); }
    } else if IsTest(c[pc]) {
      assert WfAt(c, lt, pc + 1);
      if Taken(m, c[pc], r) {
        if c[pc + 1].dest != NO_JUMP { ArrivesNil(m, c, lo, lt, c[pc + 1].dest, TestWrite(c[pc], r), i); }
      } else {
        ArrivesNil(m, c, lo, lt, pc + 2, r, i);
      }
    } else if c[pc].LoadBool? && c[pc].skip {
      ArrivesNil(m, c, lo, lt, pc + 2, Step(m, c[pc], r), i);
    } else if pc + 1 < |c| {
      ArrivesNil(m, c, lo, lt, pc + 1, Step(m, c[pc], r), i);
    }
  }
}
