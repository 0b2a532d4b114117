/** Jump lists as gcode.c keeps them: threaded through the sBx fields of the jumps themselves. Here the
    argument of Jmp is that offset. */
module CodeLists {
  import opened CodeVm
  import opened CodeGen

  /** getjump: the next jump of the list. */
  function GetJump(code: seq<Instr>, pc: int): int
    requires 0 <= pc < |code| && code[pc].Jmp?
  {
    if code[pc].dest == NO_JUMP then NO_JUMP else pc + 1 + code[pc].dest
  }

  /** The list with head `h` is `l`: it follows the offsets, ends, and repeats nothing. */
  predicate Thread(code: seq<Instr>, h: int, l: seq<int>) {
    h == (if l == [] then NO_JUMP else l[0]) &&
    (forall i | 0 <= i < |l| :: 0 <= l[i] < |code| && code[l[i]].Jmp? &&
                                GetJump(code, l[i]) == if i + 1 < |l| then l[i + 1] else NO_JUMP) &&
    forall i, j | 0 <= i < j < |l| :: l[i] != l[j]
  }

  lemma ThreadStart(code: seq<Instr>, h: int, l: seq<int>)
    requires Thread(code, h, l)
    ensures h == if l == [] then NO_JUMP else l[0]
    ensures h == NO_JUMP <==> l == []
  {}

  lemma ThreadNext(code: seq<Instr>, h: int, l: seq<int>, n: int)
    requires Thread(code, h, l) && 0 <= n < |l|
    ensures l[n] in l && 0 <= l[n] < |code| && code[l[n]].Jmp?
    ensures GetJump(code, l[n]) == if n + 1 < |l| then l[n + 1] else NO_JUMP
    ensures n + 1 < |l| ==> l[n + 1] >= 0
  {}

  lemma ThreadJumps(code: seq<Instr>, h: int, l: seq<int>, j: int)
    requires Thread(code, h, l) && j in l
    ensures 0 <= j < |code| && code[j].Jmp?
  {}

  lemma ThreadEmpty(code: seq<Instr>)
    ensures Thread(code, NO_JUMP, [])
  {}

  lemma ThreadOne(code: seq<Instr>, n: int)
    requires 0 <= n < |code| && code[n] == Jmp(NO_JUMP)
    ensures Thread(code, n, [n])
  {
    var l := [n];
    assert |l| == 1 && l[0] == n;
    assert forall i | 0 <= i < |l| :: l[i] == n;
    assert forall i | 0 <= i < |l| :: 0 <= l[i] < |code| && code[l[i]].Jmp? && GetJump(code, l[i]) == NO_JUMP;
  }

  function Members(l: seq<int>): (s: set<int>)
    ensures forall j :: j in s <==> j in l
  {
    set i | 0 <= i < |l| :: l[i]
  }

  /** A list depends on its own jumps only. */
  lemma ThreadFrame(c1: seq<Instr>, c2: seq<Instr>, h: int, l: seq<int>)
    requires Thread(c1, h, l) && forall j | j in l :: j < |c2| && (0 <= j < |c1| ==> c1[j] == c2[j])
    ensures Thread(c2, h, l)
  {
    forall i | 0 <= i < |l| ensures 0 <= l[i] < |c2| && c2[l[i]].Jmp? && GetJump(c2, l[i]) == if i + 1 < |l| then l[i + 1] else NO_JUMP {
      ThreadNext(c1, h, l, i);
    }
  }

  /** What a list with its last jump redirected to another leads to at `i`. */
  lemma JoinedAt(code: seq<Instr>, h: int, l1: seq<int>, l2: seq<int>, i: int)
    requires Thread(code, h, l1) && l1 != [] && l2 != [] && Thread(code, l2[0], l2) && (forall j | j in l1 :: j !in l2)
    requires 0 <= i < |l1| + |l2| && 0 <= l1[|l1| - 1] < |code|
    ensures var last := l1[|l1| - 1];
            var c, l := code[last := Jmp(l2[0] - (last + 1))], l1 + l2;
            0 <= l[i] < |c| && c[l[i]].Jmp? && GetJump(c, l[i]) == if i + 1 < |l| then l[i + 1] else NO_JUMP
  {
    hide Thread;
    var last := l1[|l1| - 1];
    var c, l := code[last := Jmp(l2[0] - (last + 1))], l1 + l2;
    assert last in l1 && l2[0] in l2;
    if i >= |l1| {
      ThreadNext(code, l2[0], l2, i - |l1|);
      assert l[i] == l2[i - |l1|] && l[i] != last;
    } else {
      ThreadNext(code, h, l1, i);
      if i < |l1| - 1 { ThreadApart(code, h, l1, i, |l1| - 1); }
    }
  }

  lemma ThreadApart(code: seq<Instr>, h: int, l: seq<int>, i: int, j: int)
    requires Thread(code, h, l) && 0 <= i < j < |l|
    ensures l[i] != l[j]
  {}

  /** Two disjoint lists joined at the end of the first. */
  lemma ThreadJoin(code: seq<Instr>, h: int, l1: seq<int>, l2: seq<int>)
    requires Thread(code, h, l1) && l1 != [] && l2 != [] && Thread(code, l2[0], l2) && (forall j | j in l1 :: j !in l2)
    ensures var last := l1[|l1| - 1];
            0 <= last < |code| && Thread(code[last := Jmp(l2[0] - (last + 1))], h, l1 + l2)
  {
    ThreadNext(code, h, l1, |l1| - 1);
    var last := l1[|l1| - 1];
    var c, l := code[last := Jmp(l2[0] - (last + 1))], l1 + l2;
    ThreadStart(code, h, l1);
    assert Thread(c, h, l) by {
      forall i | 0 <= i < |l| ensures 0 <= l[i] < |c| && c[l[i]].Jmp? && GetJump(c, l[i]) == if i + 1 < |l| then l[i + 1] else NO_JUMP {
        JoinedAt(code, h, l1, l2, i);
      }
      forall i, j | 0 <= i < j < |l| ensures l[i] != l[j] {
        if j < |l1| { ThreadApart(code, h, l1, i, j); }
        else if i < |l1| { assert l1[i] in l1 && l2[j - |l1|] in l2; }
        else { ThreadApart(code, l2[0], l2, i - |l1|, j - |l1|); }
      }
    }
  }

  // ---------------------------------------------------------------- the code the lists stand for

  /** With absolute targets, and none for the jumps that wait. */
  function AbsAt(code: seq<Instr>, pending: set<int>, i: int): Instr
    requires 0 <= i < |code|
  {
    if !code[i].Jmp? then code[i] else if i in pending then Jmp(NO_JUMP) else Jmp(i + 1 + code[i].dest)
  }

  function AbsCode(code: seq<Instr>, pending: set<int>): (r: seq<Instr>)
    ensures |r| == |code| && forall i | 0 <= i < |code| :: r[i] == AbsAt(code, pending, i)
  {
    seq(|code|, i requires 0 <= i < |code| => AbsAt(code, pending, i))
  }

  /** What patchlistaux writes at `i`. */
  function RawPatchAt(code: seq<Instr>, l: set<int>, vtarget: int, reg: int, dtarget: int, i: int): Instr
    requires 0 <= i < |code|
  {
    if i in l && code[i].Jmp? then Jmp((if HasTestSet(code, i) then vtarget else dtarget) - (i + 1))
    else if i + 1 in l && code[i].TestSet? then PatchTest(code[i], reg)
    else code[i]
  }

  predicate RawPatched(c1: seq<Instr>, c2: seq<Instr>, l: set<int>, vtarget: int, reg: int, dtarget: int) {
    |c1| == |c2| && forall i | 0 <= i < |c1| :: c2[i] == RawPatchAt(c1, l, vtarget, reg, dtarget, i)
  }

  lemma PatchedNone(c: seq<Instr>, vtarget: int, reg: int, dtarget: int)
    ensures RawPatched(c, c, Members([]), vtarget, reg, dtarget)
  {}

  /** The next jump of the list has not been touched yet. */
  lemma PatchNext(c0: seq<Instr>, c: seq<Instr>, h: int, l: seq<int>, n: int, vtarget: int, reg: int, dtarget: int)
    requires Thread(c0, h, l) && 0 <= n < |l| && RawPatched(c0, c, Members(l[..n]), vtarget, reg, dtarget)
    ensures 0 <= l[n] < |c| && c[l[n]] == c0[l[n]] && HasTestSet(c, l[n]) == HasTestSet(c0, l[n])
    ensures HasTestSet(c, l[n]) ==> c[l[n] - 1] == c0[l[n] - 1]
  {
    var j := l[n];
    assert j !in l[..n];
    assert c[j] == RawPatchAt(c0, Members(l[..n]), vtarget, reg, dtarget, j);
    if j > 0 { assert c[j - 1] == RawPatchAt(c0, Members(l[..n]), vtarget, reg, dtarget, j - 1); }
  }

  /** Patching it, too. */
  lemma PatchOne(c0: seq<Instr>, c: seq<Instr>, c2: seq<Instr>, h: int, l: seq<int>, n: int, vtarget: int, reg: int,
                 dtarget: int)
    requires Thread(c0, h, l) && 0 <= n < |l| && RawPatched(c0, c, Members(l[..n]), vtarget, reg, dtarget)
    requires |c2| == |c| && forall i | 0 <= i < |c| && i != l[n] && i != l[n] - 1 :: c2[i] == c[i]
    requires 0 <= l[n] < |c2| && c2[l[n]] == Jmp((if HasTestSet(c0, l[n]) then vtarget else dtarget) - (l[n] + 1))
    requires l[n] > 0 ==> c2[l[n] - 1] == if HasTestSet(c0, l[n]) then PatchTest(c0[l[n] - 1], reg) else c[l[n] - 1]
    ensures RawPatched(c0, c2, Members(l[..n + 1]), vtarget, reg, dtarget)
  {
    var s1, s2 := Members(l[..n]), Members(l[..n + 1]);
    assert l[..n + 1] == l[..n] + [l[n]];
    forall i | 0 <= i < |c0| ensures c2[i] == RawPatchAt(c0, s2, vtarget, reg, dtarget, i) {
      assert c[i] == RawPatchAt(c0, s1, vtarget, reg, dtarget, i);
    }
  }

  /** patchlistaux on threads is Patch on sets. */
  lemma PatchRefines(c1: seq<Instr>, c2: seq<Instr>, pending: set<int>, l: set<int>, vtarget: int, reg: int,
                     dtarget: int)
    requires RawPatched(c1, c2, l, vtarget, reg, dtarget)
    ensures AbsCode(c2, pending - l) == Patch(AbsCode(c1, pending), l, vtarget, reg, dtarget)
  {
    var a := AbsCode(c1, pending);
    forall i | 0 <= i < |c1| ensures AbsAt(c2, pending - l, i) == PatchAt(a, l, vtarget, reg, dtarget, i) {
      assert a[i] == AbsAt(c1, pending, i);
      if i > 0 { assert a[i - 1] == AbsAt(c1, pending, i - 1); }
    }
  }

  predicate RawRemoved(c1: seq<Instr>, c2: seq<Instr>, l: set<int>) {
    |c1| == |c2| && forall i | 0 <= i < |c1| ::
      c2[i] == if i + 1 in l && c1[i].TestSet? then PatchTest(c1[i], NO_REG) else c1[i]
  }

  lemma RemovedNone(c: seq<Instr>)
    ensures RawRemoved(c, c, Members([]))
  {}

  lemma RemoveNext(c0: seq<Instr>, c: seq<Instr>, h: int, l: seq<int>, n: int)
    requires Thread(c0, h, l) && 0 <= n < |l| && RawRemoved(c0, c, Members(l[..n]))
    ensures 0 <= l[n] < |c| && c[l[n]] == c0[l[n]] && HasTestSet(c, l[n]) == HasTestSet(c0, l[n])
    ensures HasTestSet(c, l[n]) ==> c[l[n] - 1] == c0[l[n] - 1]
  {
    assert l[n] !in l[..n];
  }

  lemma RemoveOne(c0: seq<Instr>, c: seq<Instr>, c2: seq<Instr>, h: int, l: seq<int>, n: int)
    requires Thread(c0, h, l) && 0 <= n < |l| && RawRemoved(c0, c, Members(l[..n])) && 0 <= l[n] < |c0|
    requires c2 == if HasTestSet(c, l[n]) then c[l[n] - 1 := PatchTest(c[l[n] - 1], NO_REG)] else c
    ensures RawRemoved(c0, c2, Members(l[..n + 1])) && c2[l[n]] == c0[l[n]]
  {
    RemoveNext(c0, c, h, l, n);
    assert l[..n + 1] == l[..n] + [l[n]];
  }

  lemma RemoveRefines(c1: seq<Instr>, c2: seq<Instr>, pending: set<int>, l: set<int>)
    requires RawRemoved(c1, c2, l)
    ensures AbsCode(c2, pending) == RemoveValues(AbsCode(c1, pending), l)
  {
    var a := AbsCode(c1, pending);
    forall i | 0 <= i < |c1|
      ensures AbsAt(c2, pending, i) == if i + 1 in l && a[i].TestSet? then PatchTest(a[i], NO_REG) else a[i]
    {
      assert a[i] == AbsAt(c1, pending, i);
    }
  }
}
