/** The code generator as gcode.c has it: a FuncState whose code, lists and registers change in place. */
module CodeMachine {
  import opened CodeVm
  import opened CodeGen
  import opened CodeLists

  /** Whether a syntax error was raised. */
  datatype Outcome = Pass | Fail {
    predicate IsFailure() { Fail? }
    function PropagateFailure(): Outcome { this }
  }

  /** An offset that does not fit in sBx. */
  predicate TooFar(pc: int, dest: int) { dest - (pc + 1) > MAXARG_SBX || dest - (pc + 1) < -MAXARG_SBX }

  /** Jumps that wait, and are none of `own1`, are left alone; `own2` has taken none of them. */
  predicate Kept(c1: seq<Instr>, p1: set<int>, own1: set<int>, c2: seq<Instr>, p2: set<int>, own2: set<int>) {
    |c1| <= |c2| &&
    (forall i | i in p1 && i !in own1 :: 0 <= i < |c1| && c2[i] == c1[i] && i in p2) &&
    forall j | j in own2 :: j in own1 || j >= |c1|
  }

  /** A list of waiting jumps, apart from those pending to the next instruction. */
  predicate IsList(code: seq<Instr>, pending: set<int>, waiting: seq<int>, h: int, l: seq<int>) {
    Thread(code, h, l) && forall j | j in l :: j in pending && j !in waiting
  }

  /** A list of jumps that were left alone is still one. */
  lemma ListKept(c1: seq<Instr>, p1: set<int>, w1: seq<int>, own1: set<int>, c2: seq<Instr>, p2: set<int>,
                 w2: seq<int>, own2: set<int>, h: int, l: seq<int>)
    requires Kept(c1, p1, own1, c2, p2, own2) && IsList(c1, p1, w1, h, l) && Members(w2) <= own2
    requires forall j | j in l :: j !in own1
    ensures IsList(c2, p2, w2, h, l)
  {
    hide Thread;
    forall j | j in l ensures j in p2 && j !in w2 && 0 <= j < |c2| && (j < |c1| ==> c1[j] == c2[j]) {
      assert j in p1 && j !in own1;
      assert j in w2 ==> j in Members(w2);
    }
    ThreadFrame(c1, c2, h, l);
  }

  lemma KeptTrans(c1: seq<Instr>, p1: set<int>, o1: set<int>, c2: seq<Instr>, p2: set<int>, o2: set<int>,
                  c3: seq<Instr>, p3: set<int>, o3: set<int>)
    requires Kept(c1, p1, o1, c2, p2, o2) && Kept(c2, p2, o2, c3, p3, o3)
    ensures Kept(c1, p1, o1, c3, p3, o3)
  {
    forall i | i in p1 && i !in o1 ensures 0 <= i < |c1| && c3[i] == c1[i] && i in p3 {
      assert i !in o2;
    }
  }

  /** What is owned besides stays owned. */
  lemma KeptMore(c1: seq<Instr>, p1: set<int>, o1: set<int>, c2: seq<Instr>, p2: set<int>, o2: set<int>, more: set<int>)
    requires Kept(c1, p1, o1, c2, p2, o2)
    ensures Kept(c1, p1, o1 + more, c2, p2, o2 + more)
  {}

  /** Adding what waits and what the expression owns. */
  lemma KeptSame(c: seq<Instr>, p: set<int>, o: set<int>)
    requires forall j | j in p :: 0 <= j < |c|
    ensures Kept(c, p, o, c, p, o)
  {}

  lemma RawKept(c1: seq<Instr>, c2: seq<Instr>, pending: set<int>, w: seq<int>, n: int)
    requires RawPatched(c1, c2, Members(w), n, NO_REG, n) && forall j | j in pending :: 0 <= j < |c1| && c1[j].Jmp?
    ensures Kept(c1, pending, Members(w), c2, pending - Members(w), {})
    ensures forall j | j in pending :: 0 <= j < |c2| && c2[j].Jmp?
  {
    forall j | j in pending ensures 0 <= j < |c2| && c2[j].Jmp? && (j !in w ==> c2[j] == c1[j]) {
      assert c2[j] == RawPatchAt(c1, Members(w), n, NO_REG, n, j);
    }
  }

  /** expdesc. The ghost lists are the ones that `t` and `f` are the heads of. */
  class ExpDesc {
    var k: Kind
    var info: int
    var num: Val
    var t: int
    var f: int
    ghost var tl: seq<int>
    ghost var fl: seq<int>

    constructor (k: Kind, info: int, num: Val)
      ensures this.k == k && this.info == info && this.num == num && t == f == NO_JUMP && tl == fl == []
    {
      this.k, this.info, this.num, t, f, tl, fl := k, info, num, NO_JUMP, NO_JUMP, [], [];
    }

    ghost function Abs(): Exp
      reads this
    {
      Exp(k, info, num, Members(tl), Members(fl))
    }

    ghost function Own(): set<int>
      reads this
    {
      Members(tl) + Members(fl) + if k == VJmp then {info} else {}
    }
  }

  class FuncState {
    var code: seq<Instr>
    var jpc: int
    var lasttarget: int
    var freereg: int
    var nactvar: int
    var k: seq<Val>
    ghost var pending: set<int>
    ghost var waiting: seq<int>

    constructor (nactvar: int)
      ensures Valid() && Abs() == Fs([], {}, -1, nactvar, nactvar, [], false)
    {
      code, jpc, lasttarget, freereg, this.nactvar, k, pending, waiting := [], NO_JUMP, -1, nactvar, nactvar, [], {}, [];
    }

    ghost predicate Valid()
      reads this
    {
      Thread(code, jpc, waiting) && (forall j | j in waiting :: j in pending) &&
      forall j | j in pending :: 0 <= j < |code| && code[j].Jmp?
    }

    ghost function Abs(): Fs
      reads this
    {
      Fs(AbsCode(code, pending), Members(waiting), lasttarget, freereg, nactvar, k, false)
    }

    ghost predicate List(h: int, l: seq<int>)
      reads this
    {
      IsList(code, pending, waiting, h, l)
    }

    /** The jumps that an operation on `e` may change. */
    ghost function Own(e: ExpDesc): set<int>
      reads this, e
    {
      Members(waiting) + e.Own()
    }

    ghost predicate Holds(e: ExpDesc)
      reads this, e
    {
      List(e.t, e.tl) && List(e.f, e.fl) && (forall j | j in e.tl :: j !in e.fl) &&
      (e.k == VJmp ==> List(e.info, [e.info]) && e.info !in e.tl && e.info !in e.fl) &&
      (e.k == VReloc ==> 0 <= e.info == |code| - 1 && code[e.info].Not?)
    }

    // -------------------------------------------------------------- jump lists

    /** fixjump. */
    method FixJump(pc: int, dest: int) returns (r: Outcome)
      requires 0 <= pc < |code| && code[pc].Jmp?
      modifies this`code
      ensures r.Fail? <==> TooFar(pc, dest)
      ensures code == if r.Pass? then old(code)[pc := Jmp(dest - (pc + 1))] else old(code)
    {
      var offset := dest - (pc + 1);
      if offset > MAXARG_SBX || offset < -MAXARG_SBX { return Fail; }
      code := code[pc := Jmp(offset)];
      return Pass;
    }

    /** gafqK_concat appends the second list to the first, by a new offset in its last jump. */
    method Concat(l1: int, l2: int, ghost a: seq<int>, ghost b: seq<int>) returns (r: Outcome, h: int)
      requires Thread(code, l1, a) && Thread(code, l2, b) && forall j | j in a :: j !in b
      modifies this`code
      ensures r.Fail? ==> a != [] && b != [] && TooFar(a[|a| - 1], b[0])
      ensures r.Pass? ==> Thread(code, h, a + b) && |code| == |old(code)|
      ensures r.Pass? ==> forall i | 0 <= i < |code| && i !in a :: code[i] == old(code[i])
      ensures r.Pass? ==> forall i | 0 <= i < |code| && i in a :: code[i].Jmp?
    {
      hide Thread;
      h := l1;
      ThreadStart(code, l1, a);
      ThreadStart(code, l2, b);
      forall i | 0 <= i < |code| && i in a ensures code[i].Jmp? { ThreadJumps(code, l1, a, i); }
      if l2 == NO_JUMP {
        assert a + b == a;
        return Pass, l1;
      }
      if l1 == NO_JUMP {
        assert a + b == b;
        return Pass, l2;
      }
      ThreadNext(code, l1, a, 0);
      var list := l1;
      ghost var n := 0;
      var next := GetJump(code, list);
      while next != NO_JUMP
        invariant 0 <= n < |a| && list == a[n] && code == old(code) && 0 <= list < |code| && code[list].Jmp?
        invariant next == if n + 1 < |a| then a[n + 1] else NO_JUMP
        invariant n + 1 < |a| ==> a[n + 1] >= 0
        decreases |a| - n
      {
        ThreadNext(code, l1, a, n + 1);
        list := next;
        n := n + 1;
        next := GetJump(code, list);
      }
      ThreadJoin(code, l1, a, b);
      assert a[n] in a && l2 == b[0];
      :- FixJump(list, l2);
      return Pass, l1;
    }

    /** patchtestreg: whether a TESTSET controls the jump; it gets its register, or becomes a TEST. */
    method PatchTestReg(node: int, reg: int) returns (was: bool)
      requires 0 <= node < |code|
      modifies this`code
      ensures was == HasTestSet(old(code), node)
      ensures code == if was then old(code)[node - 1 := PatchTest(old(code)[node - 1], reg)] else old(code)
    {
      if node < 1 || !code[node - 1].TestSet? { return false; }
      var i := code[node - 1];
      if reg != NO_REG && reg != i.b {
        code := code[node - 1 := TestSet(reg, i.b, i.want)];
      } else {
        code := code[node - 1 := Test(i.b, i.want)];
      }
      return true;
    }

    /** need_value. */
    method NeedsValue(list: int, ghost l: seq<int>) returns (b: bool)
      requires Thread(code, list, l)
      ensures b == NeedValue(code, Members(l))
    {
      var p := list;
      ghost var n := 0;
      while p != NO_JUMP
        invariant 0 <= n <= |l| && p == if n < |l| then l[n] else NO_JUMP
        invariant forall i | 0 <= i < n :: HasTestSet(code, l[i])
        decreases |l| - n
      {
        assert l[n] in l;
        if !HasTestSet(code, p) { return true; }
        p := GetJump(code, p);
        n := n + 1;
      }
      return false;
    }

    /** removevalues. */
    method RemoveValuesOf(list: int, ghost l: seq<int>)
      requires Thread(code, list, l)
      modifies this`code
      ensures RawRemoved(old(code), code, Members(l))
    {
      hide Thread, RawRemoved, Members;
      var p := list;
      ghost var n := 0;
      ThreadStart(code, list, l);
      assert l[..0] == [];
      RemovedNone(code);
      while p != NO_JUMP
        invariant 0 <= n <= |l| && p == (if n < |l| then l[n] else NO_JUMP) && (p == NO_JUMP <==> n == |l|)
        invariant RawRemoved(old(code), code, Members(l[..n]))
        decreases |l| - n
      {
        ghost var was0 := code;
        ThreadNext(old(code), list, l, n);
        RemoveNext(old(code), code, list, l, n);
        var was := PatchTestReg(p, NO_REG);
        RemoveOne(old(code), was0, code, list, l, n);
        p := GetJump(code, p);
        n := n + 1;
      }
      assert l[..n] == l;
    }

    /** patchlistaux: every jump of the list gets its target, and nothing else changes. */
    method PatchListAux(list: int, vtarget: int, reg: int, dtarget: int, ghost l: seq<int>) returns (r: Outcome)
      requires Thread(code, list, l)
      modifies this`code
      ensures r.Pass? ==> RawPatched(old(code), code, Members(l), vtarget, reg, dtarget)
      ensures r.Fail? ==> exists j :: j in l && TooFar(j, if HasTestSet(old(code), j) then vtarget else dtarget)
    {
      hide Thread, RawPatched, TooFar;
      var p := list;
      ghost var n := 0;
      ThreadStart(code, list, l);
      assert RawPatched(code, code, Members(l[..0]), vtarget, reg, dtarget) by { PatchedNone(code, vtarget, reg, dtarget); assert l[..0] == []; }
      while p != NO_JUMP
        invariant 0 <= n <= |l| && p == if n < |l| then l[n] else NO_JUMP
        invariant p == NO_JUMP <==> n == |l|
        invariant RawPatched(old(code), code, Members(l[..n]), vtarget, reg, dtarget)
        decreases |l| - n
      {
        ghost var was0 := code;
        PatchNext(old(code), code, list, l, n, vtarget, reg, dtarget);
        ThreadNext(old(code), list, l, n);
        var next := GetJump(code, p);
        var was := PatchTestReg(p, reg);
        :- FixJump(p, if was then vtarget else dtarget);
        PatchOne(old(code), was0, code, list, l, n, vtarget, reg, dtarget);
        p := next;
        n := n + 1;
      }
      assert l[..n] == l;
      return Pass;
    }
  
    // -------------------------------------------------------------- emitting code

    /** dischargejpc: the pending jumps come to the next instruction. */
    method DischargeJpc() returns (r: Outcome)
      requires Valid()
      modifies this`code, this`jpc, this`pending, this`waiting
      ensures r.Fail? ==> |old(code)| > MAXARG_SBX
      ensures r.Pass? ==> Valid() && waiting == [] && jpc == NO_JUMP
      ensures r.Pass? ==> Abs() == old(Abs()).(code := Patch(old(Abs().code), old(Abs().jpc), |old(code)|, NO_REG, |old(code)|), jpc := {})
      ensures r.Pass? ==> Kept(old(code), old(pending), Members(old(waiting)), code, pending, {})
      ensures r.Pass? ==> |code| == |old(code)|
    {
      hide Thread, RawPatched;
      ghost var c0, w, p0 := code, waiting, pending;
      r := PatchListAux(jpc, |code|, NO_REG, |code|, w);
      if r.Fail? {
        ghost var j :| j in w && TooFar(j, |c0|);
        ThreadJumps(c0, jpc, w, j);
        return;
      }
      PatchRefines(c0, code, p0, Members(w), |c0|, NO_REG, |c0|);
      jpc, waiting, pending := NO_JUMP, [], p0 - Members(w);
      assert Thread(code, NO_JUMP, []) by { ThreadEmpty(code); }
      RawKept(c0, code, p0, w, |c0|);
    }

    /** gafqK_code. */
    method Code(i: Instr) returns (r: Outcome)
      requires Valid() && !i.Jmp?
      modifies this`code, this`jpc, this`pending, this`waiting
      ensures r.Fail? ==> Limit(Emit(old(Abs()), i))
      ensures r.Pass? ==> Valid() && waiting == [] && Abs() == Emit(old(Abs()), i) && code[|old(code)|] == i
      ensures r.Pass? ==> Kept(old(code), old(pending), Members(old(waiting)), code, pending, {})
    {
      hide Thread;
      :- DischargeJpc();
      ghost var c1 := code;
      code := code + [i];
      assert Thread(code, jpc, waiting) by { ThreadEmpty(code); }
      assert AbsCode(code, pending) == AbsCode(c1, pending) + [i];
      return Pass;
    }

    /** gafqK_jump: the jumps pending to here join the new one's list. */
    method Jump() returns (r: Outcome, h: int, ghost l: seq<int>)
      requires Valid()
      modifies this`code, this`jpc, this`pending, this`waiting
      ensures r.Fail? ==> Limit(EmitJump(old(Abs())).0)
      ensures r.Pass? ==> Valid() && List(h, l) && l == [|old(code)|] + old(waiting) && waiting == []
      ensures r.Pass? ==> (Abs(), Members(l)) == EmitJump(old(Abs()))
      ensures r.Pass? ==> Kept(old(code), old(pending), Members(old(waiting)), code, pending, Members(l))
    {
      hide Thread;
      ghost var c0, p0, w := code, pending, waiting;
      var saved := jpc;
      jpc, waiting := NO_JUMP, [];
      var n := |code|;
      code := code + [Jmp(NO_JUMP)];
      pending := pending + {n};
      assert forall j | j in w :: 0 <= j < n;
      ThreadFrame(c0, code, saved, w);
      ThreadOne(code, n);
      ghost var c1 := code;
      l := [n];
      r, h := Concat(n, saved, [n], w);
      if r.Fail? {
        assert w[0] in w;
        return;
      }
      l := [n] + w;
      ThreadEmpty(code);
      forall i | 0 <= i < |code| && i != n ensures code[i] == c1[i] {}
      assert AbsCode(code, pending) == AbsCode(c0, p0) + [Jmp(NO_JUMP)] by {
        forall i | 0 <= i <= n ensures AbsAt(code, pending, i) == if i < n then AbsAt(c0, p0, i) else Jmp(NO_JUMP) {}
      }
      assert Members(l) == Members(w) + {n};
      assert Members([]) == {};
    }

    /** condjump. */
    method CondJump(i: Instr) returns (r: Outcome, h: int)
      requires Valid() && !i.Jmp?
      modifies this`code, this`jpc, this`pending, this`waiting
      ensures r.Fail? ==> Limit(CodeGen.CondJump(old(Abs()), i).0)
      ensures r.Pass? ==> Valid() && waiting == [] && h == |old(code)| + 1 && List(h, [h]) && |code| == |old(code)| + 2
      ensures r.Pass? ==> (Abs(), {h}) == CodeGen.CondJump(old(Abs()), i)
      ensures r.Pass? ==> Kept(old(code), old(pending), Members(old(waiting)), code, pending, {h})
    {
      hide Thread, Kept;
      h := NO_JUMP;
      :- Code(i);
      ghost var c1, p1 := code, pending;
      ghost var l;
      r, h, l := Jump();
      if r.Fail? { return; }
      assert l == [|c1|] && h == |c1| by { ThreadStart(code, h, l); }
      assert Members(l) == {h} && Members([]) == {};
      KeptTrans(old(code), old(pending), Members(old(waiting)), c1, p1, {}, code, pending, {h});
    }

    /** gafqK_getlabel. */
    method GetLabel()
      modifies this`lasttarget
      ensures Abs() == Label(old(Abs())) && (old(Valid()) ==> Valid())
    {
      lasttarget := |code|;
    }

    /** gafqK_patchtohere. */
    method PatchToHere(h: int, ghost l: seq<int>) returns (r: Outcome)
      requires Valid() && List(h, l)
      modifies this`code, this`jpc, this`waiting, this`lasttarget
      ensures r.Fail? ==> |old(code)| > MAXARG_SBX
      ensures r.Pass? ==> Valid() && waiting == old(waiting) + l && Abs() == CodeGen.PatchToHere(old(Abs()), Members(l))
      ensures r.Pass? ==> Kept(old(code), old(pending), Members(old(waiting)) + Members(l), code, pending, Members(waiting))
      ensures r.Pass? ==> |code| == |old(code)|
    {
      hide Thread;
      ghost var c0, w := code, waiting;
      GetLabel();
      forall j | j in w ensures j !in l {}
      forall j | j in w + l ensures 0 <= j < |code| && code[j].Jmp? {}
      r, jpc := Concat(jpc, h, w, l);
      if r.Fail? {
        assert w[|w| - 1] in w + l && l[0] in w + l;
        return;
      }
      waiting := w + l;
      assert AbsCode(code, pending) == AbsCode(c0, pending) by {
        forall i | 0 <= i < |code| ensures AbsAt(code, pending, i) == AbsAt(c0, pending, i) {}
      }
      assert Members(waiting) == Members(w) + Members(l);
    }
  
    /** gafqK_nil for one register. */
    method Nil(from: int) returns (r: Outcome)
      requires Valid()
      modifies this`code, this`jpc, this`pending, this`waiting
      ensures r.Fail? ==> Limit(EmitNil(old(Abs()), from))
      ensures r.Pass? ==> Valid() && Abs() == EmitNil(old(Abs()), from)
      ensures r.Pass? ==> Kept(old(code), old(pending), Members(old(waiting)), code, pending, Members(waiting))
    {
      hide Thread;
      assert Members([]) == {};
      if |code| > lasttarget {
        if |code| == 0 {
          if from >= nactvar { return Pass; }
        } else {
          var previous := code[|code| - 1];
          if previous.LoadNil? && previous.a <= from <= previous.b + 1 {
            if from > previous.b {
              ghost var c0 := code;
              code := code[|code| - 1 := LoadNil(previous.a, from)];
              assert forall j | j in waiting :: j in pending;
              ThreadFrame(c0, code, jpc, waiting);
              assert AbsCode(code, pending) == AbsCode(c0, pending)[|c0| - 1 := LoadNil(previous.a, from)];
            }
            return Pass;
          }
        }
      }
      r := Code(LoadNil(from, from));
    }

    // -------------------------------------------------------------- registers and constants

    /** gafqK_reserveregs for one register. */
    method ReserveReg() returns (r: Outcome)
      modifies this`freereg
      ensures r.Fail? <==> Reserve(old(Abs())).err
      ensures r.Pass? ==> Abs() == Reserve(old(Abs()))
    {
      if freereg + 1 >= MAX_STACK { return Fail; }
      freereg := freereg + 1;
      return Pass;
    }

    /** freeexp. */
    method FreeExpr(e: ExpDesc)
      modifies this`freereg
      ensures Abs() == FreeExp(old(Abs()), e.Abs())
    {
      if e.k == VNonReloc && e.info < BIT_RK && e.info >= nactvar { freereg := freereg - 1; }
    }

    /** addk. */
    method AddConstant(v: Val) returns (r: Outcome, i: int)
      modifies this`k
      ensures r.Fail? <==> AddK(old(Abs()), v).0.err
      ensures r.Pass? ==> (Abs(), i) == AddK(old(Abs()), v)
    {
      i := IndexOf(k, v);
      if i < 0 {
        if |k| + 1 > MAX_CONSTANTS { return Fail, i; }
        i := |k|;
        k := k + [v];
      }
      return Pass, i;
    }

    // -------------------------------------------------------------- discharging

    /** gafqK_dischargevars. */
    method DischargeVar(e: ExpDesc)
      modifies e`k
      ensures e.Abs() == DischargeVars(old(e.Abs())) && e.Own() == old(e.Own()) && (old(Holds(e)) ==> Holds(e))
    {
      if e.k == VLocal { e.k := VNonReloc; }
    }

    /** Loading a number. */
    method LoadNumber(v: Val, reg: int) returns (r: Outcome)
      requires Valid()
      modifies this`code, this`jpc, this`pending, this`waiting, this`k
      ensures r.Fail? ==> var (g, i) := AddK(old(Abs()), v); Limit(Emit(g, LoadK(reg, i)))
      ensures r.Pass? ==> Valid() && waiting == [] && var (g, i) := AddK(old(Abs()), v); Abs() == Emit(g, LoadK(reg, i))
      ensures r.Pass? ==> Kept(old(code), old(pending), Members(old(waiting)), code, pending, {})
    {
      hide Thread, Kept, Emit, Members, Patch, AbsCode;
      var i;
      r, i := AddConstant(v);
      if r.Fail? {
        EmitLimit(AddK(old(Abs()), v).0, LoadK(reg, AddK(old(Abs()), v).1));
        return;
      }
      r := Code(LoadK(reg, i));
    }

    /** The switch of discharge2reg. */
    method LoadTo(e: ExpDesc, reg: int) returns (r: Outcome)
      requires Valid() && Holds(e) && e.k != VLocal
      modifies this`code, this`jpc, this`pending, this`waiting, this`k
      ensures r.Fail? ==> Limit(CodeGen.Discharge2Reg(old(Abs()), e.Abs(), reg).0)
      ensures r.Pass? ==> Valid() && Abs() == CodeGen.Discharge2Reg(old(Abs()), e.Abs(), reg).0
      ensures r.Pass? ==> Kept(old(code), old(pending), Members(old(waiting)), code, pending, Members(waiting))
      ensures r.Pass? && e.k == VJmp ==> code == old(code) && waiting == old(waiting) && pending == old(pending)
    {
      hide Thread, Kept, Emit, EmitNil, Members, Patch;
      assert Members([]) == {} by { NoMembers(); }
      if e.k == VNil {
        :- Nil(reg);
      } else if e.k == VFalse || e.k == VTrue {
        :- Code(LoadBool(reg, e.k == VTrue, false));
      } else if e.k == VK {
        :- Code(LoadK(reg, e.info));
      } else if e.k == VKNum {
        :- LoadNumber(e.num, reg);
      } else if e.k == VReloc {
        ghost var c0 := code;
        code := code[e.info := Not(reg, code[e.info].b)];
        RelocKept(c0, pending, waiting, code, e.info);
        ThreadFrame(c0, code, jpc, waiting);
        assert AbsCode(code, pending) == AbsCode(c0, pending)[e.info := Not(reg, c0[e.info].b)];
      } else if e.k == VNonReloc && reg != e.info {
        :- Code(Move(reg, e.info));
      } else {
        KeptSame(code, pending, Members(waiting));
      }
      return Pass;
    }

    /** discharge2reg. */
    method Discharge2Reg(e: ExpDesc, reg: int) returns (r: Outcome)
      requires Valid() && Holds(e)
      modifies this`code, this`jpc, this`pending, this`waiting, this`k, e`k, e`info
      ensures r.Fail? ==> Limit(CodeGen.Discharge2Reg(old(Abs()), old(e.Abs()), reg).0)
      ensures r.Pass? ==> Valid() && Holds(e)
      ensures r.Pass? ==> (Abs(), e.Abs()) == CodeGen.Discharge2Reg(old(Abs()), old(e.Abs()), reg)
      ensures r.Pass? ==> Kept(old(code), old(pending), old(Own(e)), code, pending, Own(e))
      ensures r.Pass? ==> (if old(e.k) == VJmp then e.k == VJmp else e.k == VNonReloc)
    {
      hide Thread, Kept, Emit, EmitNil, Members, Patch, AbsCode;
      ghost var c0, p0, w0 := code, pending, waiting;
      DischargeVar(e);
      :- LoadTo(e, reg);
      KeptMore(c0, p0, Members(w0), code, pending, Members(waiting), e.Own());
      if e.k == VJmp { return Pass; }
      e.info, e.k := reg, VNonReloc;
      ListKept(c0, p0, w0, Members(w0), code, pending, waiting, Members(waiting), e.t, e.tl);
      ListKept(c0, p0, w0, Members(w0), code, pending, waiting, Members(waiting), e.f, e.fl);
      return Pass;
    }
  
    // -------------------------------------------------------------- exp2reg

    /** The loads that exp2reg adds, and the jump around them. */
    method Loads(isJmp: bool, reg: int) returns (r: Outcome)
      requires Valid()
      modifies this`code, this`jpc, this`pending, this`waiting, this`lasttarget
      ensures r.Fail? ==> Limit(EmitLoads(old(Abs()), isJmp, reg))
      ensures r.Pass? ==> Valid() && Abs() == EmitLoads(old(Abs()), isJmp, reg)
      ensures r.Pass? ==> Kept(old(code), old(pending), Members(old(waiting)), code, pending, Members(waiting))
    {
      hide Thread, Kept, Members, Patch, AbsCode;
      ghost var c0, p0, w0 := code, pending, waiting;
      NoMembers();
      var fj := NO_JUMP;
      ghost var l := [];
      assert List(fj, l) by { ThreadEmpty(code); }
      if isJmp { KeptSame(code, pending, Members(waiting)); }
      else {
        r, fj, l := Jump();
        if r.Fail? { return; }
      }
      ghost var c1, p1, w1 := code, pending, waiting;
      ghost var o1 := Members(w1) + Members(l);
      assert o1 == if isJmp then Members(w0) else Members(l);
      GetLabel();
      :- Code(LoadBool(reg, false, true));
      ghost var c2, p2 := code, pending;
      GetLabel();
      :- Code(LoadBool(reg, true, false));
      KeptTrans(c1, p1, Members(w1), c2, p2, {}, code, pending, {});
      ListKept(c1, p1, w1, Members(w1), code, pending, waiting, {}, fj, l);
      KeptMore(c1, p1, Members(w1), code, pending, {}, Members(l));
      KeptTrans(c0, p0, Members(w0), c1, p1, o1, code, pending, Members(l));
      ghost var c3, p3 := code, pending;
      r := PatchToHere(fj, l);
      if r.Fail? { return; }
      assert waiting == l;
      assert Members([]) + Members(l) == Members(l);
      KeptTrans(c0, p0, Members(w0), c3, p3, Members(l), code, pending, Members(waiting));
      return Pass;
    }

    /** The two calls of patchlistaux in exp2reg. */
    method PatchBoth(f: int, t: int, reg: int, pf: int, pt: int, ghost fl: seq<int>, ghost tl: seq<int>)
      returns (r: Outcome)
      requires Valid() && List(f, fl) && List(t, tl) && forall j | j in fl :: j !in tl
      requires (pf == |code| - 2 >= 0 && pt == |code| - 1) || (!NeedValue(code, Members(fl)) && !NeedValue(code, Members(tl)))
      modifies this`code, this`pending
      ensures r.Fail? ==> |old(code)| > MAXARG_SBX
      ensures r.Pass? ==> Valid() && |code| == |old(code)|
      ensures r.Pass? ==> Kept(old(code), old(pending), Members(old(waiting)) + Members(fl) + Members(tl), code, pending, Members(waiting))
      ensures r.Pass? ==> var n := |old(code)|;
              AbsCode(code, pending) == Patch(Patch(AbsCode(old(code), old(pending)), Members(fl), n, reg, n - 2), Members(tl), n, reg, n - 1)
    {
      hide Thread, RawPatched, Patch, AbsCode;
      ghost var c0, p0 := code, pending;
      var n := |code|;
      r := PatchListAux(f, n, reg, pf, fl);
      if r.Fail? {
        ghost var j :| j in fl && TooFar(j, if HasTestSet(c0, j) then n else pf);
        assert j in p0;
        return;
      }
      ghost var c1 := code;
      ghost var p1 := p0 - Members(fl);
      PatchedKept(c0, c1, p0, fl, n, reg, pf);
      ThreadFrame(c0, c1, t, tl);
      forall j | j in tl ensures HasTestSet(c1, j) == HasTestSet(c0, j) { PatchedTest(c0, c1, fl, n, reg, pf, j); }
      r := PatchListAux(t, n, reg, pt, tl);
      if r.Fail? {
        ghost var j :| j in tl && TooFar(j, if HasTestSet(c1, j) then n else pt);
        assert j in p0;
        return;
      }
      PatchedKept(c1, code, p1, tl, n, reg, pt);
      pending := p1 - Members(tl);
      assert forall j | j in waiting :: j in pending && code[j] == c0[j];
      ThreadFrame(c0, code, jpc, waiting);
      PatchBothRefines(c0, c1, code, p0, fl, tl, reg, pf, pt);
    }
  
    /** A comparison's own jump joins the list of true exits. */
    method TrueList(e: ExpDesc) returns (r: Outcome, t: int, ghost tl: seq<int>)
      requires Valid() && Holds(e)
      modifies this`code
      ensures r.Fail? ==> |old(code)| > MAXARG_SBX
      ensures r.Pass? ==> Valid() && List(t, tl) && List(e.f, e.fl) && (forall j | j in tl :: j !in e.fl)
      ensures r.Pass? ==> Abs() == old(Abs())
      ensures r.Pass? ==> Members(tl) == (if e.k == VJmp then Members(e.tl) + {e.info} else Members(e.tl))
      ensures r.Pass? ==> Kept(old(code), pending, Own(e), code, pending, Own(e))
    {
      hide Thread;
      t, tl := e.t, e.tl;
      if e.k == VJmp {
        ghost var c0 := code;
        r, t := Concat(e.t, e.info, e.tl, [e.info]);
        if r.Fail? {
          assert e.tl[|e.tl| - 1] in e.tl && e.info in [e.info];
          return;
        }
        tl := e.tl + [e.info];
        assert forall j | j in waiting :: j !in e.tl;
        assert forall j | j in e.fl :: j !in e.tl && j in pending;
        ThreadFrame(c0, code, jpc, waiting);
        ThreadFrame(c0, code, e.f, e.fl);
        assert AbsCode(code, pending) == AbsCode(c0, pending) by {
          forall i | 0 <= i < |code| ensures AbsAt(code, pending, i) == AbsAt(c0, pending, i) {}
        }
      }
      r := Pass;
    }

    /** need_value for both lists, and the loads. */
    method LoadsFor(t: int, f: int, isJmp: bool, reg: int, ghost tl: seq<int>, ghost fl: seq<int>)
      returns (r: Outcome, pf: int, pt: int)
      requires Valid() && List(t, tl) && List(f, fl)
      modifies this`code, this`jpc, this`pending, this`waiting, this`lasttarget
      ensures r.Fail? ==> Limit(LoadsIfNeeded(old(Abs()), Members(tl), Members(fl), isJmp, reg))
      ensures r.Pass? ==> Valid() && Abs() == LoadsIfNeeded(old(Abs()), Members(tl), Members(fl), isJmp, reg)
      ensures r.Pass? ==> List(t, tl) && List(f, fl)
      ensures r.Pass? ==> (pf == |code| - 2 >= 0 && pt == |code| - 1) || (!NeedValue(code, Members(fl)) && !NeedValue(code, Members(tl)))
      ensures r.Pass? ==> Kept(old(code), old(pending), Members(old(waiting)), code, pending, Members(waiting))
    {
      hide Thread, Kept, Members, AbsCode, EmitLoads, NeedValue;
      ghost var c1, p1, w1, a1 := code, pending, waiting, Abs();
      var need := NeedsValue(t, tl);
      if !need { need := NeedsValue(f, fl); }
      NeedSame(code, pending, Members(tl));
      NeedSame(code, pending, Members(fl));
      pf, pt := NO_JUMP, NO_JUMP;
      if !need {
        KeptSame(c1, p1, Members(w1));
        return Pass, pf, pt;
      }
      r := Loads(isJmp, reg);
      if r.Fail? { return; }
      pf, pt := |code| - 2, |code| - 1;
      LoadsLength(a1, isJmp, reg);
      ListKept(c1, p1, w1, Members(w1), code, pending, waiting, Members(waiting), t, tl);
      ListKept(c1, p1, w1, Members(w1), code, pending, waiting, Members(waiting), f, fl);
    }

    /** Every jump of the lists gets its target. */
    method FillBoth(t: int, f: int, isJmp: bool, reg: int, ghost tl: seq<int>, ghost fl: seq<int>) returns (r: Outcome)
      requires Valid() && List(t, tl) && List(f, fl) && forall j | j in fl :: j !in tl
      modifies this`code, this`jpc, this`pending, this`waiting, this`lasttarget
      ensures r.Fail? ==> Limit(FillLists(old(Abs()), Members(tl), Members(fl), isJmp, reg))
      ensures r.Pass? ==> Valid() && Abs() == FillLists(old(Abs()), Members(tl), Members(fl), isJmp, reg)
      ensures r.Pass? ==> Kept(old(code), old(pending), Members(old(waiting)) + Members(tl) + Members(fl), code, pending, Members(waiting))
    {
      hide Thread, Kept, Members, AbsCode, Patch, LoadsIfNeeded, NeedValue;
      ghost var c1, p1, w1 := code, pending, waiting;
      var pf, pt;
      r, pf, pt := LoadsFor(t, f, isJmp, reg, tl, fl);
      if r.Fail? { return; }
      ghost var c2, p2, w2 := code, pending, waiting;
      GetLabel();
      :- PatchBoth(f, t, reg, pf, pt, fl, tl);
      FillKept(c1, p1, w1, c2, p2, w2, tl, fl, code, pending);
      return Pass;
    }

    /** The second half of exp2reg. */
    method FillJumps(e: ExpDesc, reg: int) returns (r: Outcome)
      requires Valid() && Holds(e) && (e.k == VNonReloc || e.k == VJmp)
      modifies this`code, this`jpc, this`pending, this`waiting, this`lasttarget, e`k, e`info, e`t, e`f, e`tl, e`fl
      ensures r.Fail? ==> Limit(CodeGen.FillJumps(old(Abs()), old(e.Abs()), reg))
      ensures r.Pass? ==> Valid() && Abs() == CodeGen.FillJumps(old(Abs()), old(e.Abs()), reg)
      ensures r.Pass? ==> e.k == VNonReloc && e.info == reg && e.t == e.f == NO_JUMP && e.tl == e.fl == []
      ensures r.Pass? ==> Kept(old(code), old(pending), old(Own(e)), code, pending, Members(waiting))
    {
      hide Thread, Kept, Members, AbsCode, FillLists;
      ghost var c0, p0, w0, own := code, pending, waiting, Own(e);
      var t;
      ghost var tl;
      r, t, tl := TrueList(e);
      if r.Fail? { return; }
      ghost var c1 := code;
      HeadsDiffer(code, t, tl, e.f, e.fl);
      if t != e.f {
        :- FillBoth(t, e.f, e.k == VJmp, reg, tl, e.fl);
        assert own == Members(w0) + Members(tl) + Members(e.fl);
        KeptTrans(c0, p0, own, c1, p0, own, code, pending, Members(waiting));
      } else {
        NoLists(c0, p0, w0, own, code, pending, tl, e.fl);
      }
      e.k, e.info, e.t, e.f, e.tl, e.fl := VNonReloc, reg, NO_JUMP, NO_JUMP, [], [];
      return Pass;
    }
  
    /** discharge2anyreg. */
    method Discharge2AnyReg(e: ExpDesc) returns (r: Outcome)
      requires Valid() && Holds(e)
      modifies this`code, this`jpc, this`pending, this`waiting, this`k, this`freereg, e`k, e`info
      ensures r.Fail? ==> Limit(CodeGen.Discharge2AnyReg(old(Abs()), old(e.Abs())).0)
      ensures r.Pass? ==> Valid() && Holds(e) && (Abs(), e.Abs()) == CodeGen.Discharge2AnyReg(old(Abs()), old(e.Abs()))
      ensures r.Pass? ==> Kept(old(code), old(pending), old(Own(e)), code, pending, Own(e))
      ensures r.Pass? ==> (if old(e.k) == VJmp then e.k == VJmp else e.k == VNonReloc)
    {
      hide Kept, Members, AbsCode, CodeGen.Discharge2Reg, IsList;
      if e.k == VNonReloc {
        KeptSame(code, pending, Own(e));
        return Pass;
      }
      :- ReserveReg();
      r := Discharge2Reg(e, freereg - 1);
    }

    /** exp2reg. */
    method Exp2Reg(e: ExpDesc, reg: int) returns (r: Outcome)
      requires Valid() && Holds(e)
      modifies this, e`k, e`info, e`t, e`f, e`tl, e`fl
      ensures r.Fail? ==> Limit(CodeGen.Exp2Reg(old(Abs()), old(e.Abs()), reg).0)
      ensures r.Pass? ==> Valid() && Holds(e) && (Abs(), e.Abs()) == CodeGen.Exp2Reg(old(Abs()), old(e.Abs()), reg)
      ensures r.Pass? ==> Kept(old(code), old(pending), old(Own(e)), code, pending, Own(e))
      ensures r.Pass? ==> e.k == VNonReloc && e.tl == e.fl == []
    {
      hide Kept, AbsCode, CodeGen.Discharge2Reg, CodeGen.FillJumps, Members;
      ghost var c0, p0, o0 := code, pending, Own(e);
      NoMembers();
      :- Discharge2Reg(e, reg);
      ghost var c1, p1, o1 := code, pending, Own(e);
      :- FillJumps(e, reg);
      KeptTrans(c0, p0, o0, c1, p1, o1, code, pending, Members(waiting));
      assert Own(e) == Members(waiting);
      assert List(NO_JUMP, []) by { ThreadEmpty(code); }
      return Pass;
    }

    /** gafqK_exp2nextreg. */
    method Exp2NextReg(e: ExpDesc) returns (r: Outcome)
      requires Valid() && Holds(e)
      modifies this, e`k, e`info, e`t, e`f, e`tl, e`fl
      ensures r.Fail? ==> Limit(CodeGen.Exp2NextReg(old(Abs()), old(e.Abs())).0)
      ensures r.Pass? ==> Valid() && Holds(e) && (Abs(), e.Abs()) == CodeGen.Exp2NextReg(old(Abs()), old(e.Abs()))
      ensures r.Pass? ==> Kept(old(code), old(pending), old(Own(e)), code, pending, Own(e))
      ensures r.Pass? ==> e.k == VNonReloc && e.tl == e.fl == []
    {
      hide Kept, AbsCode, CodeGen.Exp2Reg, Members, IsList;
      DischargeVar(e);
      FreeExpr(e);
      :- ReserveReg();
      r := Exp2Reg(e, freereg - 1);
    }

    /** gafqK_exp2anyreg. */
    method Exp2AnyReg(e: ExpDesc) returns (r: Outcome)
      requires Valid() && Holds(e)
      modifies this, e`k, e`info, e`t, e`f, e`tl, e`fl
      ensures r.Fail? ==> Limit(CodeGen.Exp2AnyReg(old(Abs()), old(e.Abs())).0)
      ensures r.Pass? ==> Valid() && Holds(e) && (Abs(), e.Abs()) == CodeGen.Exp2AnyReg(old(Abs()), old(e.Abs()))
      ensures r.Pass? ==> Kept(old(code), old(pending), old(Own(e)), code, pending, Own(e))
      ensures r.Pass? ==> e.k == VNonReloc && e.tl == e.fl == []
    {
      hide Kept, AbsCode, CodeGen.Exp2Reg, CodeGen.Exp2NextReg, Members;
      DischargeVar(e);
      HeadsDiffer(code, e.t, e.tl, e.f, e.fl);
      EmptyLists(e.tl, e.fl);
      if e.k == VNonReloc {
        if e.t == e.f {
          KeptSame(code, pending, Own(e));
          return Pass;
        }
        if e.info >= nactvar {
          r := Exp2Reg(e, e.info);
          return;
        }
      }
      r := Exp2NextReg(e);
    }

    /** gafqK_exp2val. */
    method Exp2Val(e: ExpDesc) returns (r: Outcome)
      requires Valid() && Holds(e)
      modifies this, e`k, e`info, e`t, e`f, e`tl, e`fl
      ensures r.Fail? ==> Limit(CodeGen.Exp2Val(old(Abs()), old(e.Abs())).0)
      ensures r.Pass? ==> Valid() && Holds(e) && (Abs(), e.Abs()) == CodeGen.Exp2Val(old(Abs()), old(e.Abs()))
      ensures r.Pass? ==> Kept(old(code), old(pending), old(Own(e)), code, pending, Own(e))
      ensures r.Pass? ==> e.tl == e.fl == []
    {
      hide Kept, AbsCode, CodeGen.Exp2AnyReg, Members;
      HeadsDiffer(code, e.t, e.tl, e.f, e.fl);
      EmptyLists(e.tl, e.fl);
      if e.t != e.f {
        r := Exp2AnyReg(e);
      } else {
        DischargeVar(e);
        KeptSame(code, pending, Own(e));
        return Pass;
      }
    }

    /** A constant becomes an operand by its index. */
    method ConstOperand(e: ExpDesc) returns (r: Outcome, o: int)
      requires Valid() && Holds(e) && e.tl == e.fl == [] && |k| <= MAX_INDEX_RK
      requires e.k == VKNum || e.k == VTrue || e.k == VFalse || e.k == VNil
      modifies this`k, e`k, e`info
      ensures var (g, i) := AddK(old(Abs()), ConstOf(old(e.Abs())));
              (r.Fail? ==> Limit(g)) &&
              (r.Pass? ==> Abs() == g && e.Abs() == old(e.Abs()).(k := VK, info := i) && o == i + BIT_RK)
      ensures r.Pass? ==> Valid() && Holds(e) && e.k == VK && e.info <= MAX_INDEX_RK && Own(e) == old(Own(e))
    {
      hide AbsCode, Members, IsList;
      SmallIndex(Abs(), ConstOf(e.Abs()));
      r, o := AddConstant(if e.k == VKNum then e.num else if e.k == VNil then Val.Nil else Bool(e.k == VTrue));
      if r.Fail? { return; }
      e.k, e.info := VK, o;
      return Pass, o + BIT_RK;
    }

    /** gafqK_exp2RK after gafqK_exp2val. */
    method OperandOf(e: ExpDesc) returns (r: Outcome, o: int)
      requires Valid() && Holds(e) && e.tl == e.fl == []
      modifies this, e`k, e`info, e`t, e`f, e`tl, e`fl
      ensures r.Fail? ==> Limit(CodeGen.OperandOf(old(Abs()), old(e.Abs())).0)
      ensures r.Pass? ==> Valid() && Holds(e) && (Abs(), e.Abs(), o) == CodeGen.OperandOf(old(Abs()), old(e.Abs()))
      ensures r.Pass? ==> Kept(old(code), old(pending), old(Own(e)), code, pending, Own(e))
      ensures r.Pass? ==> e.tl == e.fl == [] && (e.k == VNonReloc || (e.k == VK && e.info <= MAX_INDEX_RK))
    {
      hide Kept, AbsCode, CodeGen.Exp2AnyReg, Members, IsList, AddK;
      o := 0;
      if (e.k == VKNum || e.k == VTrue || e.k == VFalse || e.k == VNil) && |k| <= MAX_INDEX_RK {
        KeptSame(code, pending, Own(e));
        r, o := ConstOperand(e);
        return;
      }
      if e.k == VK && e.info <= MAX_INDEX_RK {
        KeptSame(code, pending, Own(e));
        return Pass, e.info + BIT_RK;
      }
      :- Exp2AnyReg(e);
      return Pass, e.info;
    }

    /** gafqK_exp2RK. */
    method Exp2RK(e: ExpDesc) returns (r: Outcome, o: int)
      requires Valid() && Holds(e)
      modifies this, e`k, e`info, e`t, e`f, e`tl, e`fl
      ensures r.Fail? ==> Limit(CodeGen.Exp2RK(old(Abs()), old(e.Abs())).0)
      ensures r.Pass? ==> Valid() && Holds(e) && (Abs(), e.Abs(), o) == CodeGen.Exp2RK(old(Abs()), old(e.Abs()))
      ensures r.Pass? ==> Kept(old(code), old(pending), old(Own(e)), code, pending, Own(e))
      ensures r.Pass? ==> e.tl == e.fl == [] && (e.k == VNonReloc || (e.k == VK && e.info <= MAX_INDEX_RK))
    {
      hide Kept, AbsCode, CodeGen.Exp2Val, CodeGen.OperandOf, Members, IsList;
      ghost var c0, p0, o0 := code, pending, Own(e);
      o := 0;
      :- Exp2Val(e);
      ghost var c1, p1, o1 := code, pending, Own(e);
      r, o := OperandOf(e);
      if r.Fail? { return; }
      KeptTrans(c0, p0, o0, c1, p1, o1, code, pending, Own(e));
    }

    // -------------------------------------------------------------- conditions

    /** invertjump. */
    method Invert(e: ExpDesc)
      requires Valid() && Holds(e) && e.k == VJmp
      modifies this`code
      ensures Valid() && Holds(e) && Abs() == InvertJump(old(Abs()), e.info)
      ensures Kept(old(code), pending, Own(e), code, pending, Own(e))
    {
      hide Thread;
      ghost var c0 := code;
      assert e.info in [e.info];
      if e.info >= 1 && code[e.info - 1].Cmp? {
        var i := code[e.info - 1];
        code := code[e.info - 1 := i.(cond := !i.cond)];
        assert AbsCode(code, pending) == AbsCode(c0, pending)[e.info - 1 := i.(cond := !i.cond)];
      }
      assert forall j | j in pending :: code[j] == c0[j];
      ThreadFrame(c0, code, jpc, waiting);
      ThreadFrame(c0, code, e.t, e.tl);
      ThreadFrame(c0, code, e.f, e.fl);
      ThreadFrame(c0, code, e.info, [e.info]);
    }

    /** jumponcond for a NOT that was the last instruction: it is taken back. */
    method JumpOnNot(e: ExpDesc, cond: bool) returns (r: Outcome, h: int)
      requires Valid() && Holds(e) && e.k == VReloc
      modifies this`code, this`jpc, this`pending, this`waiting
      ensures r.Fail? ==> Limit(CodeGen.JumpOnCond(old(Abs()), e.Abs(), cond).0)
      ensures r.Pass? ==> Valid() && (Abs(), {h}) == CodeGen.JumpOnCond(old(Abs()), e.Abs(), cond)
      ensures r.Pass? ==> List(e.t, e.tl) && List(e.f, e.fl) && List(h, [h]) && h !in e.tl && h !in e.fl
      ensures r.Pass? ==> waiting == []
      ensures r.Pass? ==> Kept(old(code), old(pending), old(Own(e)), code, pending, Members(e.tl) + Members(e.fl) + {h})
    {
      hide Thread, Kept, AbsCode, CodeGen.CondJump;
      ghost var c0, p0, w0 := code, pending, waiting;
      ghost var lists := Members(e.tl) + Members(e.fl);
      assert Own(e) == Members(w0) + lists;
      var i := code[e.info];
      code := code[..|code| - 1];
      Shorter(c0, code, pending, waiting, jpc, e.t, e.tl, e.f, e.fl);
      ghost var c1 := code;
      r, h := CondJump(Test(i.b, !cond));
      if r.Fail? { return; }
      ListKept(c1, p0, w0, Members(w0), code, pending, waiting, {h}, e.t, e.tl);
      ListKept(c1, p0, w0, Members(w0), code, pending, waiting, {h}, e.f, e.fl);
      LongerKept(c0, p0, Members(w0), lists, c1, code, pending, h);
      assert {h} + lists == Members(e.tl) + Members(e.fl) + {h};
    }

    /** jumponcond. */
    method JumpOnCond(e: ExpDesc, cond: bool) returns (r: Outcome, h: int)
      requires Valid() && Holds(e) && e.k != VJmp
      modifies this`code, this`jpc, this`pending, this`waiting, this`k, this`freereg, e`k, e`info
      ensures r.Fail? ==> Limit(CodeGen.JumpOnCond(old(Abs()), old(e.Abs()), cond).0)
      ensures r.Pass? ==> Valid() && (Abs(), {h}) == CodeGen.JumpOnCond(old(Abs()), old(e.Abs()), cond)
      ensures r.Pass? ==> List(e.t, e.tl) && List(e.f, e.fl) && List(h, [h]) && h !in e.tl && h !in e.fl
      ensures r.Pass? ==> waiting == []
      ensures r.Pass? ==> Kept(old(code), old(pending), old(Own(e)), code, pending, Members(e.tl) + Members(e.fl) + {h})
    {
      hide Thread, Kept, AbsCode, CodeGen.CondJump, CodeGen.Discharge2AnyReg;
      if e.k == VReloc {
        r, h := JumpOnNot(e, cond);
        return;
      }
      ghost var c0, p0, o0, a0, d0 := code, pending, Own(e), Abs(), e.Abs();
      ghost var lists := Members(e.tl) + Members(e.fl);
      h := 0;
      r := Discharge2AnyReg(e);
      if r.Fail? {
        CondLimit(a0, d0, cond);
        return;
      }
      FreeExpr(e);
      ghost var c1, p1, w1 := code, pending, waiting;
      assert Own(e) == Members(w1) + lists;
      r, h := CondJump(TestSet(NO_REG, e.info, cond));
      if r.Fail? { return; }
      ListKept(c1, p1, w1, Members(w1), code, pending, waiting, {h}, e.t, e.tl);
      ListKept(c1, p1, w1, Members(w1), code, pending, waiting, {h}, e.f, e.fl);
      KeptMore(c1, p1, Members(w1), code, pending, {h}, lists);
      assert {h} + lists == Members(e.tl) + Members(e.fl) + {h};
      KeptTrans(c0, p0, o0, c1, p1, Members(w1) + lists, code, pending, {h} + lists);
    }
  
    /** gafqK_concat for lists of waiting jumps. */
    method JoinLists(out: int, js: int, ghost ol: seq<int>, ghost jl: seq<int>) returns (r: Outcome, x: int)
      requires Valid() && List(out, ol) && List(js, jl) && forall j | j in ol :: j !in jl
      modifies this`code
      ensures r.Fail? ==> |old(code)| > MAXARG_SBX
      ensures r.Pass? ==> Valid() && List(x, ol + jl) && Abs() == old(Abs())
      ensures r.Pass? ==> Kept(old(code), pending, Members(waiting) + Members(ol), code, pending, Members(waiting) + Members(ol))
      ensures r.Pass? ==> |code| == |old(code)|
      ensures r.Pass? ==> forall i | 0 <= i < |code| && i !in ol :: code[i] == old(code[i])
    {
      hide Thread;
      ghost var c0 := code;
      assert forall j | j in ol + jl :: j in ol || j in jl;
      r, x := Concat(out, js, ol, jl);
      if r.Fail? {
        assert ol[|ol| - 1] in ol && jl[0] in jl;
        return;
      }
      assert forall j | j in waiting :: j !in ol;
      ThreadFrame(c0, code, jpc, waiting);
      assert AbsCode(code, pending) == AbsCode(c0, pending) by {
        forall i | 0 <= i < |code| ensures AbsAt(code, pending, i) == AbsAt(c0, pending, i) {}
      }
    }

    /** The new exit joins its list, and the other list comes to the end. */
    method CloseLists(out: int, js: int, here: int, ghost ol: seq<int>, ghost jl: seq<int>, ghost hl: seq<int>)
      returns (r: Outcome, x: int)
      requires Valid() && List(out, ol) && List(js, jl) && List(here, hl)
      requires forall j | j in ol :: j !in jl && j !in hl
      requires forall j | j in jl :: j !in hl
      modifies this`code, this`jpc, this`waiting, this`lasttarget
      ensures r.Fail? ==> |old(code)| > MAXARG_SBX
      ensures r.Pass? ==> Valid() && List(x, ol + jl) && Abs() == CodeGen.PatchToHere(old(Abs()), Members(hl))
      ensures r.Pass? ==> Kept(old(code), pending, Members(old(waiting)) + Members(ol) + Members(jl) + Members(hl),
                               code, pending, Members(waiting) + Members(ol + jl))
    {
      hide Thread, Kept, AbsCode, Members;
      ghost var c0, w0 := code, waiting;
      r, x := JoinLists(out, js, ol, jl);
      if r.Fail? { return; }
      ghost var c1 := code;
      ghost var own := Members(w0) + Members(ol);
      assert forall j | j in hl :: j !in own;
      ListKept(c0, pending, w0, own, code, pending, w0, own, here, hl);
      r := PatchToHere(here, hl);
      if r.Fail? { return; }
      assert forall j | j in ol + jl :: j in ol || j in jl;
      assert forall j | j in ol + jl :: j !in Members(w0) + Members(hl);
      ListKept(c1, pending, w0, Members(w0) + Members(hl), code, pending, waiting, Members(waiting), x, ol + jl);
      CloseKept(c0, pending, w0, ol, jl, hl, c1, code, waiting);
    }

    /** The switch of the two functions below. */
    method LeaveOn(e: ExpDesc, cond: bool) returns (r: Outcome, h: int, ghost jl: seq<int>)
      requires Valid() && Holds(e) && e.k != VLocal
      modifies this`code, this`jpc, this`pending, this`waiting, this`k, this`freereg, e`k, e`info
      ensures r.Fail? ==> Limit(CodeGen.LeaveOn(old(Abs()), old(e.Abs()), cond).0)
      ensures r.Pass? ==> Valid() && (Abs(), Members(jl)) == CodeGen.LeaveOn(old(Abs()), old(e.Abs()), cond)
      ensures r.Pass? ==> List(e.t, e.tl) && List(e.f, e.fl) && List(h, jl)
      ensures r.Pass? ==> forall j | j in jl :: j !in e.tl && j !in e.fl
      ensures r.Pass? ==> Kept(old(code), old(pending), old(Own(e)),
                               code, pending, Members(waiting) + (Members(e.tl) + Members(e.fl) + Members(jl)))
    {
      hide Thread, Kept, AbsCode, CodeGen.JumpOnCond, InvertJump, Members;
      ghost var lists := Members(e.tl) + Members(e.fl);
      ghost var own := Own(e);
      NoMembers();
      h, jl := NO_JUMP, [];
      if (!cond && (e.k == VK || e.k == VKNum || e.k == VTrue)) || (cond && (e.k == VNil || e.k == VFalse)) {
        assert List(h, jl) by { ThreadEmpty(code); }
        KeptSame(code, pending, own);
        assert own == Members(waiting) + (lists + Members(jl));
        return Pass, h, jl;
      }
      if e.k == VJmp {
        if !cond { Invert(e); } else { KeptSame(code, pending, own); }
        OneMember(e.info);
        assert own == Members(waiting) + (lists + Members([e.info]));
        return Pass, e.info, [e.info];
      }
      r, h := JumpOnCond(e, cond);
      jl := [h];
      OneMember(h);
      assert {} + (lists + Members(jl)) == lists + {h};
    }

    /** gafqK_goiftrue. */
    method GoIfTrue(e: ExpDesc) returns (r: Outcome)
      requires Valid() && Holds(e)
      modifies this, e`k, e`info, e`t, e`f, e`tl, e`fl
      ensures r.Fail? ==> Limit(CodeGen.GoIfTrue(old(Abs()), old(e.Abs())).0)
      ensures r.Pass? ==> Valid() && Abs() == CodeGen.GoIfTrue(old(Abs()), old(e.Abs())).0
      ensures r.Pass? ==> List(e.f, e.fl) && Members(e.fl) == CodeGen.GoIfTrue(old(Abs()), old(e.Abs())).1.f
      ensures r.Pass? ==> e.t == NO_JUMP && e.tl == []
      ensures r.Pass? ==> Kept(old(code), old(pending), old(Own(e)), code, pending, Members(waiting) + Members(e.fl))
    {
      hide Thread, Kept, AbsCode, CodeGen.LeaveOn, Members, IsList;
      ghost var c0, p0, o0 := code, pending, Own(e);
      DischargeVar(e);
      var h;
      ghost var jl;
      r, h, jl := LeaveOn(e, false);
      if r.Fail? { return; }
      ghost var c1, p1, w1 := code, pending, waiting;
      ghost var o1 := Members(w1) + (Members(e.tl) + Members(e.fl) + Members(jl));
      var x;
      r, x := CloseLists(e.f, h, e.t, e.fl, jl, e.tl);
      if r.Fail? { return; }
      assert o1 == Members(w1) + Members(e.fl) + Members(jl) + Members(e.tl);
      JoinMembers(e.fl, jl);
      e.f, e.fl, e.t, e.tl := x, e.fl + jl, NO_JUMP, [];
      KeptTrans(c0, p0, o0, c1, p1, o1, code, pending, Members(waiting) + Members(e.fl));
      return Pass;
    }

    /** gafqK_goiffalse. */
    method GoIfFalse(e: ExpDesc) returns (r: Outcome)
      requires Valid() && Holds(e)
      modifies this, e`k, e`info, e`t, e`f, e`tl, e`fl
      ensures r.Fail? ==> Limit(CodeGen.GoIfFalse(old(Abs()), old(e.Abs())).0)
      ensures r.Pass? ==> Valid() && Abs() == CodeGen.GoIfFalse(old(Abs()), old(e.Abs())).0
      ensures r.Pass? ==> List(e.t, e.tl) && Members(e.tl) == CodeGen.GoIfFalse(old(Abs()), old(e.Abs())).1.t
      ensures r.Pass? ==> e.f == NO_JUMP && e.fl == []
      ensures r.Pass? ==> Kept(old(code), old(pending), old(Own(e)), code, pending, Members(waiting) + Members(e.tl))
    {
      hide Thread, Kept, AbsCode, CodeGen.LeaveOn, Members, IsList;
      ghost var c0, p0, o0 := code, pending, Own(e);
      DischargeVar(e);
      var h;
      ghost var jl;
      r, h, jl := LeaveOn(e, true);
      if r.Fail? { return; }
      ghost var c1, p1, w1 := code, pending, waiting;
      ghost var o1 := Members(w1) + (Members(e.tl) + Members(e.fl) + Members(jl));
      var x;
      r, x := CloseLists(e.t, h, e.f, e.tl, jl, e.fl);
      if r.Fail? { return; }
      assert o1 == Members(w1) + Members(e.tl) + Members(jl) + Members(e.fl);
      JoinMembers(e.tl, jl);
      e.t, e.tl, e.f, e.fl := x, e.tl + jl, NO_JUMP, [];
      KeptTrans(c0, p0, o0, c1, p1, o1, code, pending, Members(waiting) + Members(e.tl));
      return Pass;
    }
  
    // -------------------------------------------------------------- not

    /** A value in a register is negated by a NOT whose target is open. */
    method NegateReg(e: ExpDesc) returns (r: Outcome)
      requires Valid() && Holds(e) && (e.k == VReloc || e.k == VNonReloc)
      modifies this`code, this`jpc, this`pending, this`waiting, this`k, this`freereg, e`k, e`info
      ensures r.Fail? ==> Limit(CodeGen.Negate(old(Abs()), old(e.Abs())).0)
      ensures r.Pass? ==> Valid() && Holds(e) && (Abs(), e.Abs()) == CodeGen.Negate(old(Abs()), old(e.Abs()))
      ensures r.Pass? ==> Kept(old(code), old(pending), old(Own(e)), code, pending, Own(e))
    {
      hide Thread, Kept, AbsCode, CodeGen.Discharge2AnyReg, Members, Patch, IsList, FreeExp;
      ghost var c0, p0, o0, a0, d0 := code, pending, Own(e), Abs(), e.Abs();
      r := Discharge2AnyReg(e);
      if r.Fail? {
        NegateLimit(a0, d0);
        return;
      }
      ghost var c1, p1, o1 := code, pending, Own(e);
      r := EmitNot(e);
      if r.Fail? { return; }
      KeptTrans(c0, p0, o0, c1, p1, o1, code, pending, Own(e));
    }

    /** The NOT for a value in a register. */
    method EmitNot(e: ExpDesc) returns (r: Outcome)
      requires Valid() && Holds(e) && e.k == VNonReloc
      modifies this`code, this`jpc, this`pending, this`waiting, this`freereg, e`k, e`info
      ensures r.Fail? ==> Limit(Emit(FreeExp(old(Abs()), old(e.Abs())), Not(0, old(e.info))))
      ensures r.Pass? ==> Valid() && Holds(e) && e.Abs() == old(e.Abs()).(k := VReloc, info := |old(code)|)
      ensures r.Pass? ==> Abs() == Emit(FreeExp(old(Abs()), old(e.Abs())), Not(0, old(e.info)))
      ensures r.Pass? ==> Kept(old(code), old(pending), old(Own(e)), code, pending, Own(e))
    {
      hide Thread, Kept, AbsCode, Members, Patch;
      FreeExpr(e);
      ghost var c1, p1, w1, own := code, pending, waiting, e.Own();
      NoMembers();
      assert Own(e) == Members(w1) + own;
      var n := |code|;
      :- Code(Not(0, e.info));
      ListKept(c1, p1, w1, Members(w1), code, pending, waiting, {}, e.t, e.tl);
      ListKept(c1, p1, w1, Members(w1), code, pending, waiting, {}, e.f, e.fl);
      KeptMore(c1, p1, Members(w1), code, pending, {}, own);
      e.info, e.k := n, VReloc;
      assert Own(e) == {} + own;
      return Pass;
    }

    /** The switch of codenot. */
    method Negate(e: ExpDesc) returns (r: Outcome)
      requires Valid() && Holds(e) && e.k != VLocal
      modifies this`code, this`jpc, this`pending, this`waiting, this`k, this`freereg, e`k, e`info
      ensures r.Fail? ==> Limit(CodeGen.Negate(old(Abs()), old(e.Abs())).0)
      ensures r.Pass? ==> Valid() && Holds(e) && (Abs(), e.Abs()) == CodeGen.Negate(old(Abs()), old(e.Abs()))
      ensures r.Pass? ==> Kept(old(code), old(pending), old(Own(e)), code, pending, Own(e))
    {
      hide Thread, Kept, AbsCode, InvertJump, CodeGen.Discharge2AnyReg, Emit, Members, FreeExp;
      ghost var o0 := Own(e);
      if e.k == VNil || e.k == VFalse {
        e.k := VTrue;
        KeptSame(code, pending, o0);
      } else if e.k == VK || e.k == VKNum || e.k == VTrue {
        e.k := VFalse;
        KeptSame(code, pending, o0);
      } else if e.k == VJmp {
        Invert(e);
      } else {
        r := NegateReg(e);
        return;
      }
      return Pass;
    }

    /** removevalues for both lists. */
    method RemoveBoth(h1: int, h2: int, ghost l1: seq<int>, ghost l2: seq<int>)
      requires Valid() && List(h1, l1) && List(h2, l2)
      modifies this`code
      ensures Valid() && |code| == |old(code)| && forall j | j in pending :: code[j] == old(code[j])
      ensures AbsCode(code, pending) == RemoveValues(RemoveValues(AbsCode(old(code), pending), Members(l1)), Members(l2))
      ensures |code| > 0 && old(code[|code| - 1]).Not? ==> code[|code| - 1].Not?
    {
      hide Thread, AbsCode, Members, RemoveValues, RawRemoved;
      ghost var c1 := code;
      RemoveValuesOf(h1, l1);
      ghost var c2 := code;
      RemoveKept(c1, c2, pending, l1);
      ThreadFrame(c1, c2, h2, l2);
      RemoveValuesOf(h2, l2);
      RemoveKept(c2, code, pending, l2);
      ThreadFrame(c1, code, jpc, waiting);
      RemoveRefines(c1, c2, pending, Members(l1));
      RemoveRefines(c2, code, pending, Members(l2));
      if |code| > 0 && c1[|code| - 1].Not? { RemoveLast(c1, c2, l1); RemoveLast(c2, code, l2); }
    }

    /** The lists change places, and give up their values. */
    method SwapLists(e: ExpDesc)
      requires Valid() && Holds(e)
      modifies this`code, e`t, e`f, e`tl, e`fl
      ensures Valid() && Holds(e) && e.tl == old(e.fl) && e.fl == old(e.tl)
      ensures AbsCode(code, pending) == RemoveValues(RemoveValues(AbsCode(old(code), pending), Members(old(e.tl))), Members(old(e.fl)))
      ensures Kept(old(code), pending, old(Own(e)), code, pending, Own(e))
    {
      hide Thread, Kept, AbsCode, Members, RemoveValues;
      ghost var c1, own := code, Own(e);
      e.t, e.f, e.tl, e.fl := e.f, e.t, e.fl, e.tl;
      RemoveBoth(e.f, e.t, e.fl, e.tl);
      ThreadFrame(c1, code, e.t, e.tl);
      ThreadFrame(c1, code, e.f, e.fl);
      if e.k == VJmp {
        assert e.info in [e.info];
        ThreadFrame(c1, code, e.info, [e.info]);
      }
      assert Own(e) == own;
      SameKept(c1, code, pending, own);
    }

    /** codenot. */
    method CodeNot(e: ExpDesc) returns (r: Outcome)
      requires Valid() && Holds(e)
      modifies this`code, this`jpc, this`pending, this`waiting, this`k, this`freereg, e`k, e`info, e`t, e`f, e`tl, e`fl
      ensures r.Fail? ==> Limit(CodeGen.CodeNot(old(Abs()), old(e.Abs())).0)
      ensures r.Pass? ==> Valid() && Holds(e) && (Abs(), e.Abs()) == CodeGen.CodeNot(old(Abs()), old(e.Abs()))
      ensures r.Pass? ==> Kept(old(code), old(pending), old(Own(e)), code, pending, Own(e))
    {
      hide Thread, Kept, AbsCode, CodeGen.Negate, Members, RemoveValues, IsList;
      ghost var c0, p0, o0 := code, pending, Own(e);
      DischargeVar(e);
      :- Negate(e);
      ghost var c1, o1 := code, Own(e);
      SwapLists(e);
      KeptTrans(c0, p0, o0, c1, pending, o1, code, pending, Own(e));
      return Pass;
    }
  
    // -------------------------------------------------------------- comparisons and the driver

    /** codecomp; the first operand has been through gafqK_exp2RK. */
    method CodeComp(op: RelOp, e1: ExpDesc, e2: ExpDesc) returns (r: Outcome)
      requires Valid() && e1 != e2 && Holds(e1) && Holds(e2) && e1.tl == e1.fl == []
      requires e1.k == VNonReloc || (e1.k == VK && e1.info <= MAX_INDEX_RK)
      modifies this, e1, e2
      ensures r.Fail? ==> Limit(CodeGen.CodeComp(old(Abs()), op, old(e1.Abs()), old(e2.Abs())).0)
      ensures r.Pass? ==> Valid() && Holds(e1)
      ensures r.Pass? ==> (Abs(), e1.Abs()) == CodeGen.CodeComp(old(Abs()), op, old(e1.Abs()), old(e2.Abs()))
      ensures r.Pass? ==> Kept(old(code), old(pending), old(Own(e2)), code, pending, Own(e1))
    {
      hide Thread, Kept, AbsCode, Members, CodeGen.Exp2RK, CodeGen.CondJump, FreeExp, CodeGen.CodeComp, CompInstr;
      hide IsList, Limit;
      ghost var c0, p0, o0, a0, d1, d2 := code, pending, Own(e2), Abs(), e1.Abs(), e2.Abs();
      var o1 := if e1.k == VK then e1.info + BIT_RK else e1.info;
      NoMembers();
      EmptyHead(code, pending, waiting, e1.t);
      EmptyHead(code, pending, waiting, e1.f);
      CompUnfold(a0, op, d1, d2);
      var o2;
      r, o2 := Exp2RK(e2);
      if r.Fail? { return; }
      FreeExpr(e2);
      FreeExpr(e1);
      ghost var c1, p1, w1 := code, pending, waiting;
      assert Own(e2) == Members(w1);
      r := CompJump(CompInstr(op, o1, o2), e1);
      if r.Fail? { return; }
      KeptTrans(c0, p0, o0, c1, p1, Members(w1), code, pending, Own(e1));
    }

    /** The end of codecomp: the descriptor is the jump that follows the comparison. */
    method CompJump(i: Instr, e: ExpDesc) returns (r: Outcome)
      requires Valid() && i.Cmp? && e.t == e.f == NO_JUMP && e.tl == e.fl == []
      modifies this, e`k, e`info
      ensures r.Fail? ==> Limit(CodeGen.CondJump(old(Abs()), i).0)
      ensures r.Pass? ==> Valid() && Holds(e) && Abs() == CodeGen.CondJump(old(Abs()), i).0
      ensures r.Pass? ==> e.Abs() == old(e.Abs()).(k := VJmp, info := |old(code)| + 1)
      ensures r.Pass? ==> Kept(old(code), old(pending), Members(old(waiting)), code, pending, Own(e))
    {
      hide Thread, Kept, AbsCode, Members, CodeGen.CondJump, IsList;
      NoMembers();
      r, e.info := CondJump(i);
      if r.Fail? { return; }
      e.k := VJmp;
      EmptyList(code, pending, waiting);
      assert Own(e) == {e.info};
    }
  
    /** posfix: the first operand's exits join the list `f` of the second. */
    method AddFalseExits(d: ExpDesc, h: int, ghost l: seq<int>) returns (r: Outcome)
      requires Valid() && Holds(d) && List(h, l) && forall j | j in l :: j !in d.Own()
      modifies this`code, d`f, d`fl
      ensures r.Fail? ==> |old(code)| > MAXARG_SBX
      ensures r.Pass? ==> Valid() && Holds(d) && Abs() == old(Abs())
      ensures r.Pass? ==> d.Abs() == old(d.Abs()).(f := old(d.Abs()).f + Members(l))
      ensures r.Pass? ==> Kept(old(code), pending, old(Own(d)) + Members(l), code, pending, Own(d))
    {
      hide Thread, Kept, AbsCode, Members;
      ghost var c0, ol, more := code, d.fl, d.Own() + Members(l);
      ghost var own := Members(waiting) + Members(ol);
      assert forall j | j in d.tl :: j !in own;
      var x;
      r, x := JoinLists(d.f, h, ol, l);
      if r.Fail? { return; }
      ListKept(c0, pending, waiting, own, code, pending, waiting, own, d.t, d.tl);
      if d.k == VJmp {
        assert d.info !in own && d.info in [d.info];
        ListKept(c0, pending, waiting, own, code, pending, waiting, own, d.info, [d.info]);
      }
      d.f, d.fl := x, ol + l;
      JoinMembers(ol, l);
      KeptMore(c0, pending, own, code, pending, own, more);
      assert own + more == old(Own(d)) + Members(l);
      assert own + more == Own(d);
    }

    /** posfix: the first operand's exits join the list `t` of the second. */
    method AddTrueExits(d: ExpDesc, h: int, ghost l: seq<int>) returns (r: Outcome)
      requires Valid() && Holds(d) && List(h, l) && forall j | j in l :: j !in d.Own()
      modifies this`code, d`t, d`tl
      ensures r.Fail? ==> |old(code)| > MAXARG_SBX
      ensures r.Pass? ==> Valid() && Holds(d) && Abs() == old(Abs())
      ensures r.Pass? ==> d.Abs() == old(d.Abs()).(t := old(d.Abs()).t + Members(l))
      ensures r.Pass? ==> Kept(old(code), pending, old(Own(d)) + Members(l), code, pending, Own(d))
    {
      hide Thread, Kept, AbsCode, Members;
      ghost var c0, ol, more := code, d.tl, d.Own() + Members(l);
      ghost var own := Members(waiting) + Members(ol);
      assert forall j | j in d.fl :: j !in own;
      var x;
      r, x := JoinLists(d.t, h, ol, l);
      if r.Fail? { return; }
      ListKept(c0, pending, waiting, own, code, pending, waiting, own, d.f, d.fl);
      if d.k == VJmp {
        assert d.info !in own && d.info in [d.info];
        ListKept(c0, pending, waiting, own, code, pending, waiting, own, d.info, [d.info]);
      }
      d.t, d.tl := x, ol + l;
      JoinMembers(ol, l);
      KeptMore(c0, pending, own, code, pending, own, more);
      assert own + more == old(Own(d)) + Members(l);
      assert own + more == Own(d);
    }

    /** The jumps by which a first operand leaves. */
    ghost function Left(b: BinOp, d: ExpDesc): seq<int>
      reads d
    {
      match b
      case AndOp => d.fl
      case OrOp => d.tl
      case Rel(_) => []
    }

    /** Between infix and posfix: the descriptor of the first operand still stands for `e` as far as posfix looks at
        it. */
    ghost predicate Between(b: BinOp, d: ExpDesc, e: Exp)
      reads this, d
    {
      match b
      case AndOp => List(d.f, d.fl) && Members(d.fl) == e.f
      case OrOp => List(d.t, d.tl) && Members(d.tl) == e.t
      case Rel(_) => d.t == d.f == NO_JUMP && d.tl == d.fl == [] && (d.k == VNonReloc || (d.k == VK && d.info <= MAX_INDEX_RK)) && d.Abs() == e
    }

    /** gafqK_infix. */
    method Infix(b: BinOp, d: ExpDesc) returns (r: Outcome)
      requires Valid() && Holds(d)
      modifies this, d
      ensures r.Fail? ==> Limit(CodeGen.Infix(old(Abs()), b, old(d.Abs())).0)
      ensures r.Pass? ==> Valid() && Abs() == CodeGen.Infix(old(Abs()), b, old(d.Abs())).0
      ensures r.Pass? ==> Between(b, d, CodeGen.Infix(old(Abs()), b, old(d.Abs())).1)
      ensures r.Pass? ==> Kept(old(code), old(pending), old(Own(d)), code, pending, Members(waiting) + Members(Left(b, d)))
    {
      hide Thread, Kept, AbsCode, Members, CodeGen.GoIfTrue, CodeGen.GoIfFalse, CodeGen.Exp2RK, IsList;
      match b
      case AndOp => r := GoIfTrue(d);
      case OrOp => r := GoIfFalse(d);
      case Rel(_) =>
        var o;
        r, o := Exp2RK(d);
        if r.Fail? { return; }
        NoMembers();
        EmptyHead(code, pending, waiting, d.t);
        EmptyHead(code, pending, waiting, d.f);
        assert Own(d) == Members(waiting) + Members([]);
    }

    /** gafqK_posfix: the result is in `d`. */
    method Posfix(b: BinOp, d: ExpDesc, d2: ExpDesc, ghost e: Exp) returns (r: Outcome)
      requires Valid() && Between(b, d, e) && Holds(d2) && d != d2
      requires List(if b.AndOp? then d.f else if b.OrOp? then d.t else NO_JUMP, Left(b, d))
      requires forall j | j in Left(b, d) :: j !in Own(d2)
      modifies this, d, d2
      ensures r.Fail? ==> Limit(CodeGen.Posfix(old(Abs()), b, e, old(d2.Abs())).0)
      ensures r.Pass? ==> Valid() && Holds(d) && (Abs(), d.Abs()) == CodeGen.Posfix(old(Abs()), b, e, old(d2.Abs()))
      ensures r.Pass? ==> Kept(old(code), old(pending), old(Own(d2)) + Members(old(Left(b, d))), code, pending, Own(d))
    {
      hide Thread, Kept, AbsCode, Members, CodeGen.CodeComp, IsList;
      match b
      case AndOp =>
        DischargeVar(d2);
        r := AddFalseExits(d2, d.f, d.fl);
        if r.Pass? { Copy(d, d2); }
      case OrOp =>
        DischargeVar(d2);
        r := AddTrueExits(d2, d.t, d.tl);
        if r.Pass? { Copy(d, d2); }
      case Rel(op) =>
        EmptyList(code, pending, waiting);
        NoMembers();
        r := CodeComp(op, d, d2);
        assert old(Own(d2)) + Members([]) == old(Own(d2));
    }

    /** `*e1 = *e2`. */
    method Copy(d: ExpDesc, d2: ExpDesc)
      modifies d
      ensures d.Abs() == d2.Abs() && d.Own() == d2.Own() && (Holds(d2) ==> Holds(d))
    {
      hide Members, IsList;
      d.k, d.info, d.num, d.t, d.f, d.tl, d.fl := d2.k, d2.info, d2.num, d2.t, d2.f, d2.tl, d2.fl;
    }

    /** simpleexp and singlevar: constants and locals. */
    method Simple(x: Expr) returns (r: Outcome, d: ExpDesc)
      requires Valid() && !x.EParen? && !x.ENot? && !x.EAnd? && !x.EOr? && !x.ECmp?
      modifies this`k
      ensures r.Fail? ==> Limit(Compile(old(Abs()), x).0)
      ensures r.Pass? ==> fresh(d) && Valid() && Holds(d) && (Abs(), d.Abs()) == Compile(old(Abs()), x)
      ensures r.Pass? ==> Kept(old(code), old(pending), Members(old(waiting)), code, pending, Own(d))
    {
      hide Thread, Kept, AbsCode, Members, IsList;
      NoMembers();
      r := Pass;
      if x.EStr? {
        var i;
        r, i := AddConstant(x.v);
        d := new ExpDesc(VK, i, Val.Nil);
      } else if x.ENum? {
        d := new ExpDesc(VKNum, 0, x.v);
      } else if x.ELocal? {
        d := new ExpDesc(VLocal, x.i, Val.Nil);
      } else {
        d := new ExpDesc(if x.ENil? then VNil else if x.ETrue? then VTrue else VFalse, 0, Val.Nil);
      }
      EmptyList(code, pending, waiting);
      KeptSame(code, pending, Members(waiting));
      assert Own(d) == Members(waiting);
    }
  }

  /** A list of jumps that were waiting is apart from what was made since. */
  lemma ListApart(c1: seq<Instr>, p1: set<int>, w1: seq<int>, c2: seq<Instr>, p2: set<int>, w2: seq<int>,
                  own: set<int>, h: int, l: seq<int>)
    requires Kept(c1, p1, Members(w1), c2, p2, own) && IsList(c1, p1, w1, h, l) && Members(w2) <= own
    ensures IsList(c2, p2, w2, h, l) && forall j | j in l :: j !in own
  {
    hide Thread;
    ListKept(c1, p1, w1, Members(w1), c2, p2, w2, own, h, l);
  }

  lemma EmptyHead(code: seq<Instr>, pending: set<int>, waiting: seq<int>, h: int)
    requires IsList(code, pending, waiting, h, [])
    ensures h == NO_JUMP
  {}

  lemma EmptyList(code: seq<Instr>, pending: set<int>, waiting: seq<int>)
    ensures IsList(code, pending, waiting, NO_JUMP, [])
  {}

  /** codecomp's instruction: `a > b` is tested as `b < a`. */
  function CompInstr(op: RelOp, o1: int, o2: int): (i: Instr)
    ensures i.Cmp?
  {
    var (c, cond) := RelCode(op);
    if !cond && c != Eq then Cmp(c, true, o2, o1) else Cmp(c, cond, o1, o2)
  }

  lemma CompUnfold(fs: Fs, op: RelOp, d1: Exp, d2: Exp)
    requires !HasJumps(d1) && (d1.k == VNonReloc || (d1.k == VK && d1.info <= MAX_INDEX_RK))
    ensures var (g, e2, o2) := CodeGen.Exp2RK(fs, d2);
            var o1 := if d1.k == VK then d1.info + BIT_RK else d1.info;
            var b := FreeExp(FreeExp(g, e2), d1);
            CodeGen.CodeComp(fs, op, d1, d2) == (CodeGen.CondJump(b, CompInstr(op, o1, o2)).0, d1.(k := VJmp, info := |b.code| + 1)) &&
            |b.code| == |g.code|
    ensures Limit(CodeGen.Exp2RK(fs, d2).0) ==> Limit(CodeGen.CodeComp(fs, op, d1, d2).0)
  {
    hide CodeGen.Exp2AnyReg;
    OperandAgain(fs, d1);
  }

  lemma OperandAgain(fs: Fs, d: Exp)
    requires !HasJumps(d) && (d.k == VNonReloc || (d.k == VK && d.info <= MAX_INDEX_RK))
    ensures CodeGen.Exp2RK(fs, d) == (fs, d, if d.k == VK then d.info + BIT_RK else d.info)
  {}

  lemma NegateLimit(fs: Fs, d: Exp)
    requires (d.k == VReloc || d.k == VNonReloc || d.k == VLocal) && Limit(CodeGen.Discharge2AnyReg(fs, d).0)
    ensures Limit(CodeGen.Negate(fs, d).0)
  {}

  lemma RemoveKept(c1: seq<Instr>, c2: seq<Instr>, p: set<int>, l: seq<int>)
    requires RawRemoved(c1, c2, Members(l)) && forall j | j in p :: 0 <= j < |c1| && c1[j].Jmp?
    ensures |c1| == |c2| && forall j | j in p :: 0 <= j < |c2| && c2[j] == c1[j]
  {}

  lemma RemoveLast(c1: seq<Instr>, c2: seq<Instr>, l: seq<int>)
    requires RawRemoved(c1, c2, Members(l)) && |c1| > 0 && c1[|c1| - 1].Not?
    ensures c2[|c2| - 1].Not?
  {}

  lemma SameKept(c1: seq<Instr>, c2: seq<Instr>, p: set<int>, o: set<int>)
    requires |c1| == |c2| && forall j | j in p :: 0 <= j < |c1| && c2[j] == c1[j]
    ensures Kept(c1, p, o, c2, p, o)
  {}

  lemma CloseKept(c0: seq<Instr>, p: set<int>, w0: seq<int>, ol: seq<int>, jl: seq<int>, hl: seq<int>, c1: seq<Instr>,
                  c2: seq<Instr>, w2: seq<int>)
    requires Kept(c0, p, Members(w0) + Members(ol), c1, p, Members(w0) + Members(ol))
    requires Kept(c1, p, Members(w0) + Members(hl), c2, p, Members(w2))
    ensures Kept(c0, p, Members(w0) + Members(ol) + Members(jl) + Members(hl), c2, p, Members(w2) + Members(ol + jl))
  {
    JoinMembers(ol, jl);
    var own := Members(w0) + Members(ol) + Members(jl) + Members(hl);
    KeptMore(c0, p, Members(w0) + Members(ol), c1, p, Members(w0) + Members(ol), Members(jl) + Members(hl));
    KeptMore(c1, p, Members(w0) + Members(hl), c2, p, Members(w2), Members(ol) + Members(jl));
    assert Members(w0) + Members(ol) + (Members(jl) + Members(hl)) == own;
    assert Members(w0) + Members(hl) + (Members(ol) + Members(jl)) == own;
  }

  lemma JoinMembers(a: seq<int>, b: seq<int>)
    ensures Members(a + b) == Members(a) + Members(b)
  {}

  lemma CondLimit(fs: Fs, d: Exp, cond: bool)
    requires d.k != VReloc && Limit(CodeGen.Discharge2AnyReg(fs, d).0)
    ensures Limit(CodeGen.JumpOnCond(fs, d, cond).0)
  {}

  lemma Shorter(c0: seq<Instr>, c1: seq<Instr>, pending: set<int>, waiting: seq<int>, jpc: int, t: int, tl: seq<int>,
                f: int, fl: seq<int>)
    requires |c0| > 0 && c1 == c0[..|c0| - 1] && !c0[|c0| - 1].Jmp?
    requires forall j | j in pending :: 0 <= j < |c0| && c0[j].Jmp?
    requires Thread(c0, jpc, waiting) && (forall j | j in waiting :: j in pending)
    requires IsList(c0, pending, waiting, t, tl) && IsList(c0, pending, waiting, f, fl)
    ensures Thread(c1, jpc, waiting) && (forall j | j in pending :: 0 <= j < |c1| && c1[j].Jmp?)
    ensures IsList(c1, pending, waiting, t, tl) && IsList(c1, pending, waiting, f, fl)
    ensures AbsCode(c1, pending) == AbsCode(c0, pending)[..|c1|]
  {
    hide Thread;
    assert forall j | j in pending :: j < |c1|;
    ThreadFrame(c0, c1, jpc, waiting);
    ThreadFrame(c0, c1, t, tl);
    ThreadFrame(c0, c1, f, fl);
  }

  lemma LongerKept(c0: seq<Instr>, p0: set<int>, w0: set<int>, lists: set<int>, c1: seq<Instr>, c2: seq<Instr>,
                   p2: set<int>, h: int)
    requires |c0| > 0 && c1 == c0[..|c0| - 1] && Kept(c1, p0, w0, c2, p2, {h}) && h == |c0| && |c2| == |c0| + 1
    ensures Kept(c0, p0, w0 + lists, c2, p2, {h} + lists)
  {}

  lemma EmptyLists(tl: seq<int>, fl: seq<int>)
    ensures Members(tl) == {} <==> tl == []
    ensures Members(fl) == {} <==> fl == []
  {
    assert tl != [] ==> tl[0] in Members(tl);
    assert fl != [] ==> fl[0] in Members(fl);
  }

  lemma SmallIndex(fs: Fs, v: Val)
    requires |fs.k| <= MAX_INDEX_RK
    ensures AddK(fs, v).1 <= MAX_INDEX_RK
  {}

  lemma HeadsDiffer(code: seq<Instr>, t: int, tl: seq<int>, f: int, fl: seq<int>)
    requires Thread(code, t, tl) && Thread(code, f, fl) && forall j | j in tl :: j !in fl
    ensures t != f <==> Members(tl) != {} || Members(fl) != {}
  {
    assert tl != [] ==> tl[0] in Members(tl);
    assert fl != [] ==> fl[0] in Members(fl);
    assert tl == [] ==> Members(tl) == {};
    assert fl == [] ==> Members(fl) == {};
  }

  lemma NeedSame(c: seq<Instr>, p: set<int>, l: set<int>)
    ensures NeedValue(c, l) == NeedValue(AbsCode(c, p), l)
  {
    var a := AbsCode(c, p);
    assert forall j :: HasTestSet(a, j) == HasTestSet(c, j);
  }

  lemma LoadsLength(fs: Fs, isJmp: bool, reg: int)
    ensures |EmitLoads(fs, isJmp, reg).code| >= 2
  {}

  lemma FillKept(c1: seq<Instr>, p1: set<int>, w1: seq<int>, c2: seq<Instr>, p2: set<int>, w2: seq<int>, tl: seq<int>,
                 fl: seq<int>, c3: seq<Instr>, p3: set<int>)
    requires Kept(c1, p1, Members(w1), c2, p2, Members(w2))
    requires Kept(c2, p2, Members(w2) + Members(fl) + Members(tl), c3, p3, Members(w2))
    ensures Kept(c1, p1, Members(w1) + Members(tl) + Members(fl), c3, p3, Members(w2))
  {
    var more := Members(fl) + Members(tl);
    KeptMore(c1, p1, Members(w1), c2, p2, Members(w2), more);
    assert Members(w1) + more == Members(w1) + Members(tl) + Members(fl);
    assert Members(w2) + more == Members(w2) + Members(fl) + Members(tl);
    KeptTrans(c1, p1, Members(w1) + more, c2, p2, Members(w2) + more, c3, p3, Members(w2));
  }

  lemma NoLists(c0: seq<Instr>, p0: set<int>, w0: seq<int>, own: set<int>, c1: seq<Instr>, p1: set<int>, tl: seq<int>,
                fl: seq<int>)
    requires Kept(c0, p0, own, c1, p1, own) && own == Members(w0) + Members(tl) + Members(fl) && Members(tl) == {}
    requires Members(fl) == {}
    ensures Kept(c0, p0, own, c1, p1, Members(w0))
  {}

  lemma EmitLimit(fs: Fs, i: Instr)
    requires Limit(fs)
    ensures Limit(Emit(fs, i))
  {}

  /** patchlistaux leaves all jumps but its own alone. */
  lemma PatchedKept(c1: seq<Instr>, c2: seq<Instr>, p: set<int>, l: seq<int>, v: int, reg: int, dt: int)
    requires RawPatched(c1, c2, Members(l), v, reg, dt) && forall j | j in p :: 0 <= j < |c1| && c1[j].Jmp?
    ensures forall j | j in p :: 0 <= j < |c2| && c2[j].Jmp? && (j !in l ==> c2[j] == c1[j])
    ensures |c1| == |c2|
  {
    forall j | j in p ensures 0 <= j < |c2| && c2[j].Jmp? && (j !in l ==> c2[j] == c1[j]) {
      assert c2[j] == RawPatchAt(c1, Members(l), v, reg, dt, j);
    }
  }

  lemma PatchBothRefines(c0: seq<Instr>, c1: seq<Instr>, c2: seq<Instr>, p: set<int>, fl: seq<int>, tl: seq<int>,
                         reg: int, pf: int, pt: int)
    requires var n := |c0|; RawPatched(c0, c1, Members(fl), n, reg, pf) && RawPatched(c1, c2, Members(tl), n, reg, pt)
    requires (pf == |c0| - 2 && pt == |c0| - 1) || ((forall j | j in fl :: HasTestSet(c0, j)) && (forall j | j in tl :: HasTestSet(c1, j)))
    ensures var n := |c0|;
            AbsCode(c2, p - Members(fl) - Members(tl)) == Patch(Patch(AbsCode(c0, p), Members(fl), n, reg, n - 2), Members(tl), n, reg, n - 1)
  {
    hide RawPatched, Patch, AbsCode;
    var n := |c0|;
    var p1 := p - Members(fl);
    PatchRefines(c0, c1, p, Members(fl), n, reg, pf);
    PatchRefines(c1, c2, p1, Members(tl), n, reg, pt);
    AnyDefault(c0, p, fl, n, reg, pf, n - 2);
    AnyDefault(c1, p1, tl, n, reg, pt, n - 1);
  }

  lemma PatchedTest(c1: seq<Instr>, c2: seq<Instr>, l: seq<int>, v: int, reg: int, dt: int, j: int)
    requires RawPatched(c1, c2, Members(l), v, reg, dt) && j !in l && j <= |c1|
    ensures HasTestSet(c2, j) == HasTestSet(c1, j)
  {
    if j >= 1 { assert c2[j - 1] == RawPatchAt(c1, Members(l), v, reg, dt, j - 1); }
  }

  /** The default target is not used when every jump has a value. */
  lemma AnyDefault(c: seq<Instr>, p: set<int>, l: seq<int>, v: int, reg: int, d1: int, d2: int)
    requires d1 == d2 || forall j | j in l :: HasTestSet(c, j)
    ensures Patch(AbsCode(c, p), Members(l), v, reg, d1) == Patch(AbsCode(c, p), Members(l), v, reg, d2)
  {
    var a := AbsCode(c, p);
    forall i | 0 <= i < |a| ensures PatchAt(a, Members(l), v, reg, d1, i) == PatchAt(a, Members(l), v, reg, d2, i) {
      if i > 0 { assert a[i - 1] == AbsAt(c, p, i - 1); }
    }
  }

  lemma OneMember(j: int)
    ensures Members([j]) == {j}
  {}

  lemma NoMembers()
    ensures Members([]) == {}
  {}

  lemma RelocKept(c0: seq<Instr>, p0: set<int>, w: seq<int>, c: seq<Instr>, i: int)
    requires 0 <= i < |c0| && !c0[i].Jmp? && |c| == |c0| && (forall x | 0 <= x < |c0| && x != i :: c[x] == c0[x])
    requires (forall j | j in p0 :: 0 <= j < |c0| && c0[j].Jmp?) && !c[i].Jmp?
    ensures Kept(c0, p0, Members(w), c, p0, Members(w))
  {}
}
