/** Runs of code that is still being extended: pending jumps count as arrivals at its end. */
module CodeExt {
  import opened CodeVm
  import opened CodeGen
  import opened CodeRun

  /** The end was reached, by falling through or by a pending jump; or a listed jump was taken. */
  datatype Res = End(regs: Regs) | Pend(jump: int, regs: Regs) | Bad

  function RunTo(m: Machine, fs: Fs, pc: int, r: Regs): Res {
    match Run(m, fs.code, pc, r)
    case Done(r1) => End(r1)
    case Exit(j, r1) => if j in fs.jpc then End(r1) else Pend(j, r1)
    case Stuck => Bad
  }

  /** The registers below `f` are the same, but for `ex`. */
  predicate Keep(r1: Regs, r2: Regs, f: int, ex: int) {
    forall i | 0 <= i < f && i < NUM_REGS && i != ex :: r1[i] == r2[i]
  }

  predicate Scratch(x: int, f: int, ex: int) { x >= f || (x == ex && x >= 0) }

  /** What is known when control comes to position `n`: fresh registers are nil at the start of a
      function, and a LOADNIL that no label follows has just been run. */
  predicate Entry(code: seq<Instr>, n: int, lt: int, nactvar: int, r: Regs) {
    n > lt ==>
      (n == 0 ==> forall i | nactvar <= i < NUM_REGS && 0 <= i :: r[i] == Nil) &&
      (0 < n <= |code| && code[n - 1].LoadNil? ==>
        forall i | code[n - 1].a <= i <= code[n - 1].b && 0 <= i < NUM_REGS :: r[i] == Nil)
  }

  predicate JpcOk(fs: Fs) { forall j | j in fs.jpc :: 0 <= j < |fs.code| && fs.code[j] == Jmp(NO_JUMP) }

  predicate Wf(fs: Fs, n0: int) {
    WfCode(fs.code, n0, fs.lasttarget) &&
    (fs.jpc != {} ==> fs.lasttarget == |fs.code|) &&
    JpcOk(fs) && 0 <= fs.nactvar <= fs.freereg < MAX_STACK
  }

  /** Nothing was emitted: the pending jumps go on waiting. */
  predicate Waits(fs1: Fs, fs2: Fs) { |fs1.code| == |fs2.code| && fs1.jpc == fs2.jpc }

  predicate ExtAt(fs1: Fs, fs2: Fs, f: int, ex: int, i: int)
    requires 0 <= i < |fs1.code| <= |fs2.code|
  {
    var i1, i2 := fs1.code[i], fs2.code[i];
    if !Waits(fs1, fs2) && i in fs1.jpc then i1 == Jmp(NO_JUMP) && i2 == Jmp(|fs1.code|)
    else if !Waits(fs1, fs2) && i + 1 in fs1.jpc && i1.TestSet? then i2 == Test(i1.b, i1.want)
    else if i1.LoadNil? && i == |fs1.code| - 1 && i >= fs1.lasttarget then
      i2.LoadNil? && i2.a == i1.a && i2.b >= i1.b && (forall x | i1.b < x <= i2.b :: Scratch(x, f, ex))
    else i2 == i1
  }

  /** `fs2` extends `fs1`: old code is untouched, except that pending jumps come to the first new
      instruction and a last LOADNIL may have got more registers, at or above `f` or `ex`. */
  predicate Ext(fs1: Fs, fs2: Fs, f: int, ex: int) {
    |fs1.code| <= |fs2.code| && fs1.k <= fs2.k && fs1.lasttarget <= fs2.lasttarget && fs1.nactvar == fs2.nactvar &&
    (Waits(fs1, fs2) || forall j | j in fs2.jpc :: j >= |fs1.code|) &&
    forall i | 0 <= i < |fs1.code| :: ExtAt(fs1, fs2, f, ex, i)
  }

  lemma ExtRefl(fs: Fs, f: int, ex: int)
    ensures Ext(fs, fs, f, ex)
  {}

  lemma ExtTrans(a: Fs, b: Fs, c: Fs, n0: int, f: int, ex: int)
    requires Ext(a, b, f, ex) && Ext(b, c, f, ex)
    requires Wf(a, n0) && JpcOk(b) && JpcOk(c)
    ensures Ext(a, c, f, ex)
  {
    assert |a.code| > n0 ==> WfAt(a.code, a.lasttarget, |a.code| - 1);
    forall i | 0 <= i < |a.code| ensures ExtAt(a, c, f, ex, i) {
      assert ExtAt(a, b, f, ex, i) && ExtAt(b, c, f, ex, i);
    }
  }

  /** Fewer registers promised. */
  lemma ExtLower(a: Fs, b: Fs, f1: int, f2: int, ex: int)
    requires Ext(a, b, f1, -1) && f2 <= f1
    ensures Ext(a, b, f2, ex)
  {
    forall i | 0 <= i < |a.code| ensures ExtAt(a, b, f2, ex, i) {
      assert ExtAt(a, b, f1, -1, i);
      assert forall x | Scratch(x, f1, -1) :: Scratch(x, f2, ex);
    }
  }

  function Targets(fs1: Fs, fs2: Fs): map<int, int> {
    if Waits(fs1, fs2) then map[] else map j | j in fs1.jpc :: |fs1.code|
  }

  lemma ExtPatched(fs1: Fs, fs2: Fs, n0: int, f: int, ex: int)
    requires Wf(fs1, n0) && Ext(fs1, fs2, f, ex)
    ensures Patched(fs1.code, fs2.code, n0, fs1.lasttarget, Targets(fs1, fs2))
  {
    forall i | n0 <= i < |fs1.code| ensures PatchedAt(fs1.code, fs2.code, fs1.lasttarget, Targets(fs1, fs2), i) {
      assert ExtAt(fs1, fs2, f, ex, i) && WfAt(fs1.code, fs1.lasttarget, i);
    }
  }

  /** The registers with which control comes to the end of `fs1` inside `fs2`. */
  function Arrived(m: Machine, fs1: Fs, fs2: Fs, n0: int, r: Regs): Regs {
    match Run(m, fs1.code, n0, r)
    case Done(r1) => Arrive(fs1.code, fs2.code, n0, r1)
    case Exit(j, r1) => r1
    case Stuck => r
  }

  /** A run in `fs2` is a run in `fs1`, then one from where `fs1` ends. */
  lemma RunToExt(m: Machine, fs1: Fs, fs2: Fs, n0: int, f: int, ex: int, r: Regs)
    requires Wf(fs1, n0) && Ext(fs1, fs2, f, ex)
    ensures !RunTo(m, fs1, n0, r).Bad?
    ensures RunTo(m, fs1, n0, r).End? ==>
              RunTo(m, fs2, n0, r) == RunTo(m, fs2, |fs1.code|, Arrived(m, fs1, fs2, n0, r))
    ensures RunTo(m, fs1, n0, r).Pend? ==> RunTo(m, fs2, n0, r) == RunTo(m, fs1, n0, r)
  {
    var tgt := Targets(fs1, fs2);
    ExtPatched(fs1, fs2, n0, f, ex);
    RunLeaves(m, fs1.code, n0, fs1.lasttarget, n0, r);
    RunPatch(m, fs1.code, fs2.code, n0, fs1.lasttarget, tgt, n0, r);
    match Run(m, fs1.code, n0, r)
    case Done(r1) =>
    case Exit(j, r1) =>
      if j in tgt {
        if n0 < j { assert PatchedAt(fs1.code, fs2.code, fs1.lasttarget, tgt, j - 1) && ExtAt(fs1, fs2, f, ex, j - 1); }
        assert ExitRegs(fs2.code, n0, j, r1) == r1;
      }
  }

  /** What arriving at the end of `fs1` inside `fs2` keeps, and what is known there. */
  lemma ArrivedKeeps(m: Machine, fs1: Fs, fs2: Fs, n0: int, lt0: int, f: int, ex: int, r: Regs)
    requires Wf(fs1, n0) && Ext(fs1, fs2, f, ex) && lt0 <= fs1.lasttarget
    requires RunTo(m, fs1, n0, r).End?
    requires Entry(fs2.code, n0, lt0, fs1.nactvar, r)
    ensures Keep(RunTo(m, fs1, n0, r).regs, Arrived(m, fs1, fs2, n0, r), f, ex)
    ensures Entry(fs2.code, |fs1.code|, fs1.lasttarget, fs1.nactvar, Arrived(m, fs1, fs2, n0, r))
  {
    var n := |fs1.code|;
    var c := fs1.code;
    var a := Arrived(m, fs1, fs2, n0, r);
    var o := Run(m, fs1.code, n0, r);
    if n > fs1.lasttarget && n > n0 && c[n - 1].LoadNil? {
      assert o.Done?;
      assert ExtAt(fs1, fs2, f, ex, n - 1);
      forall i | c[n - 1].a <= i <= c[n - 1].b && 0 <= i < NUM_REGS ensures o.regs[i] == Nil {
        ArrivesNil(m, c, n0, fs1.lasttarget, n0, r, i);
      }
      forall i | 0 <= i < f && i < NUM_REGS && i != ex ensures o.regs[i] == a[i] {
        assert !Scratch(i, f, ex);
      }
    } else if n > 0 {
      assert ExtAt(fs1, fs2, f, ex, n - 1);
    }
  }

  /** Entry conditions only get stronger as a LOADNIL is extended. */
  lemma EntryBack(fs1: Fs, fs2: Fs, n: int, lt: int, nactvar: int, f: int, ex: int, r: Regs)
    requires Ext(fs1, fs2, f, ex) && n <= |fs1.code|
    requires JpcOk(fs1)
    requires Entry(fs2.code, n, lt, nactvar, r)
    ensures Entry(fs1.code, n, lt, nactvar, r)
  {
    if 0 < n { assert ExtAt(fs1, fs2, f, ex, n - 1); }
  }
}
