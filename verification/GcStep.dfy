/** singlestep (ggc.c): one step of the collector in each of its five phases. */
module GcStep {
  import opened GcHeap
  import opened GcMark
  import opened GcPropagate
  import opened GcAtomic
  import opened GcInv
  import opened GcCollect
  import opened GcSweep

  // ---------------------------------------------------------------- sweeping rootgc

  /** Rearranging the rootgc list, here or across its boundary, changes nothing else. */
  lemma RelistShape(m: State, r: State)
    requires Shape(m) && r == m.(swept := r.swept, unswept := r.unswept)
    requires RootNoDup(r) && forall p :: InRoot(r, p) <==> InRoot(m, p)
    ensures Shape(r)
  {
    assert Alike(m, r) && StacksCover(m, r);
    AlikeUps(m, r);
    AlikeStrs(m, r);
    AlikeEnv(m, r);
    hide UpsOk, StrsOk, EnvOk, Alike, StacksCover;
    assert RootOk(r);
  }

  lemma RelistCore(m: State, r: State)
    requires Core(m) && r == m.(swept := r.swept, unswept := r.unswept)
    requires RootNoDup(r) && forall p :: InRoot(r, p) <==> InRoot(m, p)
    ensures Core(r)
  {
    RelistShape(m, r);
    hide Shape, BodyPts, RootNoDup;
    assert forall p, x :: Pts(r, p, x) <==> Pts(m, p, x);
    assert forall p :: Live(r, p) <==> Live(m, p);
    assert forall p :: IsRoot(r, p) <==> IsRoot(m, p);
  }

  /** Moving the boundary between swept and unswept past the head. */
  lemma PassCore(m: State, r: State, o: Id)
    requires Core(m) && m.unswept != [] && o == m.unswept[0]
    requires r == m.(swept := m.swept + [o], unswept := m.unswept[1..])
    ensures Core(r)
  {
    assert RootOk(m);
    hide Core;
    assert m.unswept == [o] + m.unswept[1..];
    assert o in m.unswept;
    NoDupTail(m.unswept);
    NoDupConcat(m.swept, [o]);
    RelistCore(m, r);
  }

  /** A live head is whitened and passed. */
  lemma KeepHead(s: State, s1: State, o: Id)
    requires s.unswept != [] && o == s.unswept[0] && HeadSwept(s, s1, o) && RootSwept(s) && !Dead(s1, o)
    requires o !in s.swept
    ensures var r := MakeWhite(s1, o).(swept := s1.swept + [o], unswept := s.unswept[1..]);
            Core(r) && SweptTo(s, r) && RootSwept(r) && r.strs == s.strs
  {
    var m := MakeWhite(s1, o);
    var r := m.(swept := s1.swept + [o], unswept := s.unswept[1..]);
    hide Core, SweptTo;
    MakeWhiteCore(s1, o);
    WhitenSwept(s1, o);
    SweptToTransitive(s, s1, m);
    PassCore(m, r, o);
    PassSwept(s, m, r);
    KeptSwept(s, s1, m, r, o);
  }

  lemma PassSwept(s: State, m: State, r: State)
    requires SweptTo(s, m) && r == m.(swept := r.swept, unswept := r.unswept)
    ensures SweptTo(s, r)
  {
  }

  lemma KeptSwept(s: State, s1: State, m: State, r: State, o: Id)
    requires HeadSwept(s, s1, o) && RootSwept(s) && m == MakeWhite(s1, o) && Live(s1, o)
    requires r == m.(swept := s.swept + [o], unswept := r.unswept)
    ensures RootSwept(r)
  {
    hide Core;
    forall p | p in r.swept
      ensures Fresh(r, p) && (IsThread(r, p) ==> forall u | u in r.heap[p].body.open :: Fresh(r, u))
    {
      if p in s.swept {
        assert Fresh(s, p);
      }
    }
  }

  /** A dead head is freed; the live upvalues of a dead thread are closed first. */
  lemma FreeHead(s: State, s1: State, o: Id)
    requires s.unswept != [] && o == s.unswept[0] && HeadSwept(s, s1, o) && RootSwept(s) && Dead(s1, o)
    requires o !in s.swept && s.phase != Propagate
    ensures var r := Drop(if IsThread(s1, o) then CloseAll(s1, s1.heap[o].body.open) else s1, o);
            Core(r) && SweptTo(s, r) && RootSwept(r) && r.strs == s.strs && o !in r.heap
  {
    var s2 := if IsThread(s1, o) then CloseAll(s1, s1.heap[o].body.open) else s1;
    var us := if IsThread(s1, o) then s1.heap[o].body.open else [];
    SweptFacts(s, s1);
    if IsThread(s1, o) {
      CoreOpen(s1, o);
      CloseAllSpec(s1, us);
    } else {
      SweptToRefl(s1);
      AllClosedNone(s1);
    }
    assert Core(s2) && SweptTo(s1, s2) && AllClosed(s1, s2, us);
    SweptToTransitive(s, s1, s2);
    SweptFacts(s1, s2);
    hide CloseAll;
    DeadStays(s1, s2, us, o);
    DropCore(s2, o);
    var r := Drop(s2, o);
    SweptToTransitive(s, s2, r);
    hide Core;
    FreedSwept(s, s1, s2, r, us, o);
  }

  lemma DeadStays(s1: State, s2: State, us: seq<Id>, o: Id)
    requires Core(s1) && Core(s2) && SweptTo(s1, s2) && AllClosed(s1, s2, us) && Dead(s1, o) && RootKind(s1, o)
    requires IsThread(s1, o) ==> us == s1.heap[o].body.open
    requires !IsThread(s1, o) ==> us == []
    requires o !in s1.swept
    ensures RootKind(s2, o) && Dead(s2, o) && o !in s2.swept
    ensures IsThread(s2, o) ==> forall u :: u !in s2.heap[o].body.open
  {
    hide Core;
    if IsThread(s1, o) {
      CoreOpen(s1, o);
    }
    assert o !in us;
    if IsThread(s2, o) {
      CoreOpen(s2, o);
      hide AllClosed;
      assert forall u | u in us :: !IsUpOpen(s2, u) by { ClosedFacts(s1, s2, us); }
      assert IsThread(s1, o) by { ClosedFacts(s1, s2, us); }
    }
  }

  lemma ClosedFacts(s1: State, s2: State, us: seq<Id>)
    requires AllClosed(s1, s2, us) && SweptTo(s1, s2)
    ensures forall u | u in us :: !IsUpOpen(s2, u)
    ensures forall o | IsThread(s2, o) :: IsThread(s1, o) && forall u | u in s2.heap[o].body.open :: u in s1.heap[o].body.open
  {
  }

  lemma FreedSwept(s: State, s1: State, s2: State, r: State, us: seq<Id>, o: Id)
    requires RootSwept(s) && SweptTo(s, s1) && SweptTo(s1, s2) && SweptTo(s2, r) && r == Drop(s2, o)
    requires AllClosed(s1, s2, us) && s1.swept == s.swept && s1.strs == s.strs && o !in s2.swept
    requires forall u | u in us :: Fresh(s1, u) && IsUpOpen(s1, u)
    ensures RootSwept(r) && r.strs == s.strs && o !in r.heap
  {
    SweptToTransitive(s, s1, s2);
    SweptToTransitive(s, s2, r);
    SweptToTransitive(s1, s2, r);
    forall p | p in r.swept
      ensures Fresh(r, p) && (IsThread(r, p) ==> forall u | u in r.heap[p].body.open :: Fresh(r, u))
    {
      assert p in s2.swept;
      if p in s.swept {
        assert Fresh(s, p);
      } else {
        assert p in us && Fresh(s1, p) && !IsThread(s1, p);
      }
    }
  }

  /** What one round of the loop establishes. */
  ghost predicate SweepGood(s: State, r: State) {
    Core(r) && SweptTo(s, r) && RootSwept(r) && r.strs == s.strs
  }

  lemma SweepOneSpec(s: State)
    requires Core(s) && s.phase != Propagate && s.unswept != [] && RootSwept(s)
    ensures SweepGood(s, SweepOne(s))
    ensures Progress(s, SweepOne(s))
  {
    var o := s.unswept[0];
    var s1 := if IsThread(s, o) then SweepUps(s, s.heap[o].body.open) else s;
    SweepHead(s);
    HeadKind(s);
    var r := SweepOne(s);
    if Dead(s1, o) {
      FreeHead(s, s1, o);
      SweptFacts(s, r);
      assert o in s.heap;
    } else {
      KeepHead(s, s1, o);
      SweptFacts(s, r);
    }
  }

  /** sweeplist with a bound on the number of elements. */
  function SweepN(s: State, n: nat): State
    decreases n
  {
    if n == 0 || s.unswept == [] then s else SweepN(SweepOne(s), n - 1)
  }

  lemma SweepGoodTransitive(s: State, r: State, q: State)
    requires SweepGood(s, r) && SweepGood(r, q)
    ensures SweepGood(s, q)
  {
    SweptToTransitive(s, r, q);
  }

  /** Objects are freed, or the rest of the list is shorter. */
  ghost predicate Progress(s: State, r: State) {
    r.heap.Keys < s.heap.Keys || (r.heap.Keys <= s.heap.Keys && |r.unswept| < |s.unswept|)
  }

  lemma ProgressTransitive(s: State, s1: State, r: State)
    requires Progress(s, s1) && (r == s1 || Progress(s1, r))
    ensures Progress(s, r)
  {
    KeysLess(s.heap.Keys, s1.heap.Keys, r.heap.Keys);
  }

  lemma KeysLess(a: set<Id>, b: set<Id>, c: set<Id>)
    ensures c <= b && b < a ==> c < a
    ensures c < b && b <= a ==> c < a
    ensures c <= b && b <= a ==> c <= a
  {
  }

  lemma {:induction false} SweepNSpec(s: State, n: nat)
    requires Core(s) && s.phase != Propagate && RootSwept(s)
    ensures SweepGood(s, SweepN(s, n))
    ensures if n > 0 && s.unswept != [] then Progress(s, SweepN(s, n)) else SweepN(s, n) == s
    ensures SweepN(s, n).heap.Keys <= s.heap.Keys
    decreases n
  {
    hide Core, RootSwept, Progress, SweptTo;
    if n == 0 || s.unswept == [] {
      SweptToRefl(s);
    } else {
      var s1, r := SweepOne(s), SweepN(s, n);
      SweepOneSpec(s);
      SweepGoodFacts(s, s1);
      hide SweepOne, SweepGood;
      SweepNSpec(s1, n - 1);
      SweepGoodTransitive(s, s1, r);
      ProgressTransitive(s, s1, r);
      ProgressKeys(s, r);
    }
  }

  lemma ProgressKeys(s: State, r: State)
    requires Progress(s, r)
    ensures r.heap.Keys <= s.heap.Keys
  {
  }

  lemma SweepGoodFacts(s: State, r: State)
    requires SweepGood(s, r)
    ensures Core(r) && RootSwept(r) && r.phase == s.phase
  {
    SweptFacts(s, r);
  }

  // ---------------------------------------------------------------- sweeping the string table

  /** One string of a bucket: free it if dead, else whiten it. */
  function SweepStr(s: State, b: nat, o: Id): State {
    if o !in s.heap || b >= |s.strs| then s
    else if Dead(s, o) then s.(heap := s.heap - {o}, strs := s.strs[b := Remove(s.strs[b], o)])
    else MakeWhite(s, o)
  }

  function SweepStrs(s: State, b: nat, os: seq<Id>): State
    decreases |os|
  {
    if os == [] then s else SweepStrs(SweepStr(s, b, os[0]), b, os[1..])
  }

  /** Bucket `b` lost the dead string `o`; the rest is as before. */
  ghost predicate StrFreed(s: State, r: State, b: nat, o: Id) {
    && IsStr(s, o) && Dead(s, o) && InBucket(s, b, o)
    && r == s.(heap := r.heap, strs := r.strs)
    && o !in r.heap && (forall p | p != o :: (p in r.heap <==> p in s.heap) && (p in s.heap ==> r.heap[p] == s.heap[p]))
    && |r.strs| == |s.strs| && (forall c: nat | c < |s.strs| && c != b :: r.strs[c] == s.strs[c])
    && r.strs[b] == Remove(s.strs[b], o)
  }

  lemma StrFreedUps(s: State, r: State, b: nat, o: Id)
    requires StrFreed(s, r, b, o) && UpsOk(s)
    ensures UpsOk(r)
    ensures forall p, x | p != o :: Pts(r, p, x) <==> Pts(s, p, x)
  {
    assert forall p :: IsThread(r, p) <==> IsThread(s, p);
    assert forall p :: IsUpOpen(r, p) <==> IsUpOpen(s, p);
    forall t, u | IsThread(r, t) && u in r.heap[t].body.open
      ensures IsUpOpen(r, u) && r.heap[u].body.thread == t
    {
      assert IsThread(s, t) && u in s.heap[t].body.open && IsUpOpen(s, u);
    }
  }

  lemma StrFreedShape(s: State, r: State, b: nat, o: Id)
    requires StrFreed(s, r, b, o) && Shape(s)
    ensures Shape(r)
  {
    StrFreedUps(s, r, b, o);
    StrFreedStrs(s, r, b, o);
    assert forall p :: IsThread(r, p) <==> IsThread(s, p);
    assert forall p :: IsStr(r, p) <==> IsStr(s, p) && p != o;
    assert forall p :: RootKind(r, p) <==> RootKind(s, p);
    assert forall p :: InRoot(r, p) <==> InRoot(s, p);
    hide StrsOk, InBucket, UpsOk;
    assert RootOk(r);
  }

  lemma StrFreedStrs(s: State, r: State, b: nat, o: Id)
    requires StrFreed(s, r, b, o) && StrsOk(s)
    ensures StrsOk(r)
  {
    assert forall c: nat, p :: InBucket(r, c, p) <==> InBucket(s, c, p) && p != o;
    forall p | IsStr(r, p)
      ensures exists c: nat :: InBucket(r, c, p)
    {
      assert IsStr(s, p);
      var c: nat :| InBucket(s, c, p);
      assert InBucket(r, c, p);
    }
  }

  lemma StrFreedCore(s: State, r: State, b: nat, o: Id)
    requires StrFreed(s, r, b, o) && Core(s)
    ensures Core(r) && SweptTo(s, r)
  {
    StrFreedShape(s, r, b, o);
    assert UpsOk(s);
    StrFreedUps(s, r, b, o);
    hide Shape, BodyPts, UpsOk;
    assert forall p :: Live(r, p) <==> Live(s, p);
    assert forall p :: IsRoot(r, p) <==> IsRoot(s, p);
  }

  lemma SweepStrSpec(s: State, b: nat, o: Id)
    requires Core(s) && InBucket(s, b, o)
    ensures var r := SweepStr(s, b, o);
            && Core(r) && SweptTo(s, r) && (o in r.heap ==> Fresh(r, o)) && |r.strs| == |s.strs|
            && (forall c: nat, p :: InBucket(r, c, p) ==> InBucket(s, c, p))
            && (forall p | InBucket(s, b, p) && p != o :: InBucket(r, b, p))
            && r.swept == s.swept && r.unswept == s.unswept
  {
    var r := SweepStr(s, b, o);
    assert IsStr(s, o) by { assert StrsOk(s); }
    hide Core;
    if Dead(s, o) {
      StrFreedCore(s, r, b, o);
    } else {
      MakeWhiteCore(s, o);
      WhitenSwept(s, o);
    }
  }

  lemma {:induction false} SweepStrsSpec(s: State, b: nat, os: seq<Id>)
    requires Core(s) && NoDup(os) && forall o | o in os :: InBucket(s, b, o)
    ensures var r := SweepStrs(s, b, os);
            && Core(r) && SweptTo(s, r) && |r.strs| == |s.strs|
            && (forall o | o in os && o in r.heap :: Fresh(r, o))
            && (forall c: nat, p :: InBucket(r, c, p) ==> InBucket(s, c, p))
            && r.swept == s.swept && r.unswept == s.unswept
    decreases |os|
  {
    if os == [] {
      SweptToRefl(s);
    } else {
      NoDupTail(os);
      hide Core, NoDup, SweptTo, InBucket;
      var s1, r := SweepStr(s, b, os[0]), SweepStrs(s, b, os);
      SweepStrSpec(s, b, os[0]);
      hide SweepStr;
      SweepStrsSpec(s1, b, os[1..]);
      SweptToTransitive(s, s1, r);
      SweptFacts(s1, r);
    }
  }

  // ---------------------------------------------------------------- calling finalizers

  function InsertAfter(l: seq<Id>, m: Id, u: Id): (r: seq<Id>)
    ensures forall x :: x in r <==> x in l || (x == u && m in l)
    ensures NoDup(l) && u !in l ==> NoDup(r)
  {
    if l == [] then []
    else
      assert l == [l[0]] + l[1..];
      assert forall i | 0 < i < |l| :: l[1..][i - 1] == l[i];
      if l[0] == m then
        var r := [m, u] + l[1..];
        assert forall i | 2 <= i < |r| :: r[i] in l[1..];
        r
      else
        var rest := InsertAfter(l[1..], m, u);
        assert forall i | 0 <= i < |rest| :: rest[i] in rest;
        [l[0]] + rest
  }

  /** Chain a userdata after the main thread; if the sweep stands there, it is still to come. */
  function LinkUdata(s: State, u: Id): State {
    if s.env.main in s.unswept then s.(unswept := InsertAfter(s.unswept, s.env.main, u))
    else if s.swept != [] && s.swept[|s.swept| - 1] == s.env.main then s.(unswept := [u] + s.unswept)
    else s.(swept := InsertAfter(s.swept, s.env.main, u))
  }

  lemma LinkUdataRoot(s: State, u: Id)
    requires RootNoDup(s) && InRoot(s, s.env.main) && !InRoot(s, u)
    ensures RootNoDup(LinkUdata(s, u))
    ensures forall o :: InRoot(LinkUdata(s, u), o) <==> InRoot(s, o) || o == u
    ensures forall o | o in LinkUdata(s, u).swept :: o in s.swept || o == u
    ensures s.swept == [] ==> LinkUdata(s, u).swept == []
  {
    assert forall i | 0 <= i < |s.unswept| :: s.unswept[i] in s.unswept;
  }

  /** Push values on the running thread's stack. */
  function Push(s: State, vs: seq<Value>): State {
    if !IsThread(s, s.env.running) then s
    else
      var b := s.heap[s.env.running].body;
      SetBody(s, s.env.running, b.(stack := b.stack + vs))
  }

  /** GCTM up to the call: give the first pending userdata back to rootgc, whiten it, and push
      its finalizer and itself. */
  function Gctm(s: State): State
    requires s.tmu != []
  {
    var u := s.tmu[0];
    var s1 := LinkUdata(s.(tmu := s.tmu[1..]), u);
    if u !in s1.heap then s1
    else
      var s2 := MakeWhite(s1, u);
      var tm := MetaField(s.heap, if s.heap[u].body.Udata? then s.heap[u].body.mt else None, s.env.gcName);
      if tm == Nil then s2 else Push(s2, [tm, Ref(u)])
  }

  // ---------------------------------------------------------------- singlestep

  const SWEEP_MAX: nat := 40

  function SweepStringStep(s: State): State {
    if s.sweepstr >= |s.strs| then s
    else
      var r := SweepStrs(s, s.sweepstr, s.strs[s.sweepstr]).(sweepstr := s.sweepstr + 1);
      if s.sweepstr + 1 >= |s.strs| then r.(phase := Sweep) else r
  }

  function SweepStep(s: State): State {
    var r := SweepN(s, SWEEP_MAX);
    if r.unswept == [] then r.(phase := Finalize) else r
  }

  function SingleStep(s: State): State {
    match s.phase
    case Pause => MarkRoot(s)
    case Propagate =>
      if s.gray == [] then Atomic(s)
      else if s.gray[0] in s.heap then PropagateMark(s) else s
    case SweepString => SweepStringStep(s)
    case Sweep => SweepStep(s)
    case Finalize => if s.tmu != [] then Gctm(s) else s.(phase := Pause)
  }

  // ---------------------------------------------------------------- every step keeps the invariant

  lemma ClockCore(s: State, r: State)
    requires Core(s) && r == s.(phase := r.phase, sweepstr := r.sweepstr)
    ensures Core(r)
  {
    assert Alike(s, r) && SameRoot(s, r) && StacksCover(s, r) && IsThread(r, r.env.running);
    AlikeShape(s, r);
    hide Shape, BodyPts;
    assert forall p, x :: Pts(r, p, x) <==> Pts(s, p, x);
    assert forall p :: Live(r, p) <==> Live(s, p);
    assert forall p :: IsRoot(r, p) <==> IsRoot(s, p);
  }

  lemma SweepStringInv(s: State)
    requires Inv(s) && s.phase == SweepString
    ensures Inv(SweepStringStep(s))
    ensures forall o :: Live(s, o) <==> Live(SweepStringStep(s), o)
    ensures SweepStringStep(s).tmu == s.tmu
    ensures SweepStringStep(s).heap.Keys <= s.heap.Keys
  {
    var os := s.strs[s.sweepstr];
    var m := SweepStrs(s, s.sweepstr, os);
    var r := SweepStringStep(s);
    assert Core(s);
    assert NoDup(os) && forall o | o in os :: InBucket(s, s.sweepstr, o) by { assert StrsOk(s); }
    assert StrsSwept(s, s.sweepstr);
    hide Core, Shape;
    SweepStrsSpec(s, s.sweepstr, os);
    hide SweepStrs;
    ClockCore(m, r);
    SweptFacts(s, m);
    hide SweptTo;
    forall b: nat, o | b < s.sweepstr + 1 && InBucket(r, b, o)
      ensures Fresh(r, o)
    {
      assert InBucket(m, b, o);
      assert InBucket(s, b, o);
      assert o in m.heap by { CoreStr(m, b, o); }
      assert b == s.sweepstr ==> o in os;
    }
    CoreIsInv(r);
  }

  lemma CoreStr(s: State, b: nat, o: Id)
    requires Core(s) && InBucket(s, b, o)
    ensures IsStr(s, o)
  {
    assert StrsOk(s);
  }

  lemma CoreIsInv(s: State)
    requires Core(s) && PhaseOk(s)
    ensures Inv(s)
  {
  }

  lemma SweepInv(s: State)
    requires Inv(s) && s.phase == Sweep
    ensures Inv(SweepStep(s))
    ensures forall o :: Live(s, o) <==> Live(SweepStep(s), o)
    ensures SweepStep(s).tmu == s.tmu
    ensures SweepStep(s).heap.Keys <= s.heap.Keys
  {
    var m, r := SweepN(s, SWEEP_MAX), SweepStep(s);
    assert Core(s) && RootSwept(s) && StrsSwept(s, |s.strs|);
    hide Core, Shape, StrsSwept, RootSwept;
    SweepNSpec(s, SWEEP_MAX);
    hide SweepN;
    SweptFacts(s, m);
    hide SweptTo;
    assert StrsSwept(m, |m.strs|) by { StrsStillSwept(s, m); }
    ClockCore(m, r);
    if m.unswept == [] {
      SweepDone(m, r);
    }
    CoreIsInv(r);
  }

  lemma StrsStillSwept(s: State, m: State)
    requires StrsSwept(s, |s.strs|) && m.strs == s.strs && forall o | Fresh(s, o) :: Fresh(m, o)
    ensures StrsSwept(m, |m.strs|)
  {
    assert forall b: nat, o :: InBucket(m, b, o) <==> InBucket(s, b, o);
  }

  /** When the list is exhausted, nothing but the current white is left. */
  lemma SweepDone(m: State, r: State)
    requires Core(m) && RootSwept(m) && StrsSwept(m, |m.strs|) && m.unswept == [] && r == m.(phase := Finalize)
    ensures AllWhite(r) && OneWhite(r)
  {
    forall o | o in r.heap
      ensures Fresh(m, o) || o in m.tmu
    {
      if IsStr(m, o) {
        var b: nat :| InBucket(m, b, o);
      } else if IsUpOpen(m, o) {
        var t := m.heap[o].body.thread;
        assert IsThread(m, t) && o in m.heap[t].body.open;
        assert RootKind(m, t) && t !in m.tmu && InRoot(m, t);
      } else {
        assert RootKind(m, o) && (InRoot(m, o) || o in m.tmu);
      }
    }
    forall o | o in m.tmu
      ensures Live(m, o) && !m.heap[o].fixed
    {
      assert m.heap[o].body.Udata?;
    }
  }

  lemma PushRefs(s: State, vs: seq<Value>)
    requires UpsOk(s) && IsThread(s, s.env.running)
    ensures forall o, x | Pts(Push(s, vs), o, x) :: Pts(s, o, x) || Ref(x) in vs
  {
    var t, r := s.env.running, Push(s, vs);
    forall o, x | Pts(r, o, x)
      ensures Pts(s, o, x) || Ref(x) in vs
    {
      if IsUpOpen(s, o) && s.heap[o].body.thread == t {
        assert s.heap[o].body.slot < |s.heap[t].body.stack|;
      }
    }
  }

  lemma PushAlike(s: State, vs: seq<Value>)
    requires Shape(s)
    ensures var r := Push(s, vs);
            Alike(s, r) && SameRoot(s, r) && StacksCover(s, r) && IsThread(r, r.env.running) && r.env == s.env &&
            r.cw == s.cw && r.tmu == s.tmu
            && r.phase == s.phase && r.heap.Keys == s.heap.Keys
            && forall o | o in s.heap :: r.heap[o].color == s.heap[o].color && r.heap[o].fixed == s.heap[o].fixed
    ensures forall o, x | Pts(Push(s, vs), o, x) :: Pts(s, o, x) || Ref(x) in vs
  {
    PushRefs(s, vs);
    hide UpsOk, RootOk, StrsOk, BodyPts;
  }

  /** New references only to live objects, colours as before: what live means is unchanged. */
  lemma WriteLive(s: State, r: State)
    requires LiveClosed(s) && RootsLive(s)
    requires r.heap.Keys == s.heap.Keys && r.cw == s.cw && r.env == s.env && r.tmu == s.tmu
    requires forall o | o in s.heap :: r.heap[o].color == s.heap[o].color && r.heap[o].fixed == s.heap[o].fixed
    requires forall o, x | Pts(r, o, x) :: Pts(s, o, x) || Live(s, x)
    ensures LiveClosed(r) && RootsLive(r)
    ensures forall o :: Live(r, o) <==> Live(s, o)
  {
    hide BodyPts;
    assert forall o :: Live(r, o) <==> Live(s, o);
    assert forall o :: IsRoot(r, o) <==> IsRoot(s, o);
  }

  lemma SameColors(s: State, r: State)
    requires ColorsOk(s) && Alike(s, r) && forall o | o in s.heap :: r.heap[o].color == s.heap[o].color
    ensures ColorsOk(r)
  {
  }

  /** Pushing live values keeps the phase-independent invariant. */
  lemma PushCore(s: State, vs: seq<Value>)
    requires Core(s) && forall x | Ref(x) in vs :: Live(s, x)
    ensures Core(Push(s, vs))
    ensures var r := Push(s, vs);
            r.env == s.env && r.cw == s.cw && r.tmu == s.tmu && r.phase == s.phase && r.heap.Keys == s.heap.Keys
    ensures forall o | o in s.heap :: Push(s, vs).heap[o].color == s.heap[o].color
  {
    hide Shape, BodyPts, Alike, SameRoot, StacksCover, LiveClosed, RootsLive, ColorsOk;
    var r := Push(s, vs);
    PushAlike(s, vs);
    hide Push;
    AlikeShape(s, r);
    WriteLive(s, r);
    SameColors(s, r);
  }

  lemma UnpendCore(s: State, u: Id)
    requires Core(s) && s.tmu != [] && u == s.tmu[0]
    ensures var r := LinkUdata(s.(tmu := s.tmu[1..]), u); Core(r) && Live(r, u)
    ensures forall o :: o in LinkUdata(s.(tmu := s.tmu[1..]), u).tmu <==> o in s.tmu && o != u
  {
    var s1 := s.(tmu := s.tmu[1..]);
    var r := LinkUdata(s1, u);
    assert u in s.tmu && RootOk(s) && RootKind(s, s.env.main);
    NoDupTail(s.tmu);
    LinkUdataRoot(s1, u);
    assert r == s.(tmu := r.tmu, swept := r.swept, unswept := r.unswept);
    hide LinkUdata;
    UnpendShape(s, r, u);
    hide Shape, BodyPts, RootOk;
    assert forall p, x :: Pts(r, p, x) <==> Pts(s, p, x);
    assert forall p :: Live(r, p) <==> Live(s, p);
    assert forall p :: IsRoot(r, p) <==> IsRoot(s, p);
  }

  lemma UnpendShape(s: State, r: State, u: Id)
    requires Shape(s) && s.tmu != [] && u == s.tmu[0]
    requires r == s.(tmu := s.tmu[1..], swept := r.swept, unswept := r.unswept)
    requires RootNoDup(r) && forall o :: InRoot(r, o) <==> InRoot(s, o) || o == u
    ensures Shape(r)
  {
    NoDupTail(s.tmu);
    assert Alike(s, r) && StacksCover(s, r);
    AlikeUps(s, r);
    AlikeStrs(s, r);
    AlikeEnv(s, r);
    hide UpsOk, StrsOk, EnvOk, Alike, StacksCover;
    assert u in s.tmu;
    assert RootOk(r);
  }

  lemma GctmCore(s: State)
    requires Core(s) && s.tmu != [] && s.tmu[0] in s.heap && s.heap[s.tmu[0]].body.Udata?
    ensures var r := Gctm(s);
            && Core(r) && r.heap.Keys == s.heap.Keys && r.cw == s.cw && r.phase == s.phase
            && (forall o :: o in r.tmu <==> o in s.tmu && o != s.tmu[0])
            && (forall o | o in s.heap :: if o == s.tmu[0] then Fresh(r, o) else r.heap[o].color == s.heap[o].color)
  {
    hide Shape, LiveClosed, RootsLive, ColorsOk;
    var u := s.tmu[0];
    var s1 := LinkUdata(s.(tmu := s.tmu[1..]), u);
    assert u in s.tmu;
    UnpendCore(s, u);
    assert s1.heap == s.heap && s1.cw == s.cw && s1.phase == s.phase && s1.env == s.env;
    hide LinkUdata;
    var s2 := MakeWhite(s1, u);
    MakeWhiteCore(s1, u);
    var tm := MetaField(s.heap, s.heap[u].body.mt, s.env.gcName);
    FinalizerLive(s, u, tm);
    hide Core, MetaField;
    if tm != Nil {
      assert forall x | Ref(x) in [tm, Ref(u)] :: Live(s2, x);
      PushCore(s2, [tm, Ref(u)]);
      hide Push;
    }
  }

  lemma GctmWhite(s: State, r: State)
    requires AllWhite(s) && OneWhite(s) && s.tmu != []
    requires r.heap.Keys == s.heap.Keys && r.cw == s.cw
    requires forall o :: o in r.tmu <==> o in s.tmu && o != s.tmu[0]
    requires forall o | o in s.heap :: if o == s.tmu[0] then Fresh(r, o) else r.heap[o].color == s.heap[o].color
    ensures AllWhite(r) && OneWhite(r)
  {
  }

  lemma PendingUdata(s: State)
    requires Shape(s) && s.tmu != []
    ensures s.tmu[0] in s.heap && s.heap[s.tmu[0]].body.Udata?
  {
    assert s.tmu[0] in s.tmu;
  }

  /** What GCTM does: the first pending userdata is white and on rootgc again, and its finalizer, if it has one, is on
      the stack with it. */
  ghost predicate Finalizing(s: State, r: State)
    requires s.tmu != []
  {
    var u, t := s.tmu[0], s.env.running;
    && u in s.heap && s.heap[u].body.Udata? && IsThread(s, t) && r.heap.Keys == s.heap.Keys && r.tmu == s.tmu[1..] &&
       InRoot(r, u)
    && r.heap[u] == s.heap[u].(color := White(s.cw)) && r.cw == s.cw
    && (forall o | o in s.heap && o != u && o != t :: r.heap[o] == s.heap[o])
    && var tm := MetaField(s.heap, s.heap[u].body.mt, s.env.gcName);
       r.heap[t] == if tm == Nil then s.heap[t] else s.heap[t].(body := s.heap[t].body.(stack := s.heap[t].body.stack + [tm, Ref(u)]))
  }

  lemma GctmGives(s: State)
    requires s.tmu != [] && s.tmu[0] in s.heap && s.heap[s.tmu[0]].body.Udata? && IsThread(s, s.env.running)
    requires RootNoDup(s) && InRoot(s, s.env.main) && !InRoot(s, s.tmu[0])
    ensures Finalizing(s, Gctm(s))
  {
    var u := s.tmu[0];
    var s0 := s.(tmu := s.tmu[1..]);
    LinkUdataRoot(s0, u);
    var s1 := LinkUdata(s0, u);
    assert s1 == s0.(swept := s1.swept, unswept := s1.unswept);
    hide LinkUdata, MetaField;
    assert InRoot(MakeWhite(s1, u), u);
  }

  /** Objects other than the running thread keep what they hold. */
  lemma GctmSurvivors(s: State, r: State)
    requires s.tmu != [] && Finalizing(s, r)
    ensures Survivors(s, r)
  {
    hide MetaField;
  }

  lemma GctmInv(s: State)
    requires Inv(s) && s.phase == Finalize && s.tmu != []
    ensures Inv(Gctm(s)) && Gctm(s).heap.Keys == s.heap.Keys && |Gctm(s).tmu| < |s.tmu|
    ensures Finalizing(s, Gctm(s)) && Live(Gctm(s), s.tmu[0])
  {
    hide Shape, LiveClosed, RootsLive, ColorsOk, AllWhite, OneWhite;
    var r := Gctm(s);
    PendingUdata(s);
    PendingRoot(s);
    GctmGives(s);
    assert |r.tmu| < |s.tmu|;
    hide Gctm;
    GctmCore(s);
    GctmWhite(s, r);
  }

  lemma PendingRoot(s: State)
    requires Inv(s) && s.tmu != []
    ensures IsThread(s, s.env.running) && RootNoDup(s) && InRoot(s, s.env.main) && !InRoot(s, s.tmu[0])
  {
    assert s.tmu[0] in s.tmu;
    assert RootOk(s) && RootsLive(s);
  }

  /** The finalizer is a live value: its table is reached from the userdata. */
  lemma FinalizerLive(s: State, u: Id, tm: Value)
    requires LiveClosed(s) && RootsLive(s) && u in s.tmu && u in s.heap && s.heap[u].body.Udata?
    requires tm == MetaField(s.heap, s.heap[u].body.mt, s.env.gcName)
    ensures tm.Ref? ==> Live(s, tm.id)
  {
    if tm.Ref? {
      var m := s.heap[u].body.mt.value;
      assert Pts(s, u, m);
      FieldIsEntry(s.heap[m].body.nodes, s.env.gcName);
      assert Pts(s, m, tm.id);
    }
  }

  lemma {:induction false} FieldIsEntry(ns: seq<Node>, name: Id)
    ensures FieldOf(ns, name).Ref? ==> NodesPts(ns, FieldOf(ns, name).id, true, true)
  {
    if ns != [] && !(ns[0].key == Ref(name) && ns[0].val != Nil) {
      FieldIsEntry(ns[1..], name);
      if FieldOf(ns, name).Ref? {
        var n :| n in ns[1..] && NodePts(n, FieldOf(ns, name).id, true, true);
        assert n in ns;
      }
    } else if ns != [] {
      assert ns[0] in ns;
    }
  }

  /** One collector step keeps the invariant and frees dead objects only. */
  lemma SingleStepInv(s: State)
    requires Inv(s)
    ensures Inv(SingleStep(s))
    ensures forall o | Live(s, o) :: o in SingleStep(s).heap
    ensures SingleStep(s).heap.Keys <= s.heap.Keys
  {
    match s.phase
    case Pause =>
      MarkRootInv(s);
    case Propagate =>
      if s.gray == [] {
        AtomicInv(s);
      } else {
        PropagateInv(s);
      }
    case SweepString =>
      SweepStringInv(s);
      assert forall o | Live(s, o) :: Live(SingleStep(s), o);
    case Sweep =>
      SweepInv(s);
      assert forall o | Live(s, o) :: Live(SingleStep(s), o);
    case Finalize =>
      if s.tmu != [] {
        GctmInv(s);
      } else {
        ClockCore(s, s.(phase := Pause));
      }
  }
}
