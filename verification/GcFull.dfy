/** A full collection (gafqC_fullgc): it terminates, an interrupted mark frees nothing, and the
    cycle that follows keeps exactly what is strongly reachable. */
module GcFull {
  import opened GcHeap
  import opened GcMark
  import opened GcPropagate
  import opened GcAtomic
  import opened GcInv
  import opened GcCollect
  import opened GcSweep
  import opened GcStep
  import opened GcClear
  import opened GcRun
  import opened GcReach

  // ---------------------------------------------------------------- running to the finalize phase

  function Rank(s: State): nat {
    match s.phase
    case Pause => 4
    case Propagate => 3
    case SweepString => 2
    case Sweep => 1
    case Finalize => 0
  }

  ghost function Pending(s: State): set<Id> {
    match s.phase
    case Propagate => WhiteSet(s)
    case Sweep => s.heap.Keys
    case _ => {}
  }

  ghost function Queue(s: State): int {
    match s.phase
    case Propagate => |s.gray|
    case SweepString => |s.strs| - s.sweepstr
    case Sweep => |s.unswept|
    case _ => 0
  }

  /** Every collector step outside the finalize phase makes progress. */
  lemma StepProgress(s: State)
    requires Inv(s) && s.phase != Finalize
    ensures var r := SingleStep(s);
            || Rank(r) < Rank(s)
            || (Rank(r) == Rank(s) && Pending(r) < Pending(s))
            || (Rank(r) == Rank(s) && Pending(r) == Pending(s) && 0 <= Queue(r) < Queue(s))
  {
    match s.phase
    case Pause => MarkRootInv(s);
    case Propagate => PropagateProgress(s);
    case SweepString => hide Inv; SweepStringQueue(s);
    case Sweep => hide Inv; SweepProgress(s);
  }

  lemma PropagateProgress(s: State)
    requires Inv(s) && s.phase == Propagate
    ensures var r := SingleStep(s);
            || Rank(r) < Rank(s)
            || (Rank(r) == Rank(s) && Pending(r) < Pending(s))
            || (Rank(r) == Rank(s) && Pending(r) == Pending(s) && 0 <= Queue(r) < Queue(s))
  {
    hide Inv, PropagateMark, SameFrame, Atomic;
    if s.gray == [] {
      AtomicInv(s);
    } else {
      PropagateInv(s);
      GrayHead(s);
      PropagateMarkFrame(s);
    }
  }

  lemma GrayHead(s: State)
    requires Inv(s) && s.phase == Propagate && s.gray != []
    ensures !IsWhite(s, s.gray[0])
  {
    assert s.gray[0] in s.gray && HasColor(s, s.gray[0], Gray);
  }

  lemma SweepStringQueue(s: State)
    requires Inv(s) && s.phase == SweepString
    ensures var r := SweepStringStep(s);
            Rank(r) < Rank(s) || (Rank(r) == Rank(s) && Pending(r) == Pending(s) && 0 <= Queue(r) < Queue(s))
  {
    var os := s.strs[s.sweepstr];
    InvStrings(s);
    hide Inv, Core, NoDup, SweptTo, SweepStrs;
    SweepStrsSpec(s, s.sweepstr, os);
    SweptFacts(s, SweepStrs(s, s.sweepstr, os));
    SweepStringMoves(s, SweepStrs(s, s.sweepstr, os));
  }

  lemma SweepStringMoves(s: State, m: State)
    requires s.phase == SweepString && s.sweepstr < |s.strs| && m == SweepStrs(s, s.sweepstr, s.strs[s.sweepstr])
    requires m.phase == s.phase && |m.strs| == |s.strs|
    ensures var r := SweepStringStep(s);
            Rank(r) < Rank(s) || (Rank(r) == Rank(s) && Pending(r) == Pending(s) && 0 <= Queue(r) < Queue(s))
  {
    hide SweepStrs;
  }

  lemma InvStrings(s: State)
    requires Inv(s) && s.phase == SweepString
    ensures Core(s) && s.sweepstr < |s.strs| && NoDup(s.strs[s.sweepstr])
    ensures forall o | o in s.strs[s.sweepstr] :: InBucket(s, s.sweepstr, o)
  {
    assert StrsOk(s);
  }

  lemma InvSweep(s: State)
    requires Inv(s) && s.phase == Sweep
    ensures Core(s) && RootSwept(s)
  {
  }

  /** A step of the sweep leaves the surviving objects as they are. */
  lemma SweepSurvivors(s: State)
    requires Inv(s) && (s.phase == SweepString || s.phase == Sweep)
    ensures Survivors(s, SingleStep(s))
  {
    hide Inv, Core, NoDup, SweptTo, SweepStrs, SweepN, RootSwept, InBucket;
    if s.phase == SweepString {
      InvStrings(s);
      SweepStrsSpec(s, s.sweepstr, s.strs[s.sweepstr]);
      SweptSurvive(s, SweepStrs(s, s.sweepstr, s.strs[s.sweepstr]));
    } else {
      InvSweep(s);
      SweepNSpec(s, SWEEP_MAX);
      SweptSurvive(s, SweepN(s, SWEEP_MAX));
    }
  }

  lemma SweepProgress(s: State)
    requires Inv(s) && s.phase == Sweep
    ensures var r := SweepStep(s);
            || Rank(r) < Rank(s)
            || (Rank(r) == Rank(s) && Pending(r) < Pending(s))
            || (Rank(r) == Rank(s) && Pending(r) == Pending(s) && 0 <= Queue(r) < Queue(s))
  {
    InvSweep(s);
    hide Inv, Core, RootSwept, SweptTo;
    var m := SweepN(s, SWEEP_MAX);
    SweepNSpec(s, SWEEP_MAX);
    SweptFacts(s, m);
    SweepProgressOf(s, m);
  }

  lemma SweepProgressOf(s: State, m: State)
    requires s.phase == Sweep && m == SweepN(s, SWEEP_MAX) && m.phase == Sweep
    requires s.unswept != [] ==> m.heap.Keys < s.heap.Keys || (m.heap.Keys <= s.heap.Keys && |m.unswept| < |s.unswept|)
    ensures var r := SweepStep(s);
            || Rank(r) < Rank(s)
            || (Rank(r) == Rank(s) && Pending(r) < Pending(s))
            || (Rank(r) == Rank(s) && Pending(r) == Pending(s) && 0 <= Queue(r) < Queue(s))
  {
    assert s.unswept == [] ==> m == s;
    hide SweepN;
  }

  /** Repeat singlestep until the finalize phase: both loops of gafqC_fullgc before finalizers. */
  function ToFinalize(s: State): (r: State)
    requires Inv(s)
    ensures Inv(r) && r.phase == Finalize
    decreases Rank(s), Pending(s), Queue(s)
  {
    if s.phase == Finalize then s
    else
      SingleStepInv(s);
      StepProgress(s);
      ToFinalize(SingleStep(s))
  }

  /** From the start of the sweep, exactly the live objects are left. */
  lemma {:induction false} SweepKeepsLive(s: State)
    requires Inv(s) && (s.phase == SweepString || s.phase == Sweep || s.phase == Finalize)
    ensures forall o :: o in ToFinalize(s).heap <==> Live(s, o)
    ensures ToFinalize(s).tmu == s.tmu
    decreases Rank(s), Pending(s), Queue(s)
  {
    if s.phase == Finalize {
      assert OneWhite(s);
      OneWhiteAllLive(s);
    } else {
      SingleStepInv(s);
      StepProgress(s);
      if s.phase == SweepString {
        SweepStringInv(s);
      } else {
        SweepInv(s);
      }
      hide Inv;
      assert Rank(SingleStep(s)) <= Rank(s);
      SweepKeepsLive(SingleStep(s));
    }
  }

  lemma {:induction false} SweepKeepsBodies(s: State)
    requires Inv(s) && (s.phase == SweepString || s.phase == Sweep || s.phase == Finalize)
    ensures Survivors(s, ToFinalize(s))
    decreases Rank(s), Pending(s), Queue(s)
  {
    hide Inv;
    if s.phase != Finalize {
      SingleStepInv(s);
      StepProgress(s);
      SweepSurvivors(s);
      assert Rank(SingleStep(s)) <= Rank(s);
      hide SingleStep;
      SweepKeepsBodies(SingleStep(s));
      hide Survivors;
      SurvivorsTransitive(s, SingleStep(s), ToFinalize(s));
    }
  }

  lemma PropagateUnfold(s: State)
    requires Inv(s) && s.phase == Propagate && s.gray != []
    ensures s.gray[0] in s.heap && Inv(PropagateMark(s)) && PropagateMark(s).phase == Propagate
    ensures PropagateAll(s) == PropagateAll(PropagateMark(s)) && ToFinalize(s) == ToFinalize(PropagateMark(s))
    ensures WhiteSet(PropagateMark(s)) <= WhiteSet(s)
    ensures WhiteSet(PropagateMark(s)) == WhiteSet(s) ==> |PropagateMark(s).gray| < |s.gray|
  {
    assert s.gray[0] in s.gray && HasColor(s, s.gray[0], Gray);
    PropagateInv(s);
    hide Inv;
    PropagateMarkFrame(s);
    assert SingleStep(s) == PropagateMark(s);
  }

  /** Marking step by step ends where marking in one go does. */
  lemma {:induction false} MarkThenAtomic(s: State)
    requires Inv(s) && s.phase == Propagate
    ensures Inv(PropagateAll(s)) && PropagateAll(s).phase == Propagate && Inv(Atomic(PropagateAll(s)))
    ensures ToFinalize(s) == ToFinalize(Atomic(PropagateAll(s)))
    decreases WhiteSet(s), |s.gray|
  {
    hide Inv;
    if s.gray == [] {
      AtomicInv(s);
      hide Atomic;
    } else {
      PropagateUnfold(s);
      hide PropagateAll, ToFinalize, PropagateMark, Atomic;
      MarkThenAtomic(PropagateMark(s));
    }
  }

  // ---------------------------------------------------------------- what a cycle does to weak tables

  /** What a cycle that marks `keep` and ends in `r` takes out of weak tables: objects that it frees, and userdata that
      have been finalized or are about to be, the latter as values only. Strings and values that are not collected
      stay. */
  predicate Condemned(s: State, r: State, keep: set<Id>, v: Value, key: bool) {
    v.Ref? && v.id in s.heap && !s.heap[v.id].body.Str? &&
    (v.id !in keep || (s.heap[v.id].body.Udata? && !key && v.id in r.heap && r.heap[v.id].fin))
  }

  /** The slots of the array part whose weak value is condemned are empty, and so are the entries whose key or value is;
      all else is as it was. */
  ghost predicate Cleansed(s: State, r: State, keep: set<Id>, b: Body, c: Body, wv: bool) {
    b.Table? && c.Table? && c.mt == b.mt && |c.arr| == |b.arr| && |c.nodes| == |b.nodes| &&
    (forall x | 0 <= x < |b.arr| :: c.arr[x] == if wv && Condemned(s, r, keep, b.arr[x], false) then Nil else b.arr[x]) &&
    forall x | 0 <= x < |b.nodes| ::
      c.nodes[x] == if b.nodes[x].val != Nil && (Condemned(s, r, keep, b.nodes[x].key, true) || Condemned(s, r, keep, b.nodes[x].val, false))
                    then b.nodes[x].(val := Nil) else b.nodes[x]
  }

  /** Tables that are left: weak ones are cleansed, others unchanged. */
  ghost predicate TablesAfter(s: State, r: State, keep: set<Id>) {
    forall t | t in r.heap && IsTable(s, t) ::
      if t in keep && WeakTable(s, t) then Cleansed(s, r, keep, s.heap[t].body, r.heap[t].body, Mode(s, s.heap[t].body.mt).1)
      else r.heap[t].body == s.heap[t].body
  }

  /** A string that a weak table keeps: as a weak value of the array part, as a key, or as the value of a key that is
      not freed. */
  predicate WeakHolds(s: State, keep: set<Id>, t: Id, o: Id) {
    WeakTable(s, t) && var b := s.heap[t].body;
    (Mode(s, b.mt).1 && Ref(o) in b.arr) ||
    exists x | 0 <= x < |b.nodes| :: KeepsString(s, keep, b.nodes[x], o)
  }

  predicate KeepsString(s: State, keep: set<Id>, n: Node, o: Id) {
    n.val != Nil && (n.key == Ref(o) || (n.val == Ref(o) && !(n.key.Ref? && n.key.id in s.heap && !IsStr(s, n.key.id) && n.key.id !in keep)))
  }

  ghost predicate WeakString(s: State, keep: set<Id>, o: Id) { IsStr(s, o) && exists t :: t in keep && WeakHolds(s, keep, t, o) }

  /** At the end of the mark phase, the weak list has all marked weak tables, with their modes. */
  ghost predicate WeakListed(s: State) {
    (forall t :: t in s.weak <==> NonWhite(s, t) && WeakTable(s, t)) &&
    forall t | t in s.weak :: (s.heap[t].wk, s.heap[t].wv) == Mode(s, s.heap[t].body.mt)
  }

  lemma AllWeakListed(a: State)
    requires a.gray == [] && Tri(a, {}) && Done(a, AllDone, {}) && WeakNotBlack(a)
    ensures WeakListed(a)
  {
    hide Mode;
    forall t ensures t in a.weak <==> NonWhite(a, t) && WeakTable(a, t) {
      if t in a.weak { assert HasColor(a, t, Gray) && a.heap[t].body.Table?; }
      if NonWhite(a, t) && WeakTable(a, t) { assert HasColor(a, t, Gray); assert t in a.grayagain || t in a.weak; }
    }
  }

  /** iscleared and the reference definition agree. */
  lemma CondemnedIs(s: State, a: State, r: State, v: Value, key: bool)
    requires SameBodies(s, a) && (forall o | NonWhite(a, o) :: o in r.heap && r.heap[o].fin == a.heap[o].fin)
    ensures Cleared(a, v, key) == Condemned(s, r, MarkedSet(a), v, key)
  {}

  lemma EmptiedCleansed(s: State, a: State, r: State, t: Id, c: Body, wv: bool)
    requires SameBodies(s, a) && (forall o | NonWhite(a, o) :: o in r.heap && r.heap[o].fin == a.heap[o].fin)
    requires IsTable(a, t) && var b := a.heap[t].body; Emptied(a, b, c, if wv then |b.arr| else 0, |b.nodes|)
    ensures Cleansed(s, r, MarkedSet(a), s.heap[t].body, c, wv)
  {
    forall v, key ensures Cleared(a, v, key) == Condemned(s, r, MarkedSet(a), v, key) { CondemnedIs(s, a, r, v, key); }
    hide Cleared, Condemned, MarkedSet;
  }

  /** Tables after the sweep. */
  lemma CycleTables(s: State, a: State, c: State, r: State)
    requires SameBodies(s, a) && WeakListed(a) && Judge(a, c) && Survivors(c, r)
    requires forall o | NonWhite(a, o) :: o in r.heap
    requires forall t | t in a.weak :: TableEmptied(a, c, t)
    requires forall o | o in a.heap && o !in a.weak :: c.heap[o].body == a.heap[o].body
    ensures TablesAfter(s, r, MarkedSet(a))
  {
    SameWeak(s, a);
    SameRefs(s, a);
    hide Mode, WeakTable;
    assert forall o | NonWhite(a, o) :: r.heap[o].fin == a.heap[o].fin;
    forall t | t in r.heap && IsTable(s, t)
      ensures if t in MarkedSet(a) && WeakTable(s, t)
              then Cleansed(s, r, MarkedSet(a), s.heap[t].body, r.heap[t].body, Mode(s, s.heap[t].body.mt).1)
              else r.heap[t].body == s.heap[t].body
    {
      assert t in c.heap && r.heap[t].body == c.heap[t].body;
      if t in a.weak {
        assert TableEmptied(a, c, t);
        EmptiedCleansed(s, a, r, t, c.heap[t].body, a.heap[t].wv);
      }
    }
  }

  lemma HoldsIs(s: State, a: State, t: Id, o: Id)
    requires SameBodies(s, a) && WeakListed(a) && t in a.weak
    ensures HoldsString(a, t, o) <==> WeakHolds(s, MarkedSet(a), t, o)
  {
    SameWeak(s, a);
    var b := s.heap[t].body;
    assert a.heap[t].wv == Mode(s, b.mt).1 by { SameField(s, a, b.mt, s.env.modeName); }
    hide Mode;
    assert ArrHolds(b, |b.arr|, o) <==> Ref(o) in b.arr;
    forall x | 0 <= x < |b.nodes| ensures NodeHolds(a, b.nodes[x], o) <==> KeepsString(s, MarkedSet(a), b.nodes[x], o) {}
  }

  lemma StringsIs(s: State, a: State, o: Id)
    requires SameBodies(s, a) && WeakListed(a)
    ensures (IsStr(a, o) && exists t :: t in a.weak && HoldsString(a, t, o)) <==> WeakString(s, MarkedSet(a), o)
  {
    SameWeak(s, a);
    hide HoldsString, Mode;
    forall t | t in a.weak
      ensures t in MarkedSet(a) && (HoldsString(a, t, o) <==> WeakHolds(s, MarkedSet(a), t, o))
    {
      HoldsIs(s, a, t, o);
    }
    forall t | t in MarkedSet(a) && WeakHolds(s, MarkedSet(a), t, o) ensures t in a.weak {}
  }

  // ---------------------------------------------------------------- one full cycle

  /** The states of one cycle that starts from the finalize phase. */
  ghost predicate Cycle(s: State, m: State, k: State, a: State) {
    m == PropagateAll(MarkRoot(s)) && k == AtomicMark(m) && a == AtomicPreserve(k)
  }

  lemma CycleRuns(s: State, m: State, k: State, a: State)
    requires Inv(s) && s.phase == Finalize && Cycle(s, m, k, a)
    ensures Inv(MarkRoot(s)) && Inv(m) && m.phase == Propagate && Inv(Atomic(m))
    ensures ToFinalize(MarkRoot(s)) == ToFinalize(Atomic(m))
    ensures m.tmu == s.tmu && m.env == s.env && SameBodies(s, m) && m.cw == s.cw
  {
    MarkRootInv(s);
    var s1 := s.(gray := [], grayagain := [], weak := []);
    MarkManyMarks(s1, RootIds(s));
    var r := MarkRoot(s);
    assert Tri(r, {}) && OneWhite(r);
    OneWhiteAllLive(r);
    assert r.tmu == s.tmu && r.env == s.env && SameBodies(s, r) && r.cw == s.cw;
    hide Inv, MarkRoot, NoDangling, Tri, OneWhite, LiveClosed;
    MarkThenAtomic(r);
    assert NoDangling(r) by { InvNoDangling(r); }
    PropagateAllTri(r, Stage(false, false, false));
  }

  lemma InvNoDangling(s: State)
    requires Inv(s) && s.phase == Propagate
    ensures NoDangling(s) && Tri(s, {}) && UpvalsListed(s) && TmuOk(s) && NonWhite(s, s.env.main)
    ensures NonWhite(s, s.env.registry)
    ensures forall x | IsRoot(s, x) :: x in s.heap
  {
    assert OneWhite(s) && UpsOk(s) && RootOk(s);
    OneWhiteAllLive(s);
  }

  /** The set of marked objects at the end of a cycle's mark phase. */
  ghost function MarkedSet(s: State): set<Id> { set o | o in s.heap && !s.heap[o].color.White? }

  /** After the three passes, marked objects hold marked objects strongly, pending userdata that were marked before
      aside. */
  lemma MarkedClosed(k: State, z: Zone)
    requires k.gray == [] && Tri(k, {}) && NoDangling(k) && Done(k, AllDone, {}) && TmuOk(k) && Within(k, z)
    ensures StrongClosed(k, Zone(MarkedSet(k), z.shut))
  {
    forall o, x | o in MarkedSet(k) && o !in z.shut && StrongPts(k, o, x) && x in k.heap
      ensures x in MarkedSet(k)
    {
      StrongIsPts(k, o, x);
      if o in k.tmu {
        assert BlackUdata(k, o);
      } else if HasColor(k, o, Gray) {
        assert KindIs(k, o, true) || o in k.grayagain || o in k.weak;
      } else {
        assert HasColor(k, o, Black);
      }
      assert NonWhite(k, x);
    }
  }

  lemma PreservedClosed(a: State)
    requires ClosedBut(a, a.weak) && WeakDone(a, {})
    ensures StrongClosed(a, Zone(MarkedSet(a), {}))
  {
    forall o, x | o in MarkedSet(a) && StrongPts(a, o, x) && x in a.heap
      ensures x in MarkedSet(a)
    {
      StrongIsPts(a, o, x);
      assert NonWhite(a, o);
      assert NonWhite(a, x);
    }
  }

  /** The end of the three passes. */
  lemma CycleMark(m: State, k: State)
    requires Inv(m) && m.phase == Propagate && k == AtomicMark(m)
    ensures k.gray == [] && Tri(k, {}) && NoDangling(k) && Done(k, AllDone, {}) && SameFrame(m, k) && TmuOk(k)
    ensures forall x | IsRoot(m, x) :: NonWhite(k, x)
  {
    InvNoDangling(m);
    hide Inv, Tri, NoDangling, Done, UpvalsListed, AtomicMark;
    AtomicMarkSpec(m);
    FrameTmu(m, k);
  }

  /** The end of preservation. */
  lemma CyclePreserve(k: State, a: State)
    requires k.gray == [] && Tri(k, {}) && NoDangling(k) && Done(k, AllDone, {}) && TmuOk(k) && a == AtomicPreserve(k)
    ensures a.gray == [] && Tri(a, {}) && NoDangling(a) && Done(a, AllDone, {}) && PreserveFrame(k, a)
    ensures ClosedBut(a, a.weak)
    ensures a.tmu == Separate(k, k.swept + k.unswept, false).tmu
    ensures forall u | u in a.tmu :: NonWhite(a, u)
  {
    hide Tri, NoDangling, Done, TmuOk, AtomicPreserve, ClosedBut, Separate, PreserveFrame;
    AtomicPreserveSpec(k);
    PreserveClosed(a);
  }

  lemma FrameTmu(m: State, k: State)
    requires TmuOk(m) && SameFrame(m, k)
    ensures TmuOk(k)
  {
    assert forall o :: InRoot(k, o) <==> InRoot(m, o);
  }

  lemma PendingStay(k: State, a: State)
    requires PreserveFrame(k, a)
    ensures Elements(k.tmu) <= Elements(a.tmu)
  {
  }

  /** Nothing more than what the roots and the pending userdata reach is marked. */
  lemma CycleUpper(s: State, m: State, k: State, a: State, c: set<Id>)
    requires Cycle(s, m, k, a) && StrongClosed(s, Zone(c, {})) && Roots(s) <= c && Elements(a.tmu) <= c && TmuOk(k)
    requires Within(s.(gray := [], grayagain := [], weak := []), Zone(c, Shut(s)))
    requires a.tmu == Separate(k, k.swept + k.unswept, false).tmu
    requires forall x | IsRoot(s, x) :: x in s.heap
    ensures MarkedSet(a) <= c && WeakNotBlack(a)
  {
    var z := Zone(c, Shut(s));
    hide PropagateAll, MarkRoot, Separate, StrongClosed, Within, Shut;
    MoreShut(s, Zone(c, {}), z);
    MarkUpper(s, m, k, z);
    SameClosed(s, k, Zone(c, {}));
    hide AtomicMark;
    assert forall u | u in a.tmu :: u in Elements(a.tmu);
    AtomicPreserveStays(k, z);
    WithinMarked(a, Shutting(z, a.tmu));
  }

  lemma MarkUpper(s: State, m: State, k: State, z: Zone)
    requires m == PropagateAll(MarkRoot(s)) && k == AtomicMark(m)
    requires Within(s.(gray := [], grayagain := [], weak := []), z) && StrongClosed(s, z) && Roots(s) <= z.objects
    requires forall x | IsRoot(s, x) :: x in s.heap
    ensures Within(k, z) && SameBodies(s, k)
  {
    hide MarkRoot, PropagateAll, Within, StrongClosed;
    MarkStays(s, z);
    SameClosed(s, m, z);
    RootsPresent(s, m);
    AtomicMarkStays(m, z);
  }

  /** Pending userdata that are marked when the cycle starts: marking passes over them. */
  ghost function Shut(s: State): set<Id> { set u | u in s.heap && u in s.tmu && NonWhite(s, u) }

  /** Marked at the end: exactly what the roots and the pending userdata reach strongly. */
  lemma CycleExact(s: State, m: State, k: State, a: State)
    requires Inv(s) && s.phase == Finalize && Cycle(s, m, k, a)
    ensures SameBodies(s, a) && MarkedSet(a) == Reach(s, Roots(s) + Elements(a.tmu)) && WeakNotBlack(a)
  {
    hide Inv, Tri, Done, ClosedBut, TmuOk, NoDangling, AllWhite, OneWhite, Within, PreserveFrame, SameFrame, SameBodies;
    hide AtomicPreserve, AtomicMark, MarkRoot, PropagateAll, Separate, StrongClosed, MarkedSet, Shut, ReachPast;
    hide WeakNotBlack, ColorsOk;
    var seeds := Roots(s) + Elements(a.tmu);
    var c := Reach(s, seeds);
    CycleRuns(s, m, k, a);
    CycleMark(m, k);
    CyclePreserve(k, a);
    FinalizeFacts(s);
    PendingStay(k, a);
    FramesJoin(s, m, k, a);
    ReachClosed(s, seeds, {});
    StartWithin(s, a, c);
    hide Reach;
    CycleUpper(s, m, k, a, c);
    CycleLower(s, m, k, a);
  }

  lemma FramesJoin(s: State, m: State, k: State, a: State)
    requires SameBodies(s, m) && SameFrame(m, k) && PreserveFrame(k, a) && m.tmu == s.tmu
    ensures SameBodies(s, a) && Elements(a.tmu) >= Elements(s.tmu) && k.tmu == s.tmu
  {
  }

  /** When a cycle starts, only pending userdata are marked. */
  lemma FinalizeWithin(s: State, c: set<Id>)
    requires AllWhite(s) && TmuOk(s) && ColorsOk(s) && Shut(s) <= c
    ensures Within(s.(gray := [], grayagain := [], weak := []), Zone(c, Shut(s)))
  {
    var r := s.(gray := [], grayagain := [], weak := []);
    hide BodyPts, Mode;
    forall o | NonWhite(r, o)
      ensures o in Shut(s) && HasColor(r, o, Black) && r.heap[o].body.Udata?
    {
      assert o in s.tmu && NonWhite(s, o);
    }
    assert forall o :: !OnList(r, o);
  }

  lemma StartWithin(s: State, a: State, c: set<Id>)
    requires AllWhite(s) && Elements(s.tmu) <= Elements(a.tmu) && TmuOk(s) && ColorsOk(s)
    requires forall x | x in Roots(s) + Elements(a.tmu) && x in s.heap :: x in c
    ensures Within(s.(gray := [], grayagain := [], weak := []), Zone(c, Shut(s))) && Roots(s) <= c
  {
    assert Shut(s) <= Elements(s.tmu);
    hide Within, AllWhite, TmuOk, ColorsOk;
    FinalizeWithin(s, c);
  }

  lemma WithinMarked(a: State, z: Zone)
    requires Within(a, z)
    ensures MarkedSet(a) <= z.objects && WeakNotBlack(a)
  {
    assert forall o | o in MarkedSet(a) :: NonWhite(a, o);
  }

  lemma FinalizeFacts(s: State)
    requires Inv(s) && s.phase == Finalize
    ensures AllWhite(s) && OneWhite(s) && NoDangling(s) && TmuOk(s) && ColorsOk(s)
    ensures forall x | IsRoot(s, x) :: x in s.heap
  {
    OneWhiteAllLive(s);
  }

  lemma RootsPresent(s: State, m: State)
    requires m.env == s.env && forall x | IsRoot(s, x) :: x in s.heap
    ensures forall x | x == m.env.running || Some(x) in m.env.mts :: x in Roots(s)
  {
    assert forall x | x == m.env.running || Some(x) in m.env.mts :: IsRoot(s, x);
  }

  lemma CycleLower(s: State, m: State, k: State, a: State)
    requires NoDangling(s) && SameBodies(s, a) && PreserveFrame(k, a) && ClosedBut(a, a.weak) && Done(a, AllDone, {})
    requires m.env == s.env && SameFrame(m, k)
    requires forall x | IsRoot(m, x) :: NonWhite(k, x)
    requires forall u | u in a.tmu :: NonWhite(a, u)
    ensures Reach(s, Roots(s) + Elements(a.tmu)) <= MarkedSet(a)
  {
    PreservedClosed(a);
    hide ClosedBut, Done;
    SameClosed(a, s, Zone(MarkedSet(a), {}));
    assert Roots(s) <= MarkedSet(a) by {
      assert forall x | IsRoot(s, x) :: IsRoot(m, x) && NonWhite(k, x) && NonWhite(a, x);
    }
    ReachLeast(s, Roots(s) + Elements(a.tmu), Zone(MarkedSet(a), {}));
  }

  /** What is live after the flip: marked objects, fixed ones, and strings kept by weak tables. */
  lemma FlippedLive(s: State, m: State, a: State, c: State)
    requires OneWhite(m) && PreserveFrame(m, a) && Trimmed(a, c) && Atomic(m) == Flip(c) && SameBodies(s, a)
    requires WeakListed(a)
    requires forall o :: NonWhite(c, o) <==> NonWhite(a, o) || (IsStr(a, o) && exists t :: t in a.weak && HoldsString(a, t, o))
    ensures forall o :: Live(Atomic(m), o) <==> o in s.heap && (o in MarkedSet(a) || m.heap[o].fixed || WeakString(s, MarkedSet(a), o))
  {
    var r := Atomic(m);
    hide Atomic, HoldsString, WeakListed, WeakString;
    FlipLive(m, a, c, r);
    assert r.heap == c.heap && c.heap.Keys == s.heap.Keys;
    FixedTrimmed(m, a, c);
    hide PreserveFrame, OneWhite, Trimmed, SameBodies;
    forall o ensures Live(r, o) <==> o in s.heap && (o in MarkedSet(a) || m.heap[o].fixed || WeakString(s, MarkedSet(a), o)) {
      StringsIs(s, a, o);
      assert o in MarkedSet(a) <==> NonWhite(a, o);
      assert NonWhite(r, o) <==> NonWhite(c, o);
    }
  }

  lemma FixedTrimmed(m: State, a: State, c: State)
    requires PreserveFrame(m, a) && Trimmed(a, c)
    ensures c.heap.Keys == m.heap.Keys && forall o | o in c.heap :: c.heap[o].fixed == m.heap[o].fixed
  {
    hide BodyPts;
  }

  /** One full cycle from the finalize phase (the second half of gafqC_fullgc). What is left is exactly: what the roots
      and the userdata awaiting __gc reach through strong references, the fixed objects, and the strings that surviving
      weak tables keep. Weak tables have lost exactly the entries that refer to what is freed or finalized. */
  lemma FullCycleExact(s: State)
    requires Inv(s) && s.phase == Finalize
    ensures Inv(MarkRoot(s))
    ensures var r := ToFinalize(MarkRoot(s));
            var keep := Reach(s, Roots(s) + Elements(r.tmu));
            && (forall o :: o in r.heap <==> o in s.heap && (o in keep || s.heap[o].fixed || WeakString(s, keep, o)))
            && TablesAfter(s, r, keep)
  {
    hide Inv, Tri, NoDangling, AtomicMark, AtomicPreserve, AllWhite, TmuOk, Done, WeakNotBlack, WeakListed, ClosedBut;
    hide PropagateAll, MarkRoot, Reach, TablesAfter, WeakString, SameBodies, PreserveFrame, SameFrame, OneWhite, NoDup;
    hide MarkedSet, Atomic;
    var m := PropagateAll(MarkRoot(s));
    var k := AtomicMark(m);
    var a := AtomicPreserve(k);
    CycleRuns(s, m, k, a);
    CycleExact(s, m, k, a);
    CycleMark(m, k);
    CyclePreserve(k, a);
    AllWeakListed(a);
    FixedSame(s, m);
    assert NoDup(a.weak) by { TriParts(a); }
    FramePreserve(m, k, a);
    assert OneWhite(m) by { InvOneWhite(m); }
    CycleEnds(s, m, a);
  }

  /** From the end of marking to the end of the sweep. */
  lemma CycleEnds(s: State, m: State, a: State)
    requires Inv(m) && Inv(Atomic(m)) && OneWhite(m) && PreserveFrame(m, a) && a == AtomicPreserve(AtomicMark(m))
    requires SameBodies(s, a)
    requires NoDup(a.weak) && ClosedBut(a, a.weak) && NoDangling(a) && WeakListed(a)
    ensures var r := ToFinalize(Atomic(m));
            r.tmu == a.tmu && TablesAfter(s, r, MarkedSet(a)) &&
            forall o :: o in r.heap <==> o in s.heap && (o in MarkedSet(a) || m.heap[o].fixed || WeakString(s, MarkedSet(a), o))
  {
    hide Inv, NoDangling, AtomicMark, AtomicPreserve, NoDup, TablesAfter, WeakString, MarkedSet;
    var c := ClearTables(a, a.weak);
    ClearTablesClosed(a, a.weak);
    assert forall t | t in a.weak :: IsTable(a, t);
    ClearTablesExact(a, a.weak);
    hide ClearTables, ClosedBut;
    assert Atomic(m) == Flip(c);
    FlippedLive(s, m, a, c);
    assert Atomic(m).tmu == a.tmu && Atomic(m).phase == SweepString && Atomic(m).heap == c.heap;
    hide Atomic;
    SweepKeepsLive(Atomic(m));
    SweepKeepsBodies(Atomic(m));
    var r := ToFinalize(Atomic(m));
    assert forall o | NonWhite(a, o) :: o in r.heap by { assert forall o | NonWhite(a, o) :: o in MarkedSet(a) by { MarkedIn(a); } }
    SurvivorsFrom(Atomic(m), c, r);
    CycleTables(s, a, c, r);
  }

  lemma MarkedIn(a: State)
    ensures forall o | NonWhite(a, o) :: o in MarkedSet(a)
  {}

  lemma SurvivorsFrom(s: State, c: State, r: State)
    requires Survivors(s, r) && c.heap == s.heap
    ensures Survivors(c, r)
  {}

  lemma InvOneWhite(s: State)
    requires Inv(s) && s.phase == Propagate
    ensures OneWhite(s)
  {
  }

  /** Fixed bits do not change while marking. */
  lemma FixedSame(s: State, m: State)
    requires Inv(s) && s.phase == Finalize && m == PropagateAll(MarkRoot(s))
    ensures m.heap.Keys == s.heap.Keys
    ensures forall o | o in s.heap :: m.heap[o].fixed == s.heap[o].fixed && m.heap[o].fin == s.heap[o].fin
  {
    MarkRootInv(s);
    FixedRoot(s);
    var r := MarkRoot(s);
    assert r.phase == Propagate;
    hide MarkRoot, Inv;
    InvNoDangling(r);
    FixedPropagate(r);
  }

  lemma FixedRoot(s: State)
    requires Inv(s) && s.phase == Finalize
    ensures MarkRoot(s).heap.Keys == s.heap.Keys
    ensures forall o | o in s.heap :: MarkRoot(s).heap[o].fixed == s.heap[o].fixed && MarkRoot(s).heap[o].fin == s.heap[o].fin
  {
    var s1 := s.(gray := [], grayagain := [], weak := []);
    hide Inv;
    MarkManyMarks(s1, RootIds(s));
  }

  lemma FixedPropagate(r: State)
    requires Inv(r) && r.phase == Propagate && NoDangling(r)
    ensures PropagateAll(r).heap.Keys == r.heap.Keys
    ensures forall o | o in r.heap :: PropagateAll(r).heap[o].fixed == r.heap[o].fixed && PropagateAll(r).heap[o].fin == r.heap[o].fin
  {
    PropagateAllTri(r, Stage(false, false, false));
  }

  /** What the mark phase of a full cycle reaches from the roots: it does not go on from pending userdata that are
      marked already. */
  ghost function Found(s: State): set<Id> { ReachPast(s, Roots(s), Shut(s)) }

  /** When no finalizer is pending, that is all that is strongly reachable. */
  lemma FoundAll(s: State)
    requires s.tmu == []
    ensures Found(s) == Reach(s, Roots(s))
  {
    assert Shut(s) == {};
  }

  /** The userdata that a full cycle sets apart, besides those that are pending, are exactly the ones with a finalizer
      that have not been finalized and that marking does not find. */
  lemma FullCycleFinalizers(s: State, u: Id)
    requires Inv(s) && s.phase == Finalize
    ensures Inv(MarkRoot(s))
    ensures u in ToFinalize(MarkRoot(s)).tmu <==>
              || u in s.tmu
              || (u in s.heap && s.heap[u].body.Udata? && !s.heap[u].fin && u !in Found(s) &&
                  MetaField(s.heap, s.heap[u].body.mt, s.env.gcName) != Nil)
  {
    hide Inv, AllWhite, OneWhite, AtomicPreserve, AtomicMark, MarkRoot, PropagateAll, Tri, Done, ClosedBut, MarkedSet;
    hide Shut, TmuOk, Found;
    hide NoDangling;
    var m := PropagateAll(MarkRoot(s));
    var k := AtomicMark(m);
    var a := AtomicPreserve(k);
    CycleRuns(s, m, k, a);
    CycleMark(m, k);
    CyclePreserve(k, a);
    assert Atomic(m).tmu == a.tmu && Atomic(m).phase == SweepString by {
      TriParts(a);
      AtomicTmu(m, a);
    }
    hide Atomic;
    SweepKeepsLive(Atomic(m));
    MarkedIsFound(s, m, k);
    FixedSame(s, m);
    UdataListed(m, k, u);
    SeparatedExactly(s, m, k, a.tmu, u);
  }

  /** The surviving userdata that count as finalized are exactly those that did and those that marking does not find. */
  lemma FullCycleFinalized(s: State, u: Id)
    requires Inv(s) && s.phase == Finalize && u in s.heap && s.heap[u].body.Udata?
    ensures Inv(MarkRoot(s))
    ensures var r := ToFinalize(MarkRoot(s)); u in r.heap ==> (r.heap[u].fin <==> s.heap[u].fin || u !in Found(s))
  {
    hide Inv, AllWhite, OneWhite, AtomicPreserve, AtomicMark, MarkRoot, PropagateAll, Tri, Done, ClosedBut, MarkedSet;
    hide SameBodies;
    hide NoDangling, TmuOk, Shut, Found, PreserveFrame;
    var m := PropagateAll(MarkRoot(s));
    var k := AtomicMark(m);
    var a := AtomicPreserve(k);
    CycleRuns(s, m, k, a);
    CycleMark(m, k);
    CyclePreserve(k, a);
    MarkedIsFound(s, m, k);
    FixedSame(s, m);
    FinFrame(s, m, k, u);
    UdataListed(m, k, u);
    PendingFin(k, u);
    PreserveFin(k, a, u);
    MarkedIff(k, u);
    assert NoDup(a.weak) by { TriParts(a); }
    AtomicFin(m, a, u);
  }

  lemma PendingFin(k: State, u: Id)
    requires TmuOk(k)
    ensures u in k.tmu ==> u in k.heap && k.heap[u].fin
  {}

  lemma FinFrame(s: State, m: State, k: State, u: Id)
    requires SameBodies(s, m) && SameFrame(m, k) && u in s.heap && u in m.heap && m.heap[u].fin == s.heap[u].fin
    ensures u in k.heap && k.heap[u].fin == s.heap[u].fin && k.heap[u].body == s.heap[u].body
  {}

  lemma MarkedIff(k: State, u: Id)
    requires u in k.heap
    ensures IsWhite(k, u) <==> u !in MarkedSet(k)
  {}

  lemma PreserveFin(k: State, a: State, u: Id)
    requires k.gray == [] && Tri(k, {}) && NoDangling(k) && Done(k, AllDone, {}) && TmuOk(k) && a == AtomicPreserve(k)
    requires u in k.heap
    ensures u in a.heap
    ensures a.heap[u].fin <==> k.heap[u].fin || (u in k.swept + k.unswept && k.heap[u].body.Udata? && IsWhite(k, u))
  {
    hide Tri, NoDangling, Done, Separated;
    var us := k.swept + k.unswept;
    var s1 := Separate(k, us, false);
    SeparateSpec(k, us);
    SeparateTmu(k, us);
    SeparateFin(k, us);
    SeparatedTri(k, s1);
    hide Separate;
    var s2 := MarkTmu(s1, s1.tmu);
    MarkTmuSpec(s1, s1.tmu);
    hide MarkTmu;
    PropagateAllTri(s2, AllDone);
  }

  lemma AtomicFin(m: State, a: State, u: Id)
    requires Inv(Atomic(m)) && a == AtomicPreserve(AtomicMark(m)) && NoDup(a.weak) && ClosedBut(a, a.weak)
    requires NoDangling(a) && u in a.heap
    ensures u in ToFinalize(Atomic(m)).heap ==> ToFinalize(Atomic(m)).heap[u].fin == a.heap[u].fin
  {
    hide Inv, AtomicPreserve, AtomicMark, ClosedBut, BodyPts;
    ClearTablesClosed(a, a.weak);
    assert Atomic(m).heap[u].fin == a.heap[u].fin && Atomic(m).phase == SweepString;
    hide Atomic, ToFinalize;
    SweepKeepsBodies(Atomic(m));
  }

  lemma SeparatedExactly(s: State, m: State, k: State, tmu: seq<Id>, u: Id)
    requires SameBodies(s, m) && SameFrame(m, k) && m.env == s.env && m.tmu == s.tmu
    requires tmu == Separate(k, k.swept + k.unswept, false).tmu
    requires forall o | o in s.heap :: m.heap[o].fin == s.heap[o].fin
    requires TmuOk(k) && (u in k.heap && k.heap[u].body.Udata? ==> u in k.swept + k.unswept || u in k.tmu)
    requires u !in s.tmu ==> (u in MarkedSet(k) <==> u in Found(s))
    ensures u in tmu <==>
              || u in s.tmu
              || (u in s.heap && s.heap[u].body.Udata? && !s.heap[u].fin && u !in Found(s) &&
                  MetaField(s.heap, s.heap[u].body.mt, s.env.gcName) != Nil)
  {
    hide Found;
    SeparateSpec(k, k.swept + k.unswept);
    hide Separate;
    if u in s.heap && s.heap[u].body.Udata? {
      SameField(s, k, s.heap[u].body.mt, s.env.gcName);
      hide MetaField;
      assert MovedToTmu(k, u) <==> !s.heap[u].fin && MetaField(s.heap, s.heap[u].body.mt, s.env.gcName) != Nil && u !in MarkedSet(k);
    }
  }

  lemma UdataListed(m: State, k: State, u: Id)
    requires Inv(m) && SameFrame(m, k)
    ensures u in k.heap && k.heap[u].body.Udata? ==> u in k.swept + k.unswept || u in k.tmu
  {
    if u in k.heap && k.heap[u].body.Udata? {
      assert RootOk(m) && RootKind(m, u);
    }
  }

  /** The three passes mark exactly what is found from the roots; what was marked before is pending. */
  lemma MarkedIsFound(s: State, m: State, k: State)
    requires Inv(s) && s.phase == Finalize && m == PropagateAll(MarkRoot(s)) && k == AtomicMark(m)
    requires m.env == s.env && k.gray == [] && Tri(k, {}) && NoDangling(k) && Done(k, AllDone, {}) && TmuOk(k)
    requires forall x | IsRoot(m, x) :: NonWhite(k, x)
    ensures MarkedSet(k) == Found(s) + Shut(s)
    ensures forall u | u in Shut(s) :: u in s.tmu
  {
    hide Inv, Tri, Done, AllWhite, StrongClosed, MarkRoot, PropagateAll, AtomicMark, NoDangling, OneWhite, TmuOk;
    hide ColorsOk, Within;
    hide ReachPast;
    var z := Zone(Found(s) + Shut(s), Shut(s));
    FinalizeFacts(s);
    ReachClosed(s, Roots(s), Shut(s));
    FoundClosed(s);
    FinalizeWithin(s, z.objects);
    MarkUpper(s, m, k, z);
    MarkedClosed(k, z);
    SameClosed(k, s, Zone(MarkedSet(k), Shut(s)));
    RootsMarked(s, m, k);
    ShutMarked(k, z);
    WithinMarked(k, z);
    hide Roots, MarkedSet;
    ReachLeast(s, Roots(s), Zone(MarkedSet(k), Shut(s)));
  }

  lemma FoundClosed(s: State)
    requires StrongClosed(s, Zone(Found(s), Shut(s)))
    ensures StrongClosed(s, Zone(Found(s) + Shut(s), Shut(s)))
  {
    hide StrongPts, ReachPast;
  }

  lemma ShutMarked(k: State, z: Zone)
    requires Within(k, z)
    ensures z.shut <= MarkedSet(k)
  {}

  lemma RootsMarked(s: State, m: State, k: State)
    requires m.env == s.env && forall x | IsRoot(m, x) :: NonWhite(k, x)
    ensures Roots(s) <= MarkedSet(k)
  {
    assert forall x | IsRoot(s, x) :: IsRoot(m, x) && NonWhite(k, x);
  }

  lemma AtomicTmu(m: State, a: State)
    requires a == AtomicPreserve(AtomicMark(m)) && NoDup(a.weak) && ClosedBut(a, a.weak) && NoDangling(a)
    ensures Atomic(m).tmu == a.tmu && Atomic(m).phase == SweepString
  {
    hide AtomicPreserve, AtomicMark, ClosedBut;
    ClearTablesClosed(a, a.weak);
  }

  // ---------------------------------------------------------------- gafqC_fullgc

  /** The first half: a collection that is still marking is interrupted, any sweep finished. */
  function FinishSweep(s: State): (r: State)
    requires Inv(s)
    ensures Inv(r) && r.phase == Finalize
  {
    if s.phase == Pause || s.phase == Propagate then
      InterruptInv(s);
      ToFinalize(Interrupt(s))
    else ToFinalize(s)
  }

  /** Interrupting a half-done mark frees nothing. */
  lemma InterruptFrees(s: State)
    requires Inv(s) && (s.phase == Pause || s.phase == Propagate)
    ensures forall o :: o in FinishSweep(s).heap <==> Live(s, o)
    ensures FinishSweep(s).heap.Keys == s.heap.Keys
  {
    hide Inv, ToFinalize, Interrupt, Live;
    InterruptInv(s);
    IdleLive(s);
    SweepKeepsLive(Interrupt(s));
    assert forall o :: o in FinishSweep(s).heap <==> o in s.heap;
  }

  lemma IdleLive(s: State)
    requires Inv(s) && (s.phase == Pause || s.phase == Propagate)
    ensures Interrupt(s).phase == SweepString
    ensures forall o :: Live(s, o) <==> o in s.heap
  {
    assert OneWhite(s);
    hide Inv;
    OneWhiteAllLive(s);
  }

  /** The first loop of gafqC_fullgc frees exactly what is dead, and nothing when it interrupts a half-done mark. */
  lemma FinishSweepFrees(s: State)
    requires Inv(s)
    ensures forall o :: o in FinishSweep(s).heap <==> Live(s, o)
    ensures s.phase == Pause || s.phase == Propagate ==> FinishSweep(s).heap.Keys == s.heap.Keys
  {
    if s.phase == Pause || s.phase == Propagate {
      InterruptFrees(s);
    } else {
      hide Inv, ToFinalize;
      SweepKeepsLive(s);
    }
  }

  /** Calling the finalizers one by one, until the pause. */
  function Finalizers(s: State): (r: State)
    requires Inv(s) && s.phase == Finalize
    ensures Inv(r) && r.phase == Pause && r.heap.Keys == s.heap.Keys
    decreases |s.tmu|
  {
    SingleStepInv(s);
    if s.tmu == [] then s.(phase := Pause)
    else
      GctmInv(s);
      GctmCore(s);
      Finalizers(Gctm(s))
  }

  /** gafqC_fullgc terminates from every collector state. */
  function FullGc(s: State): (r: State)
    requires Inv(s)
    ensures Inv(r) && r.phase == Pause
  {
    var s1 := FinishSweep(s);
    MarkRootInv(s1);
    Finalizers(ToFinalize(MarkRoot(s1)))
  }

  /** Calling finalizers changes no table and no userdata, until their bodies run. */
  lemma {:induction false} FinalizersKeep(s: State)
    requires Inv(s) && s.phase == Finalize
    ensures Survivors(s, Finalizers(s))
    decreases |s.tmu|
  {
    hide Inv;
    SingleStepInv(s);
    if s.tmu != [] {
      GctmInv(s);
      GctmSurvivors(s, Gctm(s));
      hide Gctm, Survivors;
      FinalizersKeep(Gctm(s));
      SurvivorsTransitive(s, Gctm(s), Finalizers(s));
    }
  }

  lemma TablesStay(s: State, r: State, q: State, keep: set<Id>)
    requires TablesAfter(s, r, keep) && Survivors(r, q) && q.heap.Keys == r.heap.Keys
    ensures TablesAfter(s, q, keep)
  {
    assert forall o | o in q.heap :: q.heap[o].fin == r.heap[o].fin;
    forall v, key ensures Condemned(s, q, keep, v, key) == Condemned(s, r, keep, v, key) {}
    hide Condemned, Mode;
  }

  /** After a full collection, from any state of the collector, exactly the objects of FullCycleExact are left: those
      reached strongly from the roots and from userdata awaiting __gc, the fixed ones, and strings that weak tables
      keep; and weak tables have lost exactly the entries that refer to what was freed or finalized. */
  lemma FullGcExact(s: State)
    requires Inv(s)
    ensures Inv(FinishSweep(s)) && Inv(MarkRoot(FinishSweep(s)))
    ensures var s1 := FinishSweep(s);
            var keep := Reach(s1, Roots(s1) + Elements(ToFinalize(MarkRoot(s1)).tmu));
            && (forall o :: o in FullGc(s).heap <==> o in s1.heap && (o in keep || s1.heap[o].fixed || WeakString(s1, keep, o)))
            && TablesAfter(s1, FullGc(s), keep)
  {
    var s1 := FinishSweep(s);
    hide Inv, FinishSweep, Reach, WeakString, Roots, Elements, TablesAfter, Survivors;
    FullCycleExact(s1);
    var r := ToFinalize(MarkRoot(s1));
    hide ToFinalize, MarkRoot;
    FinalizersKeep(r);
    TablesStay(s1, r, FullGc(s), Reach(s1, Roots(s1) + Elements(r.tmu)));
  }
}
