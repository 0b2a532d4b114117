/** The collector as ggc.c runs it: a global state updated in place, with loops over its lists.
    Each method is proved to take the state to the value its specification function gives. */
module GcMachine {
  import opened GcHeap
  import opened GcMark
  import opened GcPropagate
  import opened GcAtomic
  import opened GcInv
  import opened GcCollect
  import opened GcSweep
  import opened GcStep
  import opened GcBarrier
  import opened GcRun
  import opened GcFull

  class GlobalState {
    var heap: map<Id, Obj>
    var cw: bool
    var phase: Phase
    var strs: seq<seq<Id>>
    var sweepstr: nat
    var swept: seq<Id>
    var unswept: seq<Id>
    var gray: seq<Id>
    var grayagain: seq<Id>
    var weak: seq<Id>
    var tmu: seq<Id>
    var uvhead: seq<Id>
    var env: Env

    function View(): State
      reads this
    {
      State(heap, cw, phase, strs, sweepstr, swept, unswept, gray, grayagain, weak, tmu, uvhead, env)
    }

    constructor (s: State)
      ensures View() == s
    {
      heap, cw, phase, strs, sweepstr := s.heap, s.cw, s.phase, s.strs, s.sweepstr;
      swept, unswept, gray, grayagain := s.swept, s.unswept, s.gray, s.grayagain;
      weak, tmu, uvhead, env := s.weak, s.tmu, s.uvhead, s.env;
    }

    /** markobject / reallymarkobject. */
    method MarkObject(o: Id)
      modifies this
      ensures View() == Mark(old(View()), o)
      decreases WhiteSet(View()), 0
    {
      if o in heap && heap[o].color.White? {
        var ids := Targets(View(), o);
        ghost var s := View();
        heap := heap[o := heap[o].(color := MarkedColor(heap[o].body))];
        assert View() == Paint(s, o, MarkedColor(s.heap[o].body));
        assert o in WhiteSet(s) && o !in WhiteSet(View());
        if Listed(heap[o].body) {
          gray := [o] + gray;
        } else {
          MarkList(ids);
        }
      }
    }

    method MarkList(ids: seq<Id>)
      modifies this
      ensures View() == MarkMany(old(View()), ids)
      decreases WhiteSet(View()), 1 + |ids|
    {
      if ids != [] {
        MarkObject(ids[0]);
        MarkList(ids[1..]);
      }
    }

    /** propagatemark: traverse the first gray object. */
    method PropagateOne()
      requires gray != [] && gray[0] in heap
      modifies this
      ensures View() == PropagateMark(old(View()))
    {
      var o := gray[0];
      var ids := Targets(View(), o);
      gray := gray[1..];
      match heap[o].body {
        case Table(mt, _, _) =>
          var (wk, wv) := Mode(View(), mt);
          assert (wk, wv) == Mode(old(View()), mt) by { SameRefs(old(View()), View()); }
          if wk || wv {
            weak := [o] + weak;
            heap := heap[o := heap[o].(color := Gray, wk := wk, wv := wv)];
          } else {
            heap := heap[o := heap[o].(color := Black)];
          }
        case Thread(_, _, _) =>
          grayagain := [o] + grayagain;
          heap := heap[o := heap[o].(color := Gray)];
        case _ =>
          heap := heap[o := heap[o].(color := Black)];
      }
      assert View() == Settle(old(View()));
      MarkList(ids);
    }

    /** propagateall. */
    method PropagateEverything()
      modifies this
      ensures View() == PropagateAll(old(View()))
    {
      while gray != [] && gray[0] in heap && !heap[gray[0]].color.White?
        invariant PropagateAll(View()) == PropagateAll(old(View()))
        decreases WhiteSet(View()), |gray|
      {
        PropagateMarkFrame(View());
        PropagateOne();
      }
    }

    /** remarkupvals. */
    method RemarkOpen()
      modifies this
      ensures View() == RemarkUpvals(old(View()), old(uvhead))
    {
      var rest := uvhead;
      while rest != []
        invariant RemarkUpvals(View(), rest) == RemarkUpvals(old(View()), old(uvhead))
        decreases |rest|
      {
        var u := rest[0];
        if u in heap && heap[u].color == Gray {
          var ids := Targets(View(), u);
          MarkList(ids);
        }
        rest := rest[1..];
      }
    }

    /** gafqC_separateudata. */
    method SeparateUdata(all: bool)
      modifies this
      ensures View() == Separate(old(View()), old(swept) + old(unswept), all)
    {
      var rest := swept + unswept;
      while rest != []
        invariant Separate(View(), rest, all) == Separate(old(View()), old(swept) + old(unswept), all)
        decreases |rest|
      {
        var u := rest[0];
        if u in heap && heap[u].body.Udata? && (all || heap[u].color.White?) && !heap[u].fin {
          var tm := MetaField(heap, heap[u].body.mt, env.gcName);
          heap := heap[u := heap[u].(fin := true)];
          if tm != Nil {
            swept, unswept, tmu := Remove(swept, u), Remove(unswept, u), tmu + [u];
          }
        }
        rest := rest[1..];
      }
    }

    /** marktmu. */
    method MarkPending()
      modifies this
      ensures View() == MarkTmu(old(View()), old(tmu))
    {
      var rest := tmu;
      while rest != []
        invariant MarkTmu(View(), rest) == MarkTmu(old(View()), old(tmu))
        decreases |rest|
      {
        var u := rest[0];
        if u in heap {
          heap := heap[u := heap[u].(color := White(cw))];
          MarkObject(u);
        }
        rest := rest[1..];
      }
    }

    /** stringmark. */
    method MarkString(v: Value)
      modifies this
      ensures View() == StringMark(old(View()), v)
    {
      if v.Ref? && v.id in heap && heap[v.id].color.White? && heap[v.id].body.Str? {
        heap := heap[v.id := heap[v.id].(color := Gray)];
      }
    }

    /** The loop of cleartable over the array part of one weak table. */
    method ClearArray(t: Id)
      requires IsTable(View(), t)
      modifies this
      ensures View() == ClearArr(old(View()), t, |old(heap[t].body.arr)|)
    {
      ghost var s := View();
      var i := |heap[t].body.arr|;
      while i > 0
        invariant IsTable(View(), t) && 0 <= i <= |heap[t].body.arr|
        invariant ClearArr(View(), t, i) == ClearArr(s, t, |s.heap[t].body.arr|)
      {
        i := i - 1;
        ghost var m := View();
        var b := heap[t].body;
        MarkString(b.arr[i]);
        if Cleared(View(), b.arr[i], false) {
          heap := heap[t := heap[t].(body := b.(arr := b.arr[i := Nil]))];
        }
        assert View() == ClearSlot(m, t, i);
        ClearSlotShape(m, t, i);
      }
    }

    /** One half of cleartable's test on an entry of the hash part. */
    method ClearOperand(t: Id, i: nat, key: bool)
      requires IsTable(View(), t) && i < |heap[t].body.nodes|
      modifies this
      ensures View() == ClearHalf(old(View()), t, i, key)
    {
      var b := heap[t].body;
      var n := b.nodes[i];
      var v := if key then n.key else n.val;
      if n.val != Nil {
        MarkString(v);
        if Cleared(View(), v, key) {
          heap := heap[t := heap[t].(body := b.(nodes := b.nodes[i := n.(val := Nil)]))];
        }
      }
    }

    /** The loop of cleartable over the hash part. */
    method ClearHash(t: Id)
      requires IsTable(View(), t)
      modifies this
      ensures View() == ClearNodes(old(View()), t, |old(heap[t].body.nodes)|)
    {
      hide ClearHalf, ClearNodes;
      ghost var s := View();
      var i := |heap[t].body.nodes|;
      while i > 0
        invariant IsTable(View(), t) && 0 <= i <= |heap[t].body.nodes|
        invariant ClearNodes(View(), t, i) == ClearNodes(s, t, |s.heap[t].body.nodes|)
      {
        ghost var m := View();
        ClearNodesStep(m, t, i);
        i := i - 1;
        NodeBounds(m, t, i);
        ClearOperand(t, i, true);
        ClearOperand(t, i, false);
        assert View() == ClearNode(m, t, i);
      }
      ClearNodesNone(View(), t);
    }

    method ClearOne(t: Id)
      requires IsTable(View(), t)
      modifies this
      ensures View() == ClearTable(old(View()), t)
    {
      ghost var s := View();
      ClearArrShape(s, t, |heap[t].body.arr|);
      if heap[t].wv {
        ClearArray(t);
      }
      hide ClearArr, Shrunk;
      ClearHash(t);
    }

    method ClearWeak()
      modifies this
      ensures View() == ClearTables(old(View()), old(weak))
    {
      var rest := weak;
      while rest != []
        invariant ClearTables(View(), rest) == ClearTables(old(View()), old(weak))
        decreases |rest|
      {
        if rest[0] in heap && heap[rest[0]].body.Table? {
          ClearOne(rest[0]);
        }
        rest := rest[1..];
      }
    }

    /** The three passes of atomic. */
    method FinishMarking()
      modifies this
      ensures View() == AtomicMark(old(View()))
    {
      hide PropagateAll, RemarkUpvals, MarkMany;
      var mts, running := env.mts, env.running;
      RemarkOpen();
      PropagateEverything();
      gray := weak;
      weak := [];
      MarkList([running] + OptIds(mts));
      PropagateEverything();
      gray := grayagain;
      grayagain := [];
      PropagateEverything();
    }

    /** Separation and preservation of userdata to be finalized. */
    method Preserve()
      modifies this
      ensures View() == AtomicPreserve(old(View()))
    {
      hide Separate, MarkTmu, PropagateAll;
      SeparateUdata(false);
      MarkPending();
      PropagateEverything();
    }

    /** atomic. */
    method AtomicPhase()
      modifies this
      ensures View() == Atomic(old(View()))
    {
      hide AtomicMark, AtomicPreserve, ClearTables;
      FinishMarking();
      Preserve();
      ClearWeak();
      unswept := swept + unswept;
      swept, sweepstr, phase, cw := [], 0, SweepString, !cw;
    }

    // -------------------------------------------------------------- sweeping

    /** unlinkupval. */
    method UnlinkUpval(u: Id)
      requires IsUpOpen(View(), u) && IsThread(View(), heap[u].body.thread)
      modifies this
      ensures View() == Unlink(old(View()), u)
    {
      var t := heap[u].body.thread;
      var b := heap[t].body;
      heap := heap[t := heap[t].(body := b.(open := Remove(b.open, u)))];
      uvhead := Remove(uvhead, u);
    }

    /** sweeplist on the open upvalues of a thread. */
    method SweepUpvals(us: seq<Id>)
      modifies this
      ensures View() == SweepUps(old(View()), us)
    {
      var rest := us;
      while rest != []
        invariant SweepUps(View(), rest) == SweepUps(old(View()), us)
        decreases |rest|
      {
        var u := rest[0];
        if IsUpOpen(View(), u) && IsThread(View(), heap[u].body.thread) {
          if Dead(View(), u) {
            UnlinkUpval(u);
            heap := heap - {u};
          } else {
            heap := heap[u := heap[u].(color := White(cw))];
          }
        }
        rest := rest[1..];
      }
    }

    /** gafqF_close on all open upvalues of a thread that is being freed. */
    method CloseUpvals(us: seq<Id>)
      modifies this
      ensures View() == CloseAll(old(View()), us)
    {
      var rest := us;
      while rest != []
        invariant CloseAll(View(), rest) == CloseAll(old(View()), us)
        decreases |rest|
      {
        var u := rest[0];
        if IsUpOpen(View(), u) && IsThread(View(), heap[u].body.thread) {
          ghost var s := View();
          var v := SlotValue(heap, heap[u].body.thread, heap[u].body.slot);
          UnlinkUpval(u);
          heap := heap[u := heap[u].(color := ClosedColor(View(), heap[u].color), body := UpClosed(v))];
          if swept == [] {
            unswept := [u] + unswept;
          } else {
            swept := [u] + swept;
          }
          assert View() == CloseUp(s, u);
        }
        rest := rest[1..];
      }
    }

    /** One element of the rootgc list. */
    method SweepFirst()
      requires unswept != []
      modifies this
      ensures View() == SweepOne(old(View()))
    {
      hide SweepUps, CloseAll;
      var o, rest := unswept[0], unswept[1..];
      if IsThread(View(), o) {
        SweepUpvals(heap[o].body.open);
      }
      if o in heap {
        if Dead(View(), o) {
          if IsThread(View(), o) {
            CloseUpvals(heap[o].body.open);
          }
          heap, unswept := heap - {o}, Remove(unswept, o);
        } else {
          heap := heap[o := heap[o].(color := White(cw))];
          swept, unswept := swept + [o], rest;
        }
      }
    }

    /** sweeplist on the rootgc list. */
    method SweepRoot(n: nat)
      modifies this
      ensures View() == SweepN(old(View()), n)
    {
      var count := n;
      while count > 0 && unswept != []
        invariant SweepN(View(), count) == SweepN(old(View()), n)
      {
        SweepFirst();
        count := count - 1;
      }
    }

    /** sweeplist on one bucket of the string table. */
    method SweepBucket(b: nat)
      requires b < |strs|
      modifies this
      ensures View() == SweepStrs(old(View()), b, old(strs[b]))
    {
      var rest := strs[b];
      while rest != []
        invariant SweepStrs(View(), b, rest) == SweepStrs(old(View()), b, old(strs[b]))
        decreases |rest|
      {
        var o := rest[0];
        if o in heap && b < |strs| {
          if Dead(View(), o) {
            heap, strs := heap - {o}, strs[b := Remove(strs[b], o)];
          } else {
            heap := heap[o := heap[o].(color := White(cw))];
          }
        }
        rest := rest[1..];
      }
    }

    /** GCTM, up to the call of the finalizer. */
    method FinalizeFirst()
      requires tmu != []
      modifies this
      ensures View() == Gctm(old(View()))
    {
      ghost var s := View();
      var u := tmu[0];
      tmu := tmu[1..];
      var linked := LinkUdata(View(), u);
      swept, unswept := linked.swept, linked.unswept;
      if u in heap {
        var tm := MetaField(heap, if heap[u].body.Udata? then heap[u].body.mt else None, env.gcName);
        heap := heap[u := heap[u].(color := White(cw))];
        var t := env.running;
        if tm != Nil && IsThread(View(), t) {
          var b := heap[t].body;
          heap := heap[t := heap[t].(body := b.(stack := b.stack + [tm, Ref(u)]))];
        }
      }
    }

    // -------------------------------------------------------------- the driver

    /** markroot. */
    method MarkRoots()
      modifies this
      ensures View() == MarkRoot(old(View()))
    {
      var ids := RootIds(View());
      hide RootIds, MarkMany;
      gray, grayagain, weak := [], [], [];
      MarkList(ids);
      phase := Propagate;
    }

    /** singlestep. */
    method Step()
      modifies this
      ensures View() == SingleStep(old(View()))
    {
      hide MarkRoot, Atomic, PropagateMark, SweepN, SweepStrs, Gctm;
      match phase {
        case Pause =>
          MarkRoots();
        case Propagate =>
          if gray == [] {
            AtomicPhase();
          } else if gray[0] in heap {
            PropagateOne();
          }
        case SweepString =>
          if sweepstr < |strs| {
            var b, n := sweepstr, |strs|;
            SweepBucket(b);
            sweepstr := b + 1;
            if b + 1 >= n {
              phase := Sweep;
            }
          }
        case Sweep =>
          SweepRoot(SWEEP_MAX);
          if unswept == [] {
            phase := Finalize;
          }
        case Finalize =>
          if tmu != [] {
            FinalizeFirst();
          } else {
            phase := Pause;
          }
      }
    }

    /** Step until the finalize phase. */
    method StepToFinalize()
      requires Inv(View())
      modifies this
      ensures View() == ToFinalize(old(View()))
    {
      hide Inv, SingleStep;
      while phase != Finalize
        invariant Inv(View()) && ToFinalize(View()) == ToFinalize(old(View()))
        decreases Rank(View()), Pending(View()), Queue(View())
      {
        SingleStepInv(View());
        StepProgress(View());
        Step();
      }
    }

    /** Call pending finalizers until the pause. */
    method RunFinalizers()
      requires Inv(View()) && phase == Finalize
      modifies this
      ensures View() == Finalizers(old(View()))
    {
      hide Inv, Gctm;
      while tmu != []
        invariant Inv(View()) && phase == Finalize && Finalizers(View()) == Finalizers(old(View()))
        decreases |tmu|
      {
        GctmInv(View());
        assert Gctm(View()).phase == Finalize by { FinalizeStays(View()); }
        Step();
      }
      Step();
    }

    /** gafqC_fullgc: from any state of the collector to the pause. */
    method FullCollect()
      requires Inv(View())
      modifies this
      ensures View() == FullGc(old(View()))
      ensures Inv(View()) && phase == Pause
    {
      ghost var s := View();
      hide Inv, ToFinalize, MarkRoot, Finalizers;
      if phase == Pause || phase == Propagate {
        InterruptInv(s);
        sweepstr, unswept := 0, swept + unswept;
        swept, gray, grayagain, weak, phase := [], [], [], [], SweepString;
        assert View() == Interrupt(s);
      }
      StepToFinalize();
      assert View() == FinishSweep(s);
      MarkRootInv(View());
      MarkRoots();
      StepToFinalize();
      RunFinalizers();
    }
  }

  lemma ClearNodesNone(s: State, t: Id)
    requires IsTable(s, t)
    ensures ClearNodes(s, t, 0) == s
  {
  }

  lemma NodeBounds(s: State, t: Id, i: nat)
    requires IsTable(s, t) && i < |s.heap[t].body.nodes|
    ensures var r := ClearHalf(s, t, i, true); IsTable(r, t) && |r.heap[t].body.nodes| == |s.heap[t].body.nodes|
    ensures var r := ClearNode(s, t, i); IsTable(r, t) && |r.heap[t].body.nodes| == |s.heap[t].body.nodes|
  {
    ClearHalfShape(s, t, i, true);
    ClearNodeShape(s, t, i);
  }

  lemma FinalizeStays(s: State)
    requires Inv(s) && s.phase == Finalize && s.tmu != []
    ensures Gctm(s).phase == Finalize
  {
    PendingUdata(s);
    GctmCore(s);
  }
}
