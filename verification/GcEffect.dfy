/** What the steps of a run do to the contents of objects: the collector leaves them as they are, but for entries of
    weak tables and the finalizer it pushes, and each step of the program changes what it names and nothing else. */
module GcEffect {
  import opened GcHeap
  import opened GcMark
  import opened GcPropagate
  import opened GcAtomic
  import opened GcInv
  import opened GcCollect
  import opened GcSweep
  import opened GcStep
  import opened GcClear
  import opened GcBarrier
  import opened GcMutator
  import opened GcAlloc
  import opened GcRun

  // ---------------------------------------------------------------- sweeping

  /** `o` has what it had: an open upvalue may have been closed over its variable, a thread may have lost open
      upvalues. */
  ghost predicate Same(s: State, r: State, o: Id) {
    o in s.heap && o in r.heap &&
    var b := r.heap[o].body;
    match s.heap[o].body
    case UpOpen(t, i) => b == s.heap[o].body || (IsThread(s, t) && b == UpClosed(SlotValue(s.heap, t, i)))
    case Thread(gt, stack, open) => b.Thread? && b.gt == gt && b.stack == stack && forall u | u in b.open :: u in open
    case _ => b == s.heap[o].body
  }

  ghost predicate AllSame(s: State, r: State) { r.env == s.env && forall o | o in r.heap :: Same(s, r, o) }

  lemma AllSameTransitive(s: State, m: State, r: State)
    requires AllSame(s, m) && AllSame(m, r)
    ensures AllSame(s, r)
  {
    forall o | o in r.heap ensures Same(s, r, o) {
      assert Same(m, r, o) && Same(s, m, o);
      if m.heap[o].body.UpOpen? && IsThread(m, m.heap[o].body.thread) { assert Same(s, m, m.heap[o].body.thread); }
    }
  }

  lemma UpLeftSame(s: State, r: State, u: Id)
    requires UpLeft(s, r, u)
    ensures AllSame(s, r)
  {}

  lemma {:induction false} SweepUpsSame(s: State, us: seq<Id>)
    ensures AllSame(s, SweepUps(s, us))
    decreases |us|
  {
    if us != [] {
      var s1 := SweepUp(s, us[0]);
      assert AllSame(s, s1) by {
        if IsUpOpen(s, us[0]) && IsThread(s, s.heap[us[0]].body.thread) && Dead(s, us[0]) {
          FreeUpLeft(s, us[0]);
          UpLeftSame(s, s1, us[0]);
        }
      }
      hide SweepUp, AllSame;
      SweepUpsSame(s1, us[1..]);
      AllSameTransitive(s, s1, SweepUps(s, us));
    }
  }

  lemma {:induction false} CloseAllSame(s: State, us: seq<Id>)
    ensures AllSame(s, CloseAll(s, us))
    decreases |us|
  {
    if us != [] {
      if !IsUpOpen(s, us[0]) || !IsThread(s, s.heap[us[0]].body.thread) {
        CloseAllSame(s, us[1..]);
      } else {
        var s1 := CloseUp(s, us[0]);
        CloseUpLeft(s, us[0]);
        UpLeftSame(s, s1, us[0]);
        hide CloseUp, AllSame, UpLeft;
        CloseAllSame(s1, us[1..]);
        AllSameTransitive(s, s1, CloseAll(s, us));
      }
    }
  }

  lemma SweepOneSame(s: State)
    requires s.unswept != []
    ensures AllSame(s, SweepOne(s))
  {
    var o := s.unswept[0];
    var s1 := if IsThread(s, o) then SweepUps(s, s.heap[o].body.open) else s;
    var s2 := if IsThread(s1, o) then CloseAll(s1, s1.heap[o].body.open) else s1;
    if IsThread(s, o) { SweepUpsSame(s, s.heap[o].body.open); }
    if IsThread(s1, o) { CloseAllSame(s1, s1.heap[o].body.open); }
    hide SweepUps, CloseAll;
    assert AllSame(s, s1) && AllSame(s1, s2);
    var r := SweepOne(s);
    if o in s1.heap {
      if Dead(s1, o) {
        assert AllSame(s2, r);
        hide AllSame, SweepOne;
        AllSameTransitive(s1, s2, r);
      } else {
        assert AllSame(s1, r);
      }
      hide AllSame, SweepOne;
      AllSameTransitive(s, s1, r);
    }
  }

  lemma {:induction false} SweepNSame(s: State, n: nat)
    ensures AllSame(s, SweepN(s, n))
    decreases n
  {
    if n > 0 && s.unswept != [] {
      SweepOneSame(s);
      hide SweepOne, AllSame;
      SweepNSame(SweepOne(s), n - 1);
      AllSameTransitive(s, SweepOne(s), SweepN(s, n));
    }
  }

  lemma {:induction false} SweepStrsSame(s: State, b: nat, os: seq<Id>)
    ensures AllSame(s, SweepStrs(s, b, os))
    decreases |os|
  {
    if os != [] {
      var s1 := SweepStr(s, b, os[0]);
      assert AllSame(s, s1);
      hide SweepStr, AllSame;
      SweepStrsSame(s1, b, os[1..]);
      AllSameTransitive(s, s1, SweepStrs(s, b, os));
    }
  }

  // ---------------------------------------------------------------- a step of the collector

  /** An object that was not marked, or a userdata that is being finalized. */
  predicate Leaving(r: State, v: Value) {
    v.Ref? && v.id in r.heap && (r.heap[v.id].color.White? || (r.heap[v.id].body.Udata? && r.heap[v.id].fin))
  }

  /** A table without some of its entries: those whose key or value is leaving. */
  ghost predicate SomeEmptied(r: State, b: Body, c: Body) {
    b.Table? && c.Table? && c.mt == b.mt && |c.arr| == |b.arr| && |c.nodes| == |b.nodes| &&
    (forall i | 0 <= i < |b.arr| :: c.arr[i] == b.arr[i] || (c.arr[i] == Nil && Leaving(r, b.arr[i]))) &&
    forall i | 0 <= i < |b.nodes| ::
      c.nodes[i] == b.nodes[i] || (c.nodes[i] == b.nodes[i].(val := Nil) && (Leaving(r, b.nodes[i].key) || Leaving(r, b.nodes[i].val)))
  }

  /** A table with a mode. */
  predicate WeakMode(s: State, t: Id) { IsTable(s, t) && Mode(s, s.heap[t].body.mt) != (false, false) }

  /** Everything has what it had, but for entries of weak tables. */
  ghost predicate Unweak(s: State, r: State) {
    r.env == s.env && r.heap.Keys == s.heap.Keys &&
    forall o | o in s.heap :: r.heap[o].body == s.heap[o].body || (WeakMode(s, o) && SomeEmptied(r, s.heap[o].body, r.heap[o].body))
  }

  lemma WeakTables(a: State)
    requires Tri(a, {}) && Done(a, AllDone, {})
    ensures NoDup(a.weak) && forall t | t in a.weak :: IsTable(a, t) && WeakMode(a, t)
  {
    hide Mode;
  }

  /** At the end of the mark phase. */
  lemma AtomicMarked(s: State)
    requires Inv(s) && s.phase == Propagate
    ensures var a := AtomicPreserve(AtomicMark(s)); PreserveFrame(s, a) && Tri(a, {}) && Done(a, AllDone, {})
  {
    hide AtomicPreserve, AtomicMark, Mode;
    assert Tri(s, {}) && OneWhite(s);
    assert UpvalsListed(s) && TmuOk(s) by { ShapeParts(s); }
    hide Tri, Shape, RootsLive, ColorsOk, Done, Preserved, UpvalsListed;
    OneWhiteAllLive(s);
    hide OneWhite, NoDangling, PhaseOk, LiveClosed;
    AtomicMarkSpec(s);
    var m := AtomicMark(s);
    assert TmuOk(m);
    hide TmuOk, SameFrame, PreserveFrame;
    AtomicPreserveSpec(m);
    FramePreserve(s, m, AtomicPreserve(m));
  }

  lemma {:induction false} ClearTablesFrame(s: State, ts: seq<Id>)
    ensures var r := ClearTables(s, ts); r == s.(heap := r.heap)
    decreases |ts|
  {
    if ts != [] {
      if IsTable(s, ts[0]) {
        ClearTableExact(s, ts[0]);
        hide ClearTable;
        ClearTablesFrame(ClearTable(s, ts[0]), ts[1..]);
      } else {
        ClearTablesFrame(s, ts[1..]);
      }
    }
  }

  lemma AtomicUnweak(s: State)
    requires Inv(s) && s.phase == Propagate
    ensures Unweak(s, Atomic(s))
  {
    hide *;
    AtomicMarked(s);
    var a := AtomicPreserve(AtomicMark(s));
    WeakTables(a);
    ClearTablesExact(a, a.weak);
    AtomicIs(s, a);
    var c := ClearTables(a, a.weak);
    ClearedUnweak(a, c);
    SameMode(s, a, c, Atomic(s));
  }

  lemma AtomicIs(s: State, a: State)
    requires a == AtomicPreserve(AtomicMark(s)) && PreserveFrame(s, a)
    ensures SameBodies(s, a) && a.env == s.env
    ensures var r := Atomic(s); r.heap == ClearTables(a, a.weak).heap && r.env == s.env && ClearTables(a, a.weak).env == s.env
  {
    hide SameBodies, AtomicPreserve, AtomicMark, ClearTables;
    ClearTablesFrame(a, a.weak);
  }

  /** What cleartable empties is leaving, and in a weak table. */
  lemma ClearedUnweak(a: State, c: State)
    requires a.env == c.env && Judge(a, c) && forall t | t in a.weak :: TableEmptied(a, c, t) && WeakMode(a, t)
    requires forall o | o in a.heap && o !in a.weak :: c.heap[o].body == a.heap[o].body
    ensures Unweak(a, c)
  {
    hide Mode;
    forall t | t in a.weak ensures SomeEmptied(c, a.heap[t].body, c.heap[t].body) {
      var b := a.heap[t].body;
      assert TableEmptied(a, c, t);
      assert forall v, key | Cleared(a, v, key) :: Leaving(c, v);
    }
  }

  lemma SameMode(s: State, a: State, c: State, r: State)
    requires SameBodies(s, a) && a.env == s.env && Unweak(a, c) && r.heap == c.heap && r.env == s.env
    ensures Unweak(s, r)
  {
    hide Mode;
    forall o | o in s.heap && WeakMode(a, o) ensures WeakMode(s, o) { ModeSame(s, a, s.heap[o].body.mt); }
  }

  lemma ModeSame(s: State, a: State, mt: Option<Id>)
    requires SameBodies(s, a)
    ensures Mode(s, mt) == Mode(a, mt)
  {
    SameField(s, a, mt, s.env.modeName);
  }

  /** A step of the collector leaves every object that stays what it had, but for the entries of weak tables that the
      end of the mark phase empties, and for the finalizer and its userdata that GCTM pushes on the running thread's
      stack. */
  lemma CollectorKeeps(s: State)
    requires Inv(s)
    ensures var r := SingleStep(s);
            if s.phase == Propagate && s.gray == [] then Unweak(s, r)
            else if s.phase == Finalize && s.tmu != [] then Finalizing(s, r)
            else AllSame(s, r)
  {
    hide Inv, Unweak, Finalizing, Atomic, PropagateMark, MarkRoot, Gctm, SweepN, SweepStrs;
    match s.phase
    case Pause => MarkRootSame(s);
    case Propagate => if s.gray == [] { AtomicUnweak(s); } else { PropagateSame(s); }
    case SweepString => if s.sweepstr < |s.strs| { SweepStrsSame(s, s.sweepstr, s.strs[s.sweepstr]); }
    case Sweep => SweepNSame(s, SWEEP_MAX);
    case Finalize => if s.tmu != [] { GctmInv(s); }
  }

  lemma MarkRootSame(s: State)
    ensures AllSame(s, MarkRoot(s)) && MarkRoot(s).heap.Keys == s.heap.Keys
  {
    MarkManyMarks(s.(gray := [], grayagain := [], weak := []), RootIds(s));
  }

  lemma PropagateSame(s: State)
    requires Inv(s) && s.phase == Propagate && s.gray != []
    ensures AllSame(s, SingleStep(s))
  {
    PropagateInv(s);
    assert s.gray[0] in s.gray;
    assert HasColor(s, s.gray[0], Gray);
    PropagateMarkFrame(s);
  }

  // ---------------------------------------------------------------- steps of the program

  /** Only `o` has changed, to `b`. */
  ghost predicate Becomes(s: State, r: State, o: Id, b: Body) {
    r.env == s.env && r.heap.Keys == s.heap.Keys && o in s.heap && r.heap[o].body == b &&
    forall p | p in s.heap && p != o :: r.heap[p].body == s.heap[p].body
  }

  lemma BarrierBecomes(s: State, m: State, o: Id, b: Body, v: Value)
    requires Becomes(s, m, o, b)
    ensures Becomes(s, Barrier(m, o, v), o, b)
  {
    if v.Ref? { MarkMarks(m, v.id); }
    hide Mark;
  }

  lemma BackBecomes(s: State, m: State, o: Id, b: Body, v: Value)
    requires Becomes(s, m, o, b)
    ensures Becomes(s, BarrierBack(m, o, v), o, b)
  {}

  /** Stores put what they are given into the object they name, and change nothing else. */
  lemma StoreChanges(s: State, op: Op)
    requires Inv(s) && Enabled(s, op)
    ensures var r := Apply(s, op);
            match op
            case AssignEntry(t, arr, nodes, _, _) => Becomes(s, r, t, Table(s.heap[t].body.mt, arr, nodes))
            case SetMetatable(o, mt) =>
              Becomes(s, r, o, if s.heap[o].body.Table? then s.heap[o].body.(mt := mt) else Udata(mt, s.heap[o].body.env))
            case AssignPart(o, b, _) => Becomes(s, r, o, b)
            case WriteStack(t, gt, stack) => Becomes(s, r, t, Thread(gt, stack, s.heap[t].body.open))
            case AssignUpvalue(o, v) =>
              (match s.heap[o].body
               case UpOpen(t, i) => i < |s.heap[t].body.stack| && Becomes(s, r, t, s.heap[t].body.(stack := s.heap[t].body.stack[i := v]))
               case _ => Becomes(s, r, o, UpClosed(v)))
            case ChangeRoots(running, mts) => r.heap == s.heap && r.env == s.env.(running := running, mts := mts)
            case _ => true
  {
    hide Inv, Accessible, Rebuilt, OneNew;
    match op
    case AssignEntry(t, arr, nodes, k, v) =>
      var b := Table(s.heap[t].body.mt, arr, nodes);
      var m := SetBody(s, t, b);
      BackBecomes(s, m, t, b, k);
      BackBecomes(s, BarrierBack(m, t, k), t, b, v);
    case SetMetatable(o, mt) =>
      var b := WithMeta(s.heap[o].body, mt);
      BackBecomes(s, SetBody(s, o, b), o, b, OptValue(mt));
      BarrierBecomes(s, SetBody(s, o, b), o, b, OptValue(mt));
    case AssignPart(o, b, v) => BarrierBecomes(s, SetBody(s, o, b), o, b, v);
    case AssignUpvalue(o, v) =>
      if s.heap[o].body.UpOpen? { OpenSlot(s, o); } else { BarrierBecomes(s, SetBody(s, o, UpClosed(v)), o, UpClosed(v), v); }
    case _ =>
  }

  lemma OpenSlot(s: State, u: Id)
    requires Inv(s) && IsUpOpen(s, u)
    ensures IsThread(s, s.heap[u].body.thread) && s.heap[u].body.slot < |s.heap[s.heap[u].body.thread].body.stack|
  {}

  /** The running thread has one more value on its stack; other objects have what they had. */
  ghost predicate Pushed(s: State, r: State, v: Value) {
    var t := s.env.running;
    r.env == s.env && IsThread(s, t) && IsThread(r, t) &&
    r.heap[t].body.gt == s.heap[t].body.gt && r.heap[t].body.stack == s.heap[t].body.stack + [v] &&
    forall p | p in s.heap && p != t :: p in r.heap && r.heap[p].body == s.heap[p].body
  }

  lemma PushChanges(s: State, v: Value)
    requires IsThread(s, s.env.running)
    ensures Pushed(s, PushValue(s, v), v) && PushValue(s, v).heap.Keys == s.heap.Keys
    ensures PushValue(s, v).heap[s.env.running].body.open == s.heap[s.env.running].body.open
  {}

  /** `m` has `id` with contents `b`, and all else as it was. */
  ghost predicate Gains(s: State, m: State, id: Id, b: Body) {
    m.env == s.env && m.heap.Keys == s.heap.Keys + {id} && m.heap[id].body == b &&
    forall p | p in s.heap && p != id :: m.heap[p].body == s.heap[p].body
  }

  lemma LinkGains(s: State, id: Id, b: Body, c: nat)
    ensures Gains(s, Link(s, id, b), id, b) && Gains(s, LinkNewUdata(s, id, b), id, b)
    ensures c < |s.strs| ==> Gains(s, LinkString(s, id, c, b), id, b)
    ensures id in s.heap ==> Gains(s, Revive(s, id), id, s.heap[id].body)
  {
    var m := s.(heap := s.heap[id := NewObj(s, b)]);
    assert Gains(s, m, id, b);
    assert LinkHead(m, id) == m.(swept := LinkHead(m, id).swept, unswept := LinkHead(m, id).unswept);
    assert LinkUdata(m, id) == m.(swept := LinkUdata(m, id).swept, unswept := LinkUdata(m, id).unswept);
    hide LinkUdata, LinkHead;
  }

  lemma GainsPushed(s: State, m: State, r: State, id: Id, b: Body)
    requires IsThread(s, s.env.running) && Gains(s, m, id, b) && Pushed(m, r, Ref(id))
    requires id in s.heap ==> b == s.heap[id].body
    requires r.heap.Keys == m.heap.Keys
    ensures Pushed(s, r, Ref(id)) && r.heap.Keys == s.heap.Keys + {id} && (id != s.env.running ==> r.heap[id].body == b)
  {}

  /** A new object has the contents it is given and is on the stack; a string found again is the same string. */
  lemma NewChanges(s: State, op: Op)
    requires Inv(s) && Enabled(s, op) && (op.NewObject? || op.NewString? || op.FindString?)
    ensures var r := Apply(s, op);
            && Pushed(s, r, Ref(op.id)) && r.heap[s.env.running].body.open == s.heap[s.env.running].body.open
            && r.heap.Keys == s.heap.Keys + {op.id} && (!op.FindString? ==> r.heap[op.id].body == op.b)
  {
    RunningThread(s);
    var b := if op.FindString? then s.heap[op.id].body else op.b;
    var m := LinkNew(s, op);
    hide *;
    PushChanges(m, Ref(op.id));
    GainsPushed(s, m, Apply(s, op), op.id, b);
  }

  /** The state before the new object is pushed. */
  lemma LinkNew(s: State, op: Op) returns (m: State)
    requires IsThread(s, s.env.running) && Enabled(s, op) && (op.NewObject? || op.NewString? || op.FindString?)
    ensures Gains(s, m, op.id, if op.FindString? then s.heap[op.id].body else op.b) && IsThread(m, m.env.running)
    ensures Apply(s, op) == PushValue(m, Ref(op.id)) && (op.FindString? ==> op.id != s.env.running)
    ensures !op.FindString? ==> op.id !in s.heap
    ensures m.heap[s.env.running].body.open == s.heap[s.env.running].body.open
  {
    hide HasAll, Link, LinkNewUdata, LinkString, Revive, PushValue;
    var b := if op.FindString? then s.heap[op.id].body else op.b;
    LinkGains(s, op.id, b, if op.NewString? then op.bucket else 0);
    m := match op
      case NewObject(id, b) => if b.Udata? then LinkNewUdata(s, id, b) else Link(s, id, b)
      case NewString(id, c, b) => LinkString(s, id, c, b)
      case FindString(id) => Revive(s, id);
  }

  lemma RunningThread(s: State)
    requires Inv(s)
    ensures IsThread(s, s.env.running)
  {}

  /** The upvalues stand for the slots. */
  ghost predicate Stand(s: State, us: seq<Value>, t: Id, slots: seq<nat>) {
    |us| == |slots| && forall i | 0 <= i < |us| :: us[i].Ref? && us[i].id in s.heap && s.heap[us[i].id].body == UpOpen(t, slots[i])
  }

  /** The upvalues captured stand for the slots asked for; no object but the running thread's list of them changes. */
  lemma {:induction false} CaptureChanges(s: State, slots: seq<nat>, ids: seq<Id>, id: Id)
    requires Inv(s) && |slots| == |ids| && IsThread(s, s.env.running) && NoDup(ids) && id !in ids
    requires forall i | 0 <= i < |slots| :: slots[i] < |s.heap[s.env.running].body.stack|
    requires id !in s.heap && forall x | x in ids :: x !in s.heap
    ensures var (r, us) := Capture(s, slots, ids); Captured(s, r) && Stand(r, us, s.env.running, slots)
    decreases |slots|
  {
    if slots != [] {
      var t := s.env.running;
      RunningLive(s);
      assert ids[0] in ids;
      NoDupTail(ids);
      hide NoDup, Inv, Stand, Captured, Live;
      FindUpvalInv(s, t, slots[0], ids[0]);
      FindUpvalChanges(s, t, slots[0], ids[0]);
      var (s1, u) := FindUpval(s, t, slots[0], ids[0]);
      hide FindUpval;
      CaptureChanges(s1, slots[1..], ids[1..], id);
      var (r, us) := Capture(s1, slots[1..], ids[1..]);
      CapturedMore(s, s1, r, u, us, slots);
    }
  }

  lemma CapturedMore(s: State, s1: State, r: State, u: Id, us: seq<Value>, slots: seq<nat>)
    requires Captured(s, s1) && Captured(s1, r) && slots != [] && Stand(r, us, s.env.running, slots[1..])
    requires u in s1.heap && s1.heap[u].body == UpOpen(s.env.running, slots[0])
    ensures Captured(s, r) && Stand(r, [Ref(u)] + us, s.env.running, slots)
  {
    var vs := [Ref(u)] + us;
    forall i | 0 <= i < |vs| ensures vs[i].Ref? && vs[i].id in r.heap && r.heap[vs[i].id].body == UpOpen(s.env.running, slots[i]) {
      if i > 0 { assert vs[i] == us[i - 1] && slots[1..][i - 1] == slots[i]; }
    }
  }

  ghost predicate Captured(s: State, r: State) {
    var t := s.env.running;
    r.env == s.env && IsThread(s, t) && IsThread(r, t) &&
    r.heap[t].body.gt == s.heap[t].body.gt && r.heap[t].body.stack == s.heap[t].body.stack &&
    forall p | p in s.heap && p != t :: p in r.heap && r.heap[p].body == s.heap[p].body
  }

  lemma RunningLive(s: State)
    requires Inv(s)
    ensures Live(s, s.env.running)
  {
    assert IsRoot(s, s.env.running);
  }

  /** gafqF_findupval gives the upvalue of the slot. */
  lemma FindUpvalChanges(s: State, t: Id, i: nat, id: Id)
    requires Inv(s) && IsThread(s, t) && t == s.env.running && id !in s.heap
    ensures var (r, u) := FindUpval(s, t, i, id);
            Captured(s, r) && u in r.heap && r.heap[u].body == UpOpen(t, i)
  {
    assert UpsOk(s);
    hide Inv, InsertOpen, FindSlot;
    var f := FindSlot(s, s.heap[t].body.open, i);
    if f.Some? {
      assert f.value in s.heap[t].body.open;
      LinkGains(s, f.value, s.heap[f.value].body, 0);
      hide Revive, UpsOk;
      assert IsUpOpen(s, f.value);
    } else {
      hide UpsOk;
    }
  }

  /** A new closure has its environment, its parts, and an upvalue for every variable it captures. */
  lemma ClosureChanges(s: State, op: Op) returns (us: seq<Value>)
    requires Inv(s) && op.NewClosure? && Enabled(s, op)
    ensures var r := Apply(s, op);
            && Pushed(s, r, Ref(op.id)) && Stand(r, us, s.env.running, op.slots)
            && op.id in r.heap && r.heap[op.id].body == Closure(op.env, op.parts + us)
  {
    var full := [op.id] + op.ids;
    assert full[0] == op.id && op.id in full && op.ids == full[1..];
    NoDupTail(full);
    assert forall x | x in op.ids :: x in full;
    CaptureInv(s, op.slots, op.ids, op.id);
    CaptureChanges(s, op.slots, op.ids, op.id);
    var (m, vs) := Capture(s, op.slots, op.ids);
    us := vs;
    var b := Closure(op.env, op.parts + us);
    var l, r := Link(m, op.id, b), Apply(s, op);
    assert r == PushNew(l, op.id);
    hide *;
    LinkGains(m, op.id, b, 0);
    ClosurePushed(s, m, l, op.id, b, us, op.slots);
  }

  lemma ClosurePushed(s: State, m: State, l: State, id: Id, b: Body, us: seq<Value>, slots: seq<nat>)
    requires Captured(s, m) && Gains(m, l, id, b) && id !in m.heap && Stand(m, us, s.env.running, slots)
    ensures var r := PushNew(l, id); Pushed(s, r, Ref(id)) && Stand(r, us, s.env.running, slots) && id in r.heap && r.heap[id].body == b
  {
    PushChanges(l, Ref(id));
  }

  /** Upvalue `u` of thread `t` has left the list of open ones; if it still exists, it has taken its value over. */
  ghost predicate Closed(s: State, r: State, t: Id, u: Id) {
    && IsUpOpen(s, u) && IsThread(s, t) && s.heap[u].body == UpOpen(t, s.heap[u].body.slot)
    && s.heap[u].body.slot < |s.heap[t].body.stack| && s.heap[t].body.open != []
    && r.env == s.env && r.heap.Keys - {u} == s.heap.Keys - {u}
    && (u in r.heap ==> r.heap[u].body == UpClosed(s.heap[t].body.stack[s.heap[u].body.slot]))
    && IsThread(r, t) && r.heap[t].body == s.heap[t].body.(open := s.heap[t].body.open[1..])
    && forall p | p in s.heap && p != t && p != u :: p in r.heap && r.heap[p].body == s.heap[p].body
  }

  /** Closing a variable: its upvalue takes the value over and leaves the thread's list, or is freed when it is dead. */
  lemma CloseChanges(s: State, t: Id)
    requires Inv(s) && IsThread(s, t) && s.heap[t].body.open != []
    ensures var r, u := CloseHead(s, t), s.heap[t].body.open[0]; Closed(s, r, t, u) && (u in r.heap <==> !Dead(s, u))
  {
    var u := s.heap[t].body.open[0];
    HeadUp(s, t);
    hide Inv, EnvOk, UpsOk;
    if Dead(s, u) {
      HeadFreed(s, t, u);
    } else {
      HeadClosed(s, t, u);
      var m, v := CloseUp(s, u), SlotValue(s.heap, t, s.heap[u].body.slot);
      var b := m.heap[u].body;
      hide CloseUp;
      assert Becomes(m, m, u, b);
      BarrierBecomes(m, m, u, b, v);
    }
  }

  lemma HeadFreed(s: State, t: Id, u: Id)
    requires HeadOf(s, t, u)
    ensures Closed(s, FreeUp(s, u), t, u) && u !in FreeUp(s, u).heap
  {
    HeadRemoved(s.heap[t].body.open);
    hide Remove, NoDup;
  }

  lemma HeadClosed(s: State, t: Id, u: Id)
    requires HeadOf(s, t, u)
    ensures Closed(s, CloseUp(s, u), t, u) && u in CloseUp(s, u).heap
  {
    HeadRemoved(s.heap[t].body.open);
    hide Remove, NoDup;
  }

  ghost predicate HeadOf(s: State, t: Id, u: Id) {
    IsThread(s, t) && s.heap[t].body.open != [] && s.heap[t].body.open[0] == u && NoDup(s.heap[t].body.open) &&
    IsUpOpen(s, u) && s.heap[u].body.thread == t && s.heap[u].body.slot < |s.heap[t].body.stack| && !s.heap[u].fixed
  }

  lemma HeadUp(s: State, t: Id)
    requires Inv(s) && IsThread(s, t) && s.heap[t].body.open != []
    ensures HeadOf(s, t, s.heap[t].body.open[0])
  {
    assert s.heap[t].body.open[0] in s.heap[t].body.open;
    assert UpsOk(s) && EnvOk(s);
  }

  lemma HeadRemoved(l: seq<Id>)
    requires l != [] && NoDup(l)
    ensures Remove(l, l[0]) == l[1..]
  {
    assert l[0] !in l[1..];
    NotRemoved(l[1..], l[0]);
  }

  lemma {:induction false} NotRemoved(l: seq<Id>, x: Id)
    requires x !in l
    ensures Remove(l, x) == l
  {
    if l != [] { NotRemoved(l[1..], x); }
  }

  // ---------------------------------------------------------------- what an object holds, part by part

  predicate LiveAll(s: State, vs: seq<Value>) { forall i | 0 <= i < |vs| :: LiveValue(s, vs[i]) }

  /** Every part of an object is there: metatable, environment, values, keys of entries with a value. */
  predicate PartsLive(s: State, o: Id) {
    o in s.heap &&
    match s.heap[o].body
    case Str(_, _) => true
    case Udata(mt, env) => LiveOpt(s, mt) && Live(s, env)
    case UpOpen(t, i) => IsThread(s, t) && i < |s.heap[t].body.stack| && LiveValue(s, s.heap[t].body.stack[i])
    case UpClosed(v) => LiveValue(s, v)
    case Closure(env, parts) => Live(s, env) && LiveAll(s, parts)
    case Table(mt, arr, nodes) =>
      LiveOpt(s, mt) && LiveAll(s, arr) &&
      forall i | 0 <= i < |nodes| :: nodes[i].val != Nil ==> LiveValue(s, nodes[i].key) && LiveValue(s, nodes[i].val)
    case Thread(gt, stack, _) => LiveValue(s, gt) && LiveAll(s, stack)
    case Proto(parts) => LiveAll(s, parts)
  }

  lemma LiveParts(s: State, o: Id)
    requires Inv(s) && Live(s, o)
    ensures PartsLive(s, o)
  {
    assert UpsOk(s) && LiveClosed(s);
    hide Inv, UpsOk, Live;
    if s.heap[o].body.UpOpen? { OpenSlot(s, o); }
    assert forall x | Pts(s, o, x) :: Live(s, x);
    if s.heap[o].body.Table? {
      var ns := s.heap[o].body.nodes;
      forall i | 0 <= i < |ns| && ns[i].val != Nil ensures LiveValue(s, ns[i].key) && LiveValue(s, ns[i].val) {
        assert ns[i] in ns;
        assert ns[i].key.Ref? ==> NodePts(ns[i], ns[i].key.id, true, true);
        assert ns[i].val.Ref? ==> NodePts(ns[i], ns[i].val.id, true, true);
      }
    }
  }

  /** In every run, an object that the program can get hold of has all its parts, and so have the roots. */
  lemma RunParts(s: State, ops: seq<Op>, o: Id)
    requires Inv(s) && ValidRun(s, ops)
    ensures var r := Run(s, ops);
            && (Accessible(r, o) ==> PartsLive(r, o))
            && PartsLive(r, r.env.registry) && PartsLive(r, r.env.main) && PartsLive(r, r.env.running)
            && forall i | 0 <= i < |r.env.mts| && r.env.mts[i].Some? :: PartsLive(r, r.env.mts[i].value)
  {
    var r := Run(s, ops);
    RunInv(s, ops);
    assert forall x | IsRoot(r, x) :: Live(r, x);
    hide Run, Inv, PartsLive, Accessible;
    if Accessible(r, o) {
      AccessibleLive(r, o);
      LiveParts(r, o);
    }
    forall x | IsRoot(r, x) ensures PartsLive(r, x) { LiveParts(r, x); }
  }
}
