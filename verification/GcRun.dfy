/** Every interleaving of collector steps and program steps: the invariant holds throughout and
    nothing the program can get hold of is ever freed. */
module GcRun {
  import opened GcHeap
  import opened GcMark
  import opened GcPropagate
  import opened GcAtomic
  import opened GcInv
  import opened GcCollect
  import opened GcSweep
  import opened GcStep
  import opened GcBarrier
  import opened GcMutator
  import opened GcAlloc

  datatype Op =
    | CollectorStep                                                     // singlestep
    | InterruptMark                                                     // gafqC_fullgc, first part
    | RestartMark                                                       // gafqC_fullgc, markroot
    | AssignEntry(t: Id, arr: seq<Value>, nodes: seq<Node>, k: Value, v: Value)
    | SetMetatable(o: Id, mt: Option<Id>)
    | AssignPart(o: Id, b: Body, v: Value)
    | WriteStack(t: Id, gt: Value, stack: seq<Value>)
    | AssignUpvalue(o: Id, v: Value)
    | ChangeRoots(running: Id, mts: seq<Option<Id>>)
    | NewObject(id: Id, b: Body)
    | NewString(id: Id, bucket: nat, b: Body)
    | FindString(id: Id)
    | NewClosure(id: Id, env: Id, parts: seq<Value>, slots: seq<nat>, ids: seq<Id>)
    | CloseVariable(t: Id)

  // ---------------------------------------------------------------- what a step does

  /** gafqC_fullgc's reset of a collection that is still marking: sweep everything to white. */
  function Interrupt(s: State): State {
    SweepFromStart(s.(gray := [], grayagain := [], weak := []))
  }

  /** OP_CLOSURE's loop over the captured locals of the running function. */
  function Capture(s: State, slots: seq<nat>, ids: seq<Id>): (State, seq<Value>)
    requires |slots| == |ids|
    decreases |slots|
  {
    if slots == [] || !IsThread(s, s.env.running) then (s, [])
    else
      var (s1, u) := FindUpval(s, s.env.running, slots[0], ids[0]);
      var (r, us) := Capture(s1, slots[1..], ids[1..]);
      (r, [Ref(u)] + us)
  }

  function MakeClosure(s: State, op: Op): State
    requires op.NewClosure? && |op.slots| == |op.ids|
  {
    var (m, us) := Capture(s, op.slots, op.ids);
    var r := Link(m, op.id, Closure(op.env, op.parts + us));
    if IsThread(r, r.env.running) then PushValue(r, Ref(op.id)) else r
  }

  function PushNew(s: State, o: Id): State { if IsThread(s, s.env.running) then PushValue(s, Ref(o)) else s }

  function Apply(s: State, op: Op): State
    requires Enabled(s, op)
  {
    match op
    case CollectorStep => SingleStep(s)
    case InterruptMark => Interrupt(s)
    case RestartMark => MarkRoot(s)
    case AssignEntry(t, arr, nodes, k, v) => StoreTable(s, t, arr, nodes, k, v)
    case SetMetatable(o, mt) => StoreMeta(s, o, mt)
    case AssignPart(o, b, v) => StoreForward(s, o, b, v)
    case WriteStack(t, gt, stack) => StoreThread(s, t, gt, stack)
    case AssignUpvalue(o, v) => StoreUpval(s, o, v)
    case ChangeRoots(running, mts) => SetEnv(s, running, mts)
    case NewObject(id, b) => PushNew(if b.Udata? then LinkNewUdata(s, id, b) else Link(s, id, b), id)
    case NewString(id, c, b) => PushNew(LinkString(s, id, c, b), id)
    case FindString(id) => PushNew(Revive(s, id), id)
    case NewClosure(_, _, _, _, _) => MakeClosure(s, op)
    case CloseVariable(t) => CloseHead(s, t)
  }

  // ---------------------------------------------------------------- when a step is possible

  /** The program only handles values it can get hold of. */
  ghost predicate Has(s: State, v: Value) { v.Ref? ==> Accessible(s, v.id) }

  ghost predicate HasAll(s: State, b: Body) { forall x | BodyPts(s.heap, b, x) :: Accessible(s, x) }

  ghost predicate Enabled(s: State, op: Op) {
    match op
    case CollectorStep => true
    case InterruptMark => s.phase == Pause || s.phase == Propagate
    case RestartMark => s.phase == Finalize
    case AssignEntry(t, arr, nodes, k, v) =>
      IsTable(s, t) && Accessible(s, t) && Rebuilt(s, t, arr, nodes, k, v) && Has(s, k) && Has(s, v)
    case SetMetatable(o, mt) =>
      o in s.heap && (s.heap[o].body.Table? || s.heap[o].body.Udata?) && Accessible(s, o) && Has(s, OptValue(mt))
    case AssignPart(o, b, v) => o in s.heap && Accessible(s, o) && OneNew(s, o, b, v) && Has(s, v)
    case WriteStack(t, gt, stack) =>
      && IsThread(s, t) && Accessible(s, t)
      && Has(s, gt) && (forall v | v in stack :: Has(s, v))
      && (forall u | u in s.heap[t].body.open && IsUpOpen(s, u) :: s.heap[u].body.slot < |stack|)
    case AssignUpvalue(o, v) =>
      && o in s.heap && Accessible(s, o) && Has(s, v)
      && (s.heap[o].body.UpClosed? || (s.heap[o].body.UpOpen? && IsThread(s, s.heap[o].body.thread)))
    case ChangeRoots(running, mts) =>
      IsThread(s, running) && Accessible(s, running) && forall x | Some(x) in mts :: Accessible(s, x)
    case NewObject(id, b) =>
      id !in s.heap && !b.UpOpen? && !b.Str? && (b.Thread? ==> b.open == []) && HasAll(s, b)
    case NewString(id, c, b) => id !in s.heap && c < |s.strs| && b.Str?
    case FindString(id) => IsStr(s, id)
    case NewClosure(id, env, parts, slots, ids) =>
      && |slots| == |ids| && IsThread(s, s.env.running)
      && (forall i | 0 <= i < |slots| :: slots[i] < |s.heap[s.env.running].body.stack|)
      && NoDup([id] + ids) && (forall x | x in [id] + ids :: x !in s.heap)
      && Accessible(s, env) && forall v | v in parts :: Has(s, v)
    case CloseVariable(t) => IsThread(s, t) && Accessible(s, t) && s.heap[t].body.open != []
  }

  // ---------------------------------------------------------------- one step

  /** Lists and clocks do not matter for liveness. */
  lemma SameHeapLive(s: State, r: State)
    requires LiveClosed(s) && RootsLive(s) && ColorsOk(s) && OneWhite(s)
    requires r.heap == s.heap && r.env == s.env && r.cw == s.cw && r.tmu == s.tmu
    ensures LiveClosed(r) && RootsLive(r) && ColorsOk(r) && OneWhite(r)
  {
    hide BodyPts;
    assert forall o, x :: Pts(r, o, x) <==> Pts(s, o, x);
    assert forall o :: Live(r, o) <==> Live(s, o);
    assert forall x :: IsRoot(r, x) <==> IsRoot(s, x);
  }

  lemma InterruptShape(s: State)
    requires Shape(s)
    ensures Shape(Interrupt(s)) && |Interrupt(s).strs| > 0
  {
    var m := s.(gray := [], grayagain := [], weak := []);
    RepaintedShape(s, m);
    assert StrsOk(s);
    hide Shape;
    SweepFromStartShape(m);
  }

  /** An interrupted mark phase: nothing is dead, so the sweep that follows frees nothing. */
  lemma InterruptInv(s: State)
    requires Inv(s) && (s.phase == Pause || s.phase == Propagate)
    ensures Inv(Interrupt(s)) && Interrupt(s).heap == s.heap
    ensures forall o :: Live(Interrupt(s), o) <==> o in s.heap
  {
    var r := Interrupt(s);
    hide Shape, LiveClosed, RootsLive, ColorsOk, Tri, AllWhite, StrsSwept, OneWhite;
    InterruptShape(s);
    SameHeapLive(s, r);
    OneWhiteAllLive(r);
    assert StrsSwept(r, 0) by { NothingSwept(r); }
  }

  lemma NothingSwept(s: State)
    ensures StrsSwept(s, 0)
  {
  }

  lemma {:induction false} CaptureInv(s: State, slots: seq<nat>, ids: seq<Id>, id: Id)
    requires Inv(s) && |slots| == |ids| && IsThread(s, s.env.running) && NoDup(ids) && id !in ids
    requires forall i | 0 <= i < |slots| :: slots[i] < |s.heap[s.env.running].body.stack|
    requires id !in s.heap && forall x | x in ids :: x !in s.heap
    ensures var (r, us) := Capture(s, slots, ids);
            && Inv(r) && id !in r.heap && r.env == s.env
            && (forall o | Live(s, o) :: Live(r, o)) && (forall x | Ref(x) in us :: Live(r, x))
    decreases |slots|
  {
    if slots != [] {
      var t := s.env.running;
      assert IsRoot(s, t) && Live(s, t);
      hide Inv;
      assert ids[0] in ids;
      FindUpvalInv(s, t, slots[0], ids[0]);
      var (s1, u) := FindUpval(s, t, slots[0], ids[0]);
      hide FindUpval;
      NoDupTail(ids);
      hide NoDup;
      CaptureInv(s1, slots[1..], ids[1..], id);
    }
  }

  lemma ClosureInv(s: State, op: Op)
    requires Inv(s) && op.NewClosure? && Enabled(s, op)
    ensures Inv(Apply(s, op)) && forall o | Live(s, o) :: o in Apply(s, op).heap
  {
    hide Inv;
    var full := [op.id] + op.ids;
    assert full[0] == op.id && op.id in full && op.ids == full[1..];
    NoDupTail(full);
    hide NoDup;
    assert forall x | x in op.ids :: x in full;
    CaptureInv(s, op.slots, op.ids, op.id);
    var (m, us) := Capture(s, op.slots, op.ids);
    hide Capture;
    var b := Closure(op.env, op.parts + us);
    assert forall x | BodyPts(m.heap, b, x) :: Live(m, x) by { ClosureRefs(s, op); }
    hide Enabled;
    LinkInv(m, op.id, b);
    var r := Link(m, op.id, b);
    hide Link;
    PushValueInv(r, Ref(op.id));
  }

  lemma ClosureRefs(s: State, op: Op)
    requires Inv(s) && op.NewClosure? && Enabled(s, op)
    ensures Live(s, op.env) && forall x | Ref(x) in op.parts :: Live(s, x)
  {
    hide Inv;
    AccessibleLive(s, op.env);
    forall x | Ref(x) in op.parts
      ensures Live(s, x)
    {
      assert Has(s, Ref(x));
      AccessibleLive(s, x);
    }
  }

  /** Values the program has are live. */
  lemma HasLive(s: State)
    requires Inv(s)
    ensures forall x | Accessible(s, x) :: Live(s, x)
  {
    forall x | Accessible(s, x)
      ensures Live(s, x)
    {
      AccessibleLive(s, x);
    }
  }

  lemma NewInv(s: State, op: Op)
    requires Inv(s) && Enabled(s, op) && (op.NewObject? || op.NewString? || op.FindString?)
    ensures Inv(Apply(s, op)) && s.heap.Keys <= Apply(s, op).heap.Keys
  {
    HasLive(s);
    hide Inv, Accessible;
    match op
    case NewObject(id, b) =>
      var r := if b.Udata? then LinkNewUdata(s, id, b) else Link(s, id, b);
      if b.Udata? {
        LinkNewUdataInv(s, id, b);
      } else {
        LinkInv(s, id, b);
      }
      hide Link, LinkNewUdata;
      PushValueInv(r, Ref(id));
    case NewString(id, c, b) =>
      LinkStringInv(s, id, c, b);
      var r := LinkString(s, id, c, b);
      hide LinkString;
      PushValueInv(r, Ref(id));
    case FindString(id) =>
      ReviveInv(s, id);
      var r := Revive(s, id);
      hide Revive;
      PushValueInv(r, Ref(id));
  }

  lemma StoreInv(s: State, op: Op)
    requires Inv(s) && Enabled(s, op)
    requires op.AssignEntry? || op.SetMetatable? || op.AssignPart? || op.WriteStack? || op.AssignUpvalue? || op.ChangeRoots?
    ensures Inv(Apply(s, op)) && Apply(s, op).heap.Keys == s.heap.Keys
  {
    HasLive(s);
    hide Inv, Accessible, Rebuilt, OneNew;
    match op
    case AssignEntry(t, arr, nodes, k, v) =>
      StoreTableInv(s, t, arr, nodes, k, v);
    case SetMetatable(o, mt) =>
      StoreMetaInv(s, o, mt);
    case AssignPart(o, b, v) =>
      StoreForwardInv(s, o, b, v);
    case WriteStack(t, gt, stack) =>
      assert forall i | 0 <= i < |stack| :: stack[i] in stack && Has(s, stack[i]);
      StoreThreadInv(s, t, gt, stack);
    case AssignUpvalue(o, v) =>
      StoreUpvalInv(s, o, v);
    case ChangeRoots(running, mts) =>
      SetEnvInv(s, running, mts);
  }

  /** Every step, of the collector or of the program, keeps the invariant and frees no object
      that the program could get hold of. */
  lemma StepInv(s: State, op: Op)
    requires Inv(s) && Enabled(s, op)
    ensures Inv(Apply(s, op))
    ensures forall x | Accessible(s, x) :: x in Apply(s, op).heap
  {
    HasLive(s);
    hide Inv, Accessible;
    match op
    case CollectorStep => SingleStepInv(s);
    case InterruptMark => InterruptInv(s);
    case RestartMark => MarkRootInv(s);
    case NewObject(_, _) => NewInv(s, op);
    case NewString(_, _, _) => NewInv(s, op);
    case FindString(_) => NewInv(s, op);
    case NewClosure(_, _, _, _, _) => ClosureInv(s, op);
    case CloseVariable(t) => CloseHeadInv(s, t);
    case _ => StoreInv(s, op);
  }

  // ---------------------------------------------------------------- whole runs

  ghost predicate ValidRun(s: State, ops: seq<Op>)
    decreases |ops|
  {
    ops == [] || (Enabled(s, ops[0]) && ValidRun(Apply(s, ops[0]), ops[1..]))
  }

  ghost function Run(s: State, ops: seq<Op>): State
    requires ValidRun(s, ops)
    decreases |ops|
  {
    if ops == [] then s else Run(Apply(s, ops[0]), ops[1..])
  }

  lemma {:induction false} RunInv(s: State, ops: seq<Op>)
    requires Inv(s) && ValidRun(s, ops)
    ensures Inv(Run(s, ops))
    decreases |ops|
  {
    if ops != [] {
      StepInv(s, ops[0]);
      RunInv(Apply(s, ops[0]), ops[1..]);
    }
  }

  /** Safety over every run: whatever the program can get hold of at any point exists, is not
      marked for freeing, and survives the next step. */
  lemma RunSafe(s: State, ops: seq<Op>, op: Op, x: Id)
    requires Inv(s) && ValidRun(s, ops) && Enabled(Run(s, ops), op) && Accessible(Run(s, ops), x)
    ensures Live(Run(s, ops), x) && x in Apply(Run(s, ops), op).heap
  {
    RunInv(s, ops);
    AccessibleLive(Run(s, ops), x);
    StepInv(Run(s, ops), op);
  }

  /** The tri-colour invariant over every run: while marking, no black object outside the
      pending-finalizer list refers to a white one, and every gray object is a string, an open
      upvalue, or on a list that will be visited. */
  lemma RunTriColor(s: State, ops: seq<Op>)
    requires Inv(s) && ValidRun(s, ops) && Run(s, ops).phase == Propagate
    ensures var r := Run(s, ops);
            && (forall o, x | HasColor(r, o, Black) && o !in r.tmu && Pts(r, o, x) :: NonWhite(r, x))
            && (forall o | HasColor(r, o, Gray) ::
                  r.heap[o].body.Str? || r.heap[o].body.UpOpen? || o in r.gray || o in r.grayagain || o in r.weak)
  {
    RunInv(s, ops);
    assert Tri(Run(s, ops), {});
  }

  // ---------------------------------------------------------------- the first state

  /** The state after gafq_newstate: main thread, registry, globals, and two fixed names. */
  function Boot(main: Id, registry: Id, globals: Id, modeName: Id, gcName: Id): State {
    State(
      map[main := Obj(White(false), true, false, false, false, Thread(Ref(globals), [], [])),
          registry := Obj(White(false), false, false, false, false, Table(None, [], [])),
          globals := Obj(White(false), false, false, false, false, Table(None, [], [])),
          modeName := Obj(White(false), true, false, false, false, Str(false, false)),
          gcName := Obj(White(false), true, false, false, false, Str(false, false))],
      false, Pause, [[modeName, gcName]], 0, [], [globals, registry, main], [], [], [], [], [],
      Env(registry, main, main, [], modeName, gcName))
  }

  lemma BootKinds(main: Id, registry: Id, globals: Id, modeName: Id, gcName: Id)
    requires NoDup([main, registry, globals, modeName, gcName])
    ensures var s := Boot(main, registry, globals, modeName, gcName);
            && (forall o :: o in s.heap <==> o in [main, registry, globals, modeName, gcName])
            && (forall o :: IsThread(s, o) <==> o == main) && (forall o :: !IsUpOpen(s, o))
            && (forall o :: IsStr(s, o) <==> o == modeName || o == gcName)
            && (forall o :: RootKind(s, o) <==> o == main || o == registry || o == globals)
            && (forall o :: InRoot(s, o) <==> o == main || o == registry || o == globals)
            && (forall o, x | Pts(s, o, x) :: o == main && x == globals)
            && (forall o | o in s.heap :: s.heap[o].color == White(false) && (s.heap[o].fixed ==> o == main || o == modeName || o == gcName))
            && s.heap[main].fixed && IsThread(s, main) && s.heap[main].body.open == []
  {
    var l := [main, registry, globals, modeName, gcName];
    assert l[0] == main && l[1] == registry && l[2] == globals && l[3] == modeName && l[4] == gcName;
  }

  lemma BootShape(main: Id, registry: Id, globals: Id, modeName: Id, gcName: Id)
    requires NoDup([main, registry, globals, modeName, gcName])
    ensures Shape(Boot(main, registry, globals, modeName, gcName))
  {
    var s := Boot(main, registry, globals, modeName, gcName);
    BootKinds(main, registry, globals, modeName, gcName);
    var l := [main, registry, globals, modeName, gcName];
    assert l[0] == main && l[1] == registry && l[2] == globals && l[3] == modeName && l[4] == gcName;
    hide Pts;
    assert UpsOk(s) && EnvOk(s);
    assert RootNoDup(s) && RootOk(s);
    assert s.strs[0] == [modeName, gcName];
    assert forall b: nat, o :: InBucket(s, b, o) <==> b == 0 && (o == modeName || o == gcName);
    assert StrsOk(s) by { assert InBucket(s, 0, modeName) && InBucket(s, 0, gcName); }
  }

  /** The first state satisfies the invariant. */
  lemma BootInv(main: Id, registry: Id, globals: Id, modeName: Id, gcName: Id)
    requires NoDup([main, registry, globals, modeName, gcName])
    ensures Inv(Boot(main, registry, globals, modeName, gcName))
  {
    var s := Boot(main, registry, globals, modeName, gcName);
    BootShape(main, registry, globals, modeName, gcName);
    BootKinds(main, registry, globals, modeName, gcName);
    hide Shape, NoDup, Pts;
    assert s.cw == false && s.tmu == [] && s.phase == Pause && s.env == Env(registry, main, main, [], modeName, gcName);
    hide Boot;
    assert forall o :: Live(s, o) <==> o in s.heap;
    assert ColorsOk(s);
  }
}
