/** What the running program does to the heap between collector steps: stores with their
    barriers, allocation, capture and closing of upvalues (gapi.c, gvm.c, gfunc.c, gstring.c). */
module GcMutator {
  import opened GcHeap
  import opened GcMark
  import opened GcPropagate
  import opened GcAtomic
  import opened GcInv
  import opened GcCollect
  import opened GcSweep
  import opened GcStep
  import opened GcBarrier

  // ---------------------------------------------------------------- a store before its barrier

  /** `m` is `s` after a store into `o`: new references lead to live objects, and no other
      black object has gained one. */
  ghost predicate Wrote(s: State, m: State, o: Id) {
    && m == s.(heap := m.heap)
    && Alike(s, m) && SameRoot(s, m) && StacksCover(s, m)
    && (forall p | p in s.heap :: m.heap[p] == s.heap[p].(body := m.heap[p].body))
    && (forall p, x | Pts(m, p, x) :: Pts(s, p, x) || Live(s, x))
    && (forall p, x | HasColor(s, p, Black) && p != o && Pts(m, p, x) :: Pts(s, p, x))
  }

  lemma WroteShape(s: State, m: State, o: Id)
    requires Shape(s) && Wrote(s, m, o)
    ensures Shape(m)
  {
    AlikeKinds(s, m);
    hide UpsOk, RootOk, StrsOk, Alike, SameRoot, StacksCover, Pts;
    AlikeShape(s, m);
  }

  lemma WroteCore(s: State, m: State, o: Id)
    requires Core(s) && Wrote(s, m, o)
    ensures Core(m)
    ensures forall p :: Live(m, p) <==> Live(s, p)
  {
    WroteShape(s, m, o);
    hide Shape, BodyPts, SameRoot, StacksCover;
    WriteLive(s, m);
    SameColors(s, m);
  }

  lemma WroteTri(s: State, m: State, o: Id)
    requires Tri(s, {}) && NoDangling(s) && Wrote(s, m, o)
    ensures Tri(m, {o})
  {
    AlikeKinds(s, m);
    hide BodyPts, SameRoot, StacksCover;
    assert forall p :: m.heap.Keys == s.heap.Keys && (p in s.heap ==> m.heap[p].color == s.heap[p].color);
    assert BlackSafe(m, {o});
    hide BlackSafe;
    assert GrayKept(m);
    assert ColorsOk(m) by { SameColors(s, m); }
    assert ListsOk(m) by { WroteLists(s, m, o); }
  }

  lemma WroteLists(s: State, m: State, o: Id)
    requires ListsOk(s) && Wrote(s, m, o)
    ensures ListsOk(m)
  {
    hide Pts, SameRoot, StacksCover;
    assert forall p | p in s.heap :: SameKind(s.heap[p].body, m.heap[p].body);
  }

  lemma WroteSteady(s: State, m: State, o: Id)
    requires Wrote(s, m, o)
    ensures Steady(s, m)
  {
    hide Pts, SameRoot, StacksCover;
    assert forall p | p in s.heap :: SameKind(s.heap[p].body, m.heap[p].body);
  }

  /** A store alone keeps everything but, possibly, the rule on the black object stored into. */
  lemma WroteInv(s: State, m: State, o: Id)
    requires Inv(s) && Wrote(s, m, o)
    ensures InvBut(m, o)
    ensures forall p :: Live(m, p) <==> Live(s, p)
  {
    InvCore(s);
    hide Inv, Core, Pts;
    WroteCore(s, m, o);
    if s.phase == Propagate {
      CoreOneWhite(s);
      WroteTri(s, m, o);
      hide Tri;
      assert OneWhite(m);
    } else {
      WroteSteady(s, m, o);
      hide Wrote;
      SteadyPhase(s, m);
    }
  }

  /** A store into a black object leaves behind only the values just stored. */
  lemma WroteOnlyWhite(s: State, m: State, o: Id, k: Value, v: Value)
    requires Inv(s) && Wrote(s, m, o)
    requires forall x | Pts(m, o, x) :: Pts(s, o, x) || Ref(x) == k || Ref(x) == v
    ensures OnlyWhite(m, o, k, v)
  {
    hide BodyPts, SameRoot, StacksCover, Shape, RootsLive, LiveClosed;
    assert forall x :: NonWhite(m, x) <==> NonWhite(s, x);
  }

  // ---------------------------------------------------------------- the stores

  predicate LiveValue(s: State, v: Value) { v.Ref? ==> Live(s, v.id) }

  predicate LiveOpt(s: State, v: Option<Id>) { v.Some? ==> Live(s, v.value) }

  function OptValue(v: Option<Id>): Value { if v.Some? then Ref(v.value) else Nil }

  /** lua-level assignment to a table entry: the array and hash parts may be rebuilt from old
      entries and the new key and value; gafqC_barriert follows for both. */
  function StoreTable(s: State, t: Id, arr: seq<Value>, nodes: seq<Node>, k: Value, v: Value): State
    requires IsTable(s, t)
  {
    var m := SetBody(s, t, s.heap[t].body.(arr := arr, nodes := nodes));
    BarrierBack(BarrierBack(m, t, k), t, v)
  }

  /** New contents come from the old ones, the key and the value. */
  ghost predicate Rebuilt(s: State, t: Id, arr: seq<Value>, nodes: seq<Node>, k: Value, v: Value)
    requires IsTable(s, t)
  {
    forall x | Ref(x) in arr || NodesPts(nodes, x, true, true) :: Pts(s, t, x) || Ref(x) == k || Ref(x) == v
  }

  lemma SetBodyRefs(s: State, o: Id, b: Body)
    requires o in s.heap && SameKind(s.heap[o].body, b) && !b.Thread?
    ensures forall x :: Pts(SetBody(s, o, b), o, x) <==> BodyPts(s.heap, b, x)
    ensures forall p, x | p != o :: Pts(SetBody(s, o, b), p, x) <==> Pts(s, p, x)
  {
    var m := SetBody(s, o, b);
    assert forall p | p in s.heap && p != o :: m.heap[p] == s.heap[p];
    assert forall t, i: nat :: SlotValue(m.heap, t, i) == SlotValue(s.heap, t, i);
  }

  /** A store into one object that is not a thread changes the references of that object only. */
  lemma SetBodyWrote(s: State, o: Id, b: Body)
    requires o in s.heap && SameKind(s.heap[o].body, b) && !b.Thread?
    requires forall x | BodyPts(s.heap, b, x) :: Pts(s, o, x) || Live(s, x)
    ensures Wrote(s, SetBody(s, o, b), o)
    ensures forall x :: Pts(SetBody(s, o, b), o, x) <==> BodyPts(s.heap, b, x)
  {
    var m := SetBody(s, o, b);
    SetBodyRefs(s, o, b);
    hide Pts, BodyPts;
    assert forall p | p in s.heap && p != o :: m.heap[p] == s.heap[p];
    assert forall p | p in s.heap :: SameKind(s.heap[p].body, m.heap[p].body);
    hide SameKind;
    assert StacksCover(s, m);
    assert Alike(s, m);
    assert SameRoot(s, m);
  }

  lemma StoreTableInv(s: State, t: Id, arr: seq<Value>, nodes: seq<Node>, k: Value, v: Value)
    requires Inv(s) && IsTable(s, t) && Rebuilt(s, t, arr, nodes, k, v) && LiveValue(s, k) && LiveValue(s, v)
    requires Live(s, t)
    ensures Inv(StoreTable(s, t, arr, nodes, k, v))
    ensures StoreTable(s, t, arr, nodes, k, v).heap.Keys == s.heap.Keys
  {
    var b := s.heap[t].body.(arr := arr, nodes := nodes);
    var m := SetBody(s, t, b);
    hide Inv;
    assert forall x | BodyPts(s.heap, b, x) :: Pts(s, t, x) || Ref(x) == k || Ref(x) == v;
    SetBodyWrote(s, t, b);
    hide Pts, BodyPts;
    WroteInv(s, m, t);
    WroteOnlyWhite(s, m, t, k, v);
    BarrierBackInv(m, t, k, v);
  }

  function WithMeta(b: Body, mt: Option<Id>): Body
    requires b.Table? || b.Udata?
  {
    match b
    case Table(_, arr, nodes) => Table(mt, arr, nodes)
    case Udata(_, env) => Udata(mt, env)
  }

  /** setmetatable on a table or a userdata. */
  function StoreMeta(s: State, o: Id, mt: Option<Id>): State
    requires o in s.heap && (s.heap[o].body.Table? || s.heap[o].body.Udata?)
  {
    var m := SetBody(s, o, WithMeta(s.heap[o].body, mt));
    if m.heap[o].body.Table? then BarrierBack(m, o, OptValue(mt)) else Barrier(m, o, OptValue(mt))
  }

  lemma StoreMetaInv(s: State, o: Id, mt: Option<Id>)
    requires Inv(s) && o in s.heap && (s.heap[o].body.Table? || s.heap[o].body.Udata?) && Live(s, o) && LiveOpt(s, mt)
    ensures Inv(StoreMeta(s, o, mt))
    ensures StoreMeta(s, o, mt).heap.Keys == s.heap.Keys
  {
    var b := WithMeta(s.heap[o].body, mt);
    var m, v := SetBody(s, o, b), OptValue(mt);
    hide Inv;
    assert forall x | BodyPts(s.heap, b, x) :: Pts(s, o, x) || Ref(x) == v;
    SetBodyWrote(s, o, b);
    hide Pts, BodyPts;
    WroteInv(s, m, o);
    WroteOnlyWhite(s, m, o, Nil, v);
    if b.Table? {
      BarrierBackInv(m, o, Nil, v);
    } else {
      WroteOnlyWhite(s, m, o, v, v);
      BarrierInv(m, o, v);
    }
  }

  /** The parts of a closure or prototype, an environment, or the value of a closed upvalue:
      one new reference, guarded by the forward barrier. */
  function StoreForward(s: State, o: Id, b: Body, v: Value): State
    requires o in s.heap
  {
    Barrier(SetBody(s, o, b), o, v)
  }

  /** `b` is `o` with at most one new reference. */
  ghost predicate OneNew(s: State, o: Id, b: Body, v: Value)
    requires o in s.heap
  {
    && SameKind(s.heap[o].body, b) && (b.Closure? || b.Proto? || b.Udata? || b.UpClosed?)
    && forall x | BodyPts(s.heap, b, x) :: Pts(s, o, x) || Ref(x) == v
  }

  lemma StoreForwardInv(s: State, o: Id, b: Body, v: Value)
    requires Inv(s) && o in s.heap && OneNew(s, o, b, v) && Live(s, o) && LiveValue(s, v)
    ensures Inv(StoreForward(s, o, b, v))
    ensures StoreForward(s, o, b, v).heap.Keys == s.heap.Keys
  {
    var m := SetBody(s, o, b);
    hide Inv;
    SetBodyWrote(s, o, b);
    hide Pts, BodyPts;
    WroteInv(s, m, o);
    WroteOnlyWhite(s, m, o, v, v);
    BarrierInv(m, o, v);
  }

  /** Unbarriered writes to a thread: its stack and its table of globals. */
  function StoreThread(s: State, t: Id, gt: Value, stack: seq<Value>): State
    requires IsThread(s, t)
  {
    SetBody(s, t, s.heap[t].body.(gt := gt, stack := stack))
  }

  /** The new stack holds old values of the same slots or live values, and covers open slots. */
  ghost predicate StackOk(s: State, t: Id, gt: Value, stack: seq<Value>)
    requires IsThread(s, t)
  {
    && (gt == s.heap[t].body.gt || LiveValue(s, gt))
    && (forall i | 0 <= i < |stack| :: (i < |s.heap[t].body.stack| && stack[i] == s.heap[t].body.stack[i]) || LiveValue(s, stack[i]))
    && (forall u | u in s.heap[t].body.open && IsUpOpen(s, u) :: s.heap[u].body.slot < |stack|)
  }

  lemma StoreThreadWrote(s: State, t: Id, gt: Value, stack: seq<Value>)
    requires IsThread(s, t) && StackOk(s, t, gt, stack) && ColorsOk(s)
    ensures Wrote(s, StoreThread(s, t, gt, stack), t)
  {
    var m := StoreThread(s, t, gt, stack);
    assert forall p | p in s.heap && p != t :: m.heap[p] == s.heap[p];
    assert forall p | p in s.heap :: SameKind(s.heap[p].body, m.heap[p].body);
    assert StacksCover(s, m);
    forall p, x | Pts(m, p, x)
      ensures Pts(s, p, x) || Live(s, x)
    {
      StackRef(s, t, gt, stack, p, x);
    }
    forall p, x | HasColor(s, p, Black) && p != t && Pts(m, p, x)
      ensures Pts(s, p, x)
    {
      assert !s.heap[p].body.UpOpen?;
    }
  }

  lemma StackRef(s: State, t: Id, gt: Value, stack: seq<Value>, p: Id, x: Id)
    requires IsThread(s, t) && StackOk(s, t, gt, stack) && Pts(StoreThread(s, t, gt, stack), p, x)
    ensures Pts(s, p, x) || Live(s, x)
  {
    var m := StoreThread(s, t, gt, stack);
    if p == t && Ref(x) in stack {
      var i :| 0 <= i < |stack| && stack[i] == Ref(x);
      assert LiveValue(s, stack[i]) || stack[i] in s.heap[t].body.stack;
    }
  }

  lemma StoreThreadInv(s: State, t: Id, gt: Value, stack: seq<Value>)
    requires Inv(s) && IsThread(s, t) && StackOk(s, t, gt, stack)
    ensures Inv(StoreThread(s, t, gt, stack))
    ensures StoreThread(s, t, gt, stack).heap.Keys == s.heap.Keys
  {
    var m := StoreThread(s, t, gt, stack);
    assert ColorsOk(s) && ColorsOk(m) by { assert SameKind(s.heap[t].body, m.heap[t].body); }
    hide Inv, StackOk, BodyPts;
    StoreThreadWrote(s, t, gt, stack);
    WroteInv(s, m, t);
    assert !HasColor(m, t, Black);
    NoBarrier(m, t);
  }

  /** Assignment through an upvalue (OP_SETUPVAL). */
  function StoreUpval(s: State, u: Id, v: Value): State
    requires u in s.heap && (s.heap[u].body.UpClosed? || s.heap[u].body.UpOpen?)
    requires s.heap[u].body.UpOpen? ==> IsThread(s, s.heap[u].body.thread)
  {
    match s.heap[u].body
    case UpClosed(_) => StoreForward(s, u, UpClosed(v), v)
    case UpOpen(t, i) =>
      var b := s.heap[t].body;
      if i < |b.stack| then StoreThread(s, t, b.gt, b.stack[i := v]) else s
  }

  lemma StoreUpvalInv(s: State, u: Id, v: Value)
    requires Inv(s) && u in s.heap && (s.heap[u].body.UpClosed? || s.heap[u].body.UpOpen?) && Live(s, u)
    requires LiveValue(s, v)
    ensures s.heap[u].body.UpOpen? ==> IsThread(s, s.heap[u].body.thread)
    ensures Inv(StoreUpval(s, u, v)) && StoreUpval(s, u, v).heap.Keys == s.heap.Keys
  {
    match s.heap[u].body
    case UpClosed(_) =>
      StoreForwardInv(s, u, UpClosed(v), v);
    case UpOpen(t, i) =>
      assert UpsOk(s);
      var b := s.heap[t].body;
      assert i < |b.stack| && u in b.open;
      assert StackOk(s, t, b.gt, b.stack[i := v]);
      hide Inv;
      StoreThreadInv(s, t, b.gt, b.stack[i := v]);
  }

  // ---------------------------------------------------------------- roots

  /** The table of basic metatables and the running thread are changed without a barrier. */
  function SetEnv(s: State, running: Id, mts: seq<Option<Id>>): State {
    s.(env := s.env.(running := running, mts := mts))
  }

  lemma SetEnvInv(s: State, running: Id, mts: seq<Option<Id>>)
    requires Inv(s) && IsThread(s, running) && Live(s, running) && forall x | Some(x) in mts :: Live(s, x)
    ensures Inv(SetEnv(s, running, mts)) && SetEnv(s, running, mts).heap == s.heap
  {
    var r := SetEnv(s, running, mts);
    assert Alike(s, r) && SameRoot(s, r) && StacksCover(s, r) && IsThread(r, r.env.running);
    AlikeShape(s, r);
    hide Shape;
    SameRefs(s, r);
    assert forall p :: Live(r, p) <==> Live(s, p);
    assert RootsLive(r) && LiveClosed(r);
    hide Pts, StrongPts;
    EnvPhase(s, r);
  }

  lemma EnvPhase(s: State, r: State)
    requires PhaseOk(s) && r == s.(env := r.env) && r.env.main == s.env.main && r.env.registry == s.env.registry
    requires r.env.modeName == s.env.modeName
    ensures PhaseOk(r)
  {
    if s.phase == Propagate {
      SameRefs(s, r);
    } else {
      assert Steady(s, r);
      SteadyPhase(s, r);
    }
  }
}
