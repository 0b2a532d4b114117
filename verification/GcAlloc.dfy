/** New objects (gafqC_link, gafqS_newudata, gafqS_newlstr), captured variables
    (gafqF_findupval) and closing them (gafqF_close, gafqC_linkupval). */
module GcAlloc {
  import opened GcHeap
  import opened GcMark
  import opened GcPropagate
  import opened GcAtomic
  import opened GcInv
  import opened GcCollect
  import opened GcSweep
  import opened GcStep
  import opened GcBarrier
  import opened GcMutator

  function NewObj(s: State, b: Body): Obj { Obj(White(s.cw), false, false, false, false, b) }

  // ---------------------------------------------------------------- adding one object

  /** `r` has one more object, `id`, which no old object mentions. */
  ghost predicate Added(s: State, r: State, id: Id, b: Body) {
    && id !in s.heap && !b.UpOpen? && (b.Thread? ==> b.open == [])
    && r == s.(heap := s.heap[id := NewObj(s, b)], swept := r.swept, unswept := r.unswept, strs := r.strs)
    && (forall x | BodyPts(s.heap, b, x) :: Live(s, x))
    && (if b.Str? then
          && r.swept == s.swept && r.unswept == s.unswept && |r.strs| == |s.strs|
          && exists c: nat :: c < |s.strs| && r.strs == s.strs[c := [id] + s.strs[c]]
        else
          && r.strs == s.strs && RootNoDup(r) && (forall o :: InRoot(r, o) <==> InRoot(s, o) || o == id)
          && (forall o | o in r.swept :: o in s.swept || o == id) && (s.swept == [] ==> r.swept == [] || s.phase != SweepString))
  }

  lemma AddedKinds(s: State, r: State, id: Id, b: Body)
    requires Added(s, r, id, b)
    ensures forall o | o != id :: (o in r.heap <==> o in s.heap) && (o in s.heap ==> r.heap[o] == s.heap[o])
    ensures id in r.heap && r.heap[id] == NewObj(s, b)
    ensures forall o | o != id :: IsThread(r, o) <==> IsThread(s, o)
    ensures forall o :: IsUpOpen(r, o) <==> IsUpOpen(s, o)
    ensures forall o | o != id :: IsStr(r, o) <==> IsStr(s, o)
    ensures forall o | o != id :: RootKind(r, o) <==> RootKind(s, o)
  {
    hide BodyPts;
  }

  lemma AddedUps(s: State, r: State, id: Id, b: Body)
    requires Added(s, r, id, b) && UpsOk(s)
    ensures UpsOk(r)
    ensures forall o, x | o != id :: Pts(r, o, x) <==> Pts(s, o, x)
    ensures forall x :: Pts(r, id, x) <==> BodyPts(s.heap, b, x)
  {
    AddedKinds(s, r, id, b);
    forall u | IsUpOpen(s, u)
      ensures s.heap[u].body.thread != id && u != id
    {
    }
  }

  lemma AddedRoot(s: State, r: State, id: Id, b: Body)
    requires Added(s, r, id, b) && RootOk(s)
    ensures RootOk(r)
  {
    AddedKinds(s, r, id, b);
    hide BodyPts;
    assert forall o :: InRoot(r, o) <==> InRoot(s, o) || (o == id && !b.Str?);
    assert !InRoot(s, id) && id !in s.tmu;
  }

  lemma AddedStrs(s: State, r: State, id: Id, b: Body)
    requires Added(s, r, id, b) && StrsOk(s)
    ensures StrsOk(r)
    ensures forall c: nat, o | o != id :: InBucket(r, c, o) <==> InBucket(s, c, o)
  {
    AddedKinds(s, r, id, b);
    hide BodyPts;
    if b.Str? {
      var c: nat :| c < |s.strs| && r.strs == s.strs[c := [id] + s.strs[c]];
      BucketAdded(s, r, c, id);
      assert InBucket(r, c, id) && IsStr(r, id);
      assert forall o | o != id :: IsStr(r, o) <==> IsStr(s, o);
      hide Added, InBucket, IsStr, NoDup;
      StrsFound(s, r, id);
    } else {
      assert forall d: nat, o :: InBucket(r, d, o) <==> InBucket(s, d, o);
      StrsFound(s, r, id);
    }
  }

  lemma BucketAdded(s: State, r: State, c: nat, id: Id)
    requires StrsOk(s) && c < |s.strs| && r.strs == s.strs[c := [id] + s.strs[c]] && !IsStr(s, id)
    ensures forall d: nat, o :: InBucket(r, d, o) <==> InBucket(s, d, o) || (d == c && o == id)
    ensures forall d: nat | d < |r.strs| :: NoDup(r.strs[d])
    ensures forall d: nat :: !InBucket(s, d, id)
    ensures |r.strs| == |s.strs|
  {
    assert id !in s.strs[c] by { assert InBucket(s, c, id) ==> IsStr(s, id); }
    assert forall i | 0 <= i < |s.strs[c]| :: s.strs[c][i] in s.strs[c] && r.strs[c][i + 1] == s.strs[c][i];
    assert NoDup(r.strs[c]);
  }

  lemma StrsFound(s: State, r: State, id: Id)
    requires StrsOk(s) && forall o | o != id :: IsStr(r, o) <==> IsStr(s, o)
    requires forall d: nat, o | InBucket(s, d, o) :: InBucket(r, d, o)
    ensures forall o | IsStr(r, o) && o != id :: exists d: nat :: InBucket(r, d, o)
  {
    forall o | IsStr(r, o) && o != id
      ensures exists d: nat :: InBucket(r, d, o)
    {
      var d: nat :| InBucket(s, d, o);
      assert InBucket(r, d, o);
    }
  }

  lemma AddedShape(s: State, r: State, id: Id, b: Body)
    requires Added(s, r, id, b) && Shape(s)
    ensures Shape(r)
  {
    AddedUps(s, r, id, b);
    AddedRoot(s, r, id, b);
    AddedStrs(s, r, id, b);
    AddedKinds(s, r, id, b);
    hide BodyPts, Pts, UpsOk, RootOk, StrsOk;
    assert EnvOk(r);
  }

  lemma AddedCore(s: State, r: State, id: Id, b: Body)
    requires Added(s, r, id, b) && Core(s)
    ensures Core(r)
    ensures forall o :: Live(r, o) <==> Live(s, o) || o == id
  {
    AddedShape(s, r, id, b);
    AddedKinds(s, r, id, b);
    assert UpsOk(s);
    AddedUps(s, r, id, b);
    hide Shape, Pts, BodyPts, UpsOk;
    assert forall o :: Live(r, o) <==> Live(s, o) || o == id;
    assert forall o :: IsRoot(r, o) <==> IsRoot(s, o);
  }

  lemma AddedTri(s: State, r: State, id: Id, b: Body)
    requires Added(s, r, id, b) && UpsOk(s) && Tri(s, {}) && NoDangling(s)
    ensures Tri(r, {})
  {
    AddedKinds(s, r, id, b);
    AddedUps(s, r, id, b);
    hide Pts, BodyPts, UpsOk, Added;
    assert r.gray == s.gray && r.grayagain == s.grayagain && r.weak == s.weak &&
           r.tmu == s.tmu by { AddedLists(s, r, id, b); }
    assert forall o, c | c != White(s.cw) :: HasColor(r, o, c) <==> HasColor(s, o, c);
    assert BlackSafe(r, {});
    assert GrayKept(r);
    assert ListsOk(r);
    assert ColorsOk(r);
  }

  lemma AddedLists(s: State, r: State, id: Id, b: Body)
    requires Added(s, r, id, b)
    ensures r.gray == s.gray && r.grayagain == s.grayagain && r.weak == s.weak && r.tmu == s.tmu
  {
  }

  lemma AddedPhase(s: State, r: State, id: Id, b: Body)
    requires Added(s, r, id, b) && Core(s) && PhaseOk(s)
    ensures PhaseOk(r)
  {
    AddedKinds(s, r, id, b);
    if s.phase == Propagate {
      assert UpsOk(s);
      hide Core;
      CoreOneWhite(s);
      AddedTri(s, r, id, b);
      hide Tri;
      assert OneWhite(r);
    } else {
      assert StrsOk(s) && UpsOk(s);
      AddedStrs(s, r, id, b);
      hide Core, BodyPts, StrsOk, UpsOk;
      assert Fresh(r, id);
      assert forall o | Fresh(s, o) :: Fresh(r, o) && o != id;
      if s.phase == Sweep {
        AddedSwept(s, r, id, b);
      } else if s.phase == SweepString {
        assert StrsSwept(r, s.sweepstr);
      }
    }
  }

  lemma AddedSwept(s: State, r: State, id: Id, b: Body)
    requires Added(s, r, id, b) && StrsSwept(s, |s.strs|) && RootSwept(s)
    requires forall c: nat, o | o != id :: InBucket(r, c, o) <==> InBucket(s, c, o)
    ensures StrsSwept(r, |r.strs|) && RootSwept(r)
  {
    AddedKinds(s, r, id, b);
    hide BodyPts;
    assert Fresh(r, id);
    assert forall o | Fresh(s, o) :: Fresh(r, o);
    forall o | o in r.swept
      ensures Fresh(r, o) && (IsThread(r, o) ==> forall u | u in r.heap[o].body.open :: Fresh(r, u))
    {
      if o != id {
        assert o in s.swept && Fresh(s, o);
      }
    }
  }

  /** A new object keeps the invariant. */
  lemma AddedInv(s: State, r: State, id: Id, b: Body)
    requires Inv(s) && Added(s, r, id, b)
    ensures Inv(r) && Live(r, id)
    ensures forall o | Live(s, o) :: Live(r, o)
  {
    InvCore(s);
    hide Inv, Core, PhaseOk;
    AddedCore(s, r, id, b);
    AddedPhase(s, r, id, b);
    CoreIsInv(r);
  }

  // ---------------------------------------------------------------- allocation as the program sees it

  /** Push a value on the running thread. */
  function PushValue(s: State, v: Value): State
    requires IsThread(s, s.env.running)
  {
    var b := s.heap[s.env.running].body;
    StoreThread(s, s.env.running, b.gt, b.stack + [v])
  }

  lemma PushValueInv(s: State, v: Value)
    requires Inv(s) && LiveValue(s, v)
    ensures IsThread(s, s.env.running) && Inv(PushValue(s, v)) && PushValue(s, v).heap.Keys == s.heap.Keys
  {
    var t := s.env.running;
    assert UpsOk(s) && IsThread(s, t);
    var b := s.heap[t].body;
    assert StackOk(s, t, b.gt, b.stack + [v]);
    hide Inv, StackOk;
    StoreThreadInv(s, t, b.gt, b.stack + [v]);
  }

  /** Allocate a table, closure, prototype, thread or closed upvalue. */
  function Link(s: State, id: Id, b: Body): State { LinkHead(s.(heap := s.heap[id := NewObj(s, b)]), id) }

  /** Allocate a userdata. */
  function LinkNewUdata(s: State, id: Id, b: Body): State { LinkUdata(s.(heap := s.heap[id := NewObj(s, b)]), id) }

  /** Intern a string that is not in the table yet. */
  function LinkString(s: State, id: Id, c: nat, b: Body): State {
    if c >= |s.strs| then s
    else s.(heap := s.heap[id := NewObj(s, b)], strs := s.strs[c := [id] + s.strs[c]])
  }

  /** Contents of a new object: nothing but live references. */
  ghost predicate NewBody(s: State, b: Body) {
    !b.UpOpen? && (b.Thread? ==> b.open == []) && forall x | BodyPts(s.heap, b, x) :: Live(s, x)
  }

  lemma LinkInv(s: State, id: Id, b: Body)
    requires Inv(s) && id !in s.heap && NewBody(s, b) && !b.Str? && !b.Udata?
    ensures Inv(Link(s, id, b)) && Live(Link(s, id, b), id)
    ensures Link(s, id, b).heap.Keys == s.heap.Keys + {id}
  {
    var r := Link(s, id, b);
    assert RootOk(s);
    hide Inv, BodyPts;
    LinkNoDup(s, id);
    assert Added(s, r, id, b);
    AddedInv(s, r, id, b);
  }

  lemma LinkNewUdataInv(s: State, id: Id, b: Body)
    requires Inv(s) && id !in s.heap && NewBody(s, b) && b.Udata?
    ensures Inv(LinkNewUdata(s, id, b)) && Live(LinkNewUdata(s, id, b), id)
    ensures LinkNewUdata(s, id, b).heap.Keys == s.heap.Keys + {id}
  {
    hide Inv, BodyPts;
    MainRoot(s, id);
    var r := LinkNewUdata(s, id, b);
    LinkUdataRoot(s.(heap := r.heap), id);
    assert Added(s, r, id, b);
    AddedInv(s, r, id, b);
  }

  lemma MainRoot(s: State, id: Id)
    requires Inv(s) && id !in s.heap
    ensures RootNoDup(s) && InRoot(s, s.env.main) && !InRoot(s, id)
  {
    assert RootOk(s) && RootKind(s, s.env.main) && s.env.main !in s.tmu;
  }

  lemma LinkStringInv(s: State, id: Id, c: nat, b: Body)
    requires Inv(s) && id !in s.heap && c < |s.strs| && b.Str?
    ensures Inv(LinkString(s, id, c, b)) && Live(LinkString(s, id, c, b), id)
    ensures LinkString(s, id, c, b).heap.Keys == s.heap.Keys + {id}
  {
    hide Inv;
    assert Added(s, LinkString(s, id, c, b), id, b);
    AddedInv(s, LinkString(s, id, c, b), id, b);
  }

  // ---------------------------------------------------------------- objects found again

  /** gafqS_newlstr finds the string interned, gafqF_findupval finds the slot captured: a dead
      colour is exchanged for the live one. */
  function Revive(s: State, o: Id): State
    requires o in s.heap
  {
    if s.heap[o].color == White(!s.cw) then MakeWhite(s, o) else s
  }

  lemma ReviveCore(s: State, o: Id)
    requires Core(s) && o in s.heap && (forall x | Pts(s, o, x) :: Live(s, x))
    ensures Core(MakeWhite(s, o))
    ensures forall p :: Live(MakeWhite(s, o), p) <==> Live(s, p) || p == o
  {
    var r := MakeWhite(s, o);
    RepaintedShape(s, r);
    SameRefs(s, r);
    hide Shape, Pts, StrongPts;
    assert forall p :: Live(r, p) <==> Live(s, p) || p == o;
    assert forall p :: IsRoot(r, p) <==> IsRoot(s, p);
  }

  lemma RevivePhase(s: State, o: Id)
    requires PhaseOk(s) && o in s.heap && s.heap[o].color == White(!s.cw)
    ensures PhaseOk(MakeWhite(s, o))
  {
    assert s.phase != Propagate;
    WhitenSteady(s, o);
    SteadyPhase(s, MakeWhite(s, o));
  }

  /** A dead object may be revived when all it refers to is live. */
  lemma ReviveInv(s: State, o: Id)
    requires Inv(s) && o in s.heap && (forall x | Pts(s, o, x) :: Live(s, x))
    ensures Inv(Revive(s, o)) && Live(Revive(s, o), o) && Revive(s, o).heap.Keys == s.heap.Keys
    ensures forall p | Live(s, p) :: Live(Revive(s, o), p)
  {
    if s.heap[o].color == White(!s.cw) {
      InvCore(s);
      hide Inv, Core, PhaseOk, Pts;
      ReviveCore(s, o);
      RevivePhase(s, o);
      CoreIsInv(MakeWhite(s, o));
    }
  }

  // ---------------------------------------------------------------- capturing a local variable

  function SlotOf(s: State, u: Id): int { if IsUpOpen(s, u) then s.heap[u].body.slot else -1 }

  /** Search the open list, kept in descending order of slots. */
  function FindSlot(s: State, us: seq<Id>, i: nat): (r: Option<Id>)
    ensures r.Some? ==> r.value in us && SlotOf(s, r.value) == i
  {
    if us == [] || SlotOf(s, us[0]) < i then None
    else if SlotOf(s, us[0]) == i then Some(us[0])
    else FindSlot(s, us[1..], i)
  }

  function InsertOpen(s: State, us: seq<Id>, i: nat, id: Id): (r: seq<Id>)
    ensures forall x :: x in r <==> x in us || x == id
    ensures NoDup(us) && id !in us ==> NoDup(r)
  {
    if us == [] || SlotOf(s, us[0]) < i then
      assert forall j | 0 <= j < |us| :: us[j] in us;
      [id] + us
    else
      assert us == [us[0]] + us[1..];
      assert forall j | 0 < j < |us| :: us[1..][j - 1] == us[j];
      var rest := InsertOpen(s, us[1..], i, id);
      assert forall j | 0 <= j < |rest| :: rest[j] in rest;
      [us[0]] + rest
  }

  function NewUpval(s: State, t: Id, i: nat, id: Id): State
    requires IsThread(s, t)
  {
    var b := s.heap[t].body;
    s.(heap := s.heap[t := s.heap[t].(body := b.(open := InsertOpen(s, b.open, i, id)))][id := NewObj(s, UpOpen(t, i))],
       uvhead := [id] + s.uvhead)
  }

  /** gafqF_findupval: the upvalue of slot `i`, revived or created. */
  function FindUpval(s: State, t: Id, i: nat, id: Id): (State, Id)
    requires IsThread(s, t)
  {
    var f := FindSlot(s, s.heap[t].body.open, i);
    if f.Some? && f.value in s.heap then (Revive(s, f.value), f.value) else (NewUpval(s, t, i, id), id)
  }

  /** `r` has one more open upvalue, `id`, for slot `i` of thread `t`. */
  ghost predicate UpMade(s: State, r: State, t: Id, i: nat, id: Id) {
    && id !in s.heap && IsThread(s, t) && i < |s.heap[t].body.stack|
    && r == s.(heap := r.heap, uvhead := r.uvhead)
    && (forall o | o != id :: o in r.heap <==> o in s.heap)
    && (forall o | o in s.heap && o != t :: r.heap[o] == s.heap[o])
    && IsThread(r, t) && r.heap[t] == s.heap[t].(body := s.heap[t].body.(open := r.heap[t].body.open))
    && id in r.heap && r.heap[id] == NewObj(s, UpOpen(t, i))
    && (forall x :: x in r.heap[t].body.open <==> x in s.heap[t].body.open || x == id)
    && (NoDup(s.heap[t].body.open) && id !in s.heap[t].body.open ==> NoDup(r.heap[t].body.open))
    && (forall x :: x in r.uvhead <==> x in s.uvhead || x == id)
  }

  lemma NewUpvalMade(s: State, t: Id, i: nat, id: Id)
    requires IsThread(s, t) && i < |s.heap[t].body.stack| && id !in s.heap
    ensures UpMade(s, NewUpval(s, t, i, id), t, i, id)
  {
  }

  lemma MadeKinds(s: State, r: State, t: Id, i: nat, id: Id)
    requires UpMade(s, r, t, i, id)
    ensures forall o :: IsThread(r, o) <==> IsThread(s, o)
    ensures forall o :: IsUpOpen(r, o) <==> IsUpOpen(s, o) || o == id
    ensures forall o :: IsStr(r, o) <==> IsStr(s, o)
    ensures forall o :: RootKind(r, o) <==> RootKind(s, o)
    ensures forall o :: InRoot(r, o) <==> InRoot(s, o)
    ensures forall c: nat, o :: InBucket(r, c, o) <==> InBucket(s, c, o)
    ensures forall o | o in s.heap :: o != id && r.heap[o].color == s.heap[o].color && r.heap[o].fixed == s.heap[o].fixed
  {
  }

  lemma MadeUps(s: State, r: State, t: Id, i: nat, id: Id)
    requires UpMade(s, r, t, i, id) && UpsOk(s)
    ensures UpsOk(r)
  {
    MadeKinds(s, r, t, i, id);
    assert !IsUpOpen(s, id);
    assert id !in s.heap[t].body.open;
    assert forall o | IsThread(s, o) :: r.heap[o].body.stack == s.heap[o].body.stack;
    assert forall o | IsThread(s, o) && o != t :: r.heap[o].body.open == s.heap[o].body.open;
    hide Pts, BodyPts;
    assert UpvalsListed(r);
    assert forall x | IsThread(r, x) :: NoDup(r.heap[x].body.open);
    forall x, u | IsThread(r, x) && u in r.heap[x].body.open
      ensures IsUpOpen(r, u) && r.heap[u].body.thread == x
    {
      assert IsThread(s, x) && (u == id || (u in s.heap[x].body.open && IsUpOpen(s, u)));
    }
  }

  lemma MadeRefs(s: State, r: State, t: Id, i: nat, id: Id)
    requires UpMade(s, r, t, i, id) && UpsOk(s)
    ensures forall o, x | o != id :: Pts(r, o, x) <==> Pts(s, o, x)
    ensures forall x | Pts(r, id, x) :: Pts(s, t, x)
  {
    forall o, j: nat | o != id
      ensures SlotValue(r.heap, o, j) == SlotValue(s.heap, o, j)
    {
    }
  }

  lemma MadeShape(s: State, r: State, t: Id, i: nat, id: Id)
    requires UpMade(s, r, t, i, id) && Shape(s)
    ensures Shape(r)
  {
    MadeUps(s, r, t, i, id);
    MadeKinds(s, r, t, i, id);
    hide UpsOk;
    assert RootOk(r);
    assert StrsOk(r) by { StrsFound(s, r, id); }
    assert EnvOk(r);
  }

  lemma MadeCore(s: State, r: State, t: Id, i: nat, id: Id)
    requires UpMade(s, r, t, i, id) && Core(s) && Live(s, t)
    ensures Core(r)
    ensures forall o :: Live(r, o) <==> Live(s, o) || o == id
  {
    MadeShape(s, r, t, i, id);
    MadeKinds(s, r, t, i, id);
    assert UpsOk(s);
    MadeRefs(s, r, t, i, id);
    hide Shape, Pts, UpsOk;
    assert forall o :: Live(r, o) <==> Live(s, o) || o == id;
    assert forall o :: IsRoot(r, o) <==> IsRoot(s, o);
  }

  lemma MadeTri(s: State, r: State, t: Id, i: nat, id: Id)
    requires UpMade(s, r, t, i, id) && UpsOk(s) && Tri(s, {}) && NoDangling(s)
    ensures Tri(r, {})
  {
    MadeKinds(s, r, t, i, id);
    MadeRefs(s, r, t, i, id);
    hide UpsOk, Pts;
    assert BlackSafe(r, {});
    assert GrayKept(r);
    assert ListsOk(r);
    assert ColorsOk(r);
  }

  lemma MadePhase(s: State, r: State, t: Id, i: nat, id: Id)
    requires UpMade(s, r, t, i, id) && UpsOk(s) && PhaseOk(s) && (s.phase == Propagate ==> NoDangling(s))
    ensures PhaseOk(r)
  {
    MadeKinds(s, r, t, i, id);
    if s.phase == Propagate {
      MadeTri(s, r, t, i, id);
      hide Tri, UpsOk;
    } else {
      hide UpsOk;
      assert forall o | Fresh(s, o) :: Fresh(r, o);
      assert Fresh(r, id);
      assert forall o | IsThread(s, o) && o != t :: r.heap[o].body.open == s.heap[o].body.open;
    }
  }

  lemma NewUpvalInv(s: State, t: Id, i: nat, id: Id)
    requires Inv(s) && IsThread(s, t) && Live(s, t) && i < |s.heap[t].body.stack| && id !in s.heap
    ensures Inv(NewUpval(s, t, i, id))
    ensures forall o :: Live(NewUpval(s, t, i, id), o) <==> Live(s, o) || o == id
  {
    var r := NewUpval(s, t, i, id);
    InvCore(s);
    assert UpsOk(s);
    NewUpvalMade(s, t, i, id);
    hide Inv, Core, NewUpval, UpMade, UpsOk, NoDangling;
    if s.phase == Propagate {
      assert OneWhite(s);
      CoreOneWhite(s);
    }
    hide PhaseOk;
    MadeCore(s, r, t, i, id);
    MadePhase(s, r, t, i, id);
    CoreIsInv(r);
  }

  /** Capturing keeps the invariant; the upvalue is live afterwards. */
  lemma FindUpvalInv(s: State, t: Id, i: nat, id: Id)
    requires Inv(s) && IsThread(s, t) && Live(s, t) && i < |s.heap[t].body.stack| && id !in s.heap
    ensures var (r, u) := FindUpval(s, t, i, id);
            Inv(r) && Live(r, u) && (forall o | Live(s, o) :: Live(r, o)) && r.env == s.env
            && IsThread(r, t) && r.heap[t].body.stack == s.heap[t].body.stack
            && r.heap.Keys <= s.heap.Keys + {id}
  {
    var f := FindSlot(s, s.heap[t].body.open, i);
    InvCore(s);
    if f.Some? {
      assert UpsOk(s) && LiveClosed(s);
      assert forall x | Pts(s, f.value, x) :: Pts(s, t, x);
      hide Inv, Core, UpsOk, BodyPts;
      ReviveInv(s, f.value);
    } else {
      hide Inv, Core, PhaseOk;
      NewUpvalInv(s, t, i, id);
    }
  }

  // ---------------------------------------------------------------- closing the topmost variable

  /** One round of gafqF_close: the first open upvalue of `t` is freed if dead, closed if not. */
  function CloseHead(s: State, t: Id): State
    requires IsThread(s, t) && s.heap[t].body.open != []
  {
    var u := s.heap[t].body.open[0];
    if !IsUpOpen(s, u) || !IsThread(s, s.heap[u].body.thread) then s
    else if s.heap[u].color == White(!s.cw) then FreeUp(s, u)
    else Barrier(CloseUp(s, u), u, SlotValue(s.heap, s.heap[u].body.thread, s.heap[u].body.slot))
  }

  lemma UpLeftPhase(s: State, r: State, u: Id)
    requires UpLeft(s, r, u) && Shape(s) && PhaseOk(s) && s.phase != Propagate && ColorsOk(s)
    requires Live(s, u) <==> u in r.heap
    ensures PhaseOk(r)
  {
    UpLeftKinds(s, r, u);
    assert !s.heap[u].fixed by { assert EnvOk(s); }
    assert forall c: nat, o :: InBucket(r, c, o) <==> InBucket(s, c, o);
    assert forall c: nat | InBucket(s, c, u) :: false by { assert StrsOk(s); }
    assert u in r.heap ==> Fresh(r, u);
    assert forall o | o in r.heap && o != u :: o in s.heap && r.heap[o].color == s.heap[o].color;
    assert forall o | Fresh(s, o) && o != u :: Fresh(r, o);
    if s.phase == Sweep {
      hide UpLeft;
      UpLeftRootSwept(s, r, u);
    } else {
      hide Shape;
    }
  }

  lemma UpLeftRootSwept(s: State, r: State, u: Id)
    requires UpLeft(s, r, u) && Shape(s) && StrsSwept(s, |s.strs|) && RootSwept(s) && (u in r.heap ==> Fresh(r, u))
    requires forall o | Fresh(s, o) && o != u :: Fresh(r, o)
    ensures RootSwept(r) && StrsSwept(r, |r.strs|)
  {
    UpLeftKinds(s, r, u);
    assert forall c: nat, o :: InBucket(r, c, o) <==> InBucket(s, c, o);
    assert StrsOk(s) && UpsOk(s);
    hide Shape, StrsOk, UpsOk;
    forall o | o in r.swept
      ensures Fresh(r, o) && (IsThread(r, o) ==> forall x | x in r.heap[o].body.open :: Fresh(r, x))
    {
      if o != u {
        assert o in s.swept && Fresh(s, o);
        if IsThread(r, o) {
          assert forall x | x in r.heap[o].body.open :: x in s.heap[o].body.open && Fresh(s, x);
        }
      }
    }
    assert forall c: nat, o | InBucket(s, c, o) :: o != u by { StrsNotUp(s, u); }
  }

  lemma StrsNotUp(s: State, u: Id)
    requires StrsOk(s) && IsUpOpen(s, u)
    ensures forall c: nat, o | InBucket(s, c, o) :: o != u
  {
  }

  lemma UpLeftTri(s: State, r: State, u: Id)
    requires UpLeft(s, r, u) && u in r.heap && Tri(s, {}) && s.phase == Propagate
    ensures Tri(r, {u})
  {
    UpLeftKinds(s, r, u);
    UpLeftRefs(s, r, u);
    assert forall o | o in r.heap && o != u :: o in s.heap && r.heap[o].color == s.heap[o].color;
    hide Pts;
    assert u !in s.gray && u !in s.grayagain && u !in s.weak;
    assert BlackSafe(r, {u});
    assert GrayKept(r);
    assert ListsOk(r);
    assert ColorsOk(r) by { assert forall o | o in s.heap && o != u :: SameKindOrThread(s.heap[o].body, r.heap[o].body); }
  }

  predicate SameKindOrThread(b: Body, c: Body) { c == b || (b.Thread? && c.Thread?) }

  lemma CloseLiveInv(s: State, r: State, u: Id)
    requires Inv(s) && UpLeft(s, r, u) && u in r.heap && Live(s, u)
    ensures InvBut(r, u)
  {
    InvCore(s);
    assert Shape(s) && ColorsOk(s);
    hide Inv, Core, Shape;
    UpLeftCore(s, r, u);
    if s.phase == Propagate {
      UpLeftTri(s, r, u);
      assert OneWhite(r);
      hide Tri, ColorsOk;
      UpLeftEnv(s, r, u);
      ClosePropagate(s, r, u);
    } else {
      UpLeftPhase(s, r, u);
      hide UpLeft;
      assert r.phase == s.phase by { UpLeftClock(s, r, u); }
    }
  }

  lemma UpLeftClock(s: State, r: State, u: Id)
    requires UpLeft(s, r, u)
    ensures r.phase == s.phase
  {
  }

  lemma ClosePropagate(s: State, r: State, u: Id)
    requires UpLeft(s, r, u) && u in r.heap && s.phase == Propagate
    requires NonWhite(s, s.env.main) && NonWhite(s, s.env.registry)
    ensures r.phase == Propagate && NonWhite(r, r.env.main) && NonWhite(r, r.env.registry)
  {
  }

  /** Closing a variable keeps the invariant; what is freed was dead. */
  lemma CloseHeadInv(s: State, t: Id)
    requires Inv(s) && IsThread(s, t) && s.heap[t].body.open != []
    ensures Inv(CloseHead(s, t))
    ensures forall o | Live(s, o) :: o in CloseHead(s, t).heap
    ensures CloseHead(s, t).heap.Keys <= s.heap.Keys
  {
    var u := s.heap[t].body.open[0];
    assert u in s.heap[t].body.open;
    assert UpsOk(s);
    assert IsUpOpen(s, u) && s.heap[u].body.thread == t && !s.heap[u].fixed by { assert EnvOk(s); }
    InvCore(s);
    hide UpsOk;
    if Dead(s, u) {
      var r := FreeUp(s, u);
      assert Shape(s) && ColorsOk(s);
      FreeUpLeft(s, u);
      hide Inv, Core, FreeUp, Shape, ColorsOk;
      UpLeftCore(s, r, u);
      assert s.phase != Propagate by { hide UpLeft; DeadSweeps(s, u); }
      UpLeftPhase(s, r, u);
      assert r.heap.Keys <= s.heap.Keys;
      CoreIsInv(r);
    } else {
      var m := CloseUp(s, u);
      var v := SlotValue(s.heap, t, s.heap[u].body.slot);
      CloseUpLeft(s, u);
      hide Inv, Core, CloseUp;
      assert m.heap.Keys == s.heap.Keys && m.heap[u].body == UpClosed(v);
      CloseLiveInv(s, m, u);
      hide UpLeft;
      assert OnlyWhite(m, u, v, v);
      assert Live(m, u) by { UpLeftLive(s, m, u); }
      BarrierInv(m, u, v);
    }
  }

  lemma UpLeftLive(s: State, r: State, u: Id)
    requires UpLeft(s, r, u) && Live(s, u) && u in r.heap
    ensures Live(r, u)
  {
  }

  lemma DeadSweeps(s: State, u: Id)
    requires PhaseOk(s) && Dead(s, u)
    ensures s.phase != Propagate
  {
  }
}
