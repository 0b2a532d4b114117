/** Stores into existing objects and the write barriers that guard them (ggc.h, ggc.c:
    gafqC_barrierf, gafqC_barrierback; gapi.c and gvm.c for the stores). */
module GcBarrier {
  import opened GcHeap
  import opened GcMark
  import opened GcPropagate
  import opened GcAtomic
  import opened GcInv
  import opened GcCollect
  import opened GcSweep
  import opened GcStep

  // ---------------------------------------------------------------- barriers

  /** gafqC_barrier and gafqC_objbarrier: move the collector forward, or give up the colour. */
  function Barrier(s: State, o: Id, v: Value): State {
    if v.Ref? && IsWhite(s, v.id) && HasColor(s, o, Black) then
      if s.phase == Propagate then Mark(s, v.id) else MakeWhite(s, o)
    else s
  }

  /** gafqC_barriert and gafqC_objbarriert: the table will be visited again. */
  function BarrierBack(s: State, t: Id, v: Value): State {
    if v.Ref? && IsWhite(s, v.id) && HasColor(s, t, Black) then
      Paint(s, t, Gray).(grayagain := [t] + s.grayagain)
    else s
  }

  /** The invariant with one object exempt from the rule on black objects. */
  ghost predicate InvBut(s: State, o: Id) {
    && Core(s)
    && if s.phase == Propagate
       then Tri(s, {o}) && OneWhite(s) && NonWhite(s, s.env.main) && NonWhite(s, s.env.registry)
       else PhaseOk(s)
  }

  /** The only white objects that `o` may refer to, if it is black, are `k` and `v`. */
  ghost predicate OnlyWhite(s: State, o: Id, k: Value, v: Value) {
    s.phase == Propagate && HasColor(s, o, Black) && o !in s.tmu ==>
      forall x | Pts(s, o, x) :: NonWhite(s, x) || Ref(x) == k || Ref(x) == v
  }

  lemma TriUnskip(s: State, o: Id)
    requires Tri(s, {o})
    requires HasColor(s, o, Black) && o !in s.tmu ==> forall x | Pts(s, o, x) :: NonWhite(s, x)
    ensures Tri(s, {})
  {
    hide BodyPts;
  }

  /** If nothing white is left behind, the exemption is not needed. */
  lemma NoBarrier(s: State, o: Id)
    requires InvBut(s, o) && OnlyWhite(s, o, Nil, Nil)
    ensures Inv(s)
  {
    hide Core, BodyPts;
    if s.phase == Propagate {
      hide Tri;
      TriUnskip(s, o);
    }
    assert PhaseOk(s);
    CoreIsInv(s);
  }

  lemma CoreOneWhite(s: State)
    requires Core(s) && OneWhite(s)
    ensures NoDangling(s)
  {
    OneWhiteAllLive(s);
  }

  /** In the propagation phase the forward barrier marks the stored value. */
  lemma BarrierMarks(s: State, o: Id, v: Value)
    requires InvBut(s, o) && OnlyWhite(s, o, v, v) && s.phase == Propagate
    requires v.Ref? && IsWhite(s, v.id) && HasColor(s, o, Black)
    ensures Inv(Mark(s, v.id))
  {
    var r := Mark(s, v.id);
    hide Core, Tri, BodyPts;
    CoreOneWhite(s);
    MarkMarks(s, v.id);
    hide Mark;
    BarrierMarked(s, r, o, v);
  }

  lemma BarrierMarked(s: State, r: State, o: Id, v: Value)
    requires InvBut(s, o) && OnlyWhite(s, o, v, v) && s.phase == Propagate && NoDangling(s)
    requires v.Ref? && IsWhite(s, v.id) && HasColor(s, o, Black) && Marks(s, r) && NonWhite(r, v.id)
    ensures Inv(r)
  {
    hide Core, Tri, BodyPts;
    MarksKeepTri(s, r, {o}, Stage(false, false, false));
    MarksRepaint(s, r);
    assert ColorsOk(r) by { TriColors(r, o); }
    CoreRepaint(s, r);
    SameRefs(s, r);
    TriUnskip(r, o);
    assert PhaseOk(r);
    CoreIsInv(r);
  }

  lemma TriColors(s: State, o: Id)
    requires Tri(s, {o})
    ensures ColorsOk(s)
  {
  }

  lemma CoreRepaint(s: State, r: State)
    requires Core(s) && Repainted(s, r) && OneWhite(s) && OneWhite(r) && ColorsOk(r)
    ensures Core(r)
  {
    RepaintedInv(s, r);
  }

  /** Outside the propagation phase, the phase conditions only ask that fresh objects stay
      fresh and that no dead colour appears. */
  ghost predicate Steady(s: State, r: State) {
    && r == s.(heap := r.heap, env := r.env, grayagain := r.grayagain)
    && r.heap.Keys == s.heap.Keys
    && (forall p | Fresh(s, p) :: Fresh(r, p))
    && (forall p | p in s.heap :: r.heap[p].color == s.heap[p].color || r.heap[p].color == White(s.cw) || !r.heap[p].color.White?)
    && (forall p | IsThread(r, p) :: IsThread(s, p) && r.heap[p].body.open == s.heap[p].body.open)
  }

  lemma SteadyPhase(s: State, r: State)
    requires Steady(s, r) && s.phase != Propagate && PhaseOk(s)
    ensures PhaseOk(r)
  {
    assert forall b: nat, p :: InBucket(r, b, p) <==> InBucket(s, b, p);
    assert forall p | p in s.heap && s.heap[p].color == White(s.cw) :: Fresh(s, p) && Fresh(r, p);
  }

  lemma WhitenSteady(s: State, o: Id)
    requires o in s.heap
    ensures Steady(s, MakeWhite(s, o))
  {
  }

  lemma BackSteady(s: State, t: Id)
    requires HasColor(s, t, Black)
    ensures Steady(s, Paint(s, t, Gray).(grayagain := [t] + s.grayagain))
  {
  }

  lemma InvCore(s: State)
    requires Inv(s)
    ensures Core(s) && PhaseOk(s)
  {
  }

  /** Outside it, the object is whitened, which only spares later barriers. */
  lemma BarrierWhitens(s: State, o: Id)
    requires Inv(s) && s.phase != Propagate && Live(s, o)
    ensures Inv(MakeWhite(s, o))
  {
    hide Core, Inv, PhaseOk, Steady;
    InvCore(s);
    MakeWhiteCore(s, o);
    WhitenSteady(s, o);
    SteadyPhase(s, MakeWhite(s, o));
    CoreIsInv(MakeWhite(s, o));
  }

  /** The forward barrier restores the invariant after a store of `v` into `o`. */
  lemma BarrierInv(s: State, o: Id, v: Value)
    requires InvBut(s, o) && OnlyWhite(s, o, v, v) && Live(s, o)
    ensures Inv(Barrier(s, o, v))
    ensures Barrier(s, o, v).heap.Keys == s.heap.Keys
  {
    hide Core, PhaseOk, Tri, Pts;
    if v.Ref? && IsWhite(s, v.id) && HasColor(s, o, Black) {
      if s.phase == Propagate {
        BarrierMarks(s, o, v);
        MarkMarks(s, v.id);
      } else {
        CoreIsInv(s);
        BarrierWhitens(s, o);
      }
    } else {
      if s.phase == Propagate {
        CoreOneWhite(s);
      }
      NothingWhite(s, o, v, v);
      NoBarrier(s, o);
    }
  }

  /** Graying a black table and linking it to grayagain. */
  lemma BackTri(s: State, t: Id)
    requires Tri(s, {t}) && HasColor(s, t, Black) && s.heap[t].body.Table?
    ensures var r := Paint(s, t, Gray).(grayagain := [t] + s.grayagain); Tri(r, {})
  {
    var r := Paint(s, t, Gray).(grayagain := [t] + s.grayagain);
    SameRefs(s, r);
    hide BodyPts, StrongPts, Mode;
    assert t !in s.gray && t !in s.grayagain && t !in s.weak;
    assert forall i | 0 <= i < |s.grayagain| :: s.grayagain[i] in s.grayagain;
    assert ListsOk(r);
    assert BlackSafe(r, {});
    assert GrayKept(r);
  }

  lemma BackCore(s: State, t: Id)
    requires Core(s) && HasColor(s, t, Black) && s.heap[t].body.Table?
    ensures Core(Paint(s, t, Gray).(grayagain := [t] + s.grayagain))
  {
    var r := Paint(s, t, Gray).(grayagain := [t] + s.grayagain);
    assert Repainted(s, r);
    assert forall x :: Live(s, x) <==> Live(r, x);
    assert ColorsOk(r);
    hide Shape, ColorsOk, Paint, Live, BodyPts;
    assert Shape(r) by { RepaintedShape(s, r); }
    assert LiveClosed(r) && RootsLive(r) by { hide Repainted; RepaintedLive(s, r); }
  }

  lemma BarrierBackInv(s: State, t: Id, k: Value, v: Value)
    requires InvBut(s, t) && OnlyWhite(s, t, k, v) && t in s.heap && s.heap[t].body.Table?
    ensures Inv(BarrierBack(BarrierBack(s, t, k), t, v))
    ensures BarrierBack(BarrierBack(s, t, k), t, v).heap.Keys == s.heap.Keys
  {
    var r := Paint(s, t, Gray).(grayagain := [t] + s.grayagain);
    hide Core, Tri, PhaseOk, Pts, OnlyWhite, OneWhite, Steady;
    if BarrierBack(BarrierBack(s, t, k), t, v) == s {
      assert k.Ref? && IsWhite(s, k.id) ==> !HasColor(s, t, Black);
      assert v.Ref? && IsWhite(s, v.id) ==> !HasColor(s, t, Black);
      if s.phase == Propagate {
        CoreOneWhite(s);
      }
      NothingWhite(s, t, k, v);
      NoBarrier(s, t);
    } else {
      assert HasColor(s, t, Black) && BarrierBack(BarrierBack(s, t, k), t, v) == r;
      BackCore(s, t);
      if s.phase == Propagate {
        BackTri(s, t);
        BackPhase(s, r, t);
      } else {
        BackSteady(s, t);
        SteadyPhase(s, r);
      }
      CoreIsInv(r);
    }
  }

  lemma NothingWhite(s: State, t: Id, k: Value, v: Value)
    requires OnlyWhite(s, t, k, v) && (s.phase == Propagate ==> NoDangling(s))
    requires k.Ref? && IsWhite(s, k.id) ==> !HasColor(s, t, Black)
    requires v.Ref? && IsWhite(s, v.id) ==> !HasColor(s, t, Black)
    ensures OnlyWhite(s, t, Nil, Nil)
  {
    hide BodyPts;
  }

  lemma BackPhase(s: State, r: State, t: Id)
    requires OneWhite(s) && NonWhite(s, s.env.main) && NonWhite(s, s.env.registry) && s.phase == Propagate
    requires t in s.heap && r == Paint(s, t, Gray).(grayagain := [t] + s.grayagain) && Tri(r, {})
    ensures PhaseOk(r)
  {
  }
}
