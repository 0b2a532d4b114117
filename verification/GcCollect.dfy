/** The mark-phase steps of singlestep (ggc.c): markroot, one propagation step, atomic. */
module GcCollect {
  import opened GcHeap
  import opened GcMark
  import opened GcPropagate
  import opened GcAtomic
  import opened GcInv

  // ---------------------------------------------------------------- markroot

  function RootIds(s: State): seq<Id> {
    [s.env.main] + (if IsThread(s, s.env.main) then Ids([s.heap[s.env.main].body.gt]) else []) +
    [s.env.registry] + OptIds(s.env.mts)
  }

  function MarkRoot(s: State): State {
    MarkMany(s.(gray := [], grayagain := [], weak := []), RootIds(s)).(phase := Propagate)
  }

  lemma MarksRepaint(s: State, r: State)
    requires Marks(s, r)
    ensures Repainted(s, r)
    ensures OneWhite(s) ==> OneWhite(r)
  {
  }

  lemma AllWhiteTri(s: State)
    requires AllWhite(s) && ColorsOk(s) && TmuOk(s) && s.gray == [] && s.grayagain == [] && s.weak == []
    ensures Tri(s, {})
  {
    assert forall o | o in s.tmu :: !s.heap[o].color.Gray?;
  }

  /** A repainting that keeps a single white keeps everything but the phase conditions. */
  lemma RepaintedInv(s: State, r: State)
    requires Shape(s) && LiveClosed(s) && RootsLive(s) && OneWhite(s)
    requires Repainted(s, r) && OneWhite(r)
    ensures Shape(r) && LiveClosed(r) && RootsLive(r)
  {
    RepaintedShape(s, r);
    OneWhiteAllLive(s);
    OneWhiteAllLive(r);
    hide Shape, OneWhite;
    RepaintedLive(s, r);
  }

  lemma MarkRootInv(s: State)
    requires Inv(s) && (s.phase == Pause || s.phase == Finalize)
    ensures Inv(MarkRoot(s)) && MarkRoot(s).phase == Propagate
    ensures MarkRoot(s).heap.Keys == s.heap.Keys
  {
    var s1 := s.(gray := [], grayagain := [], weak := []);
    var s2 := MarkMany(s1, RootIds(s));
    var r := MarkRoot(s);
    assert RootOk(s);
    OneWhiteAllLive(s);
    SameRefs(s, s1);
    AllWhiteTri(s1);
    MarkManyMarks(s1, RootIds(s));
    MarksRepaint(s1, s2);
    RepaintedSame(s, s1, s2, r);
    RepaintedInv(s, r);
    assert Tri(r, {}) by {
      MarksKeepTri(s1, s2, {}, Stage(false, false, false));
      TriSame(s2, r);
    }
    assert Live(s, s.env.main) && Live(s, s.env.registry);
    assert s.env.main in RootIds(s) && s.env.registry in RootIds(s);
  }

  lemma RepaintedSame(s: State, s1: State, s2: State, r: State)
    requires s1 == s.(gray := s1.gray, grayagain := s1.grayagain, weak := s1.weak)
    requires Repainted(s1, s2) && r == s2.(phase := r.phase)
    requires OneWhite(s) && (OneWhite(s1) ==> OneWhite(s2)) && s2.cw == s1.cw
    ensures Repainted(s, r) && OneWhite(r)
  {
  }

  lemma TriSame(s: State, r: State)
    requires Tri(s, {}) && r == s.(phase := r.phase)
    ensures Tri(r, {})
  {
    SameRefs(s, r);
  }

  // ---------------------------------------------------------------- propagation

  lemma FrameRepainted(s: State, r: State)
    requires SameFrame(s, r)
    ensures Repainted(s, r)
    ensures OneWhite(s) ==> OneWhite(r)
  {
  }

  /** One propagation step keeps the invariant and frees nothing. */
  lemma PropagateInv(s: State)
    requires Inv(s) && s.phase == Propagate && s.gray != []
    ensures s.gray[0] in s.heap
    ensures Inv(PropagateMark(s)) && PropagateMark(s).phase == Propagate
    ensures PropagateMark(s).heap.Keys == s.heap.Keys
  {
    var o := s.gray[0];
    assert o in s.gray;
    assert HasColor(s, o, Gray);
    OneWhiteAllLive(s);
    PropagateMarkTri(s, Stage(false, false, false));
    PropagateMarkFrame(s);
    var r := PropagateMark(s);
    FrameRepainted(s, r);
    RepaintedInv(s, r);
  }

  // ---------------------------------------------------------------- atomic

  lemma PreserveShape(s: State, a: State)
    requires Shape(s) && PreserveFrame(s, a) && TmuOk(a)
    ensures Shape(a)
  {
    assert Alike(s, a);
    assert StacksCover(s, a);
    AlikeUps(s, a);
    AlikeStrs(s, a);
    AlikeKinds(s, a);
    assert forall o | o in a.tmu :: !IsThread(a, o);
    AlikeEnv(s, a);
    assert RootOk(a);
  }

  lemma TrimmedShape(a: State, c: State)
    requires Shape(a) && Trimmed(a, c)
    ensures Shape(c)
  {
    assert Alike(a, c);
    assert SameRoot(a, c);
    assert StacksCover(a, c);
    assert IsThread(c, c.env.running);
    AlikeShape(a, c);
  }

  lemma FlipShape(c: State)
    requires Shape(c)
    ensures Shape(Flip(c))
  {
    var r := Flip(c);
    SweepFromStartShape(c);
    assert Alike(SweepFromStart(c), r) && SameRoot(SweepFromStart(c), r) && StacksCover(SweepFromStart(c), r);
    assert IsThread(r, r.env.running);
    AlikeShape(SweepFromStart(c), r);
  }

  lemma SweepFromStartShape(c: State)
    requires Shape(c)
    ensures Shape(SweepFromStart(c))
  {
    var r := SweepFromStart(c);
    assert Alike(c, r) && StacksCover(c, r);
    AlikeUps(c, r);
    AlikeStrs(c, r);
    AlikeKinds(c, r);
    AlikeEnv(c, r);
    assert forall o :: InRoot(r, o) <==> InRoot(c, o);
    NoDupConcat(c.swept, c.unswept);
    assert RootOk(r);
  }

  lemma NoDupConcat(a: seq<Id>, b: seq<Id>)
    requires NoDup(a) && NoDup(b) && forall o | o in a :: o !in b
    ensures NoDup(a + b)
  {
    var c := a + b;
    forall i, j | 0 <= i < j < |c|
      ensures c[i] != c[j]
    {
      if i < |a| <= j {
        assert c[i] in a && c[j] in b;
      }
    }
  }

  /** After the flip, live is what was marked (and fixed strings). */
  lemma FlipLive(s: State, a: State, c: State, r: State)
    requires OneWhite(s) && PreserveFrame(s, a) && Trimmed(a, c) && r == Flip(c)
    ensures forall o | o in r.heap :: Live(r, o) <==> NonWhite(r, o) || r.heap[o].fixed
  {
    forall o | o in r.heap && IsWhite(r, o)
      ensures r.heap[o].color == White(!r.cw)
    {
      assert IsWhite(a, o);
      assert a.heap[o].color == s.heap[o].color;
    }
  }

  /** The atomic phase keeps the invariant: from here on, dead objects are those that no live
      object refers to. */
  lemma AtomicInv(s: State)
    requires Inv(s) && s.phase == Propagate
    ensures Inv(Atomic(s)) && Atomic(s).phase == SweepString
    ensures Atomic(s).heap.Keys == s.heap.Keys
  {
    var a, r := AtomicPreserve(AtomicMark(s)), Atomic(s);
    assert Tri(s, {}) && UpsOk(s) && RootOk(s) && OneWhite(s);
    hide UpsOk, RootOk, Tri, Shape, PreserveFrame, Trimmed, RootsLive, LiveClosed, Atomic, AtomicPreserve, AtomicMark;
    hide ColorsOk;
    OneWhiteAllLive(s);
    assert UpvalsListed(s) && TmuOk(s) by { ShapeParts(s); }
    hide OneWhite, TmuOk, UpvalsListed, NoDangling;
    AtomicSpec(s);
    var c :| Trimmed(a, c) && r == Flip(c);
    PreserveShape(s, a);
    TrimmedShape(a, c);
    FlipShape(c);
    FlipLive(s, a, c, r);
    AtomicLive(s, a, c, r);
    AtomicPhase(s, a, c, r);
  }

  lemma ShapeParts(s: State)
    requires UpsOk(s) && RootOk(s)
    ensures UpvalsListed(s) && TmuOk(s)
  {
  }

  lemma AtomicPhase(s: State, a: State, c: State, r: State)
    requires PreserveFrame(s, a) && Trimmed(a, c) && r == Flip(c) && Shape(r)
    ensures PhaseOk(r) && r.heap.Keys == s.heap.Keys
  {
    assert StrsSwept(r, 0);
    assert StrsOk(r);
  }

  lemma AtomicLive(s: State, a: State, c: State, r: State)
    requires Shape(r) && NonWhite(s, s.env.main) && NonWhite(s, s.env.registry)
    requires PreserveFrame(s, a) && Trimmed(a, c) && r == Flip(c) && RootsLive(s)
    requires forall o | o in r.heap :: Live(r, o) <==> NonWhite(r, o) || r.heap[o].fixed
    requires forall o, x | NonWhite(r, o) && Pts(r, o, x) :: NonWhite(r, x)
    requires forall u | u in r.tmu :: NonWhite(r, u)
    requires forall x | (x == s.env.running || Some(x) in s.env.mts) && x in s.heap :: NonWhite(r, x)
    ensures LiveClosed(r) && RootsLive(r)
  {
    forall o, x | Live(r, o) && Pts(r, o, x)
      ensures Live(r, x)
    {
      assert NonWhite(a, s.env.main);
      assert NonWhite(r, o) || IsStr(r, o);
    }
    forall x | IsRoot(r, x)
      ensures Live(r, x)
    {
      assert IsRoot(s, x) && Live(s, x);
      assert NonWhite(a, s.env.main) && NonWhite(a, s.env.registry);
    }
  }
}
