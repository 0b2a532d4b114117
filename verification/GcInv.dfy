/** The invariant that every collector step and every mutator step keeps. */
module GcInv {
  import opened GcHeap
  import opened GcMark
  import opened GcPropagate
  import opened GcAtomic

  predicate IsThread(s: State, t: Id) { t in s.heap && s.heap[t].body.Thread? }

  predicate IsUpOpen(s: State, u: Id) { u in s.heap && s.heap[u].body.UpOpen? }

  predicate IsStr(s: State, o: Id) { o in s.heap && s.heap[o].body.Str? }

  // ---------------------------------------------------------------- where objects live

  /** Open upvalues and the threads whose stack they point into agree with each other. */
  ghost predicate UpsOk(s: State) {
    && (forall t | IsThread(s, t) :: NoDup(s.heap[t].body.open))
    && (forall t, u | IsThread(s, t) && u in s.heap[t].body.open :: IsUpOpen(s, u) && s.heap[u].body.thread == t)
    && (forall u | IsUpOpen(s, u) ::
          var t := s.heap[u].body.thread;
          IsThread(s, t) && u in s.heap[t].body.open && s.heap[u].body.slot < |s.heap[t].body.stack|)
    && UpvalsListed(s)
  }

  /** Objects that live on the rootgc list or wait on tmudata. */
  predicate RootKind(s: State, o: Id) { o in s.heap && !s.heap[o].body.Str? && !s.heap[o].body.UpOpen? }

  ghost predicate RootOk(s: State) {
    && RootNoDup(s)
    && (forall o | InRoot(s, o) :: RootKind(s, o))
    && (forall o | RootKind(s, o) :: InRoot(s, o) || o in s.tmu)
    && TmuOk(s)
  }

  predicate InBucket(s: State, b: nat, o: Id) { b < |s.strs| && o in s.strs[b] }

  ghost predicate StrsOk(s: State) {
    && |s.strs| > 0
    && (forall b: nat, o | InBucket(s, b, o) :: IsStr(s, o))
    && (forall o | IsStr(s, o) :: exists b: nat :: InBucket(s, b, o))
    && (forall b: nat, c: nat, o | InBucket(s, b, o) && InBucket(s, c, o) :: b == c)
    && (forall b: nat | b < |s.strs| :: NoDup(s.strs[b]))
  }

  ghost predicate EnvOk(s: State) {
    && IsThread(s, s.env.main) && s.heap[s.env.main].fixed && s.env.main !in s.tmu
    && IsThread(s, s.env.running)
    && (forall o | o in s.heap && s.heap[o].fixed :: IsStr(s, o) || o == s.env.main)
  }

  ghost predicate Shape(s: State) { UpsOk(s) && RootOk(s) && StrsOk(s) && EnvOk(s) }

  // ---------------------------------------------------------------- liveness

  /** A live object refers to live objects only: nothing dangling, nothing dead. */
  ghost predicate LiveClosed(s: State) {
    forall o, x | Live(s, o) && Pts(s, o, x) :: Live(s, x)
  }

  predicate IsRoot(s: State, x: Id) {
    x == s.env.main || x == s.env.running || x == s.env.registry || Some(x) in s.env.mts
  }

  ghost predicate RootsLive(s: State) {
    && (forall x | IsRoot(s, x) :: Live(s, x))
    && (forall x | x in s.tmu :: Live(s, x))
  }

  // ---------------------------------------------------------------- phases

  ghost predicate OneWhite(s: State) { forall o | o in s.heap && s.heap[o].color.White? :: s.heap[o].color == White(s.cw) }

  /** Everything but userdata waiting for __gc carries the current white. */
  ghost predicate AllWhite(s: State) { forall o | o in s.heap && o !in s.tmu :: s.heap[o].color == White(s.cw) }

  predicate Fresh(s: State, o: Id) { HasColor(s, o, White(s.cw)) }

  ghost predicate StrsSwept(s: State, n: nat) { forall b: nat, o | b < n && InBucket(s, b, o) :: Fresh(s, o) }

  ghost predicate RootSwept(s: State) {
    forall o | o in s.swept :: Fresh(s, o) && (IsThread(s, o) ==> forall u | u in s.heap[o].body.open :: Fresh(s, u))
  }

  ghost predicate PhaseOk(s: State) {
    match s.phase
    case Pause => s.tmu == [] && AllWhite(s) && OneWhite(s)
    case Propagate => Tri(s, {}) && OneWhite(s) && NonWhite(s, s.env.main) && NonWhite(s, s.env.registry)
    case SweepString => s.sweepstr < |s.strs| && s.swept == [] && StrsSwept(s, s.sweepstr)
    case Sweep => StrsSwept(s, |s.strs|) && RootSwept(s)
    case Finalize => AllWhite(s) && OneWhite(s)
  }

  ghost predicate Inv(s: State) {
    Shape(s) && ColorsOk(s) && LiveClosed(s) && RootsLive(s) && PhaseOk(s)
  }

  // ---------------------------------------------------------------- safety

  /** `p` follows references from a root. */
  ghost predicate Path(s: State, p: seq<Id>) {
    && |p| > 0 && IsRoot(s, p[0])
    && forall i | 0 <= i < |p| - 1 :: Pts(s, p[i], p[i + 1])
  }

  /** The program can get hold of `x`: it is reached from a root through any references. */
  ghost predicate Accessible(s: State, x: Id) { exists p :: Path(s, p) && p[|p| - 1] == x }

  /** Whatever the program can get hold of exists and is not about to be freed. */
  lemma {:induction false} PathLive(s: State, p: seq<Id>)
    requires LiveClosed(s) && RootsLive(s) && Path(s, p)
    ensures Live(s, p[|p| - 1])
  {
    if |p| > 1 {
      PathLive(s, p[..|p| - 1]);
      assert Pts(s, p[|p| - 2], p[|p| - 1]);
    }
  }

  lemma AccessibleLive(s: State, x: Id)
    requires Inv(s) && Accessible(s, x)
    ensures Live(s, x)
  {
    var p :| Path(s, p) && p[|p| - 1] == x;
    PathLive(s, p);
  }

  // ---------------------------------------------------------------- changes that keep the shape

  predicate SameKind(b: Body, c: Body) {
    match b
    case Str(_, _) => c.Str?
    case Udata(_, _) => c.Udata?
    case UpOpen(_, _) => c == b
    case UpClosed(_) => c.UpClosed?
    case Closure(_, _) => c.Closure?
    case Table(_, _, _) => c.Table?
    case Thread(_, _, _) => c.Thread? && c.open == b.open
    case Proto(_) => c.Proto?
  }

  /** Same objects of the same kinds. */
  ghost predicate Alike(s: State, r: State) {
    && r.heap.Keys == s.heap.Keys
    && (forall o | o in s.heap :: SameKind(s.heap[o].body, r.heap[o].body) && r.heap[o].fixed == s.heap[o].fixed)
    && r.strs == s.strs && r.uvhead == s.uvhead && r.env.main == s.env.main
  }

  /** Stacks still cover the slots of their open upvalues. */
  ghost predicate StacksCover(s: State, r: State) {
    forall t | IsThread(s, t) && t in r.heap && r.heap[t].body.Thread? ::
      |s.heap[t].body.stack| <= |r.heap[t].body.stack| ||
      forall u | u in s.heap[t].body.open && IsUpOpen(s, u) :: s.heap[u].body.slot < |r.heap[t].body.stack|
  }

  lemma AlikeKinds(s: State, r: State)
    requires Alike(s, r)
    ensures forall t :: IsThread(s, t) <==> IsThread(r, t)
    ensures forall t :: IsUpOpen(s, t) <==> IsUpOpen(r, t)
    ensures forall t :: IsStr(s, t) <==> IsStr(r, t)
    ensures forall t :: RootKind(s, t) <==> RootKind(r, t)
  {
  }

  lemma AlikeUps(s: State, r: State)
    requires Alike(s, r) && UpsOk(s) && StacksCover(s, r)
    ensures UpsOk(r)
  {
    AlikeKinds(s, r);
    hide SameKind;
    forall t | IsThread(s, t)
      ensures IsThread(r, t) && r.heap[t].body.open == s.heap[t].body.open
    {
      assert SameKind(s.heap[t].body, r.heap[t].body);
      AlikeThread(s.heap[t].body, r.heap[t].body);
    }
    forall u | IsUpOpen(s, u)
      ensures r.heap[u].body == s.heap[u].body
    {
      AlikeThread(s.heap[u].body, r.heap[u].body);
    }
  }

  lemma AlikeThread(b: Body, c: Body)
    requires SameKind(b, c)
    ensures b.Thread? ==> c.Thread? && c.open == b.open
    ensures b.UpOpen? ==> c == b
  {
  }

  lemma AlikeStrs(s: State, r: State)
    requires Alike(s, r) && StrsOk(s)
    ensures StrsOk(r)
  {
    AlikeKinds(s, r);
    assert forall b: nat, t :: InBucket(s, b, t) <==> InBucket(r, b, t);
  }

  lemma AlikeEnv(s: State, r: State)
    requires Alike(s, r) && EnvOk(s) && IsThread(r, r.env.running) && s.env.main !in r.tmu
    ensures EnvOk(r)
  {
    AlikeKinds(s, r);
  }

  /** The lists that hold the objects are the same, and so are the FINALIZED bits. */
  ghost predicate SameRoot(s: State, r: State) {
    && r.swept == s.swept && r.unswept == s.unswept && r.tmu == s.tmu
    && (forall o | o in s.heap && o in r.heap :: r.heap[o].fin == s.heap[o].fin)
  }

  lemma AlikeRoot(s: State, r: State)
    requires Alike(s, r) && RootOk(s) && SameRoot(s, r)
    ensures RootOk(r)
  {
    AlikeKinds(s, r);
    assert forall t :: InRoot(s, t) <==> InRoot(r, t);
    assert forall t | t in s.tmu :: SameKind(s.heap[t].body, r.heap[t].body);
  }

  /** Changes to the contents of objects keep the shape of the heap. */
  lemma AlikeShape(s: State, r: State)
    requires Shape(s) && Alike(s, r) && SameRoot(s, r) && StacksCover(s, r) && IsThread(r, r.env.running)
    ensures Shape(r)
  {
    hide UpsOk, RootOk, StrsOk, Alike, SameRoot, StacksCover;
    AlikeUps(s, r);
    AlikeStrs(s, r);
    AlikeRoot(s, r);
    assert s.env.main !in r.tmu by { SameTmu(s, r); }
    AlikeEnv(s, r);
  }

  lemma SameTmu(s: State, r: State)
    requires SameRoot(s, r)
    ensures r.tmu == s.tmu
  {
  }

  /** `r` differs from `s` in colours, mode bits and collector lists only. */
  ghost predicate Repainted(s: State, r: State) {
    && SameBodies(s, r) && r.env == s.env && SameRoot(s, r)
    && r.strs == s.strs && r.uvhead == s.uvhead
    && (forall o | o in s.heap :: r.heap[o].fixed == s.heap[o].fixed)
  }

  lemma RepaintedShape(s: State, r: State)
    requires Shape(s) && Repainted(s, r)
    ensures Shape(r)
  {
    assert Alike(s, r);
    assert StacksCover(s, r);
    assert IsThread(r, r.env.running);
    AlikeShape(s, r);
  }

  /** No object has become dead. */
  ghost predicate NoneDied(s: State, r: State) { forall o | Live(s, o) :: Live(r, o) }

  lemma RepaintedLive(s: State, r: State)
    requires Repainted(s, r) && LiveClosed(s) && RootsLive(s) && NoneDied(s, r)
    requires forall o | Live(r, o) :: Live(s, o) || IsStr(s, o)
    ensures LiveClosed(r) && RootsLive(r)
  {
    SameRefs(s, r);
    forall o, x | Live(r, o) && Pts(r, o, x)
      ensures Live(r, x)
    {
      assert Pts(s, o, x);
    }
    assert forall x :: IsRoot(r, x) <==> IsRoot(s, x);
  }

  /** With a single white, nothing is dead and no reference dangles. */
  lemma OneWhiteAllLive(s: State)
    requires OneWhite(s)
    ensures forall o :: Live(s, o) <==> o in s.heap
    ensures LiveClosed(s) <==> NoDangling(s)
  {
    forall o
      ensures Live(s, o) <==> o in s.heap
    {
    }
    if LiveClosed(s) {
      forall o, x | Pts(s, o, x)
        ensures x in s.heap
      {
        assert Live(s, o);
        assert Live(s, x);
      }
    }
  }
}
