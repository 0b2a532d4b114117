/** A full collection that starts while a finalizer is pending can finalize userdata that the program still reaches. */
module GcLate {
  import opened GcHeap
  import opened GcMark
  import opened GcPropagate
  import opened GcAtomic
  import opened GcInv
  import opened GcCollect
  import opened GcReach
  import opened GcFull

  /** The objects of the example: main thread, registry, the names of two events, a pending userdata and the table it
      refers to, a newer userdata in that table, and the metatable of the latter. */
  datatype Names = Names(main: Id, registry: Id, mode: Id, gc: Id, pending: Id, table: Id, newer: Id, meta: Id)

  ghost predicate Distinct(n: Names) { NoDup([n.main, n.registry, n.mode, n.gc, n.pending, n.table, n.newer, n.meta]) }

  /** In the finalize phase: the program has got hold of the pending userdata, which is still black, and has put a new
      userdata with a finalizer into its table. */
  function Late(n: Names): State {
    State(
      map[n.main := Obj(White(false), true, false, false, false, Thread(Ref(n.registry), [Ref(n.pending)], [])),
          n.registry := Obj(White(false), false, false, false, false, Table(None, [], [])),
          n.mode := Obj(White(false), true, false, false, false, Str(false, false)),
          n.gc := Obj(White(false), true, false, false, false, Str(false, false)),
          n.pending := Obj(Black, false, true, false, false, Udata(None, n.table)),
          n.table := Obj(White(false), false, false, false, false, Table(None, [Ref(n.newer)], [])),
          n.newer := Obj(White(false), false, false, false, false, Udata(Some(n.meta), n.table)),
          n.meta := Obj(White(false), false, false, false, false, Table(None, [], [Node(Ref(n.gc), Plain)]))],
      false, Finalize, [[n.mode, n.gc]], 0, [], [n.newer, n.meta, n.table, n.registry, n.main], [], [], [], [n.pending], [],
      Env(n.registry, n.main, n.main, [], n.mode, n.gc))
  }

  lemma Apart(n: Names)
    requires Distinct(n)
    ensures n.main !in {n.registry, n.mode, n.gc, n.pending, n.table, n.newer, n.meta}
    ensures n.registry !in {n.mode, n.gc, n.pending, n.table, n.newer, n.meta}
    ensures n.mode !in {n.gc, n.pending, n.table, n.newer, n.meta}
    ensures n.gc !in {n.pending, n.table, n.newer, n.meta} && n.pending !in {n.table, n.newer, n.meta}
    ensures n.table !in {n.newer, n.meta} && n.newer != n.meta
  {
    var l := [n.main, n.registry, n.mode, n.gc, n.pending, n.table, n.newer, n.meta];
    assert l[0] == n.main && l[1] == n.registry && l[2] == n.mode && l[3] == n.gc;
    assert l[4] == n.pending && l[5] == n.table && l[6] == n.newer && l[7] == n.meta;
  }

  /** The object of each name. */
  lemma LateObjects(n: Names)
    requires Distinct(n)
    ensures var s := Late(n);
            && s.heap.Keys == {n.main, n.registry, n.mode, n.gc, n.pending, n.table, n.newer, n.meta}
            && s.heap[n.main].body == Thread(Ref(n.registry), [Ref(n.pending)], []) &&
               s.heap[n.registry].body == Table(None, [], [])
            && s.heap[n.mode].body == s.heap[n.gc].body == Str(false, false) &&
               s.heap[n.pending].body == Udata(None, n.table)
            && s.heap[n.table].body == Table(None, [Ref(n.newer)], []) &&
               s.heap[n.newer].body == Udata(Some(n.meta), n.table)
            && s.heap[n.meta].body == Table(None, [], [Node(Ref(n.gc), Plain)])
            && s.heap[n.pending].color == Black && s.heap[n.pending].fin && !s.heap[n.newer].fin
            && (forall o | o in s.heap && o != n.pending :: s.heap[o].color == White(false))
            && (forall o | o in s.heap :: s.heap[o].fixed <==> o in {n.main, n.mode, n.gc})
  {
    Apart(n);
  }

  lemma LateRefs(n: Names)
    requires Distinct(n)
    ensures forall o, x | Pts(Late(n), o, x) :: x in Late(n).heap
    ensures forall o, x | Pts(Late(n), o, x) && o in {n.main, n.registry} :: x in {n.registry, n.pending}
    ensures Pts(Late(n), n.main, n.pending) && Pts(Late(n), n.pending, n.table) && StrongPts(Late(n), n.table, n.newer)
  {
    var s := Late(n);
    LateObjects(n);
    Apart(n);
    hide Late;
    assert Ref(n.pending) in s.heap[n.main].body.stack && Ref(n.newer) in s.heap[n.table].body.arr;
  }

  lemma LateInv(n: Names)
    requires Distinct(n)
    ensures Inv(Late(n))
  {
    hide Late, Pts;
    var s := Late(n);
    LateEnv(n);
    LateObjects(n);
    LateRefs(n);
    LateShape(s, n);
    hide Shape;
    assert forall o :: Live(s, o) <==> o in s.heap;
    assert ColorsOk(s);
  }

  lemma LateShape(s: State, n: Names)
    requires Distinct(n) && s.heap.Keys == {n.main, n.registry, n.mode, n.gc, n.pending, n.table, n.newer, n.meta}
    requires s.heap[n.main].body.Thread? && s.heap[n.main].body.open == [] && s.heap[n.mode].body.Str?
    requires s.heap[n.gc].body.Str?
    requires s.heap[n.registry].body.Table? && s.heap[n.pending].body.Udata? && s.heap[n.pending].fin
    requires s.heap[n.table].body.Table? && s.heap[n.newer].body.Udata? && s.heap[n.meta].body.Table?
    requires s.tmu == [n.pending] && s.swept == [] && s.unswept == [n.newer, n.meta, n.table, n.registry, n.main]
    requires s.strs == [[n.mode, n.gc]] && s.uvhead == [] && s.env.main == s.env.running == n.main
    requires forall o | o in s.heap :: s.heap[o].fixed <==> o in {n.main, n.mode, n.gc}
    ensures Shape(s)
  {
    Apart(n);
    assert forall o :: IsThread(s, o) <==> o == n.main;
    assert forall o :: !IsUpOpen(s, o);
    assert UpsOk(s) && EnvOk(s);
    assert forall o :: InRoot(s, o) <==> o in {n.newer, n.meta, n.table, n.registry, n.main};
    assert RootOk(s);
    hide UpsOk, EnvOk, RootOk;
    LateStrings(s, n.mode, n.gc);
  }

  lemma LateStrings(s: State, a: Id, b: Id)
    requires s.strs == [[a, b]] && a != b && forall o :: IsStr(s, o) <==> o == a || o == b
    ensures StrsOk(s)
  {
    assert s.strs[0] == [a, b];
    assert forall c: nat, o :: InBucket(s, c, o) <==> c == 0 && (o == a || o == b);
    assert InBucket(s, 0, a) && InBucket(s, 0, b);
  }

  /** The newer userdata is strongly reachable and has not been finalized, and yet the next full cycle sets it apart for
      its finalizer: without finalizers pending that cannot happen. */
  lemma ReachableFinalized(n: Names)
    requires Distinct(n)
    ensures var s := Late(n);
            && Inv(s) && s.phase == Finalize && n.newer in Reach(s, Roots(s)) && n.newer !in s.tmu
            && Inv(MarkRoot(s)) && n.newer in ToFinalize(MarkRoot(s)).tmu
  {
    LateInv(n);
    LateReached(n);
    LateNotFound(n);
    LateNew(n);
    hide Late, Inv, Reach, Found, ToFinalize, MarkRoot;
    FullCycleFinalizers(Late(n), n.newer);
  }

  lemma LateReached(n: Names)
    requires Distinct(n)
    ensures n.newer in Reach(Late(n), Roots(Late(n)))
  {
    var s := Late(n);
    LateObjects(n);
    LateRefs(n);
    hide Late, BodyPts;
    assert n.main in Roots(s) by { assert IsRoot(s, n.main) by { LateEnv(n); } }
    var p := [n.main, n.pending, n.table, n.newer];
    assert StrongPath(s, Roots(s), {}, p) && p[|p| - 1] == n.newer;
  }

  lemma LateEnv(n: Names)
    ensures var s := Late(n);
            && s.tmu == [n.pending] && s.env == Env(n.registry, n.main, n.main, [], n.mode, n.gc) &&
               s.phase == Finalize && s.cw == false
            && s.swept == [] && s.unswept == [n.newer, n.meta, n.table, n.registry, n.main] &&
               s.strs == [[n.mode, n.gc]] && s.uvhead == []
  {}

  /** Marking does not go on from the pending userdata. */
  lemma LateNotFound(n: Names)
    requires Distinct(n)
    ensures n.newer !in Found(Late(n))
  {
    var s := Late(n);
    LateEnv(n);
    LateObjects(n);
    LateRefs(n);
    Apart(n);
    hide Late, BodyPts, ReachPast;
    assert Roots(s) <= {n.main, n.registry};
    assert Shut(s) == {n.pending};
    var z := Zone({n.main, n.registry, n.pending}, {n.pending});
    assert StrongClosed(s, z) by {
      forall o, x | o in z.objects && o !in z.shut && StrongPts(s, o, x) && x in s.heap
        ensures x in z.objects
      {
        StrongIsPts(s, o, x);
      }
    }
    ReachLeast(s, Roots(s), z);
  }

  lemma LateNew(n: Names)
    requires Distinct(n)
    ensures var s := Late(n);
            s.phase == Finalize && n.newer !in s.tmu && n.newer in s.heap && s.heap[n.newer].body.Udata? &&
            !s.heap[n.newer].fin &&
            MetaField(s.heap, s.heap[n.newer].body.mt, s.env.gcName) != Nil
  {
    LateObjects(n);
    LateEnv(n);
    Apart(n);
    assert FieldOf([Node(Ref(n.gc), Plain)], n.gc) == Plain;
  }
}
