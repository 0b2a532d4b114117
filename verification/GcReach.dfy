/** Strong reachability, and that a cycle which runs undisturbed marks nothing else. */
module GcReach {
  import opened GcHeap
  import opened GcMark
  import opened GcPropagate
  import opened GcAtomic
  import opened GcInv
  import opened GcCollect

  // ---------------------------------------------------------------- strong reachability

  /** A path along strong references that goes on from no object of `shut`. */
  ghost predicate StrongPath(s: State, seeds: set<Id>, shut: set<Id>, p: seq<Id>) {
    |p| > 0 && p[0] in seeds && forall i | 0 <= i < |p| - 1 :: p[i] !in shut && StrongPts(s, p[i], p[i + 1])
  }

  ghost function ReachPast(s: State, seeds: set<Id>, shut: set<Id>): set<Id> {
    set x | x in s.heap && exists p :: StrongPath(s, seeds, shut, p) && p[|p| - 1] == x
  }

  /** Objects reached from `seeds` through strong references. */
  ghost function Reach(s: State, seeds: set<Id>): set<Id> { ReachPast(s, seeds, {}) }

  lemma ReachClosed(s: State, seeds: set<Id>, shut: set<Id>)
    ensures StrongClosed(s, Zone(ReachPast(s, seeds, shut), shut))
    ensures forall x | x in seeds && x in s.heap :: x in ReachPast(s, seeds, shut)
  {
    forall o, x | o in ReachPast(s, seeds, shut) && o !in shut && StrongPts(s, o, x) && x in s.heap
      ensures x in ReachPast(s, seeds, shut)
    {
      var p :| StrongPath(s, seeds, shut, p) && p[|p| - 1] == o;
      var q := p + [x];
      assert StrongPath(s, seeds, shut, q) && q[|q| - 1] == x;
    }
    forall x | x in seeds && x in s.heap
      ensures x in ReachPast(s, seeds, shut)
    {
      assert StrongPath(s, seeds, shut, [x]) && [x][|[x]| - 1] == x;
    }
  }

  lemma {:induction false} PathWithin(s: State, seeds: set<Id>, p: seq<Id>, z: Zone)
    requires StrongPath(s, seeds, z.shut, p) && NoDangling(s) && StrongClosed(s, z) && seeds <= z.objects
    ensures p[|p| - 1] in z.objects
  {
    if |p| > 1 {
      var q := p[..|p| - 1];
      PathWithin(s, seeds, q, z);
      assert StrongPts(s, p[|p| - 2], p[|p| - 1]) && q[|q| - 1] !in z.shut;
      StrongIsPts(s, p[|p| - 2], p[|p| - 1]);
    }
  }

  /** It is the least set that contains the seeds and is closed under strong references. */
  lemma ReachLeast(s: State, seeds: set<Id>, z: Zone)
    requires NoDangling(s) && StrongClosed(s, z) && seeds <= z.objects
    ensures ReachPast(s, seeds, z.shut) <= z.objects
  {
    forall x | x in ReachPast(s, seeds, z.shut)
      ensures x in z.objects
    {
      var p :| StrongPath(s, seeds, z.shut, p) && p[|p| - 1] == x;
      PathWithin(s, seeds, p, z);
    }
  }

  ghost function Roots(s: State): set<Id> { set x | x in s.heap && IsRoot(s, x) }

  ghost function Elements(l: seq<Id>): set<Id> { set x | x in l }

  // ---------------------------------------------------------------- marking marks no more

  predicate WeakTable(s: State, t: Id) { IsTable(s, t) && Mode(s, s.heap[t].body.mt) != (false, false) }

  ghost predicate Inside(s: State, z: Zone) { forall o | NonWhite(s, o) :: o in z.objects }

  ghost predicate WeakNotBlack(s: State) { forall o | HasColor(s, o, Black) :: !WeakTable(s, o) }

  ghost predicate ShutBlack(s: State, z: Zone) { forall o | o in z.shut :: HasColor(s, o, Black) && s.heap[o].body.Udata? }

  predicate OnList(s: State, o: Id) { o in s.gray || o in s.grayagain || o in s.weak }

  ghost predicate ListKinds(s: State) { forall o | OnList(s, o) && o in s.heap :: Listed(s.heap[o].body) }

  predicate BlackUdata(s: State, o: Id) { HasColor(s, o, Black) && s.heap[o].body.Udata? }

  ghost predicate UdataDone(s: State, z: Zone) {
    forall o, x | BlackUdata(s, o) && o !in z.shut && Pts(s, o, x) && x in s.heap :: NonWhite(s, x)
  }

  /** In a cycle that runs undisturbed: only objects of the zone are marked, weak tables are never black, userdata that
      are shut are black, and other black userdata refer to marked objects. */
  ghost predicate Within(s: State, z: Zone) {
    Inside(s, z) && WeakNotBlack(s) && ShutBlack(s, z) && ListKinds(s) && UdataDone(s, z)
  }

  lemma SameWeak(s: State, r: State)
    requires SameBodies(s, r)
    ensures forall o :: WeakTable(r, o) <==> WeakTable(s, o)
  {
    forall o | o in s.heap && s.heap[o].body.Table?
      ensures Mode(r, s.heap[o].body.mt) == Mode(s, s.heap[o].body.mt)
    {
      SameField(s, r, s.heap[o].body.mt, s.env.modeName);
    }
  }

  lemma SameClosed(s: State, r: State, z: Zone)
    requires SameBodies(s, r) && StrongClosed(s, z)
    ensures StrongClosed(r, z)
  {
    SameRefs(s, r);
    hide StrongPts;
  }

  /** Only lists and bits that do not matter here were changed. */
  lemma WithinSame(s: State, r: State, z: Zone)
    requires Within(s, z) && SameBodies(s, r) && (forall o | o in s.heap :: r.heap[o].color == s.heap[o].color)
    requires forall o | OnList(r, o) :: OnList(s, o)
    ensures Within(r, z)
  {
    SameWeak(s, r);
    SameRefs(s, r);
    hide WeakTable, BodyPts;
    assert forall o :: NonWhite(r, o) <==> NonWhite(s, o);
    assert forall o :: HasColor(r, o, Black) <==> HasColor(s, o, Black);
  }

  lemma WithinMarks(s: State, r: State, z: Zone)
    requires Within(s, z) && Marks(s, r) && forall x | Turned(s, r, x) :: x in z.objects
    ensures Within(r, z)
  {
    SameWeak(s, r);
    SameRefs(s, r);
    WeakIsTable(s);
    hide WeakTable, BodyPts;
    assert forall o | NonWhite(r, o) :: NonWhite(s, o) || Turned(s, r, o);
    assert forall o | HasColor(r, o, Black) && s.heap[o].body.Table? :: HasColor(s, o, Black);
    assert forall o | OnList(r, o) :: OnList(s, o) || (Turned(s, r, o) && Listed(s.heap[o].body));
    forall o, x | BlackUdata(r, o) && o !in z.shut && Pts(r, o, x) && x in r.heap
      ensures NonWhite(r, x)
    {
      if Turned(s, r, o) { assert !Listed(s.heap[o].body); } else { assert BlackUdata(s, o) && NonWhite(s, x); }
    }
  }

  lemma WeakIsTable(s: State)
    ensures forall o | WeakTable(s, o) :: IsTable(s, o)
  {}

  lemma MarkManyStays(s: State, ids: seq<Id>, z: Zone)
    requires Within(s, z) && StrongClosed(s, z) && forall x | x in ids && x in s.heap :: x in z.objects
    ensures Within(MarkMany(s, ids), z)
  {
    assert forall x | x in z.shut :: NonWhite(s, x);
    hide Within, StrongClosed, Marks;
    MarkManyWithin(s, ids, z);
    MarkManyMarks(s, ids);
    WithinMarks(s, MarkMany(s, ids), z);
  }

  lemma PropagateMarkStays(s: State, z: Zone)
    requires Within(s, z) && StrongClosed(s, z) && s.gray != [] && NonWhite(s, s.gray[0])
    ensures Within(PropagateMark(s), z)
  {
    var o, s1 := s.gray[0], Settle(s);
    SettleMoved(s);
    assert OnList(s, o) && o !in z.shut && o in z.objects;
    hide Settle, Within;
    SameClosed(s, s1, z);
    SettledWithin(s, s1, z);
    assert forall x | x in Targets(s, o) && x in s1.heap :: x in z.objects;
    MarkManyStays(s1, Targets(s, o), z);
  }

  /** A table that turns black when it is traversed is not weak. */
  lemma SettledWithin(s: State, r: State, z: Zone)
    requires Within(s, z) && s.gray != [] && NonWhite(s, s.gray[0]) && Moved(s, r, s.gray[0])
    requires HasColor(r, s.gray[0], Black) && s.heap[s.gray[0]].body.Table? ==> Mode(s, s.heap[s.gray[0]].body.mt) == (false, false)
    ensures Within(r, z)
  {
    SameWeak(s, r);
    SameRefs(s, r);
    hide Mode, BodyPts;
    var g := s.gray[0];
    assert OnList(s, g) && Listed(s.heap[g].body);
    assert !HasColor(r, g, Black) || !WeakTable(s, g);
    assert forall o :: NonWhite(r, o) <==> NonWhite(s, o);
    assert forall o | o != g :: HasColor(r, o, Black) <==> HasColor(s, o, Black);
    assert forall o | OnList(r, o) :: OnList(s, o);
    hide WeakTable;
  }

  lemma {:induction false} PropagateAllStays(s: State, z: Zone)
    requires Within(s, z) && StrongClosed(s, z)
    ensures Within(PropagateAll(s), z) && SameBodies(s, PropagateAll(s)) && PropagateAll(s).env == s.env
    decreases WhiteSet(s), |s.gray|
  {
    hide Within, StrongClosed, PropagateMark;
    if s.gray != [] && s.gray[0] in s.heap && !IsWhite(s, s.gray[0]) {
      PropagateMarkFrame(s);
      PropagateMarkStays(s, z);
      SameClosed(s, PropagateMark(s), z);
      PropagateAllStays(PropagateMark(s), z);
    }
  }

  lemma {:induction false} RemarkStays(s: State, uvs: seq<Id>, z: Zone)
    requires Within(s, z) && StrongClosed(s, z)
    ensures Within(RemarkUpvals(s, uvs), z) && SameBodies(s, RemarkUpvals(s, uvs)) && RemarkUpvals(s, uvs).env == s.env
    decreases |uvs|
  {
    if uvs != [] {
      var s1 := Remark(s, uvs[0]);
      if HasColor(s, uvs[0], Gray) {
        assert NonWhite(s, uvs[0]) && uvs[0] !in z.shut;
        MarkManyStays(s, Targets(s, uvs[0]), z);
        MarkManyMarks(s, Targets(s, uvs[0]));
      }
      SameClosed(s, s1, z);
      hide Within;
      RemarkStays(s1, uvs[1..], z);
    }
  }

  /** Marking from a list of roots, then propagating. */
  lemma RoundStays(s: State, ids: seq<Id>, z: Zone)
    requires Within(s, z) && StrongClosed(s, z) && forall x | x in ids && x in s.heap :: x in z.objects
    ensures var r := PropagateAll(MarkMany(s, ids)); Within(r, z) && SameBodies(s, r) && r.env == s.env
  {
    hide Within, StrongClosed, PropagateAll;
    var m := MarkMany(s, ids);
    MarkManyStays(s, ids, z);
    MarkManyMarks(s, ids);
    SameClosed(s, m, z);
    hide MarkMany;
    PropagateAllStays(m, z);
  }

  lemma AtomicMarkStays(s: State, z: Zone)
    requires Within(s, z) && StrongClosed(s, z)
    requires forall x | x == s.env.running || Some(x) in s.env.mts :: x in z.objects
    ensures Within(AtomicMark(s), z) && SameBodies(s, AtomicMark(s)) && AtomicMark(s).env == s.env
  {
    hide RemarkUpvals, PropagateAll, MarkMany, StrongClosed, Within;
    var a0 := RemarkUpvals(s, s.uvhead);
    var a1 := PropagateAll(a0);
    RemarkStays(s, s.uvhead, z);
    SameClosed(s, a0, z);
    PropagateAllStays(a0, z);
    var b0 := a1.(gray := a1.weak, weak := []);
    var ids := [s.env.running] + OptIds(s.env.mts);
    SameClosed(s, b0, z);
    WithinSame(a1, b0, z);
    RoundStays(b0, ids, z);
    var a2 := PropagateAll(MarkMany(b0, ids));
    var c0 := a2.(gray := a2.grayagain, grayagain := []);
    SameClosed(s, c0, z);
    WithinSame(a2, c0, z);
    PropagateAllStays(c0, z);
  }

  lemma MarkStays(s: State, z: Zone)
    requires Within(s.(gray := [], grayagain := [], weak := []), z) && StrongClosed(s, z) && Roots(s) <= z.objects
    ensures var m := PropagateAll(MarkRoot(s)); Within(m, z) && SameBodies(s, m) && m.env == s.env
  {
    var s1 := s.(gray := [], grayagain := [], weak := []);
    var s2 := MarkMany(s1, RootIds(s));
    var r := MarkRoot(s);
    SameClosed(s, s1, z);
    assert s.env.main !in z.shut || !IsThread(s, s.env.main);
    forall x | x in RootIds(s) && x in s.heap
      ensures x in z.objects
    {
      if !IsRoot(s, x) {
        assert IsThread(s, s.env.main) && s.heap[s.env.main].body.gt == Ref(x);
        assert s.env.main in Roots(s) && StrongPts(s, s.env.main, x);
      } else {
        assert x in Roots(s);
      }
    }
    hide Within;
    MarkManyStays(s1, RootIds(s), z);
    MarkManyMarks(s1, RootIds(s));
    WithinSame(s2, r, z);
    SameClosed(s, r, z);
    hide MarkMany, RootIds;
    PropagateAllStays(r, z);
  }

  // ---------------------------------------------------------------- preservation

  function Shutting(z: Zone, us: seq<Id>): Zone { z.(shut := z.shut + set u | u in us) }

  lemma MarkTmuOneStays(s: State, u: Id, z: Zone)
    requires Within(s, z) && StrongClosed(s, z.(shut := {})) && u in z.objects && u in s.heap && s.heap[u].body.Udata?
    ensures Within(MarkTmuOne(s, u), Shutting(z, [u]))
    ensures SameBodies(s, MarkTmuOne(s, u)) && MarkTmuOne(s, u).env == s.env
  {
    hide Within, StrongClosed, Marks, MarkMany, MarkTmuOne, Mark, StrongPts;
    var s0, s1 := Paint(s, u, White(s.cw)), Paint(s, u, Black);
    var r, y := MarkTmuOne(s, u), Shutting(z, [u]);
    MarkTmuOneIs(s, u);
    PaintWithin(s, u, z);
    PaintClosed(s, u, z);
    MarkManyStays(s1, Targets(s0, u), y);
    MarkManyMarks(s1, Targets(s0, u));
    assert SameBodies(s1, r) && r.env == s1.env by { MarksFrame(s1, r); }
  }

  lemma MarkTmuOneIs(s: State, u: Id)
    requires u in s.heap && s.heap[u].body.Udata?
    ensures MarkTmuOne(s, u) == MarkMany(Paint(s, u, Black), Targets(Paint(s, u, White(s.cw)), u))
  {
    var s0 := Paint(s, u, White(s.cw));
    assert Paint(s0, u, Black) == Paint(s, u, Black);
    hide MarkMany;
  }

  lemma PaintClosed(s: State, u: Id, z: Zone)
    requires StrongClosed(s, z.(shut := {})) && u in z.objects && u in s.heap
    ensures StrongClosed(Paint(s, u, Black), Shutting(z, [u]))
    ensures forall x | x in Targets(Paint(s, u, White(s.cw)), u) && x in s.heap :: x in z.objects
  {
    SameClosed(s, Paint(s, u, Black), Shutting(z, [u]));
    SameRefs(s, Paint(s, u, White(s.cw)));
    hide StrongPts;
  }

  lemma PaintWithin(s: State, u: Id, z: Zone)
    requires Within(s, z) && u in z.objects && u in s.heap && s.heap[u].body.Udata?
    ensures Within(Paint(s, u, Black), Shutting(z, [u]))
  {
    var r := Paint(s, u, Black);
    SameWeak(s, r);
    SameRefs(s, r);
    WeakIsTable(s);
    hide WeakTable, BodyPts;
    assert forall o | o != u :: r.heap.Keys == s.heap.Keys && (HasColor(r, o, Black) <==> HasColor(s, o, Black));
    assert forall o :: OnList(r, o) <==> OnList(s, o);
    assert forall o | NonWhite(s, o) :: NonWhite(r, o);
  }

  lemma {:induction false} MarkTmuStays(s: State, us: seq<Id>, z: Zone)
    requires Within(s, z) && StrongClosed(s, z.(shut := {}))
    requires forall u | u in us :: u in z.objects && u in s.heap && s.heap[u].body.Udata?
    ensures Within(MarkTmu(s, us), Shutting(z, us)) && SameBodies(s, MarkTmu(s, us)) && MarkTmu(s, us).env == s.env
    decreases |us|
  {
    hide Within, MarkTmuOne, StrongClosed;
    if us != [] {
      var s1, y := MarkTmuOne(s, us[0]), Shutting(z, [us[0]]);
      assert us[0] in us && forall u | u in us[1..] :: u in us;
      MarkTmuOneStays(s, us[0], z);
      SameClosed(s, s1, z.(shut := {}));
      MarkTmuStays(s1, us[1..], y);
      assert Shutting(y, us[1..]) == Shutting(z, us) by { assert us == [us[0]] + us[1..]; }
    } else {
      assert Shutting(z, us) == z;
    }
  }

  lemma AtomicPreserveStays(s: State, z: Zone)
    requires Within(s, z) && StrongClosed(s, z.(shut := {})) && TmuOk(s)
    requires forall u | u in AtomicPreserve(s).tmu :: u in z.objects
    requires Separate(s, s.swept + s.unswept, false).tmu == AtomicPreserve(s).tmu
    ensures Within(AtomicPreserve(s), Shutting(z, AtomicPreserve(s).tmu))
  {
    var a := Separate(s, s.swept + s.unswept, false);
    SeparateSpec(s, s.swept + s.unswept);
    SeparateTmu(s, s.swept + s.unswept);
    hide Separate, PropagateAll, Within, StrongClosed;
    assert forall o | OnList(a, o) :: OnList(s, o);
    WithinSame(s, a, z);
    SameClosed(s, a, z.(shut := {}));
    MarkTmuStays(a, a.tmu, z);
    var m, y := MarkTmu(a, a.tmu), Shutting(z, a.tmu);
    SameClosed(a, m, z.(shut := {}));
    assert StrongClosed(m, y) by { MoreShut(m, z.(shut := {}), y); }
    PropagateAllStays(m, y);
  }

  lemma MoreShut(s: State, z: Zone, y: Zone)
    requires StrongClosed(s, z) && y.objects == z.objects && z.shut <= y.shut
    ensures StrongClosed(s, y)
  {}
}
