/** The atomic end of the mark phase (ggc.c: gafqC_separateudata, marktmu, cleartable, atomic). */
module GcAtomic {
  import opened GcHeap
  import opened GcMark
  import opened GcPropagate

  // ---------------------------------------------------------------- separateudata

  function Remove(l: seq<Id>, o: Id): (r: seq<Id>)
    ensures forall x :: x in r <==> x in l && x != o
    ensures NoDup(l) ==> NoDup(r)
    ensures |r| <= |l|
  {
    if l == [] then []
    else
      assert l == [l[0]] + l[1..];
      assert forall i | 0 < i < |l| :: l[1..][i - 1] == l[i];
      var rest := Remove(l[1..], o);
      assert forall i | 0 <= i < |rest| :: rest[i] in rest;
      if l[0] == o then rest else [l[0]] + rest
  }

  /** One userdata of the list: keep it, note that it needs no finalizer, or move it to tmudata. */
  function SeparateOne(s: State, u: Id, all: bool): State {
    if u !in s.heap || !s.heap[u].body.Udata? || !(all || IsWhite(s, u)) || s.heap[u].fin then s
    else
      var s1 := s.(heap := s.heap[u := s.heap[u].(fin := true)]);
      if MetaField(s.heap, s.heap[u].body.mt, s.env.gcName) == Nil then s1
      else s1.(swept := Remove(s.swept, u), unswept := Remove(s.unswept, u), tmu := s.tmu + [u])
  }

  function Separate(s: State, us: seq<Id>, all: bool): State
    decreases |us|
  {
    if us == [] then s else Separate(SeparateOne(s, us[0], all), us[1..], all)
  }

  ghost predicate RootNoDup(s: State) { NoDup(s.swept) && NoDup(s.unswept) && forall o | o in s.swept :: o !in s.unswept }

  /** Userdata that `s` moved to the list of pending finalizers. */
  predicate MovedToTmu(s: State, o: Id) {
    o in s.heap && s.heap[o].body.Udata? && s.heap[o].color.White? && !s.heap[o].fin &&
    MetaField(s.heap, s.heap[o].body.mt, s.env.gcName) != Nil
  }

  /** Separation moves unfinalized white userdata from root to tmu and changes no colour. */
  ghost predicate Separated(s: State, r: State) {
    && r == s.(heap := r.heap, swept := r.swept, unswept := r.unswept, tmu := r.tmu)
    && SameBodies(s, r)
    && (forall o | o in s.heap :: r.heap[o] == s.heap[o].(fin := r.heap[o].fin) && (s.heap[o].fin ==> r.heap[o].fin))
    && (forall o | o in s.tmu :: o in r.tmu)
    && (forall o | o in r.tmu && o !in s.tmu :: MovedToTmu(s, o) && !InRoot(r, o) && r.heap[o].fin)
    && (forall o | InRoot(r, o) :: InRoot(s, o))
    && (forall o | InRoot(s, o) :: InRoot(r, o) || o in r.tmu)
    && (RootNoDup(s) ==> RootNoDup(r))
  }

  lemma SeparateOneSpec(s: State, u: Id)
    ensures Separated(s, SeparateOne(s, u, false))
  {
  }

  lemma SeparatedTransitive(s: State, r: State, q: State)
    requires Separated(s, r) && Separated(r, q)
    ensures Separated(s, q)
  {
    forall o | o in q.tmu && o !in s.tmu
      ensures MovedToTmu(s, o) && !InRoot(q, o) && q.heap[o].fin
    {
      if o in r.tmu {
        assert MovedToTmu(s, o);
      } else {
        assert MovedToTmu(r, o);
        SameField(s, r, s.heap[o].body.mt, s.env.gcName);
      }
    }
  }

  lemma {:induction false} SeparateSpec(s: State, us: seq<Id>)
    ensures Separated(s, Separate(s, us, false))
    ensures forall o | o in us && MovedToTmu(s, o) :: o in Separate(s, us, false).tmu
    decreases |us|
  {
    if us != [] {
      var s1, r := SeparateOne(s, us[0], false), Separate(s, us, false);
      SeparateOneSpec(s, us[0]);
      SeparateSpec(s1, us[1..]);
      SeparatedTransitive(s, s1, r);
      assert us == [us[0]] + us[1..];
      forall o | o in us && MovedToTmu(s, o)
        ensures o in r.tmu
      {
        if o != us[0] {
          SameField(s, s1, s.heap[o].body.mt, s.env.gcName);
          assert s1.heap[o] == s.heap[o] && MovedToTmu(s1, o);
        }
      }
    }
  }

  /** Separation counts as finalized exactly the white userdata of the list, besides those that were. */
  lemma {:induction false} SeparateFin(s: State, us: seq<Id>)
    ensures Separate(s, us, false).heap.Keys == s.heap.Keys
    ensures forall o | o in s.heap ::
              Separate(s, us, false).heap[o].fin <==> s.heap[o].fin || (o in us && s.heap[o].body.Udata? && IsWhite(s, o))
    decreases |us|
  {
    if us != [] {
      var s1 := SeparateOne(s, us[0], false);
      SeparateOneFin(s, us[0]);
      hide SeparateOne;
      SeparateFin(s1, us[1..]);
      assert us == [us[0]] + us[1..];
    }
  }

  lemma SeparateOneFin(s: State, u: Id)
    ensures var r := SeparateOne(s, u, false);
            r.heap.Keys == s.heap.Keys && forall o | o in s.heap ::
              && r.heap[o] == s.heap[o].(fin := r.heap[o].fin)
              && (r.heap[o].fin <==> s.heap[o].fin || (o == u && s.heap[o].body.Udata? && IsWhite(s, o)))
  {}

  /** The userdata of a list that are to be finalized, in its order. */
  function ToFinalizeOf(s: State, us: seq<Id>): seq<Id> {
    if us == [] then [] else (if MovedToTmu(s, us[0]) then [us[0]] else []) + ToFinalizeOf(s, us[1..])
  }

  /** Finalizers run in the order of the list, which has newer userdata first, after those that were pending. */
  lemma {:induction false} SeparateOrder(s: State, us: seq<Id>)
    requires NoDup(us)
    ensures Separate(s, us, false).tmu == s.tmu + ToFinalizeOf(s, us)
    decreases |us|
  {
    if us != [] {
      var s1 := SeparateOne(s, us[0], false);
      assert forall i | 0 <= i < |us[1..]| :: us[1..][i] == us[i + 1];
      SeparateOrder(s1, us[1..]);
      SameOthers(s, us[0], us[1..]);
      assert s1.tmu == s.tmu + (if MovedToTmu(s, us[0]) then [us[0]] else []);
      hide SeparateOne, MovedToTmu;
    }
  }

  lemma {:induction false} SameOthers(s: State, u: Id, us: seq<Id>)
    requires forall i | 0 <= i < |us| :: us[i] != u
    ensures ToFinalizeOf(SeparateOne(s, u, false), us) == ToFinalizeOf(s, us)
    decreases |us|
  {
    if us != [] {
      SameOthers(s, u, us[1..]);
      var s1 := SeparateOne(s, u, false);
      assert MovedToTmu(s1, us[0]) <==> MovedToTmu(s, us[0]) by {
        SeparateOneSpec(s, u);
        if us[0] in s.heap && s.heap[us[0]].body.Udata? { SameField(s, s1, s.heap[us[0]].body.mt, s.env.gcName); }
      }
      hide SeparateOne, MovedToTmu;
    }
  }

  /** No userdata enters the pending list twice. */
  ghost predicate TmuOk(s: State) {
    NoDup(s.tmu) && forall o | o in s.tmu :: o in s.heap && s.heap[o].body.Udata? && s.heap[o].fin && !InRoot(s, o)
  }

  lemma {:induction false} SeparateTmu(s: State, us: seq<Id>)
    requires TmuOk(s)
    ensures TmuOk(Separate(s, us, false))
    decreases |us|
  {
    if us != [] {
      var s1 := SeparateOne(s, us[0], false);
      assert us[0] in s.tmu ==> s1 == s;
      assert forall i | 0 <= i < |s.tmu| :: s.tmu[i] in s.tmu && s1.tmu[i] == s.tmu[i];
      SeparateTmu(s1, us[1..]);
    }
  }

  // ---------------------------------------------------------------- marktmu

  function MarkTmuOne(s: State, u: Id): State {
    if u in s.heap then Mark(Paint(s, u, White(s.cw)), u) else s
  }

  function MarkTmu(s: State, us: seq<Id>): State
    decreases |us|
  {
    if us == [] then s else MarkTmu(MarkTmuOne(s, us[0]), us[1..])
  }

  ghost predicate Preserved(s: State, u: Id) {
    NonWhite(s, u) && forall x | Pts(s, u, x) :: NonWhite(s, x)
  }

  const AllDone := Stage(true, true, true)

  lemma PaintTmu(s: State, u: Id)
    requires Tri(s, {}) && NoDangling(s) && Done(s, AllDone, {})
    requires u in s.tmu && u in s.heap && s.heap[u].body.Udata?
    ensures var r := Paint(s, u, Black); SameFrame(s, r) && Tri(r, {}) && NoDangling(r) && Done(r, AllDone, {})
  {
    hide Mode, BodyPts;
    var r := Paint(s, u, Black);
    SameRefs(s, r);
    assert u !in s.gray && u !in s.grayagain && u !in s.weak;
    assert forall o, c | o != u :: HasColor(r, o, c) <==> HasColor(s, o, c);
    assert forall o | NonWhite(s, o) :: NonWhite(r, o);
    assert Tri(r, {});
  }

  lemma MarkTmuOneSpec(s: State, u: Id)
    requires Tri(s, {}) && NoDangling(s) && Done(s, AllDone, {})
    requires u in s.tmu && u in s.heap && s.heap[u].body.Udata?
    ensures var r := MarkTmuOne(s, u);
            SameFrame(s, r) && Tri(r, {}) && NoDangling(r) && Done(r, AllDone, {}) && Preserved(r, u)
  {
    hide Tri, Done, NoDangling, Marks, Preserved, StrongPts;
    var s0 := Paint(s, u, White(s.cw));
    var s1 := Paint(s, u, Black);
    var r := MarkTmuOne(s, u);
    assert Paint(s0, u, Black) == s1;
    assert r == MarkMany(s1, Targets(s0, u));
    PaintTmu(s, u);
    MarkManyMarks(s1, Targets(s0, u));
    MarksKeepTri(s1, r, {}, AllDone);
    MarksFrame(s1, r);
    FrameTransitive(s, s1, r);
    UdataPreserved(s0, r, u);
  }

  lemma UdataPreserved(s: State, r: State, u: Id)
    requires u in s.heap && s.heap[u].body.Udata? && NonWhite(r, u) && r.heap[u].body == s.heap[u].body
    requires NoDangling(r)
    requires forall x | x in Targets(s, u) && x in r.heap :: NonWhite(r, x)
    ensures Preserved(r, u)
  {
    forall x | Pts(r, u, x)
      ensures NonWhite(r, x)
    {
      assert StrongPts(s, u, x);
    }
  }

  lemma FrameKeepsPreserved(s: State, r: State, u: Id)
    requires SameFrame(s, r) && Preserved(s, u)
    ensures Preserved(r, u)
  {
    SameRefs(s, r);
  }

  lemma {:induction false} MarkTmuSpec(s: State, us: seq<Id>)
    requires Tri(s, {}) && NoDangling(s) && Done(s, AllDone, {})
    requires forall u | u in us :: u in s.tmu && u in s.heap && s.heap[u].body.Udata?
    ensures var r := MarkTmu(s, us);
            SameFrame(s, r) && Tri(r, {}) && NoDangling(r) && Done(r, AllDone, {}) &&
            forall u | u in us :: Preserved(r, u)
    decreases |us|
  {
    hide Tri, NoDangling, Done, Preserved;
    if us != [] {
      var s1, r := MarkTmuOne(s, us[0]), MarkTmu(s, us);
      MarkTmuOneSpec(s, us[0]);
      assert forall u | u in us[1..] :: u in us;
      MarkTmuSpec(s1, us[1..]);
      FrameTransitive(s, s1, r);
      FrameKeepsPreserved(s1, r, us[0]);
      assert us == [us[0]] + us[1..];
    }
  }

  // ---------------------------------------------------------------- cleartable

  /** iscleared, apart from its side effect on strings. */
  predicate Cleared(s: State, v: Value, key: bool) {
    v.Ref? && v.id in s.heap && !s.heap[v.id].body.Str? &&
    (IsWhite(s, v.id) || (s.heap[v.id].body.Udata? && !key && s.heap[v.id].fin))
  }

  /** The side effect: strings behave as values, so they are marked instead of cleared. */
  function StringMark(s: State, v: Value): State {
    if v.Ref? && IsWhite(s, v.id) && s.heap[v.id].body.Str? then Paint(s, v.id, Gray) else s
  }

  function SetBody(s: State, o: Id, b: Body): State
    requires o in s.heap
  {
    s.(heap := s.heap[o := s.heap[o].(body := b)])
  }

  predicate IsTable(s: State, t: Id) { t in s.heap && s.heap[t].body.Table? }

  function ClearSlot(s: State, t: Id, i: nat): State
    requires IsTable(s, t) && i < |s.heap[t].body.arr|
  {
    var b := s.heap[t].body;
    var s1 := StringMark(s, b.arr[i]);
    if Cleared(s1, b.arr[i], false) then SetBody(s1, t, b.(arr := b.arr[i := Nil])) else s1
  }

  function ClearArr(s: State, t: Id, i: nat): State
    requires IsTable(s, t) && i <= |s.heap[t].body.arr|
    decreases i
  {
    if i == 0 then s else ClearArr(ClearSlot(s, t, i - 1), t, i - 1)
  }

  /** Empty entry `i` of table `t`. */
  function DropNode(s: State, t: Id, i: nat): State
    requires IsTable(s, t) && i < |s.heap[t].body.nodes|
  {
    var b := s.heap[t].body;
    SetBody(s, t, b.(nodes := b.nodes[i := b.nodes[i].(val := Nil)]))
  }

  /** One operand of cleartable's test on a non-empty entry: its key or its value. */
  function ClearHalf(s: State, t: Id, i: nat, key: bool): State
    requires IsTable(s, t) && i < |s.heap[t].body.nodes|
  {
    var n := s.heap[t].body.nodes[i];
    var v := if key then n.key else n.val;
    if n.val == Nil then s
    else
      var s1 := StringMark(s, v);
      if Cleared(s1, v, key) then DropNode(s1, t, i) else s1
  }

  /** The key first; the value only if the key did not empty the entry. */
  function ClearNode(s: State, t: Id, i: nat): (r: State)
    requires IsTable(s, t) && i < |s.heap[t].body.nodes|
    ensures IsTable(r, t) && |r.heap[t].body.nodes| == |s.heap[t].body.nodes|
  {
    var s1 := ClearHalf(s, t, i, true);
    ClearHalfShape(s, t, i, true);
    ClearHalfShape(s1, t, i, false);
    if IsTable(s1, t) && i < |s1.heap[t].body.nodes| then ClearHalf(s1, t, i, false) else s1
  }

  function ClearNodes(s: State, t: Id, i: nat): State
    requires IsTable(s, t) && i <= |s.heap[t].body.nodes|
    decreases i
  {
    if i == 0 then s else ClearNodes(ClearNode(s, t, i - 1), t, i - 1)
  }

  function ClearTable(s: State, t: Id): State
    requires IsTable(s, t)
  {
    var s1 := if s.heap[t].wv then ClearArr(s, t, |s.heap[t].body.arr|) else s;
    ClearArrShape(s, t, |s.heap[t].body.arr|);
    ClearNodes(s1, t, |s1.heap[t].body.nodes|)
  }

  function ClearTables(s: State, ts: seq<Id>): State
    decreases |ts|
  {
    if ts == [] then s
    else if !IsTable(s, ts[0]) then ClearTables(s, ts[1..])
    else ClearTables(ClearTable(s, ts[0]), ts[1..])
  }

  /** Only table `t` lost entries, and only strings were marked. */
  ghost predicate Shrunk(s: State, r: State, t: Id) {
    && r == s.(heap := r.heap)
    && r.heap.Keys == s.heap.Keys
    && IsTable(s, t) && IsTable(r, t)
    && (forall o | o in s.heap && o != t :: r.heap[o] == s.heap[o] ||
          (s.heap[o].body.Str? && s.heap[o].color.White? && r.heap[o] == s.heap[o].(color := Gray)))
    && r.heap[t] == s.heap[t].(body := r.heap[t].body)
    && var b, c := s.heap[t].body, r.heap[t].body;
       && c.mt == b.mt
       && |c.arr| == |b.arr| && (forall i | 0 <= i < |b.arr| :: c.arr[i] == b.arr[i] || c.arr[i] == Nil)
       && |c.nodes| == |b.nodes|
       && (forall i | 0 <= i < |b.nodes| :: c.nodes[i] == b.nodes[i] || c.nodes[i] == b.nodes[i].(val := Nil))
  }

  lemma ShrunkTransitive(s: State, r: State, q: State, t: Id)
    requires Shrunk(s, r, t) && Shrunk(r, q, t)
    ensures Shrunk(s, q, t)
  {
  }

  lemma ClearSlotShape(s: State, t: Id, i: nat)
    requires IsTable(s, t) && i < |s.heap[t].body.arr|
    ensures Shrunk(s, ClearSlot(s, t, i), t)
    ensures ClearSlot(s, t, i).heap[t].body.nodes == s.heap[t].body.nodes
  {
  }

  lemma {:induction false} ClearArrShape(s: State, t: Id, i: nat)
    requires IsTable(s, t) && i <= |s.heap[t].body.arr|
    ensures Shrunk(s, ClearArr(s, t, i), t)
    ensures ClearArr(s, t, i).heap[t].body.nodes == s.heap[t].body.nodes
    decreases i
  {
    if i > 0 {
      ClearSlotShape(s, t, i - 1);
      var s1 := ClearSlot(s, t, i - 1);
      ClearArrShape(s1, t, i - 1);
      ShrunkTransitive(s, s1, ClearArr(s, t, i), t);
    }
  }

  lemma ClearHalfShape(s: State, t: Id, i: nat, key: bool)
    requires IsTable(s, t) && i < |s.heap[t].body.nodes|
    ensures Shrunk(s, ClearHalf(s, t, i, key), t)
    ensures ClearHalf(s, t, i, key).heap[t].body.arr == s.heap[t].body.arr
  {
    var n := s.heap[t].body.nodes[i];
    var s1 := StringMark(s, if key then n.key else n.val);
    StringMarkShape(s, if key then n.key else n.val, t);
    DropNodeShape(s1, t, i);
    hide Shrunk, DropNode, StringMark, Cleared;
    ShrunkTransitive(s, s1, DropNode(s1, t, i), t);
  }

  lemma StringMarkShape(s: State, v: Value, t: Id)
    requires IsTable(s, t)
    ensures Shrunk(s, StringMark(s, v), t) && StringMark(s, v).heap[t] == s.heap[t]
  {
  }

  lemma DropNodeShape(s: State, t: Id, i: nat)
    requires IsTable(s, t) && i < |s.heap[t].body.nodes|
    ensures Shrunk(s, DropNode(s, t, i), t)
    ensures DropNode(s, t, i).heap[t].body.arr == s.heap[t].body.arr
  {
  }

  lemma ClearNodeShape(s: State, t: Id, i: nat)
    requires IsTable(s, t) && i < |s.heap[t].body.nodes|
    ensures Shrunk(s, ClearNode(s, t, i), t)
    ensures ClearNode(s, t, i).heap[t].body.arr == s.heap[t].body.arr
  {
    var s1 := ClearHalf(s, t, i, true);
    ClearHalfShape(s, t, i, true);
    ClearHalfShape(s1, t, i, false);
    hide ClearHalf;
    ShrunkTransitive(s, s1, ClearNode(s, t, i), t);
  }

  lemma {:induction false} ClearNodesShape(s: State, t: Id, i: nat)
    requires IsTable(s, t) && i <= |s.heap[t].body.nodes|
    ensures Shrunk(s, ClearNodes(s, t, i), t)
    ensures ClearNodes(s, t, i).heap[t].body.arr == s.heap[t].body.arr
    decreases i
  {
    hide ClearNode, Shrunk;
    if i > 0 {
      hide ClearNodes;
      ClearNodeShape(s, t, i - 1);
      var s1 := ClearNode(s, t, i - 1);
      ShrunkNodes(s, s1, t);
      ClearNodesShape(s1, t, i - 1);
      ClearNodesStep(s, t, i);
      ShrunkTransitive(s, s1, ClearNodes(s, t, i), t);
    } else {
      ShrunkSame(s, t);
    }
  }

  lemma ShrunkSame(s: State, t: Id)
    requires IsTable(s, t)
    ensures Shrunk(s, s, t)
  {
  }

  lemma ClearNodesStep(s: State, t: Id, i: nat)
    requires IsTable(s, t) && 0 < i <= |s.heap[t].body.nodes|
    ensures var s1 := ClearNode(s, t, i - 1);
            IsTable(s1, t) && i - 1 <= |s1.heap[t].body.nodes| && ClearNodes(s, t, i) == ClearNodes(s1, t, i - 1)
  {
    hide ClearNode, Shrunk;
    ClearNodeShape(s, t, i - 1);
    ShrunkNodes(s, ClearNode(s, t, i - 1), t);
  }

  lemma ShrunkNodes(s: State, r: State, t: Id)
    requires Shrunk(s, r, t)
    ensures IsTable(r, t) && |r.heap[t].body.nodes| == |s.heap[t].body.nodes|
  {
  }

  predicate Marked(s: State, v: Value) { v.Ref? ==> NonWhite(s, v.id) }

  predicate NodeClean(s: State, n: Node) { n.val != Nil ==> Marked(s, n.key) && Marked(s, n.val) }

  predicate InHeap(s: State, v: Value) { v.Ref? ==> v.id in s.heap }

  ghost predicate TableInHeap(s: State, t: Id) {
    && IsTable(s, t)
    && (forall i | 0 <= i < |s.heap[t].body.arr| :: InHeap(s, s.heap[t].body.arr[i]))
    && (forall i | 0 <= i < |s.heap[t].body.nodes| :: s.heap[t].body.nodes[i].val != Nil ==>
          InHeap(s, s.heap[t].body.nodes[i].key) && InHeap(s, s.heap[t].body.nodes[i].val))
  }

  lemma {:induction false} ClearArrClean(s: State, t: Id, i: nat)
    requires TableInHeap(s, t) && i <= |s.heap[t].body.arr|
    requires forall j | i <= j < |s.heap[t].body.arr| :: Marked(s, s.heap[t].body.arr[j])
    ensures var r := ClearArr(s, t, i);
            TableInHeap(r, t) && forall j | 0 <= j < |r.heap[t].body.arr| :: Marked(r, r.heap[t].body.arr[j])
    decreases i
  {
    if i > 0 {
      var s1 := ClearSlot(s, t, i - 1);
      ClearSlotShape(s, t, i - 1);
      assert Marked(s1, s1.heap[t].body.arr[i - 1]);
      ClearArrClean(s1, t, i - 1);
    }
  }

  /** After both tests, an entry that is still there holds marked objects. */
  lemma ClearNodeClean(s: State, t: Id, i: nat)
    requires TableInHeap(s, t) && i < |s.heap[t].body.nodes|
    ensures var r := ClearNode(s, t, i);
            Shrunk(s, r, t) && TableInHeap(r, t) && NodeClean(r, r.heap[t].body.nodes[i])
  {
    var s1 := ClearHalf(s, t, i, true);
    var r := ClearNode(s, t, i);
    ClearHalfShape(s, t, i, true);
    ShrunkInHeap(s, s1, t);
    var n := s1.heap[t].body.nodes[i];
    assert n.val != Nil ==> Marked(s1, n.key);
    ClearHalfShape(s1, t, i, false);
    ShrunkInHeap(s1, r, t);
    ShrunkTransitive(s, s1, r, t);
  }

  lemma ShrunkInHeap(s: State, r: State, t: Id)
    requires Shrunk(s, r, t) && TableInHeap(s, t)
    ensures TableInHeap(r, t)
  {
  }

  lemma ShrunkClean(s: State, r: State, t: Id, j: nat)
    requires Shrunk(s, r, t) && j < |s.heap[t].body.nodes| && NodeClean(s, s.heap[t].body.nodes[j])
    ensures NodeClean(r, r.heap[t].body.nodes[j])
  {
  }

  lemma {:induction false} ClearNodesClean(s: State, t: Id, i: nat)
    requires TableInHeap(s, t) && i <= |s.heap[t].body.nodes|
    requires forall j | i <= j < |s.heap[t].body.nodes| :: NodeClean(s, s.heap[t].body.nodes[j])
    ensures var r := ClearNodes(s, t, i);
            IsTable(r, t) && forall j | 0 <= j < |r.heap[t].body.nodes| :: NodeClean(r, r.heap[t].body.nodes[j])
    decreases i
  {
    if i > 0 {
      var s1 := ClearNode(s, t, i - 1);
      ClearNodeClean(s, t, i - 1);
      forall j | i <= j < |s1.heap[t].body.nodes|
        ensures NodeClean(s1, s1.heap[t].body.nodes[j])
      {
        ShrunkClean(s, s1, t, j);
      }
      ClearNodesClean(s1, t, i - 1);
    }
  }

  /** What a weak table holds strongly, by its mode bits. */
  predicate HoldsStrong(o: Obj, x: Id) {
    o.body.Table? && (o.body.mt == Some(x) || (!o.wv && Ref(x) in o.body.arr) || NodesPts(o.body.nodes, x, !o.wk, !o.wv))
  }

  /** The array part after its pass, whether or not the values are weak. */
  lemma ClearArrPass(s: State, t: Id)
    requires TableInHeap(s, t)
    requires forall x | HoldsStrong(s.heap[t], x) :: NonWhite(s, x)
    ensures var n := |s.heap[t].body.arr|;
            var r := if s.heap[t].wv then ClearArr(s, t, n) else s;
            && Shrunk(s, r, t) && TableInHeap(r, t)
            && forall j | 0 <= j < |r.heap[t].body.arr| :: Marked(r, r.heap[t].body.arr[j])
  {
    var n := |s.heap[t].body.arr|;
    if s.heap[t].wv {
      ClearArrShape(s, t, n);
      ClearArrClean(s, t, n);
    } else {
      forall j | 0 <= j < n
        ensures Marked(s, s.heap[t].body.arr[j])
      {
        var v := s.heap[t].body.arr[j];
        if v.Ref? {
          assert HoldsStrong(s.heap[t], v.id);
        }
      }
    }
  }

  /** After cleartable, a weak table refers to marked objects only. */
  lemma ClearTableClean(s: State, t: Id)
    requires TableInHeap(s, t)
    requires forall x | HoldsStrong(s.heap[t], x) :: NonWhite(s, x)
    ensures Shrunk(s, ClearTable(s, t), t)
    ensures forall x | Pts(ClearTable(s, t), t, x) :: NonWhite(ClearTable(s, t), x)
  {
    var r := ClearTable(s, t);
    var s1 := if s.heap[t].wv then ClearArr(s, t, |s.heap[t].body.arr|) else s;
    ClearArrPass(s, t);
    ClearNodesShape(s1, t, |s1.heap[t].body.nodes|);
    ClearNodesClean(s1, t, |s1.heap[t].body.nodes|);
    ShrunkTransitive(s, s1, r, t);
    CleanPts(s1, r, t, s.heap[t]);
  }

  lemma CleanPts(s: State, r: State, t: Id, o: Obj)
    requires Shrunk(s, r, t) && o.body.Table? && o.body.mt == s.heap[t].body.mt
    requires forall j | 0 <= j < |s.heap[t].body.arr| :: Marked(s, s.heap[t].body.arr[j])
    requires forall j | 0 <= j < |r.heap[t].body.nodes| :: NodeClean(r, r.heap[t].body.nodes[j])
    requires forall x | HoldsStrong(o, x) :: NonWhite(r, x)
    ensures forall x | Pts(r, t, x) :: NonWhite(r, x)
  {
    forall x | Pts(r, t, x)
      ensures NonWhite(r, x)
    {
      var b := r.heap[t].body;
      if b.mt == Some(x) {
        assert HoldsStrong(o, x);
      } else if Ref(x) in b.arr {
        var j :| 0 <= j < |b.arr| && b.arr[j] == Ref(x);
        assert Marked(s, s.heap[t].body.arr[j]);
      } else {
        var nd :| nd in b.nodes && NodePts(nd, x, true, true);
        var j :| 0 <= j < |b.nodes| && b.nodes[j] == nd;
        assert NodeClean(r, b.nodes[j]);
      }
    }
  }

  /** Marked objects refer to marked objects, the tables still to be cleared aside. */
  ghost predicate ClosedBut(s: State, rest: seq<Id>) {
    && (forall o, x | NonWhite(s, o) && o !in rest && Pts(s, o, x) :: NonWhite(s, x))
    && (forall t | t in rest :: IsTable(s, t) && NonWhite(s, t) && forall x | HoldsStrong(s.heap[t], x) :: NonWhite(s, x))
  }

  /** `r` is `s` with some weak entries cleared and some strings marked. */
  ghost predicate Trimmed(s: State, r: State) {
    && r == s.(heap := r.heap)
    && r.heap.Keys == s.heap.Keys
    && (forall o | o in s.heap ::
          && (r.heap[o].color == s.heap[o].color || (s.heap[o].body.Str? && s.heap[o].color.White? && r.heap[o].color == Gray))
          && r.heap[o] == s.heap[o].(color := r.heap[o].color, body := r.heap[o].body)
          && (!s.heap[o].body.Table? ==> r.heap[o].body == s.heap[o].body)
          && (s.heap[o].body.Table? ==> r.heap[o].body.Table?))
    && (forall o, x | Pts(r, o, x) :: Pts(s, o, x))
  }

  lemma ShrunkPts(s: State, r: State, t: Id)
    requires Shrunk(s, r, t)
    ensures forall o, x | o != t :: Pts(r, o, x) <==> Pts(s, o, x)
    ensures forall x | Pts(r, t, x) :: Pts(s, t, x)
    ensures Trimmed(s, r)
  {
    forall u, i: nat
      ensures SlotValue(s.heap, u, i) == SlotValue(r.heap, u, i)
    {
    }
    forall x | Pts(r, t, x)
      ensures Pts(s, t, x)
    {
      var b, c := s.heap[t].body, r.heap[t].body;
      if Ref(x) in c.arr {
        var j :| 0 <= j < |c.arr| && c.arr[j] == Ref(x);
        assert b.arr[j] == Ref(x);
      } else if c.mt != Some(x) {
        var nd :| nd in c.nodes && NodePts(nd, x, true, true);
        var j :| 0 <= j < |c.nodes| && c.nodes[j] == nd;
        assert b.nodes[j] in b.nodes && NodePts(b.nodes[j], x, true, true);
      }
    }
  }

  lemma TrimmedTransitive(s: State, r: State, q: State)
    requires Trimmed(s, r) && Trimmed(r, q)
    ensures Trimmed(s, q)
  {
  }

  lemma ClearOneClosed(s: State, ts: seq<Id>)
    requires ts != [] && NoDup(ts) && ClosedBut(s, ts) && NoDangling(s)
    ensures IsTable(s, ts[0])
    ensures var r := ClearTable(s, ts[0]); Trimmed(s, r) && NoDangling(r) && ClosedBut(r, ts[1..])
  {
    var t := ts[0];
    assert t in ts && IsTable(s, t);
    TableRefsInHeap(s, t);
    ClearTableClean(s, t);
    var r := ClearTable(s, t);
    ShrunkPts(s, r, t);
    assert ts == [t] + ts[1..] && t !in ts[1..];
    forall u | u in ts[1..]
      ensures IsTable(r, u) && NonWhite(r, u) && forall x | HoldsStrong(r.heap[u], x) :: NonWhite(r, x)
    {
      assert u in ts && r.heap[u] == s.heap[u];
    }
    forall o, x | NonWhite(r, o) && o !in ts[1..] && Pts(r, o, x)
      ensures NonWhite(r, x)
    {
      if o != t {
        assert Pts(s, o, x);
      }
    }
  }

  lemma TableRefsInHeap(s: State, t: Id)
    requires NoDangling(s) && IsTable(s, t)
    ensures TableInHeap(s, t)
  {
    var b := s.heap[t].body;
    forall i | 0 <= i < |b.arr|
      ensures InHeap(s, b.arr[i])
    {
      if b.arr[i].Ref? {
        assert Pts(s, t, b.arr[i].id);
      }
    }
    forall i | 0 <= i < |b.nodes| && b.nodes[i].val != Nil
      ensures InHeap(s, b.nodes[i].key) && InHeap(s, b.nodes[i].val)
    {
      var n := b.nodes[i];
      assert n in b.nodes;
      if n.key.Ref? {
        assert NodePts(n, n.key.id, true, true);
        assert Pts(s, t, n.key.id);
      }
      if n.val.Ref? {
        assert NodePts(n, n.val.id, true, true);
        assert Pts(s, t, n.val.id);
      }
    }
  }

  /** cleartable makes the set of marked objects closed under all references, weak ones too. */
  lemma {:induction false} ClearTablesClosed(s: State, ts: seq<Id>)
    requires NoDup(ts) && ClosedBut(s, ts) && NoDangling(s)
    ensures var r := ClearTables(s, ts); Trimmed(s, r) && NoDangling(r) && ClosedBut(r, [])
    decreases |ts|
  {
    if ts != [] {
      ClearOneClosed(s, ts);
      var s1 := ClearTable(s, ts[0]);
      assert forall i | 0 <= i < |ts[1..]| :: ts[1..][i] == ts[i + 1];
      ClearTablesClosed(s1, ts[1..]);
      TrimmedTransitive(s, s1, ClearTables(s, ts));
    }
  }

  // ---------------------------------------------------------------- atomic

  /** Up to the point where everything strongly reachable is marked. */
  function AtomicMark(s: State): State {
    var a1 := PropagateAll(RemarkUpvals(s, s.uvhead));
    var a2 := PropagateAll(MarkMany(a1.(gray := a1.weak, weak := []), [s.env.running] + OptIds(s.env.mts)));
    PropagateAll(a2.(gray := a2.grayagain, grayagain := []))
  }

  /** Then userdata to be finalized are set apart and preserved. */
  function AtomicPreserve(s: State): State {
    var a4 := Separate(s, s.swept + s.unswept, false);
    PropagateAll(MarkTmu(a4, a4.tmu))
  }

  /** Restart the sweep of both lists. */
  function SweepFromStart(s: State): State {
    s.(phase := SweepString, sweepstr := 0, swept := [], unswept := s.swept + s.unswept)
  }

  /** Exchange the whites: what was not marked is now dead. */
  function Flip(s: State): State { SweepFromStart(s).(cw := !s.cw) }

  /** Finally weak tables are cleared and the whites exchanged. */
  function Atomic(s: State): State {
    var a5 := AtomicPreserve(AtomicMark(s));
    Flip(ClearTables(a5, a5.weak))
  }

  ghost predicate UpvalsListed(s: State) {
    forall o :: o in s.uvhead <==> o in s.heap && s.heap[o].body.UpOpen?
  }

  lemma AtomicStageOne(s: State)
    requires Tri(s, {}) && NoDangling(s) && UpvalsListed(s)
    ensures var r := PropagateAll(RemarkUpvals(s, s.uvhead));
            r.gray == [] && Tri(r, {}) && NoDangling(r) && Done(r, Stage(true, false, false), {}) && SameFrame(s, r)
  {
    var s1 := RemarkUpvals(s, s.uvhead);
    RemarkUpvalsDone(s, s.uvhead);
    assert UpvalsDone(s1) by {
      forall o, x | HasColor(s1, o, Gray) && s1.heap[o].body.UpOpen? && Pts(s1, o, x)
        ensures NonWhite(s1, x)
      {
        assert o in s.uvhead;
        assert UpvalDone(s1, o);
      }
    }
    hide Tri, NoDangling, UpvalsDone, UpvalDone;
    MarksFrame(s, s1);
    PropagateAllTri(s1, Stage(true, false, false));
    FrameTransitive(s, s1, PropagateAll(s1));
  }

  lemma AtomicStageTwo(s: State)
    requires s.gray == [] && Tri(s, {}) && NoDangling(s) && Done(s, Stage(true, false, false), {})
    ensures var ids := [s.env.running] + OptIds(s.env.mts);
            var r := PropagateAll(MarkMany(s.(gray := s.weak, weak := []), ids));
            && r.gray == [] && Tri(r, {}) && NoDangling(r) && Done(r, Stage(true, true, false), {}) && SameFrame(s, r)
            && forall x | x in ids && x in s.heap :: NonWhite(r, x)
  {
    var ids := [s.env.running] + OptIds(s.env.mts);
    var s0 := s.(gray := s.weak, weak := []);
    SameRefs(s, s0);
    assert Tri(s0, {}) && NoDangling(s0) && Done(s0, Stage(true, true, false), {}) && SameFrame(s, s0);
    hide Tri, NoDangling, Done;
    var s1 := MarkMany(s0, ids);
    MarkManyMarks(s0, ids);
    MarksKeepTri(s0, s1, {}, Stage(true, true, false));
    MarksFrame(s0, s1);
    PropagateAllTri(s1, Stage(true, true, false));
    FrameTransitive(s, s0, s1);
    FrameTransitive(s, s1, PropagateAll(s1));
  }

  lemma AtomicStageThree(s: State)
    requires s.gray == [] && Tri(s, {}) && NoDangling(s) && Done(s, Stage(true, true, false), {})
    ensures var r := PropagateAll(s.(gray := s.grayagain, grayagain := []));
            r.gray == [] && Tri(r, {}) && NoDangling(r) && Done(r, AllDone, {}) && SameFrame(s, r)
  {
    var s0 := s.(gray := s.grayagain, grayagain := []);
    SameRefs(s, s0);
    assert Tri(s0, {}) && NoDangling(s0) && Done(s0, AllDone, {}) && SameFrame(s, s0);
    hide Tri, NoDangling, Done;
    PropagateAllTri(s0, AllDone);
    FrameTransitive(s, s0, PropagateAll(s0));
  }

  /** When the three passes are over, nothing is left to visit. */
  lemma AtomicMarkSpec(s: State)
    requires Tri(s, {}) && NoDangling(s) && UpvalsListed(s)
    ensures var r := AtomicMark(s);
            && r.gray == [] && Tri(r, {}) && NoDangling(r) && Done(r, AllDone, {}) && SameFrame(s, r)
            && forall x | (x == s.env.running || Some(x) in s.env.mts) && x in s.heap :: NonWhite(r, x)
  {
    hide Tri, NoDangling, Done;
    AtomicStageOne(s);
    var a1 := PropagateAll(RemarkUpvals(s, s.uvhead));
    AtomicStageTwo(a1);
    var a2 := PropagateAll(MarkMany(a1.(gray := a1.weak, weak := []), [s.env.running] + OptIds(s.env.mts)));
    AtomicStageThree(a2);
    FrameTransitive(s, a1, a2);
    FrameTransitive(s, a2, AtomicMark(s));
  }

  lemma SeparatedTri(s: State, r: State)
    requires Tri(s, {}) && NoDangling(s) && Done(s, AllDone, {}) && Separated(s, r)
    ensures Tri(r, {}) && NoDangling(r) && Done(r, AllDone, {})
  {
    SameRefs(s, r);
    assert forall o, c :: HasColor(r, o, c) <==> HasColor(s, o, c);
    assert forall o :: NonWhite(r, o) <==> NonWhite(s, o);
  }

  /** Frame of the whole atomic phase up to clearing. */
  ghost predicate PreserveFrame(s: State, r: State) {
    && r == s.(heap := r.heap, swept := r.swept, unswept := r.unswept, tmu := r.tmu, gray := r.gray, grayagain := r.grayagain, weak := r.weak)
    && SameBodies(s, r)
    && (forall o | o in s.heap :: r.heap[o].fixed == s.heap[o].fixed)
    && (forall o | NonWhite(s, o) :: NonWhite(r, o))
    && (forall o | IsWhite(r, o) :: r.heap[o].color == s.heap[o].color)
    && (forall o | o in s.tmu :: o in r.tmu)
    && (forall o | o in r.tmu && o !in s.tmu :: MovedToTmu(s, o))
    && (forall o | InRoot(r, o) :: InRoot(s, o))
    && (forall o | InRoot(s, o) :: InRoot(r, o) || o in r.tmu)
    && (RootNoDup(s) ==> RootNoDup(r))
  }

  lemma AtomicPreserveSpec(s: State)
    requires s.gray == [] && Tri(s, {}) && NoDangling(s) && Done(s, AllDone, {}) && TmuOk(s)
    ensures var r := AtomicPreserve(s);
            && r.gray == [] && Tri(r, {}) && NoDangling(r) && Done(r, AllDone, {})
            && PreserveFrame(s, r) && TmuOk(r) && (forall u | u in r.tmu :: Preserved(r, u))
            && r.tmu == Separate(s, s.swept + s.unswept, false).tmu
  {
    hide Tri, NoDangling, Done, Preserved, Separated, PreserveFrame;
    var s1 := Separate(s, s.swept + s.unswept, false);
    SeparateSpec(s, s.swept + s.unswept);
    SeparateTmu(s, s.swept + s.unswept);
    SeparatedTri(s, s1);
    var s2 := MarkTmu(s1, s1.tmu);
    MarkTmuSpec(s1, s1.tmu);
    var r := PropagateAll(s2);
    PropagateAllTri(s2, AllDone);
    forall u | u in r.tmu
      ensures Preserved(r, u)
    {
      FrameKeepsPreserved(s2, r, u);
    }
    FrameTransitive(s1, s2, r);
    SeparatedFrame(s, s1, r);
  }

  lemma SeparatedFrame(s: State, s1: State, r: State)
    requires Separated(s, s1) && SameFrame(s1, r)
    ensures PreserveFrame(s, r)
  {
  }

  /** After preservation, marked objects refer to marked objects; weak tables as far as they
      hold strongly. */
  lemma PreserveClosed(r: State)
    requires r.gray == [] && Tri(r, {}) && NoDangling(r) && Done(r, AllDone, {})
    requires forall u | u in r.tmu :: Preserved(r, u)
    ensures ClosedBut(r, r.weak)
  {
    forall o, x | NonWhite(r, o) && o !in r.weak && Pts(r, o, x)
      ensures NonWhite(r, x)
    {
      if o in r.tmu {
        assert Preserved(r, o);
      } else if HasColor(r, o, Gray) {
        assert KindIs(r, o, true) || o in r.grayagain;
      } else {
        assert HasColor(r, o, Black);
      }
    }
    forall t | t in r.weak
      ensures IsTable(r, t) && NonWhite(r, t) && forall x | HoldsStrong(r.heap[t], x) :: NonWhite(r, x)
    {
      assert HasColor(r, t, Gray) && r.heap[t].body.Table?;
      forall x | HoldsStrong(r.heap[t], x)
        ensures NonWhite(r, x)
      {
        assert StrongPts(r, t, x);
      }
    }
  }

  /** The atomic phase ends with a set of marked objects that contains the roots and all
      pending userdata and is closed under every reference, weak ones included. */
  lemma AtomicSpec(s: State)
    requires Tri(s, {}) && NoDangling(s) && UpvalsListed(s) && TmuOk(s)
    ensures var a, r := AtomicPreserve(AtomicMark(s)), Atomic(s);
            && PreserveFrame(s, a) && TmuOk(a) && (exists c :: Trimmed(a, c) && r == Flip(c))
            && (forall o, x | NonWhite(r, o) && Pts(r, o, x) :: NonWhite(r, x))
            && (forall u | u in r.tmu :: NonWhite(r, u))
            && (forall x | (x == s.env.running || Some(x) in s.env.mts) && x in s.heap :: NonWhite(r, x))
            && ColorsOk(r)
  {
    hide Tri, Done, MovedToTmu;
    AtomicMarkSpec(s);
    var m := AtomicMark(s);
    assert TmuOk(m);
    AtomicPreserveSpec(m);
    var a := AtomicPreserve(m);
    FramePreserve(s, m, a);
    PreserveClosed(a);
    assert NoDup(a.weak) && ColorsOk(a) by { TriParts(a); }
    ClearTablesClosed(a, a.weak);
    AtomicFinish(a, ClearTables(a, a.weak), Atomic(s));
  }

  lemma TriParts(s: State)
    requires Tri(s, {})
    ensures NoDup(s.weak) && ColorsOk(s)
  {
  }

  lemma FramePreserve(s: State, m: State, a: State)
    requires SameFrame(s, m) && PreserveFrame(m, a)
    ensures PreserveFrame(s, a)
  {
    forall o | o in a.tmu && o !in s.tmu
      ensures MovedToTmu(s, o)
    {
      assert MovedToTmu(m, o);
      SameField(s, m, s.heap[o].body.mt, s.env.gcName);
    }
  }

  lemma AtomicFinish(a: State, c: State, r: State)
    requires Trimmed(a, c) && ClosedBut(c, []) && ColorsOk(a)
    requires r == Flip(c)
    ensures forall o, x | NonWhite(r, o) && Pts(r, o, x) :: NonWhite(r, x)
    ensures forall o | NonWhite(a, o) :: NonWhite(r, o)
    ensures ColorsOk(r)
  {
    assert forall o, x :: Pts(r, o, x) <==> Pts(c, o, x);
    assert forall o :: NonWhite(r, o) <==> NonWhite(c, o);
  }
}
