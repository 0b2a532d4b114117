/** The mark phase of ggc.c: propagatemark, propagateall, remarkupvals, and the tri-colour
    invariant they keep. */
module GcPropagate {
  import opened GcHeap
  import opened GcMark

  // ---------------------------------------------------------------- invariants

  predicate HasColor(s: State, o: Id, c: Color) { o in s.heap && s.heap[o].color == c }

  predicate KindIs(s: State, o: Id, up: bool) {
    o in s.heap && (s.heap[o].body.Str? || (up && s.heap[o].body.UpOpen?))
  }

  /** No black object points to a white one; `skip` and userdata waiting for __gc aside. */
  ghost predicate BlackSafe(s: State, skip: set<Id>) {
    forall o, x | HasColor(s, o, Black) && o !in s.tmu && o !in skip && Pts(s, o, x) :: NonWhite(s, x)
  }

  /** Every gray object is a string, an open upvalue, or on a list that will be visited. */
  ghost predicate GrayKept(s: State) {
    forall o | HasColor(s, o, Gray) :: KindIs(s, o, true) || o in s.gray || o in s.grayagain || o in s.weak
  }

  /** The three lists hold distinct gray objects. */
  ghost predicate ListsOk(s: State) {
    && NoDup(s.gray) && NoDup(s.grayagain) && NoDup(s.weak)
    && (forall o | o in s.gray :: HasColor(s, o, Gray) && Listed(s.heap[o].body) && o !in s.grayagain && o !in s.weak)
    && (forall o | o in s.grayagain :: HasColor(s, o, Gray) && (s.heap[o].body.Thread? || s.heap[o].body.Table?) && o !in s.weak)
    && (forall o | o in s.weak :: HasColor(s, o, Gray) && s.heap[o].body.Table?)
  }

  /** Colours that a kind never has. */
  ghost predicate ColorsOk(s: State) {
    forall o | o in s.heap ::
      && (s.heap[o].color.Black? ==> !s.heap[o].body.Str? && !s.heap[o].body.UpOpen? && !s.heap[o].body.Thread?)
      && (s.heap[o].color.Gray? ==> !s.heap[o].body.Udata? && !s.heap[o].body.UpClosed?)
  }

  /** The tri-colour invariant of the propagation phase. */
  ghost predicate Tri(s: State, skip: set<Id>) {
    BlackSafe(s, skip) && GrayKept(s) && ListsOk(s) && ColorsOk(s)
  }

  /** Every reference leads to an existing object. */
  ghost predicate NoDangling(s: State) { forall o, x | Pts(s, o, x) :: x in s.heap }

  /** Marked open upvalues have a marked value. */
  ghost predicate UpvalsDone(s: State) {
    forall o, x | HasColor(s, o, Gray) && s.heap[o].body.UpOpen? && Pts(s, o, x) :: NonWhite(s, x)
  }

  /** Weak tables have their strong part marked and carry their current mode. */
  ghost predicate WeakDone(s: State, skip: set<Id>) {
    && (forall o, x | o in s.weak && o !in skip && StrongPts(s, o, x) :: NonWhite(s, x))
    && (forall o | o in s.weak && o in s.heap && s.heap[o].body.Table? ::
          (s.heap[o].wk, s.heap[o].wv) == Mode(s, s.heap[o].body.mt) && (s.heap[o].wk || s.heap[o].wv))
  }

  /** What waits on grayagain has been traversed since the last mutator step. */
  ghost predicate AgainDone(s: State, skip: set<Id>) {
    && (forall o, x | o in s.grayagain && o !in skip && Pts(s, o, x) :: NonWhite(s, x))
    && (forall o | o in s.grayagain :: o in s.heap && s.heap[o].body.Thread?)
  }

  /** Stages of the atomic phase: what has been revisited so far. */
  datatype Stage = Stage(up: bool, weak: bool, again: bool)

  ghost predicate Done(s: State, st: Stage, skip: set<Id>) {
    && (st.up ==> UpvalsDone(s))
    && (st.weak ==> WeakDone(s, skip))
    && (st.again ==> AgainDone(s, skip))
  }

  /** Marking keeps every invariant of the mark phase. */
  lemma MarksKeepTri(s: State, r: State, skip: set<Id>, st: Stage)
    requires Tri(s, skip) && NoDangling(s) && Done(s, st, skip) && Marks(s, r)
    ensures Tri(r, skip) && NoDangling(r) && Done(r, st, skip)
  {
    SameRefs(s, r);
    MarksKeepLists(s, r, skip);
    MarksKeepDone(s, r, skip, st);
    hide ListsOk, Mode;
    forall o, x | HasColor(r, o, Black) && o !in r.tmu && o !in skip && Pts(r, o, x)
      ensures NonWhite(r, x)
    {
      assert Pts(s, o, x);
    }
  }

  lemma MarksKeepLists(s: State, r: State, skip: set<Id>)
    requires Tri(s, skip) && Marks(s, r)
    ensures ListsOk(r) && GrayKept(r) && ColorsOk(r)
  {
    hide BlackSafe, Followed, GrayKept, ColorsOk, ListsOk;
    MarksLists(s, r);
    MarksGray(s, r);
    MarksColors(s, r);
  }

  lemma MarksLists(s: State, r: State)
    requires ListsOk(s) && Marks(s, r)
    ensures ListsOk(r)
  {
    hide Followed;
  }

  lemma MarksGray(s: State, r: State)
    requires GrayKept(s) && Marks(s, r)
    ensures GrayKept(r)
  {
    hide Followed, NoDup;
  }

  lemma MarksColors(s: State, r: State)
    requires ColorsOk(s) && Marks(s, r)
    ensures ColorsOk(r)
  {
    hide Followed, GrayGrown;
  }

  lemma MarksKeepDone(s: State, r: State, skip: set<Id>, st: Stage)
    requires NoDangling(s) && Done(s, st, skip) && Marks(s, r)
    ensures Done(r, st, skip)
  {
    SameRefs(s, r);
    hide GrayGrown;
    forall o, x | HasColor(r, o, Gray) && r.heap[o].body.UpOpen? && Pts(r, o, x) && st.up
      ensures NonWhite(r, x)
    {
      assert Pts(s, o, x);
    }
  }

  // ---------------------------------------------------------------- propagatemark

  /** What propagatemark does to the object itself: take it off the gray list, blacken it, and
      put it back to gray on `weak` or `grayagain` if it is a weak table or a thread. */
  function Settle(s: State): State
    requires s.gray != [] && s.gray[0] in s.heap
  {
    var o := s.gray[0];
    var s1 := s.(gray := s.gray[1..]);
    match s.heap[o].body
    case Table(mt, _, _) =>
      var (wk, wv) := Mode(s, mt);
      if wk || wv then s1.(weak := [o] + s1.weak, heap := s1.heap[o := s1.heap[o].(color := Gray, wk := wk, wv := wv)])
      else Paint(s1, o, Black)
    case Thread(_, _, _) => Paint(s1.(grayagain := [o] + s1.grayagain), o, Gray)
    case _ => Paint(s1, o, Black)
  }

  function PropagateMark(s: State): State
    requires s.gray != [] && s.gray[0] in s.heap
  {
    MarkMany(Settle(s), Targets(s, s.gray[0]))
  }

  /** Only `o` changed, from gray to a non-white colour, and it moved off the gray list. */
  ghost predicate Moved(s: State, r: State, o: Id) {
    && s.gray == [o] + r.gray
    && r == s.(heap := r.heap, gray := r.gray, grayagain := r.grayagain, weak := r.weak)
    && SameBodies(s, r) && o in s.heap
    && (forall p | p in s.heap && p != o :: r.heap[p] == s.heap[p])
    && r.heap[o] == s.heap[o].(color := r.heap[o].color, wk := r.heap[o].wk, wv := r.heap[o].wv)
    && (r.heap[o].color.Black? ==> !s.heap[o].body.Thread? && r.weak == s.weak && r.grayagain == s.grayagain)
    && (r.heap[o].color.Gray? ==>
          || (r.weak == [o] + s.weak && r.grayagain == s.grayagain && s.heap[o].body.Table? &&
              (r.heap[o].wk, r.heap[o].wv) == Mode(s, s.heap[o].body.mt) && (r.heap[o].wk || r.heap[o].wv))
          || (r.grayagain == [o] + s.grayagain && r.weak == s.weak && s.heap[o].body.Thread?))
    && !r.heap[o].color.White?
  }

  lemma SettleMoved(s: State)
    requires s.gray != [] && s.gray[0] in s.heap
    ensures Moved(s, Settle(s), s.gray[0])
    ensures HasColor(Settle(s), s.gray[0], Black) && s.heap[s.gray[0]].body.Table? ==>
              Mode(s, s.heap[s.gray[0]].body.mt) == (false, false)
  {
    hide Mode, Settle, Moved;
    if s.heap[s.gray[0]].body.Table? { SettleTable(s); } else { SettleOther(s); }
  }

  lemma SettleOther(s: State)
    requires s.gray != [] && s.gray[0] in s.heap && !s.heap[s.gray[0]].body.Table?
    ensures Moved(s, Settle(s), s.gray[0])
  {
    hide Mode;
    var o := s.gray[0];
    assert s.gray == [o] + s.gray[1..];
    var thread := s.heap[o].body.Thread?;
    var s1 := s.(gray := s.gray[1..], grayagain := if thread then [o] + s.grayagain else s.grayagain);
    assert Settle(s) == Paint(s1, o, if thread then Gray else Black);
    hide Settle;
  }

  lemma SettleTable(s: State)
    requires s.gray != [] && s.gray[0] in s.heap && s.heap[s.gray[0]].body.Table?
    ensures Moved(s, Settle(s), s.gray[0])
    ensures HasColor(Settle(s), s.gray[0], Black) ==> Mode(s, s.heap[s.gray[0]].body.mt) == (false, false)
  {
    hide Mode;
    var o := s.gray[0];
    assert s.gray == [o] + s.gray[1..];
    var (wk, wv) := Mode(s, s.heap[o].body.mt);
  }

  lemma MovedLists(s: State, r: State, o: Id)
    requires ListsOk(s) && Moved(s, r, o)
    ensures ListsOk(r)
  {
    hide Mode, NoDup;
    assert o in s.gray by { assert s.gray[0] == o; }
    assert forall p :: p in s.gray <==> p == o || p in r.gray;
    NoDupFront(o, r.gray);
    NoDupFront(o, s.weak);
    NoDupFront(o, s.grayagain);
    MovedMembers(s, r, o);
  }

  lemma NoDupFront(o: Id, l: seq<Id>)
    ensures NoDup([o] + l) <==> NoDup(l) && o !in l
  {
    var k := [o] + l;
    assert forall i | 0 <= i < |l| :: k[i + 1] == l[i];
    if NoDup(k) {
      forall i, j | 0 <= i < j < |l| ensures l[i] != l[j] { assert k[i + 1] != k[j + 1]; }
      forall i | 0 <= i < |l| ensures l[i] != o { assert k[0] != k[i + 1]; }
    }
  }

  lemma MovedMembers(s: State, r: State, o: Id)
    requires ListsOk(s) && Moved(s, r, o) && o !in r.gray && o in s.gray
    requires forall p :: p in s.gray <==> p == o || p in r.gray
    ensures forall x | x in r.gray :: HasColor(r, x, Gray) && Listed(r.heap[x].body) && x !in r.grayagain && x !in r.weak
    ensures forall x | x in r.grayagain :: HasColor(r, x, Gray) && (r.heap[x].body.Thread? || r.heap[x].body.Table?) && x !in r.weak
    ensures forall x | x in r.weak :: HasColor(r, x, Gray) && r.heap[x].body.Table?
  {
    hide Mode, NoDup;
    assert forall x :: x in r.weak ==> x in s.weak || x == o;
    assert forall x :: x in r.grayagain ==> x in s.grayagain || x == o;
  }

  lemma MovedTri(s: State, r: State, o: Id, st: Stage)
    requires Tri(s, {}) && NoDangling(s) && Done(s, st, {}) && Moved(s, r, o)
    ensures Tri(r, {o}) && NoDangling(r) && Done(r, st, {o})
  {
    SameRefs(s, r);
    MovedLists(s, r, o);
    hide BodyPts, Mode, NoDup;
    assert o in s.gray;
    assert BlackSafe(r, {o});
    assert GrayKept(r);
    assert ColorsOk(r);
  }

  /** Once all it holds strongly is marked, an object needs no exemption. */
  lemma DropSkip(s: State, o: Id, st: Stage)
    requires Tri(s, {o}) && Done(s, st, {o}) && o in s.heap
    requires forall x | StrongPts(s, o, x) :: NonWhite(s, x)
    requires HasColor(s, o, Black) && s.heap[o].body.Table? ==> Mode(s, s.heap[o].body.mt) == (false, false)
    ensures Tri(s, {}) && Done(s, st, {})
  {
    forall x | HasColor(s, o, Black) && Pts(s, o, x)
      ensures NonWhite(s, x)
    {
      assert StrongPts(s, o, x);
    }
  }

  /** One propagation step keeps the tri-colour invariant. */
  lemma PropagateMarkTri(s: State, st: Stage)
    requires Tri(s, {}) && NoDangling(s) && Done(s, st, {}) && s.gray != [] && s.gray[0] in s.heap
    ensures var r := PropagateMark(s); Tri(r, {}) && NoDangling(r) && Done(r, st, {}) && SameBodies(s, r)
  {
    hide Done, Tri, NoDangling;
    var o := s.gray[0];
    var s1 := Settle(s);
    var r := PropagateMark(s);
    SettleMoved(s);
    MovedTri(s, s1, o, st);
    MarkManyMarks(s1, Targets(s, o));
    MarksKeepTri(s1, r, {o}, st);
    VisitedAll(s, s1, r, o);
    DropSkip(r, o, st);
  }

  lemma VisitedAll(s: State, s1: State, r: State, o: Id)
    requires SameBodies(s, s1) && Marks(s1, r) && NoDangling(s) && o in s.heap
    requires forall x | x in Targets(s, o) && x in s1.heap :: NonWhite(r, x)
    ensures SameBodies(s, r)
    ensures forall x | StrongPts(r, o, x) :: NonWhite(r, x)
    ensures forall mt :: Mode(s, mt) == Mode(r, mt)
  {
    SameRefs(s, r);
    forall x | StrongPts(r, o, x)
      ensures NonWhite(r, x)
    {
      assert StrongPts(s, o, x);
      StrongIsPts(s, o, x);
    }
  }

  /** Fields that marking leaves alone. */
  ghost predicate SameFrame(s: State, r: State) {
    && r == s.(heap := r.heap, gray := r.gray, grayagain := r.grayagain, weak := r.weak)
    && SameBodies(s, r)
    && (forall o | o in s.heap :: r.heap[o].fixed == s.heap[o].fixed && r.heap[o].fin == s.heap[o].fin)
    && (forall o | NonWhite(s, o) :: NonWhite(r, o))
    && (forall o | IsWhite(r, o) :: r.heap[o].color == s.heap[o].color)
  }

  lemma MarksFrame(s: State, r: State)
    requires Marks(s, r)
    ensures SameFrame(s, r)
  {
  }

  lemma FrameTransitive(s: State, r: State, q: State)
    requires SameFrame(s, r) && SameFrame(r, q)
    ensures SameFrame(s, q)
  {
  }

  lemma MovedFrame(s: State, r: State, o: Id)
    requires Moved(s, r, o) && !IsWhite(s, o)
    ensures SameFrame(s, r) && WhiteSet(r) == WhiteSet(s) && |r.gray| < |s.gray|
  {
    assert forall p | p in s.heap :: r.heap[p].color.White? <==> s.heap[p].color.White?;
  }

  lemma PropagateMarkFrame(s: State)
    requires s.gray != [] && s.gray[0] in s.heap && !IsWhite(s, s.gray[0])
    ensures SameFrame(s, PropagateMark(s))
    ensures WhiteSet(PropagateMark(s)) <= WhiteSet(s)
    ensures WhiteSet(PropagateMark(s)) == WhiteSet(s) ==> |PropagateMark(s).gray| < |s.gray|
  {
    var s1 := Settle(s);
    SettleMoved(s);
    MovedFrame(s, s1, s.gray[0]);
    MarkManyMarks(s1, Targets(s, s.gray[0]));
    MarksFrame(s1, PropagateMark(s));
    FrameTransitive(s, s1, PropagateMark(s));
  }

  /** The condition under which propagateall runs to the end. */
  function PropagateAll(s: State): State
    decreases WhiteSet(s), |s.gray|
  {
    if s.gray == [] || s.gray[0] !in s.heap || IsWhite(s, s.gray[0]) then s
    else
      var o := s.gray[0];
      assert o in s.heap && !IsWhite(s, o);
      PropagateMarkFrame(s);
      PropagateAll(PropagateMark(s))
  }

  /** propagateall empties the gray list and keeps the tri-colour invariant. */
  lemma {:induction false} PropagateAllTri(s: State, st: Stage)
    requires Tri(s, {}) && NoDangling(s) && Done(s, st, {})
    ensures var r := PropagateAll(s);
            r.gray == [] && Tri(r, {}) && NoDangling(r) && Done(r, st, {}) && SameFrame(s, r)
    decreases WhiteSet(s), |s.gray|
  {
    if s.gray != [] {
      assert s.gray[0] in s.gray;
      PropagateMarkFrame(s);
      PropagateMarkTri(s, st);
      PropagateAllTri(PropagateMark(s), st);
      FrameTransitive(s, PropagateMark(s), PropagateAll(s));
    }
  }

  // ---------------------------------------------------------------- remarkupvals

  function Remark(s: State, u: Id): State {
    if HasColor(s, u, Gray) then MarkMany(s, Targets(s, u)) else s
  }

  function RemarkUpvals(s: State, uvs: seq<Id>): State
    decreases |uvs|
  {
    if uvs == [] then s else RemarkUpvals(Remark(s, uvs[0]), uvs[1..])
  }

  /** If the open upvalue `u` is marked, so is everything it refers to. */
  ghost predicate UpvalDone(s: State, u: Id) {
    HasColor(s, u, Gray) ==> forall x | Pts(s, u, x) :: NonWhite(s, x)
  }

  lemma RemarkDone(s: State, u: Id)
    requires Tri(s, {}) && NoDangling(s) && u in s.heap && s.heap[u].body.UpOpen?
    ensures var r := Remark(s, u); Marks(s, r) && Tri(r, {}) && NoDangling(r) && UpvalDone(r, u)
  {
    var r := Remark(s, u);
    MarkManyMarks(s, Targets(s, u));
    assert Marks(s, s);
    MarksKeepTri(s, r, {}, Stage(false, false, false));
    SameRefs(s, r);
  }

  lemma MarksKeepUpval(s: State, r: State, u: Id)
    requires Marks(s, r) && UpvalDone(s, u) && NoDangling(s) && u in s.heap && s.heap[u].body.UpOpen?
    ensures UpvalDone(r, u)
  {
    SameRefs(s, r);
  }

  /** After remarkupvals, every upvalue of the list that is marked has a marked value. */
  lemma {:induction false} RemarkUpvalsDone(s: State, uvs: seq<Id>)
    requires Tri(s, {}) && NoDangling(s)
    requires forall o | o in uvs :: o in s.heap && s.heap[o].body.UpOpen?
    ensures var r := RemarkUpvals(s, uvs);
            Marks(s, r) && Tri(r, {}) && NoDangling(r) && forall o | o in uvs :: UpvalDone(r, o)
    decreases |uvs|
  {
    if uvs == [] {
      assert Marks(s, s);
    } else {
      var u, s1, r := uvs[0], Remark(s, uvs[0]), RemarkUpvals(s, uvs);
      RemarkDone(s, u);
      assert forall o | o in uvs[1..] :: o in uvs;
      RemarkUpvalsDone(s1, uvs[1..]);
      MarksTransitive(s, s1, r);
      MarksKeepUpval(s1, r, u);
      assert uvs == [u] + uvs[1..];
    }
  }
}
