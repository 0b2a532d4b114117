/** Marking: reallymarkobject and the markobject/markvalue macros (ggc.c). */
module GcMark {
  import opened GcHeap

  /** Kinds that reallymarkobject links into the gray list. */
  predicate Listed(b: Body) { b.Closure? || b.Table? || b.Thread? || b.Proto? }

  /** The colour reallymarkobject leaves: userdata and closed upvalues are never gray. */
  function MarkedColor(b: Body): Color { if b.Udata? || b.UpClosed? then Black else Gray }

  function Paint(s: State, o: Id, c: Color): State
    requires o in s.heap
  {
    s.(heap := s.heap[o := s.heap[o].(color := c)])
  }

  function Mark(s: State, o: Id): (r: State)
    ensures WhiteSet(r) <= WhiteSet(s)
    ensures WhiteSet(r) == WhiteSet(s) ==> r == s
    decreases WhiteSet(s), 0
  {
    if !IsWhite(s, o) then s
    else
      var b := s.heap[o].body;
      var s1 := Paint(s, o, MarkedColor(b));
      assert o in WhiteSet(s) && o !in WhiteSet(s1);
      if Listed(b) then s1.(gray := [o] + s1.gray)
      else MarkMany(s1, Targets(s, o))
  }

  function MarkMany(s: State, ids: seq<Id>): (r: State)
    ensures WhiteSet(r) <= WhiteSet(s)
    ensures WhiteSet(r) == WhiteSet(s) ==> r == s
    decreases WhiteSet(s), 1 + |ids|
  {
    if ids == [] then s else MarkMany(Mark(s, ids[0]), ids[1..])
  }

  /** Same objects with the same contents; only mark bits and lists may differ. */
  ghost predicate SameBodies(s: State, r: State) {
    && r.heap.Keys == s.heap.Keys
    && r.env.modeName == s.env.modeName
    && forall o | o in s.heap :: r.heap[o].body == s.heap[o].body
  }

  lemma SameField(s: State, r: State, mt: Option<Id>, name: Id)
    requires SameBodies(s, r)
    ensures MetaField(s.heap, mt, name) == MetaField(r.heap, mt, name)
  {
    if mt.Some? {
      var m := mt.value;
      assert m in s.heap ==> r.heap[m].body == s.heap[m].body;
    }
  }

  lemma SameRefs(s: State, r: State)
    requires SameBodies(s, r)
    ensures forall o, x :: Pts(s, o, x) <==> Pts(r, o, x)
    ensures forall mt :: Mode(s, mt) == Mode(r, mt)
    ensures forall o, x :: StrongPts(s, o, x) <==> StrongPts(r, o, x)
  {
    forall t, i: nat
      ensures SlotValue(s.heap, t, i) == SlotValue(r.heap, t, i)
    {
    }
    forall mt: Option<Id>
      ensures Mode(s, mt) == Mode(r, mt)
    {
      SameField(s, r, mt, s.env.modeName);
      assert MetaField(s.heap, mt, s.env.modeName) == MetaField(r.heap, mt, r.env.modeName);
    }
  }

  ghost predicate NoDup(l: seq<Id>) { forall i, j | 0 <= i < j < |l| :: l[i] != l[j] }

  /** `o` was white in `s` and has been marked in `r`. */
  predicate Turned(s: State, r: State, o: Id) {
    IsWhite(s, o) && o in r.heap && r.heap[o] == s.heap[o].(color := MarkedColor(s.heap[o].body))
  }

  /** Only marks were added: white objects may have taken their marked colour. */
  ghost predicate Recolored(s: State, r: State) {
    && r == s.(heap := r.heap, gray := r.gray)
    && SameBodies(s, r)
    && (forall o | o in s.heap :: r.heap[o] == s.heap[o] || Turned(s, r, o))
  }

  /** The gray list gained exactly the newly marked objects that need a traversal. */
  ghost predicate GrayGrown(s: State, r: State) {
    && (forall o :: o in r.gray <==> o in s.gray || (Turned(s, r, o) && Listed(s.heap[o].body)))
    && (NoDup(s.gray) && (forall o | o in s.gray :: NonWhite(s, o)) ==> NoDup(r.gray))
  }

  /** Everything else that was marked has all its references marked already. */
  ghost predicate Followed(s: State, r: State) {
    forall o, x | Turned(s, r, o) && !Listed(s.heap[o].body) && Pts(s, o, x) && x in s.heap :: NonWhite(r, x)
  }

  /** The effect of any amount of marking. */
  ghost predicate Marks(s: State, r: State) {
    Recolored(s, r) && GrayGrown(s, r) && Followed(s, r)
  }

  lemma MarksTransitive(s: State, r: State, q: State)
    requires Marks(s, r) && Marks(r, q)
    ensures Marks(s, q)
  {
    SameRefs(s, r);
    forall o | o in s.heap
      ensures Turned(s, q, o) <==> Turned(s, r, o) || Turned(r, q, o)
      ensures q.heap[o] == s.heap[o] || Turned(s, q, o)
    {
    }
    assert Recolored(s, q);
    assert GrayGrown(s, q);
    forall o, x | Turned(s, q, o) && !Listed(s.heap[o].body) && Pts(s, o, x) && x in s.heap
      ensures NonWhite(q, x)
    {
      if Turned(s, r, o) {
        assert NonWhite(r, x);
      } else {
        assert Pts(r, o, x);
      }
    }
  }

  lemma {:induction false} MarkMarks(s: State, o: Id)
    ensures Marks(s, Mark(s, o))
    ensures o in s.heap ==> NonWhite(Mark(s, o), o)
    decreases WhiteSet(s), 0
  {
    if IsWhite(s, o) {
      var b := s.heap[o].body;
      var s1 := Paint(s, o, MarkedColor(b));
      assert o in WhiteSet(s) && o !in WhiteSet(s1);
      if Listed(b) {
        var r := Mark(s, o);
        assert forall i | 0 < i < |r.gray| :: r.gray[i] == s.gray[i - 1] && r.gray[i] in s.gray;
        assert Marks(s, r);
      } else {
        var r := Mark(s, o);
        MarkManyMarks(s1, Targets(s, o));
        SameRefs(s, s1);
        MarksAfterPaint(s, o, s1, r);
      }
    }
  }

  /** Painting an unlisted object and then marking all it refers to is marking. */
  lemma MarksAfterPaint(s: State, o: Id, s1: State, r: State)
    requires IsWhite(s, o) && !Listed(s.heap[o].body)
    requires s1 == Paint(s, o, MarkedColor(s.heap[o].body))
    requires Marks(s1, r)
    requires forall x | x in Targets(s, o) && x in s1.heap :: NonWhite(r, x)
    ensures Marks(s, r) && NonWhite(r, o)
  {
    SameRefs(s, s1);
    assert !IsWhite(s1, o);
    assert r.heap[o] == s1.heap[o];
    forall p | p in s.heap && p != o
      ensures s1.heap[p] == s.heap[p] && (Turned(s1, r, p) <==> Turned(s, r, p))
    {
    }
    forall p, x | Turned(s, r, p) && !Listed(s.heap[p].body) && Pts(s, p, x) && x in s.heap
      ensures NonWhite(r, x)
    {
      if p == o {
        assert StrongPts(s, o, x);
      } else {
        assert Pts(s1, p, x);
      }
    }
  }

  lemma {:induction false} MarkManyMarks(s: State, ids: seq<Id>)
    ensures Marks(s, MarkMany(s, ids))
    ensures forall x | x in ids && x in s.heap :: NonWhite(MarkMany(s, ids), x)
    decreases WhiteSet(s), 1 + |ids|
  {
    if ids != [] {
      var s1 := Mark(s, ids[0]);
      MarkMarks(s, ids[0]);
      MarkManyMarks(s1, ids[1..]);
      MarksTransitive(s, s1, MarkMany(s, ids));
      assert ids == [ids[0]] + ids[1..];
    }
  }

  /** A set of objects; marking does not go on from those that are shut, because they are marked already. */
  datatype Zone = Zone(objects: set<Id>, shut: set<Id>)

  /** Marking never leaves a set that is closed under strong references. */
  ghost predicate StrongClosed(s: State, z: Zone) {
    forall o, x | o in z.objects && o !in z.shut && StrongPts(s, o, x) && x in s.heap :: x in z.objects
  }

  lemma {:induction false} MarkWithin(s: State, o: Id, z: Zone)
    requires StrongClosed(s, z) && (o in s.heap ==> o in z.objects) && forall x | x in z.shut :: NonWhite(s, x)
    ensures forall x | Turned(s, Mark(s, o), x) :: x in z.objects
    decreases WhiteSet(s), 0
  {
    if IsWhite(s, o) && !Listed(s.heap[o].body) {
      var s1 := Paint(s, o, MarkedColor(s.heap[o].body));
      assert o in WhiteSet(s) && o !in WhiteSet(s1);
      SameRefs(s, s1);
      MarkManyWithin(s1, Targets(s, o), z);
      var r := Mark(s, o);
      MarkManyMarks(s1, Targets(s, o));
      forall x | Turned(s, r, x)
        ensures x in z.objects
      {
        assert x == o || Turned(s1, r, x);
      }
    }
  }

  lemma {:induction false} MarkManyWithin(s: State, ids: seq<Id>, z: Zone)
    requires StrongClosed(s, z) && (forall x | x in z.shut :: NonWhite(s, x))
    requires forall x | x in ids && x in s.heap :: x in z.objects
    ensures forall x | Turned(s, MarkMany(s, ids), x) :: x in z.objects
    decreases WhiteSet(s), 1 + |ids|
  {
    if ids != [] {
      var s1 := Mark(s, ids[0]);
      MarkMarks(s, ids[0]);
      MarkWithin(s, ids[0], z);
      SameRefs(s, s1);
      MarkManyMarks(s1, ids[1..]);
      MarkManyWithin(s1, ids[1..], z);
      var r := MarkMany(s, ids);
      forall x | Turned(s, r, x)
        ensures x in z.objects
      {
        assert Turned(s, s1, x) || Turned(s1, r, x);
      }
    }
  }
}
