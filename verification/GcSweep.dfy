/** The sweep phase of ggc.c (sweeplist, freeobj) and the closing of upvalues (gfunc.c). */
module GcSweep {
  import opened GcHeap
  import opened GcMark
  import opened GcPropagate
  import opened GcAtomic
  import opened GcInv

  /** The part of the invariant that does not depend on the phase. */
  ghost predicate Core(s: State) { Shape(s) && ColorsOk(s) && LiveClosed(s) && RootsLive(s) }

  function MakeWhite(s: State, o: Id): State
    requires o in s.heap
  {
    Paint(s, o, White(s.cw))
  }

  lemma MakeWhiteCore(s: State, o: Id)
    requires Core(s) && Live(s, o)
    ensures Core(MakeWhite(s, o))
  {
    var r := MakeWhite(s, o);
    RepaintedShape(s, r);
    hide Shape;
    assert forall x :: Live(s, x) <==> Live(r, x);
    RepaintedLive(s, r);
  }

  // ---------------------------------------------------------------- upvalues leave the open list

  /** Take an open upvalue off its thread's list and off uvhead (unlinkupval). */
  function Unlink(s: State, u: Id): State
    requires IsUpOpen(s, u) && IsThread(s, s.heap[u].body.thread)
  {
    var t := s.heap[u].body.thread;
    var b := s.heap[t].body;
    s.(heap := s.heap[t := s.heap[t].(body := b.(open := Remove(b.open, u)))], uvhead := Remove(s.uvhead, u))
  }

  /** gafqF_freeupval of an open upvalue. */
  function FreeUp(s: State, u: Id): State
    requires IsUpOpen(s, u) && IsThread(s, s.heap[u].body.thread)
  {
    var s1 := Unlink(s, u);
    s1.(heap := s1.heap - {u})
  }

  /** Put an object at the head of rootgc. */
  function LinkHead(s: State, o: Id): State {
    if s.swept == [] then s.(unswept := [o] + s.unswept) else s.(swept := [o] + s.swept)
  }

  /** The colour a closed upvalue starts with: gafqC_linkupval never leaves it gray. */
  function ClosedColor(s: State, c: Color): Color {
    if c != Gray then c else if s.phase == Propagate then Black else White(s.cw)
  }

  /** Move the value into the upvalue and link it into rootgc; the barrier comes after. */
  function CloseUp(s: State, u: Id): State
    requires IsUpOpen(s, u) && IsThread(s, s.heap[u].body.thread)
  {
    var v := SlotValue(s.heap, s.heap[u].body.thread, s.heap[u].body.slot);
    var s1 := Unlink(s, u);
    LinkHead(s1.(heap := s1.heap[u := s1.heap[u].(color := ClosedColor(s, s1.heap[u].color), body := UpClosed(v))]), u)
  }

  /** `r` is `s` after upvalue `u` left the open list, either freed or closed. */
  ghost predicate UpLeft(s: State, r: State, u: Id) {
    && IsUpOpen(s, u) && IsThread(s, s.heap[u].body.thread)
    && r == s.(heap := r.heap, uvhead := r.uvhead, swept := r.swept, unswept := r.unswept)
    && (forall o | o != u :: o in r.heap <==> o in s.heap)
    && (forall o | o in s.heap && o != u :: o in r.heap &&
          if o == s.heap[u].body.thread
          then r.heap[o].body.Thread? && r.heap[o] == s.heap[o].(body := s.heap[o].body.(open := r.heap[o].body.open))
          else r.heap[o] == s.heap[o])
    && (forall x :: x in r.heap[s.heap[u].body.thread].body.open <==> x in s.heap[s.heap[u].body.thread].body.open && x != u)
    && (NoDup(s.heap[s.heap[u].body.thread].body.open) ==> NoDup(r.heap[s.heap[u].body.thread].body.open))
    && (forall x :: x in r.uvhead <==> x in s.uvhead && x != u)
    && (u in r.heap ==> r.heap[u].body == UpClosed(SlotValue(s.heap, s.heap[u].body.thread, s.heap[u].body.slot)) &&
                        r.heap[u] == s.heap[u].(color := ClosedColor(s, s.heap[u].color), body := r.heap[u].body))
    && (if u in r.heap then r == LinkHead(s.(heap := r.heap, uvhead := r.uvhead), u)
        else r.swept == s.swept && r.unswept == s.unswept)
  }

  lemma FreeUpLeft(s: State, u: Id)
    requires IsUpOpen(s, u) && IsThread(s, s.heap[u].body.thread)
    ensures UpLeft(s, FreeUp(s, u), u) && u !in FreeUp(s, u).heap
  {
  }

  lemma CloseUpLeft(s: State, u: Id)
    requires IsUpOpen(s, u) && IsThread(s, s.heap[u].body.thread)
    ensures UpLeft(s, CloseUp(s, u), u) && u in CloseUp(s, u).heap
  {
  }

  lemma UpLeftKinds(s: State, r: State, u: Id)
    requires UpLeft(s, r, u)
    ensures forall o | o != u :: IsThread(s, o) <==> IsThread(r, o)
    ensures forall o | o != u :: IsUpOpen(s, o) <==> IsUpOpen(r, o)
    ensures forall o | o != u :: IsStr(s, o) <==> IsStr(r, o)
    ensures forall o | o != u :: RootKind(s, o) <==> RootKind(r, o)
    ensures !IsThread(s, u) && !IsThread(r, u) && !IsUpOpen(r, u) && !IsStr(s, u) && !IsStr(r, u)
  {
  }

  lemma UpLeftRefs(s: State, r: State, u: Id)
    requires UpLeft(s, r, u)
    ensures forall o, x | o != u :: Pts(s, o, x) <==> Pts(r, o, x)
    ensures u in r.heap ==> forall x :: Pts(s, u, x) <==> Pts(r, u, x)
  {
    forall t, i: nat
      ensures SlotValue(s.heap, t, i) == SlotValue(r.heap, t, i)
    {
    }
  }

  lemma UpLeftUps(s: State, r: State, u: Id)
    requires UpLeft(s, r, u) && UpsOk(s)
    ensures UpsOk(r)
  {
    hide UpLeft, UpsOk;
    UpLeftLists(s, r, u);
    UpLeftSlots(s, r, u);
    UpsOkOf(r);
  }

  lemma UpsOkOf(r: State)
    requires UpvalsListed(r) && forall x | IsThread(r, x) :: NoDup(r.heap[x].body.open)
    requires forall x, w | IsThread(r, x) && w in r.heap[x].body.open :: IsUpOpen(r, w) && r.heap[w].body.thread == x
    requires forall w | IsUpOpen(r, w) ::
               var t := r.heap[w].body.thread;
               IsThread(r, t) && w in r.heap[t].body.open && r.heap[w].body.slot < |r.heap[t].body.stack|
    ensures UpsOk(r)
  {
  }

  lemma UpLeftLists(s: State, r: State, u: Id)
    requires UpLeft(s, r, u) && UpsOk(s)
    ensures UpvalsListed(r) && forall x | IsThread(r, x) :: NoDup(r.heap[x].body.open)
    ensures forall x, w | IsThread(r, x) && w in r.heap[x].body.open :: IsUpOpen(r, w) && r.heap[w].body.thread == x
  {
    UpLeftKinds(s, r, u);
    hide NoDup;
    assert forall o | IsThread(s, o) && o != s.heap[u].body.thread :: u !in s.heap[o].body.open;
  }

  lemma UpLeftSlots(s: State, r: State, u: Id)
    requires UpLeft(s, r, u) && UpsOk(s)
    ensures forall w | IsUpOpen(r, w) ::
              var t := r.heap[w].body.thread;
              IsThread(r, t) && w in r.heap[t].body.open && r.heap[w].body.slot < |r.heap[t].body.stack|
  {
    UpLeftKinds(s, r, u);
    hide NoDup;
    assert forall o | IsThread(s, o) :: |r.heap[o].body.stack| == |s.heap[o].body.stack|;
  }

  lemma UpLeftStrs(s: State, r: State, u: Id)
    requires UpLeft(s, r, u) && StrsOk(s)
    ensures StrsOk(r)
  {
    UpLeftKinds(s, r, u);
    assert forall b: nat, t :: InBucket(s, b, t) <==> InBucket(r, b, t);
    forall o | IsStr(r, o)
      ensures exists b: nat :: InBucket(r, b, o)
    {
      var b: nat :| InBucket(s, b, o);
      assert InBucket(r, b, o);
    }
  }

  lemma UpLeftRoot(s: State, r: State, u: Id)
    requires UpLeft(s, r, u) && RootOk(s)
    ensures RootOk(r)
  {
    UpLeftKinds(s, r, u);
    assert !InRoot(s, u) && u !in s.tmu;
    assert forall o :: InRoot(r, o) <==> InRoot(s, o) || (o == u && u in r.heap);
    LinkNoDup(s, u);
    assert forall o | o in s.tmu :: r.heap[o] == s.heap[o];
  }

  lemma LinkNoDup(s: State, u: Id)
    requires RootNoDup(s) && !InRoot(s, u)
    ensures RootNoDup(LinkHead(s, u))
  {
    assert forall i | 0 <= i < |s.swept| :: s.swept[i] in s.swept;
    assert forall i | 0 <= i < |s.unswept| :: s.unswept[i] in s.unswept;
  }

  lemma UpLeftShape(s: State, r: State, u: Id)
    requires UpLeft(s, r, u) && Shape(s)
    ensures Shape(r)
  {
    UpLeftUps(s, r, u);
    UpLeftStrs(s, r, u);
    UpLeftRoot(s, r, u);
    UpLeftKinds(s, r, u);
    assert EnvOk(r);
  }

  lemma UpLeftColors(s: State, r: State, u: Id)
    requires UpLeft(s, r, u) && ColorsOk(s) && (Live(s, u) <==> u in r.heap)
    ensures ColorsOk(r)
    ensures forall o :: Live(r, o) <==> Live(s, o)
  {
    assert forall o | o in r.heap && o != u :: o in s.heap && r.heap[o].color == s.heap[o].color && r.heap[o].fixed == s.heap[o].fixed;
  }

  lemma UpLeftEnv(s: State, r: State, u: Id)
    requires UpLeft(s, r, u)
    ensures r.env == s.env && r.tmu == s.tmu && r.cw == s.cw
  {
  }

  /** Freeing a dead upvalue or closing a live one keeps the phase-independent invariant. */
  lemma UpLeftCore(s: State, r: State, u: Id)
    requires UpLeft(s, r, u) && Core(s) && (Live(s, u) <==> u in r.heap)
    ensures Core(r)
    ensures forall o :: Live(r, o) <==> Live(s, o)
  {
    UpLeftShape(s, r, u);
    assert EnvOk(s);
    UpLeftRefs(s, r, u);
    UpLeftColors(s, r, u);
    hide Shape, BodyPts, UpLeft;
    assert forall x :: IsRoot(r, x) <==> IsRoot(s, x) by { UpLeftEnv(s, r, u); }
    assert r.tmu == s.tmu by { UpLeftEnv(s, r, u); }
  }

  // ---------------------------------------------------------------- sweeping a thread's upvalues

  /** One element of an openupval list: free it if dead, else whiten it. */
  function SweepUp(s: State, u: Id): State {
    if !IsUpOpen(s, u) || !IsThread(s, s.heap[u].body.thread) then s
    else if Dead(s, u) then FreeUp(s, u)
    else MakeWhite(s, u)
  }

  function SweepUps(s: State, us: seq<Id>): State
    decreases |us|
  {
    if us == [] then s else SweepUps(SweepUp(s, us[0]), us[1..])
  }

  /** What any amount of sweeping and closing leaves intact. */
  ghost predicate SweptTo(s: State, r: State) {
    && r == s.(heap := r.heap, uvhead := r.uvhead, swept := r.swept, unswept := r.unswept, strs := r.strs)
    && (forall o :: Live(s, o) <==> Live(r, o))
    && (forall o | o in r.heap :: o in s.heap)
    && (forall o | Fresh(s, o) :: Fresh(r, o))
    && (forall o | o in r.heap ::
          && r.heap[o].fixed == s.heap[o].fixed && r.heap[o].fin == s.heap[o].fin
          && (Fresh(r, o) || r.heap[o].color == s.heap[o].color))
    && (forall o | IsThread(r, o) :: IsThread(s, o) && (forall u | u in r.heap[o].body.open :: u in s.heap[o].body.open))
    && (forall o | o in r.heap && !s.heap[o].body.Thread? && !s.heap[o].body.UpOpen? :: r.heap[o].body == s.heap[o].body)
  }

  /** Objects that are left have what they had, as far as tables, userdata and strings go. */
  ghost predicate Survivors(s: State, r: State) {
    forall o | o in r.heap ::
      o in s.heap && r.heap[o].fin == s.heap[o].fin &&
      (!s.heap[o].body.Thread? && !s.heap[o].body.UpOpen? ==> r.heap[o].body == s.heap[o].body)
  }

  lemma SurvivorsTransitive(s: State, r: State, q: State)
    requires Survivors(s, r) && Survivors(r, q)
    ensures Survivors(s, q)
  {
  }

  lemma SweptToTransitive(s: State, r: State, q: State)
    requires SweptTo(s, r) && SweptTo(r, q)
    ensures SweptTo(s, q)
  {
  }

  lemma UpLeftSwept(s: State, r: State, u: Id)
    requires UpLeft(s, r, u) && (Live(s, u) <==> u in r.heap) && s.phase != Propagate
    requires forall o :: Live(r, o) <==> Live(s, o)
    ensures SweptTo(s, r)
  {
    UpLeftKinds(s, r, u);
  }

  lemma WhitenSwept(s: State, u: Id)
    requires Live(s, u)
    ensures SweptTo(s, MakeWhite(s, u)) && Fresh(MakeWhite(s, u), u)
  {
  }

  /** Threads stay, with their colour, and so do the other open upvalues. */
  ghost predicate OthersStay(s: State, r: State, gone: Id) {
    && (forall t | IsThread(s, t) :: IsThread(r, t) && r.heap[t].color == s.heap[t].color)
    && (forall o | IsUpOpen(s, o) && o != gone :: IsUpOpen(r, o))
    && r.swept == s.swept && r.unswept == s.unswept && r.strs == s.strs
  }

  lemma UpLeftStay(s: State, r: State, u: Id)
    requires UpLeft(s, r, u) && u !in r.heap
    ensures OthersStay(s, r, u)
  {
    UpLeftKinds(s, r, u);
  }

  lemma OpenHasThread(s: State, u: Id)
    requires Core(s) && IsUpOpen(s, u)
    ensures IsThread(s, s.heap[u].body.thread)
  {
  }

  lemma SweepUpSpec(s: State, u: Id)
    requires Core(s) && IsUpOpen(s, u) && s.phase != Propagate
    ensures var r := SweepUp(s, u);
            Core(r) && SweptTo(s, r) && (u in r.heap ==> Fresh(r, u)) && OthersStay(s, r, u)
  {
    var r := SweepUp(s, u);
    OpenHasThread(s, u);
    hide Core, SweptTo, OthersStay;
    if Dead(s, u) {
      FreeUpLeft(s, u);
      hide FreeUp, UpLeft;
      UpLeftStay(s, r, u);
      UpLeftCore(s, r, u);
      UpLeftSwept(s, r, u);
    } else {
      MakeWhiteCore(s, u);
      WhitenSwept(s, u);
      WhitenStay(s, u);
    }
  }

  lemma WhitenStay(s: State, u: Id)
    requires IsUpOpen(s, u)
    ensures OthersStay(s, MakeWhite(s, u), u)
  {
  }

  lemma OthersStayTransitive(s: State, s1: State, r: State, us: seq<Id>)
    requires us != [] && OthersStay(s, s1, us[0]) && NoDup(us)
    ensures forall u | u in us[1..] && IsUpOpen(s, u) :: IsUpOpen(s1, u)
    ensures NoDup(us[1..])
  {
    assert us[0] in us && forall u | u in us[1..] :: u in us && u != us[0];
    assert forall i | 0 <= i < |us[1..]| :: us[1..][i] == us[i + 1];
  }

  lemma SweptFacts(s: State, r: State)
    requires SweptTo(s, r)
    ensures r.phase == s.phase && r.cw == s.cw && r.env == s.env && r.tmu == s.tmu && r.sweepstr == s.sweepstr
    ensures forall o | Fresh(s, o) :: Fresh(r, o)
    ensures forall o | o in r.heap :: o in s.heap
    ensures forall o :: Live(s, o) <==> Live(r, o)
  {
  }

  lemma SweptSurvive(s: State, r: State)
    requires SweptTo(s, r)
    ensures Survivors(s, r)
  {
  }

  lemma SweptToRefl(s: State)
    ensures SweptTo(s, s)
  {
  }

  lemma {:induction false} SweepUpsSpec(s: State, us: seq<Id>)
    requires Core(s) && NoDup(us) && (forall u | u in us :: IsUpOpen(s, u)) && s.phase != Propagate
    ensures var r := SweepUps(s, us);
            && Core(r) && SweptTo(s, r) && r.swept == s.swept && r.unswept == s.unswept && r.strs == s.strs
            && (forall u | u in us && u in r.heap :: Fresh(r, u))
            && (forall t | IsThread(s, t) :: IsThread(r, t) && r.heap[t].color == s.heap[t].color)
    decreases |us|
  {
    hide Core, NoDup, SweptTo;
    if us == [] {
      SweptToRefl(s);
    } else {
      var s1, r := SweepUp(s, us[0]), SweepUps(s, us);
      hide SweepUp;
      assert us[0] in us && forall u | u in us[1..] :: u in us;
      SweepUpSpec(s, us[0]);
      OthersStayTransitive(s, s1, r, us);
      SweptFacts(s, s1);
      SweepUpsSpec(s1, us[1..]);
      SweptToTransitive(s, s1, r);
      SweptFacts(s1, r);
      assert us == [us[0]] + us[1..];
    }
  }

  // ---------------------------------------------------------------- freeing one object of rootgc

  /** gafqF_close over a whole list, as gafqE_freethread does before it frees the stack. */
  function CloseAll(s: State, us: seq<Id>): State
    decreases |us|
  {
    if us == [] then s
    else if !IsUpOpen(s, us[0]) || !IsThread(s, s.heap[us[0]].body.thread) then CloseAll(s, us[1..])
    else CloseAll(CloseUp(s, us[0]), us[1..])
  }

  /** All of `us` are closed in `r`; other objects keep their kind. */
  ghost predicate AllClosed(s: State, r: State, us: seq<Id>) {
    && (forall u | u in us :: !IsUpOpen(r, u))
    && (forall o | IsUpOpen(r, o) :: IsUpOpen(s, o))
    && (forall o | IsUpOpen(s, o) && o !in us :: IsUpOpen(r, o))
    && (forall o | o in s.heap :: o in r.heap && (o !in us ==> r.heap[o].color == s.heap[o].color && (IsThread(s, o) <==> IsThread(r, o))))
    && (forall o :: InRoot(r, o) <==> InRoot(s, o) || o in us)
    && (s.swept == [] ==> r.swept == [])
    && (forall o | o in r.swept :: o in s.swept || o in us)
    && (forall o | o in s.unswept :: o in r.unswept)
    && r.strs == s.strs
  }

  lemma CloseOneClosed(s: State, r: State, u: Id)
    requires UpLeft(s, r, u) && u in r.heap
    ensures AllClosed(s, r, [u])
  {
    UpLeftKinds(s, r, u);
  }

  lemma AllClosedJoin(s: State, s1: State, r: State, us: seq<Id>)
    requires us != [] && AllClosed(s, s1, [us[0]]) && AllClosed(s1, r, us[1..]) && us[0] !in us[1..]
    ensures AllClosed(s, r, us)
  {
    assert us == [us[0]] + us[1..];
  }

  lemma CloseOneSpec(s: State, u: Id)
    requires Core(s) && IsUpOpen(s, u) && Live(s, u) && s.phase != Propagate
    ensures IsThread(s, s.heap[u].body.thread)
    ensures var r := CloseUp(s, u); Core(r) && SweptTo(s, r) && AllClosed(s, r, [u])
  {
    OpenHasThread(s, u);
    hide Core, SweptTo, AllClosed;
    var r := CloseUp(s, u);
    CloseUpLeft(s, u);
    hide CloseUp, UpLeft;
    UpLeftCore(s, r, u);
    UpLeftSwept(s, r, u);
    CloseOneClosed(s, r, u);
  }

  lemma NoDupTail(us: seq<Id>)
    requires us != [] && NoDup(us)
    ensures us[0] !in us[1..] && NoDup(us[1..]) && us == [us[0]] + us[1..]
  {
    assert forall i | 0 <= i < |us[1..]| :: us[1..][i] == us[i + 1];
  }

  lemma AllClosedNone(s: State)
    ensures AllClosed(s, s, [])
  {
  }

  lemma AllClosedRest(s: State, r: State, u: Id, us: seq<Id>)
    requires AllClosed(s, r, [u]) && u !in us && forall x | x in us :: IsUpOpen(s, x)
    ensures forall x | x in us :: IsUpOpen(r, x)
  {
  }

  lemma {:induction false} CloseAllSpec(s: State, us: seq<Id>)
    requires Core(s) && NoDup(us) && (forall u | u in us :: IsUpOpen(s, u) && Live(s, u)) && s.phase != Propagate
    ensures var r := CloseAll(s, us); Core(r) && SweptTo(s, r) && AllClosed(s, r, us)
    decreases |us|
  {
    hide Core, SweptTo, AllClosed;
    if us == [] {
      SweptToRefl(s);
      AllClosedNone(s);
    } else {
      NoDupTail(us);
      hide NoDup;
      CloseOneSpec(s, us[0]);
      var s1, r := CloseUp(s, us[0]), CloseAll(s, us);
      hide CloseUp;
      AllClosedRest(s, s1, us[0], us[1..]);
      SweptFacts(s, s1);
      CloseAllSpec(s1, us[1..]);
      SweptToTransitive(s, s1, r);
      AllClosedJoin(s, s1, r, us);
    }
  }

  /** Drop a dead object from the list and from the heap. */
  function Drop(s: State, o: Id): State {
    s.(heap := s.heap - {o}, unswept := Remove(s.unswept, o))
  }

  lemma DropKinds(s: State, o: Id)
    ensures var r := Drop(s, o);
            forall p :: if p == o then p !in r.heap else (p in r.heap <==> p in s.heap) && (p in s.heap ==> r.heap[p] == s.heap[p])
  {
  }

  lemma DropUps(s: State, o: Id)
    requires UpsOk(s) && RootKind(s, o) && (IsThread(s, o) ==> forall u :: u !in s.heap[o].body.open)
    ensures UpsOk(Drop(s, o))
    ensures forall p, x | p != o :: Pts(Drop(s, o), p, x) <==> Pts(s, p, x)
  {
    var r := Drop(s, o);
    DropKinds(s, o);
    assert forall u | IsUpOpen(s, u) :: s.heap[u].body.thread != o && u != o;
    DropPts(s, o);
    assert forall p :: IsThread(r, p) <==> IsThread(s, p) && p != o;
    assert forall p :: IsUpOpen(r, p) <==> IsUpOpen(s, p);
    assert UpvalsListed(r);
    assert forall t | IsThread(r, t) :: NoDup(r.heap[t].body.open);
    forall t, u | IsThread(r, t) && u in r.heap[t].body.open
      ensures IsUpOpen(r, u) && r.heap[u].body.thread == t
    {
      assert IsThread(s, t) && u in s.heap[t].body.open && IsUpOpen(s, u);
    }
    assert UpsOk(r);
  }

  lemma DropPts(s: State, o: Id)
    requires forall u | IsUpOpen(s, u) :: s.heap[u].body.thread != o
    ensures forall p, x | p != o :: Pts(Drop(s, o), p, x) <==> Pts(s, p, x)
  {
    DropKinds(s, o);
  }

  lemma DropShape(s: State, o: Id)
    requires Shape(s) && RootKind(s, o) && !s.heap[o].fixed && o !in s.swept && o !in s.tmu && o != s.env.running
    requires IsThread(s, o) ==> forall u :: u !in s.heap[o].body.open
    ensures Shape(Drop(s, o))
  {
    var r := Drop(s, o);
    DropUps(s, o);
    DropKinds(s, o);
    assert forall p :: InRoot(r, p) <==> InRoot(s, p) && p != o;
    assert RootOk(r);
    assert forall b: nat, p :: InBucket(r, b, p) <==> InBucket(s, b, p);
    assert StrsOk(r) by {
      forall p | IsStr(r, p)
        ensures exists b: nat :: InBucket(r, b, p)
      {
        assert IsStr(s, p);
        var b: nat :| InBucket(s, b, p);
        assert InBucket(r, b, p);
      }
    }
  }

  lemma DropCore(s: State, o: Id)
    requires Core(s) && RootKind(s, o) && Dead(s, o) && o !in s.swept
    requires IsThread(s, o) ==> forall u :: u !in s.heap[o].body.open
    ensures Core(Drop(s, o)) && SweptTo(s, Drop(s, o))
  {
    DropAllowed(s, o);
    hide UpsOk, SweptTo, Live, Dead;
    DropShape(s, o);
    DropLive(s, o);
    DropRefs(s, o);
    hide *;
  }

  /** A dead object is not fixed, not pending and not the running thread. */
  lemma DropAllowed(s: State, o: Id)
    requires Core(s) && Dead(s, o)
    ensures UpsOk(s) && !s.heap[o].fixed && o !in s.tmu && o != s.env.running
  {
    assert IsRoot(s, s.env.running);
  }

  lemma DropRefs(s: State, o: Id)
    requires Core(s) && UpsOk(s) && RootKind(s, o) && Dead(s, o)
    requires IsThread(s, o) ==> forall u :: u !in s.heap[o].body.open
    ensures var r := Drop(s, o); LiveClosed(r) && RootsLive(r) && ColorsOk(r)
  {
    var r := Drop(s, o);
    DropUps(s, o);
    DropKinds(s, o);
    DropLive(s, o);
    hide BodyPts, Shape, Drop, SweptTo, UpsOk, Live;
    assert forall x :: IsRoot(r, x) <==> IsRoot(s, x);
    assert forall p | Live(s, p) :: p != o by { assert !Live(s, o); }
  }

  lemma DropLive(s: State, o: Id)
    requires Dead(s, o)
    ensures var r := Drop(s, o);
            (forall p :: Live(r, p) <==> Live(s, p)) && SweptTo(s, r) && r.env == s.env
  {
    DropKinds(s, o);
    assert forall p :: Live(Drop(s, o), p) <==> Live(s, p);
  }

  // ---------------------------------------------------------------- sweeplist over rootgc

  /** One round of sweeplist's loop on the rootgc list. */
  function SweepOne(s: State): State
    requires s.unswept != []
  {
    var o := s.unswept[0];
    var s1 := if IsThread(s, o) then SweepUps(s, s.heap[o].body.open) else s;
    if o !in s1.heap then s1
    else if !Dead(s1, o) then MakeWhite(s1, o).(swept := s1.swept + [o], unswept := s.unswept[1..])
    else Drop(if IsThread(s1, o) then CloseAll(s1, s1.heap[o].body.open) else s1, o)
  }

  /** What sweeping the upvalues of the head of the list leaves for the head itself. */
  ghost predicate HeadSwept(s: State, s1: State, o: Id) {
    && Core(s1) && SweptTo(s, s1) && s1.swept == s.swept && s1.unswept == s.unswept && s1.strs == s.strs
    && RootKind(s1, o) && s1.heap[o].color == s.heap[o].color
    && (IsThread(s1, o) ==> forall u | u in s1.heap[o].body.open :: Fresh(s1, u))
  }

  lemma SweepHeadThread(s: State, o: Id)
    requires Core(s) && s.phase != Propagate && IsThread(s, o)
    ensures HeadSwept(s, SweepUps(s, s.heap[o].body.open), o)
  {
    hide Core, NoDup;
    CoreOpen(s, o);
    var us := s.heap[o].body.open;
    SweepUpsSpec(s, us);
    var s1 := SweepUps(s, us);
    hide SweepUps;
    CoreOpen(s1, o);
    assert forall u | u in s1.heap[o].body.open :: u in us by { SweptOpen(s, s1, o); }
  }

  lemma SweptOpen(s: State, r: State, t: Id)
    requires SweptTo(s, r) && IsThread(r, t)
    ensures IsThread(s, t) && forall u | u in r.heap[t].body.open :: u in s.heap[t].body.open
  {
  }

  lemma CoreOpen(s: State, t: Id)
    requires Core(s) && IsThread(s, t)
    ensures forall u | u in s.heap[t].body.open :: IsUpOpen(s, u)
    ensures NoDup(s.heap[t].body.open)
  {
  }

  lemma HeadKind(s: State)
    requires Core(s) && s.unswept != []
    ensures RootKind(s, s.unswept[0]) && s.unswept[0] !in s.swept
  {
    var o := s.unswept[0];
    assert o in s.unswept && RootOk(s) && InRoot(s, o);
  }

  lemma SweepHead(s: State)
    requires Core(s) && s.phase != Propagate && s.unswept != []
    ensures var o := s.unswept[0];
            HeadSwept(s, if IsThread(s, o) then SweepUps(s, s.heap[o].body.open) else s, o)
  {
    var o := s.unswept[0];
    HeadKind(s);
    hide Core;
    if IsThread(s, o) {
      SweepHeadThread(s, o);
    } else {
      SweptToRefl(s);
    }
  }
}
