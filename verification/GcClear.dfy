/** What cleartable (ggc.c) takes out of weak tables, exactly, and which strings it marks. */
module GcClear {
  import opened GcHeap
  import opened GcMark
  import opened GcPropagate
  import opened GcAtomic
  import opened GcInv

  // ---------------------------------------------------------------- the result, entry by entry

  function NewValue(s: State, v: Value): Value { if Cleared(s, v, false) then Nil else v }

  /** An entry is emptied when its key or its value is cleared. */
  function NewNode(s: State, n: Node): Node {
    if n.val != Nil && (Cleared(s, n.key, true) || Cleared(s, n.val, false)) then n.(val := Nil) else n
  }

  /** A body in which the slots below `i` of a table with weak values, and the entries below `j`, have been looked
      at. */
  ghost predicate Emptied(s: State, b: Body, c: Body, i: int, j: int) {
    b.Table? && c.Table? && c.mt == b.mt && |c.arr| == |b.arr| && |c.nodes| == |b.nodes| &&
    (forall x | 0 <= x < |b.arr| :: c.arr[x] == if x < i then NewValue(s, b.arr[x]) else b.arr[x]) &&
    forall x | 0 <= x < |b.nodes| :: c.nodes[x] == if x < j then NewNode(s, b.nodes[x]) else b.nodes[x]
  }

  /** Looking at an entry marks its key, if that is a string, and then its value, unless the key has been cleared. */
  predicate NodeHolds(s: State, n: Node, o: Id) {
    n.val != Nil && (n.key == Ref(o) || (n.val == Ref(o) && !Cleared(s, n.key, true)))
  }

  predicate ArrHolds(b: Body, i: int, o: Id)
    requires b.Table?
  {
    exists x | 0 <= x < |b.arr| && x < i :: b.arr[x] == Ref(o)
  }

  predicate NodesHold(s: State, b: Body, j: int, o: Id)
    requires b.Table?
  {
    exists x | 0 <= x < |b.nodes| && x < j :: NodeHolds(s, b.nodes[x], o)
  }

  /** A string that clearing table `t` keeps. */
  predicate HoldsString(s: State, t: Id, o: Id) {
    IsTable(s, t) && var b := s.heap[t].body;
    (s.heap[t].wv && ArrHolds(b, |b.arr|, o)) || NodesHold(s, b, |b.nodes|, o)
  }

  // ---------------------------------------------------------------- what decides does not change

  /** All that iscleared looks at is the same. */
  ghost predicate Judge(s: State, r: State) {
    r.heap.Keys == s.heap.Keys && forall o | o in s.heap ::
      && (r.heap[o].body.Str? <==> s.heap[o].body.Str?) && (r.heap[o].body.Udata? <==> s.heap[o].body.Udata?) &&
         r.heap[o].fin == s.heap[o].fin
      && (!s.heap[o].body.Str? ==> r.heap[o].color == s.heap[o].color)
  }

  lemma ShrunkJudge(s: State, r: State, t: Id)
    requires Shrunk(s, r, t)
    ensures Judge(s, r)
  {}

  lemma JudgeTransitive(s: State, r: State, q: State)
    requires Judge(s, r) && Judge(r, q)
    ensures Judge(s, q)
  {}

  lemma JudgeSame(s: State, r: State)
    requires Judge(s, r)
    ensures forall v, key :: Cleared(r, v, key) == Cleared(s, v, key)
    ensures forall o :: IsStr(r, o) == IsStr(s, o)
  {}

  // ---------------------------------------------------------------- one slot, one entry

  /** Nothing was marked but `v`, and that if it is a string. */
  ghost predicate MarksOnly(s: State, r: State, v: Value) {
    forall o :: NonWhite(r, o) <==> NonWhite(s, o) || (IsStr(s, o) && v == Ref(o))
  }

  lemma ClearSlotExact(s: State, t: Id, i: nat)
    requires IsTable(s, t) && i < |s.heap[t].body.arr|
    ensures var r, b := ClearSlot(s, t, i), s.heap[t].body;
            Shrunk(s, r, t) && r.heap[t].body == b.(arr := b.arr[i := NewValue(s, b.arr[i])]) &&
            MarksOnly(s, r, b.arr[i])
  {
    ClearSlotShape(s, t, i);
  }

  lemma {:induction false} ClearArrExact(s: State, t: Id, i: nat)
    requires IsTable(s, t) && i <= |s.heap[t].body.arr|
    ensures var r, b := ClearArr(s, t, i), s.heap[t].body;
            && Shrunk(s, r, t) && Emptied(s, b, r.heap[t].body, i, 0)
            && forall o :: NonWhite(r, o) <==> NonWhite(s, o) || (IsStr(s, o) && ArrHolds(b, i, o))
    decreases i
  {
    hide ClearSlot, Cleared, Shrunk;
    if i > 0 {
      var b := s.heap[t].body;
      ClearSlotExact(s, t, i - 1);
      var s1 := ClearSlot(s, t, i - 1);
      ClearArrStep(s, t, i);
      hide ClearArr;
      var r := ClearArr(s, t, i);
      ShrunkJudge(s, s1, t);
      JudgeSame(s, s1);
      ClearArrExact(s1, t, i - 1);
      ShrunkTransitive(s, s1, r, t);
      forall o
        ensures ArrHolds(b, i, o) <==> ArrHolds(s1.heap[t].body, i - 1, o) || b.arr[i - 1] == Ref(o)
      {
        ArrHoldsMore(b, s1.heap[t].body, i, o);
      }
      hide ArrHolds;
    } else {
      ShrunkSame(s, t);
    }
  }

  lemma ClearArrStep(s: State, t: Id, i: nat)
    requires IsTable(s, t) && 0 < i <= |s.heap[t].body.arr|
    ensures var s1 := ClearSlot(s, t, i - 1);
            IsTable(s1, t) && i - 1 <= |s1.heap[t].body.arr| && ClearArr(s, t, i) == ClearArr(s1, t, i - 1)
  {
    ClearSlotShape(s, t, i - 1);
    hide ClearSlot;
  }

  lemma ArrHoldsMore(b: Body, c: Body, i: nat, o: Id)
    requires b.Table? && c.Table? && 0 < i <= |b.arr| == |c.arr| && forall x | 0 <= x < i - 1 :: c.arr[x] == b.arr[x]
    ensures ArrHolds(b, i, o) <==> ArrHolds(c, i - 1, o) || b.arr[i - 1] == Ref(o)
  {}

  lemma ClearHalfExact(s: State, t: Id, i: nat, key: bool)
    requires IsTable(s, t) && i < |s.heap[t].body.nodes|
    ensures var r, b := ClearHalf(s, t, i, key), s.heap[t].body;
            var n := b.nodes[i];
            var v := if key then n.key else n.val;
            && Shrunk(s, r, t) &&
               r.heap[t].body == b.(nodes := b.nodes[i := if n.val != Nil && Cleared(s, v, key) then n.(val := Nil) else n])
            && MarksOnly(s, r, if n.val == Nil then Nil else v)
  {
    var b := s.heap[t].body;
    var n := b.nodes[i];
    var v := if key then n.key else n.val;
    var s1 := StringMark(s, v);
    ClearHalfShape(s, t, i, key);
    StringMarkShape(s, v, t);
    ShrunkJudge(s, s1, t);
    JudgeSame(s, s1);
    StringMarked(s, v);
    DropNodeExact(s1, t, i);
    hide Shrunk, StringMark, Cleared, DropNode;
    assert b.nodes[i := n] == b.nodes;
  }

  lemma StringMarked(s: State, v: Value)
    ensures MarksOnly(s, StringMark(s, v), v)
  {}

  lemma DropNodeExact(s: State, t: Id, i: nat)
    requires IsTable(s, t) && i < |s.heap[t].body.nodes|
    ensures var r, b := DropNode(s, t, i), s.heap[t].body;
            r.heap.Keys == s.heap.Keys && r.heap[t].body == b.(nodes := b.nodes[i := b.nodes[i].(val := Nil)]) &&
            forall o :: NonWhite(r, o) <==> NonWhite(s, o)
  {}

  lemma ClearNodeExact(s: State, t: Id, i: nat)
    requires IsTable(s, t) && i < |s.heap[t].body.nodes|
    ensures var r, b := ClearNode(s, t, i), s.heap[t].body;
            && Shrunk(s, r, t) && r.heap[t].body == b.(nodes := b.nodes[i := NewNode(s, b.nodes[i])])
            && forall o :: NonWhite(r, o) <==> NonWhite(s, o) || (IsStr(s, o) && NodeHolds(s, b.nodes[i], o))
  {
    var s1, r, n := ClearHalf(s, t, i, true), ClearNode(s, t, i), s.heap[t].body.nodes[i];
    ClearHalfExact(s, t, i, true);
    ClearHalfExact(s1, t, i, false);
    ShrunkJudge(s, s1, t);
    JudgeSame(s, s1);
    ShrunkTransitive(s, s1, r, t);
    hide ClearHalf, Cleared, Shrunk;
  }

  lemma {:induction false} ClearNodesExact(s: State, t: Id, j: nat)
    requires IsTable(s, t) && j <= |s.heap[t].body.nodes|
    ensures var r, b := ClearNodes(s, t, j), s.heap[t].body;
            && Shrunk(s, r, t) && Emptied(s, b, r.heap[t].body, 0, j)
            && forall o :: NonWhite(r, o) <==> NonWhite(s, o) || (IsStr(s, o) && NodesHold(s, b, j, o))
    decreases j
  {
    hide ClearNode, Cleared, Shrunk;
    if j > 0 {
      hide ClearNodes;
      var s1, r := ClearNode(s, t, j - 1), ClearNodes(s, t, j);
      ClearNodeExact(s, t, j - 1);
      ShrunkJudge(s, s1, t);
      JudgeSame(s, s1);
      ClearNodesStep(s, t, j);
      ClearNodesExact(s1, t, j - 1);
      ShrunkTransitive(s, s1, r, t);
      forall o { NodesHoldMore(s, s1, s.heap[t].body, s1.heap[t].body, j, o); }
      hide NodesHold;
    } else {
      ShrunkSame(s, t);
    }
  }

  lemma NodesHoldMore(s: State, s1: State, b: Body, c: Body, j: nat, o: Id)
    requires b.Table? && c.Table? && 0 < j <= |b.nodes| == |c.nodes| && Judge(s, s1)
    requires forall x | 0 <= x < j - 1 :: c.nodes[x] == b.nodes[x]
    ensures NodesHold(s, b, j, o) <==> NodesHold(s1, c, j - 1, o) || NodeHolds(s, b.nodes[j - 1], o)
  {
    JudgeSame(s, s1);
    hide Cleared;
  }

  // ---------------------------------------------------------------- one table, all tables

  /** All of table `t` has been looked at. */
  ghost predicate TableEmptied(s: State, r: State, t: Id) {
    IsTable(s, t) && t in r.heap && var b := s.heap[t].body;
    Emptied(s, b, r.heap[t].body, if s.heap[t].wv then |b.arr| else 0, |b.nodes|)
  }

  lemma ClearTableExact(s: State, t: Id)
    requires IsTable(s, t)
    ensures var r := ClearTable(s, t);
            && Shrunk(s, r, t) && TableEmptied(s, r, t)
            && forall o :: NonWhite(r, o) <==> NonWhite(s, o) || (IsStr(s, o) && HoldsString(s, t, o))
  {
    hide ClearNodes, Cleared, Shrunk, ArrHolds, NodesHold, Emptied;
    var b, r := s.heap[t].body, ClearTable(s, t);
    var n := if s.heap[t].wv then |b.arr| else 0;
    var s1 := ClearArr(s, t, n);
    ClearArrExact(s, t, n);
    ShrunkNodes(s, s1, t);
    var c := s1.heap[t].body;
    assert r == ClearNodes(s1, t, |c.nodes|);
    hide ClearArr, ClearTable;
    ClearNodesExact(s1, t, |c.nodes|);
    ShrunkJudge(s, s1, t);
    JudgeSame(s, s1);
    ShrunkTransitive(s, s1, r, t);
    EmptiedBoth(s, s1, b, c, r.heap[t].body, n);
    forall o { SameHold(s, s1, b, c, n, o); }
    assert !s.heap[t].wv ==> forall o :: !ArrHolds(b, n, o) by { NoneHolds(b); }
  }

  lemma NoneHolds(b: Body)
    requires b.Table?
    ensures forall o :: !ArrHolds(b, 0, o)
  {}

  lemma EmptiedBoth(s: State, s1: State, b: Body, c: Body, d: Body, n: int)
    requires Judge(s, s1) && Emptied(s, b, c, n, 0) && Emptied(s1, c, d, 0, |c.nodes|)
    ensures Emptied(s, b, d, n, |b.nodes|)
  {
    JudgeSame(s, s1);
    hide Cleared;
  }

  lemma SameHold(s: State, s1: State, b: Body, c: Body, n: int, o: Id)
    requires Judge(s, s1) && Emptied(s, b, c, n, 0)
    ensures NodesHold(s1, c, |c.nodes|, o) <==> NodesHold(s, b, |b.nodes|, o)
  {
    JudgeSame(s, s1);
    hide Cleared;
  }

  /** cleartable on a list of tables: every entry of these that iscleared condemns is emptied, and no other; strings are
      marked when one of the tables holds them as a weak value, as a key, or as the value of a key that stays, and no
      other object. */
  lemma {:induction false} ClearTablesExact(s: State, ts: seq<Id>)
    requires NoDup(ts) && forall t | t in ts :: IsTable(s, t)
    ensures var r := ClearTables(s, ts);
            && r.heap.Keys == s.heap.Keys
            && (forall t | t in ts :: TableEmptied(s, r, t))
            && (forall o | o in s.heap && o !in ts :: r.heap[o].body == s.heap[o].body)
            && (forall o :: NonWhite(r, o) <==> NonWhite(s, o) || (IsStr(s, o) && exists t :: t in ts && HoldsString(s, t, o)))
            && Judge(s, r)
    decreases |ts|
  {
    if ts != [] {
      var t, s1 := ts[0], ClearTable(s, ts[0]);
      var r := ClearTables(s, ts);
      assert t in ts && ts == [t] + ts[1..] && t !in ts[1..] && NoDup(ts[1..]);
      ClearTableExact(s, t);
      OthersSame(s, s1, t, ts[1..]);
      hide ClearTable, Shrunk, TableEmptied, HoldsString;
      ClearTablesExact(s1, ts[1..]);
      JudgeTransitive(s, s1, r);
      TailEmptied(s, s1, r, ts[1..]);
      assert TableEmptied(s, r, t) by { StillEmptied(s, s1, r, t); }
    }
  }

  /** The other tables are as they were, and are judged as they were. */
  lemma OthersSame(s: State, s1: State, t: Id, ts: seq<Id>)
    requires Shrunk(s, s1, t) && t !in ts && forall u | u in ts :: IsTable(s, u)
    ensures Judge(s, s1) && (forall u | u in ts :: IsTable(s1, u) && s1.heap[u] == s.heap[u])
    ensures forall o | o in s.heap && o != t :: s1.heap[o].body == s.heap[o].body
    ensures forall u, o | u in ts :: HoldsString(s1, u, o) <==> HoldsString(s, u, o)
    ensures forall o :: IsStr(s1, o) <==> IsStr(s, o)
  {
    ShrunkJudge(s, s1, t);
    JudgeSame(s, s1);
    hide Cleared;
    forall u, o | u in ts ensures HoldsString(s1, u, o) <==> HoldsString(s, u, o) {
      var b := s.heap[u].body;
      assert NodesHold(s1, b, |b.nodes|, o) <==> NodesHold(s, b, |b.nodes|, o);
    }
  }

  lemma TailEmptied(s: State, s1: State, r: State, ts: seq<Id>)
    requires Judge(s, s1)
    requires forall u | u in ts :: IsTable(s1, u) && u in s.heap && s1.heap[u] == s.heap[u] && TableEmptied(s1, r, u)
    ensures forall u | u in ts :: TableEmptied(s, r, u)
  {
    JudgeSame(s, s1);
    hide Cleared;
  }

  lemma StillEmptied(s: State, s1: State, r: State, t: Id)
    requires TableEmptied(s, s1, t) && t in r.heap && r.heap[t].body == s1.heap[t].body
    ensures TableEmptied(s, r, t)
  {}
}
