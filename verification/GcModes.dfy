/** What the modes of weak tables mean for a full collection: what a table holds, by the letters in its __mode, and what
    it does not. */
module GcModes {
  import opened GcHeap
  import opened GcMark
  import opened GcPropagate
  import opened GcAtomic
  import opened GcInv
  import opened GcCollect
  import opened GcStep
  import opened GcReach
  import opened GcFull

  // ---------------------------------------------------------------- fields

  /** `v` is the value of the first entry with this key that is not empty. */
  ghost predicate IsField(ns: seq<Node>, name: Id, v: Value) {
    if v == Nil then forall i | 0 <= i < |ns| :: ns[i].key == Ref(name) ==> ns[i].val == Nil
    else exists i | 0 <= i < |ns| :: ns[i] == Node(Ref(name), v) && forall j | 0 <= j < i :: ns[j].key == Ref(name) ==> ns[j].val == Nil
  }

  /** gafqH_getstr, as the collector uses it. */
  lemma {:induction false} FieldIff(ns: seq<Node>, name: Id, v: Value)
    ensures FieldOf(ns, name) == v <==> IsField(ns, name, v)
    decreases |ns|
  {
    if ns != [] {
      var rest := ns[1..];
      assert forall i | 0 < i < |ns| :: ns[i] == rest[i - 1];
      FieldIff(rest, name, v);
      if ns[0].key == Ref(name) && ns[0].val != Nil {
        assert ns[0] == Node(Ref(name), ns[0].val);
      } else {
        FieldSkip(ns, name, v);
      }
    }
  }

  lemma FieldSkip(ns: seq<Node>, name: Id, v: Value)
    requires ns != [] && (ns[0].key == Ref(name) ==> ns[0].val == Nil)
    ensures IsField(ns, name, v) <==> IsField(ns[1..], name, v)
  {
    var rest := ns[1..];
    if v != Nil {
      if IsField(ns, name, v) {
        var i :| 0 <= i < |ns| && ns[i] == Node(Ref(name), v) && forall j | 0 <= j < i :: ns[j].key == Ref(name) ==> ns[j].val == Nil;
        assert rest[i - 1] == ns[i] && forall j | 0 <= j < i - 1 :: rest[j] == ns[j + 1];
      }
      if IsField(rest, name, v) {
        var i :| 0 <= i < |rest| && rest[i] == Node(Ref(name), v) && forall j | 0 <= j < i :: rest[j].key == Ref(name) ==> rest[j].val == Nil;
        assert ns[i + 1] == rest[i] && forall j | 0 < j < i + 1 :: ns[j] == rest[j - 1];
      }
    }
  }

  // ---------------------------------------------------------------- modes

  /** The string `m` is the value under "__mode" in the metatable of table `t`. */
  ghost predicate ModeIs(s: State, t: Id, m: Id) {
    IsTable(s, t) && s.heap[t].body.mt.Some? && IsTable(s, s.heap[t].body.mt.value) && IsStr(s, m) &&
    IsField(s.heap[s.heap[t].body.mt.value].body.nodes, s.env.modeName, Ref(m))
  }

  /** The keys, or the values, of the table are weak: its mode has the letter. */
  ghost predicate WeakKeys(s: State, t: Id) { exists m :: ModeIs(s, t, m) && s.heap[m].body.hasK }

  ghost predicate WeakValues(s: State, t: Id) { exists m :: ModeIs(s, t, m) && s.heap[m].body.hasV }

  ghost predicate AsKey(s: State, t: Id, x: Id) {
    IsTable(s, t) && exists i | 0 <= i < |s.heap[t].body.nodes| :: s.heap[t].body.nodes[i].val != Nil && s.heap[t].body.nodes[i].key == Ref(x)
  }

  ghost predicate AsValue(s: State, t: Id, x: Id) {
    IsTable(s, t) && (Ref(x) in s.heap[t].body.arr || exists i | 0 <= i < |s.heap[t].body.nodes| :: s.heap[t].body.nodes[i].val == Ref(x))
  }

  /** traversetable reads the mode off the metatable. */
  lemma ModeMeans(s: State, t: Id)
    requires IsTable(s, t)
    ensures Mode(s, s.heap[t].body.mt) == (WeakKeys(s, t), WeakValues(s, t))
  {
    var mt := s.heap[t].body.mt;
    if mt.Some? && IsTable(s, mt.value) {
      var ns, name := s.heap[mt.value].body.nodes, s.env.modeName;
      forall m: Id ensures IsField(ns, name, Ref(m)) <==> FieldOf(ns, name) == Ref(m) { FieldIff(ns, name, Ref(m)); }
      hide IsField;
    }
  }

  /** What a table holds strongly: keys and values as far as they are not weak, and the metatable. */
  lemma StrongMeans(s: State, t: Id, x: Id)
    requires IsTable(s, t)
    ensures StrongPts(s, t, x) <==>
              s.heap[t].body.mt == Some(x) || (AsKey(s, t, x) && !WeakKeys(s, t)) || (AsValue(s, t, x) && !WeakValues(s, t))
  {
    ModeMeans(s, t);
    hide Mode, WeakKeys, WeakValues;
    var b := s.heap[t].body;
    assert NodesPts(b.nodes, x, true, false) <==> AsKey(s, t, x) by { NodesHave(b.nodes, x, true); }
    assert Ref(x) in b.arr || NodesPts(b.nodes, x, false, true) <==> AsValue(s, t, x) by { NodesHave(b.nodes, x, false); }
    assert NodesPts(b.nodes, x, true, true) <==> NodesPts(b.nodes, x, true, false) || NodesPts(b.nodes, x, false, true) by {
      NodesEither(b.nodes, x);
    }
    assert !NodesPts(b.nodes, x, false, false);
  }

  lemma NodesHave(ns: seq<Node>, x: Id, key: bool)
    ensures NodesPts(ns, x, key, !key) <==>
              exists i | 0 <= i < |ns| :: if key then ns[i].val != Nil && ns[i].key == Ref(x) else ns[i].val == Ref(x)
  {
    if NodesPts(ns, x, key, !key) {
      var n :| n in ns && NodePts(n, x, key, !key);
      var i :| 0 <= i < |ns| && ns[i] == n;
    }
    if i :| 0 <= i < |ns| && (if key then ns[i].val != Nil && ns[i].key == Ref(x) else ns[i].val == Ref(x)) {
      assert ns[i] in ns && NodePts(ns[i], x, key, !key);
    }
  }

  lemma NodesEither(ns: seq<Node>, x: Id)
    ensures NodesPts(ns, x, true, true) <==> NodesPts(ns, x, true, false) || NodesPts(ns, x, false, true)
  {
    if NodesPts(ns, x, true, true) {
      var n :| n in ns && NodePts(n, x, true, true);
      assert NodePts(n, x, true, false) || NodePts(n, x, false, true);
    }
    if NodesPts(ns, x, true, false) {
      var n :| n in ns && NodePts(n, x, true, false);
      assert NodePts(n, x, true, true);
    }
    if NodesPts(ns, x, false, true) {
      var n :| n in ns && NodePts(n, x, false, true);
      assert NodePts(n, x, true, true);
    }
  }

  // ---------------------------------------------------------------- in a full collection

  /** A table that the program reaches strongly keeps its values through a full collection, unless they are weak, and
      likewise its keys. */
  lemma ModesKeep(s: State, t: Id, x: Id)
    requires Inv(s) && t in Reach(FinishSweep(s), Roots(FinishSweep(s))) && IsTable(FinishSweep(s), t)
    ensures var s1 := FinishSweep(s);
            (AsKey(s1, t, x) && !WeakKeys(s1, t)) || (AsValue(s1, t, x) && !WeakValues(s1, t)) ==> x in FullGc(s).heap
  {
    hide FinishSweep, Inv, ToFinalize, MarkRoot, FullGc, AsKey, AsValue, WeakKeys, WeakValues, TablesAfter, WeakString;
    hide AllWhite, OneWhite, TmuOk, ColorsOk;
    var s1 := FinishSweep(s);
    FullGcExact(s);
    FinalizeFacts(s1);
    StrongMeans(s1, t, x);
    ReachOn(s1, Roots(s1), Elements(ToFinalize(MarkRoot(s1)).tmu), t, x);
  }

  /** What is strongly reached from fewer seeds, and what it holds strongly, is reached from more. */
  lemma ReachOn(s: State, seeds: set<Id>, more: set<Id>, t: Id, x: Id)
    requires NoDangling(s) && t in Reach(s, seeds) && seeds <= s.heap.Keys
    ensures t in Reach(s, seeds + more) && (StrongPts(s, t, x) ==> x in Reach(s, seeds + more))
  {
    var z := Zone(Reach(s, seeds + more), {});
    ReachClosed(s, seeds + more, {});
    ReachLeast(s, seeds, z);
    if StrongPts(s, t, x) { StrongIsPts(s, t, x); }
    hide StrongPts, ReachPast, Pts;
  }

  /** Everything that refers to `x` does so weakly. */
  ghost predicate HeldWeakly(s: State, x: Id) {
    forall o | Pts(s, o, x) ::
      IsTable(s, o) && s.heap[o].body.mt != Some(x) && (AsKey(s, o, x) ==> WeakKeys(s, o)) && (AsValue(s, o, x) ==> WeakValues(s, o))
  }

  /** An object that only weak keys and weak values refer to is freed by a full collection. */
  lemma ModesFree(s: State, x: Id)
    requires Inv(s) && x in FinishSweep(s).heap && !FinishSweep(s).heap[x].fixed && !IsStr(FinishSweep(s), x)
    requires HeldWeakly(FinishSweep(s), x) && x !in Roots(FinishSweep(s))
    requires Inv(MarkRoot(FinishSweep(s))) && x !in ToFinalize(MarkRoot(FinishSweep(s))).tmu
    ensures x !in FullGc(s).heap
  {
    var s1 := FinishSweep(s);
    var seeds := Roots(s1) + Elements(ToFinalize(MarkRoot(s1)).tmu);
    FullGcExact(s);
    hide FinishSweep, Inv, ToFinalize, MarkRoot, FullGc;
    forall o ensures !StrongPts(s1, o, x) {
      if StrongPts(s1, o, x) {
        StrongIsPts(s1, o, x);
        StrongMeans(s1, o, x);
      }
    }
    NotReached(s1, seeds, x);
  }

  lemma NotReached(s: State, seeds: set<Id>, x: Id)
    requires x !in seeds && forall o :: !StrongPts(s, o, x)
    ensures x !in Reach(s, seeds)
  {
    hide StrongPts;
    forall p | StrongPath(s, seeds, {}, p) ensures p[|p| - 1] != x { LastStep(s, seeds, p); }
  }

  lemma LastStep(s: State, seeds: set<Id>, p: seq<Id>)
    requires StrongPath(s, seeds, {}, p)
    ensures p[|p| - 1] in seeds || (|p| > 1 && StrongPts(s, p[|p| - 2], p[|p| - 1]))
  {
    hide StrongPts;
  }
}
