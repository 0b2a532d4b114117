/** The reference system of gauxlib.c: gafqL_ref and gafqL_unref on a table used for nothing else. */
module RefList {
  import opened TableHash
  import opened TableView
  import opened Sets
  import T = Table

  const REFNIL := -1

  /** No table has more keys than this. */
  const MAX_SLOTS := 67108864

  /** Numbers and other values in one type: even numbers stand for integers. */
  function IntVal(i: int): Value { Val(2 * i) }

  /** gafq_tointeger: 0 for what is not a number. */
  function ToInteger(v: Value): int { if v.Val? && v.id % 2 == 0 then v.id / 2 else 0 }

  /** The content of slot `i` of the table. */
  ghost function At(s: Snap, i: int): Value { Lookup(s.arr, s.ns, s.g, Int(i)) }

  datatype Snap = Snap(arr: seq<Value>, ns: seq<Node>, g: Shape)

  /** The free list as a chain of slots: what slot `free[i - 1]`, or slot 0, leads to. */
  function Link(free: seq<int>, i: int): Value
    requires 0 <= i
  {
    if i < |free| then IntVal(free[i]) else Nil
  }

  ghost predicate LiveOk(s: Snap, live: map<int, Value>, n: int) {
    forall r | r in live :: 1 <= r <= n && live[r] != Nil && At(s, r) == live[r]
  }

  ghost predicate FreeOk(s: Snap, live: map<int, Value>, free: seq<int>, n: int) {
    (forall i | 0 <= i < |free| :: 1 <= free[i] <= n && free[i] !in live && At(s, free[i]) == Link(free, i + 1)) &&
    forall i, j | 0 <= i < j < |free| :: free[i] != free[j]
  }

  /** The table holds the live references and the free list, in slots 1..n and slot 0, and nothing above. */
  ghost predicate Rep(s: Snap, live: map<int, Value>, free: seq<int>, n: int) {
    n >= 0 && |live| + |free| == n && LiveOk(s, live, n) && FreeOk(s, live, free, n) &&
    (forall r | 1 <= r <= n :: r in live || r in free) && At(s, 0) == Link(free, 0) &&
    forall r | r > n :: At(s, r) == Nil
  }

  /** `s2` is `s1` with slot `i` set to `v`. */
  ghost predicate Set(s1: Snap, i: int, v: Value, s2: Snap) { forall r :: At(s2, r) == if r == i then v else At(s1, r) }

  lemma StoredSet(s1: Snap, i: int, v: Value, s2: Snap)
    requires T.Stored(s1.arr, s1.ns, s1.g, Int(i), v, s2.arr, s2.ns, s2.g)
    ensures Set(s1, i, v, s2)
  {
    hide Lookup;
  }

  /** Taking the first free slot. */
  lemma ReuseRep(s: Snap, s1: Snap, s2: Snap, live: map<int, Value>, free: seq<int>, n: int, v: Value)
    requires Rep(s, live, free, n) && free != [] && v != Nil && Set(s, 0, At(s, free[0]), s1) && Set(s1, free[0], v, s2)
    ensures Rep(s2, live[free[0] := v], free[1..], n) && free[0] !in live
  {
    hide Lookup, At, LiveOk, FreeOk;
    ReuseLive(s, s1, s2, live, free, n, v);
    ReuseFree(s, s1, s2, live, free, n, v);
    ReuseRest(s, s1, s2, live, free, n, v);
    assert |live[free[0] := v]| == |live| + 1;
  }

  lemma ReuseLive(s: Snap, s1: Snap, s2: Snap, live: map<int, Value>, free: seq<int>, n: int, v: Value)
    requires Rep(s, live, free, n) && free != [] && v != Nil && Set(s, 0, At(s, free[0]), s1) && Set(s1, free[0], v, s2)
    ensures LiveOk(s2, live[free[0] := v], n) && free[0] !in live
  {
    hide Lookup, At;
    assert 1 <= free[0] <= n;
    forall r | r in live[free[0] := v] ensures 1 <= r <= n && live[free[0] := v][r] != Nil && At(s2, r) == live[free[0] := v][r] {
      assert r != free[0] ==> At(s2, r) == At(s1, r) && At(s1, r) == At(s, r);
    }
  }

  lemma ReuseFree(s: Snap, s1: Snap, s2: Snap, live: map<int, Value>, free: seq<int>, n: int, v: Value)
    requires Rep(s, live, free, n) && free != [] && Set(s, 0, At(s, free[0]), s1) && Set(s1, free[0], v, s2)
    ensures FreeOk(s2, live[free[0] := v], free[1..], n)
  {
    hide Lookup, At, Link;
    var f := free[1..];
    forall i | 0 <= i < |f| ensures 1 <= f[i] <= n && f[i] !in live[free[0] := v] && At(s2, f[i]) == Link(f, i + 1) {
      var j := i + 1;
      assert f[i] == free[j] && free[0] != free[j] && 1 <= free[j] <= n;
      LinkTail(free, j + 1);
      assert At(s2, free[j]) == At(s1, free[j]) && At(s1, free[j]) == At(s, free[j]) &&
             At(s, free[j]) == Link(free, j + 1);
    }
    forall i, j | 0 <= i < j < |f| ensures f[i] != f[j] { assert free[i + 1] != free[j + 1]; }
  }

  lemma LinkTail(free: seq<int>, i: int)
    requires free != [] && i >= 1
    ensures Link(free[1..], i - 1) == Link(free, i)
  {}

  lemma ReuseRest(s: Snap, s1: Snap, s2: Snap, live: map<int, Value>, free: seq<int>, n: int, v: Value)
    requires Rep(s, live, free, n) && free != [] && Set(s, 0, At(s, free[0]), s1) && Set(s1, free[0], v, s2)
    ensures forall r | 1 <= r <= n :: r in live[free[0] := v] || r in free[1..]
    ensures At(s2, 0) == Link(free[1..], 0) && forall r | r > n :: At(s2, r) == Nil
  {
    hide Lookup, At;
    assert 1 <= free[0] <= n && At(s, free[0]) == Link(free, 1);
    forall r | 1 <= r <= n ensures r in live[free[0] := v] || r in free[1..] {
      if r !in live && r != free[0] { InTail(free, r); }
    }
    forall r | r > n ensures At(s2, r) == Nil { assert At(s2, r) == At(s1, r) && At(s1, r) == At(s, r); }
    assert At(s2, 0) == At(s1, 0);
  }

  lemma InTail(s: seq<int>, r: int)
    requires r in s && s != [] && r != s[0]
    ensures r in s[1..]
  {
    assert s == [s[0]] + s[1..];
  }

  /** The length is unambiguous when nothing is free. */
  lemma OneBorder(s: Snap, live: map<int, Value>, n: int, b: int)
    requires Rep(s, live, [], n) && b >= 0 && (b > 0 ==> At(s, b) != Nil) && At(s, b + 1) == Nil
    ensures b == n
  {
    hide Lookup, At;
    assert forall r | 1 <= r <= n :: r in live && At(s, r) != Nil;
  }

  lemma GrowRep(s: Snap, s2: Snap, live: map<int, Value>, n: int, v: Value)
    requires Rep(s, live, [], n) && v != Nil && Set(s, n + 1, v, s2)
    ensures Rep(s2, live[n + 1 := v], [], n + 1) && n + 1 !in live
  {
    hide Lookup, At;
    assert n + 1 !in live;
    assert |live[n + 1 := v]| == |live| + 1;
  }

  lemma UnrefRep(s: Snap, s1: Snap, s2: Snap, live: map<int, Value>, free: seq<int>, n: int, ref: int)
    requires Rep(s, live, free, n) && ref in live && Set(s, ref, At(s, 0), s1) && Set(s1, 0, IntVal(ref), s2)
    ensures Rep(s2, live - {ref}, [ref] + free, n)
  {
    hide Lookup, At;
    var f, live2 := [ref] + free, live - {ref};
    MapLess(live, ref);
    forall i | 0 <= i < |f| ensures 1 <= f[i] <= n && f[i] !in live2 && At(s2, f[i]) == Link(f, i + 1) {
      if i > 0 { assert f[i] == free[i - 1]; }
    }
  }

  lemma MapLess(m: map<int, Value>, k: int)
    requires k in m
    ensures |m - {k}| == |m| - 1
  {
    assert m == (m - {k})[k := m[k]];
  }

  /** The table has no other keys than the slots up to `n`. */
  ghost predicate Only(arr: seq<Value>, ns: seq<Node>, g: Shape, n: int) {
    forall k :: Lookup(arr, ns, g, k) != Nil ==> k.Int? && 0 <= k.i <= n
  }

  lemma OnlyMore(a1: seq<Value>, n1: seq<Node>, g1: Shape, i: int, v: Value, a2: seq<Value>, n2: seq<Node>, g2: Shape,
                 n: int, m: int)
    requires Only(a1, n1, g1, n) && T.Stored(a1, n1, g1, Int(i), v, a2, n2, g2) && 0 <= i <= m && n <= m
    ensures Only(a2, n2, g2, m)
  {
    hide Lookup;
  }

  ghost function Slots(n: int): set<Key> { set i | 0 <= i <= n :: Int(i) }

  lemma {:induction false} SlotsSize(n: int)
    requires n >= -1
    ensures |Slots(n)| == n + 1
    decreases n
  {
    if n >= 0 {
      SlotsSize(n - 1);
      assert Slots(n) == Slots(n - 1) + {Int(n)};
    } else {
      assert Slots(n) == {};
    }
  }

  lemma KeysFew(hash: Hash, arr: seq<Value>, ns: seq<Node>, lf: int, g: Shape, n: int)
    requires Inv(hash, ns, lf, g) && Apart(|arr|, g) && Only(arr, ns, g, n) && n >= 0
    ensures |LiveKeys(arr, ns)| <= n + 1
  {
    forall k | k in LiveKeys(arr, ns) ensures k in Slots(n) { LiveLookup(hash, arr, ns, lf, g, k); }
    hide Inv, LiveKeys, Lookup;
    SlotsSize(n);
    SubsetSize(LiveKeys(arr, ns), Slots(n));
  }

  class RefTable {
    const t: T.Table
    /** The live references with their objects, the free slots in order, the slots in use, and the most references that
        were ever live. */
    ghost var live: map<int, Value>
    ghost var free: seq<int>
    ghost var n: int
    ghost var peak: int

    ghost function Now(): Snap
      reads t
    {
      Snap(t.arr, t.nodes, t.g)
    }

    ghost predicate Valid()
      reads this, t
    {
      t.Valid() && Rep(Now(), live, free, n) && n == peak && |live| <= peak && Only(t.arr, t.nodes, t.g, n)
    }

    constructor (hash: Hash)
      ensures Valid() && live == map[] && n == 0
    {
      t := new T.Table(hash, 0, 0);
      live, free, n, peak := map[], [], 0, 0;
      new;
      assert forall k :: Lookup(t.arr, t.nodes, t.g, k) == t.Look(k);
      assert forall r :: At(Now(), r) == t.Look(Int(r));
      EmptyRep(Now());
    }

    lemma Few()
      requires t.Valid() && Only(t.arr, t.nodes, t.g, n) && n >= 0
      ensures |LiveKeys(t.arr, t.nodes)| <= n + 1
    {
      KeysFew(t.hash, t.arr, t.nodes, if t.dummy then 1 else t.lastfree, t.g, n);
    }

    /** gafqL_ref: never a live reference; the object is live under it; slots are added only when all are live. */
    method Ref(v: Value) returns (r: T.Outcome, ref: int)
      requires Valid()
      modifies this, t
      ensures v == Nil ==> r.Pass? && ref == REFNIL && Valid() && live == old(live) && n == old(n) && peak == old(peak)
      ensures v != Nil && r.Pass? ==> Valid() && ref > 0 && ref !in old(live) && live == old(live)[ref := v]
      ensures v != Nil && r.Pass? ==> peak == if |live| > old(peak) then |live| else old(peak)
      ensures r.Fail? ==> old(peak) + 3 > MAX_SLOTS
    {
      hide Rep, TableHash.Inv, Lookup, Only;
      if v == Nil { return T.Pass, REFNIL; }
      RepParts(Now(), live, free, n);
      var x := t.Get(Int(0));
      ref := ToInteger(x);
      if ref != 0 { r := Reuse(ref, v); } else { r, ref := Grow(v); }
    }

    /** The first slot of the free list is taken off it. */
    method Reuse(ref: int, v: Value) returns (r: T.Outcome)
      requires Valid() && free != [] && ref == free[0] && v != Nil
      modifies this, t
      ensures r.Pass? ==> Valid() && ref > 0 && ref !in old(live) && live == old(live)[ref := v]
      ensures r.Pass? ==> peak == old(peak) && |live| <= peak
      ensures r.Fail? ==> old(peak) + 3 > MAX_SLOTS
    {
      hide Rep, TableHash.Inv, Lookup, Set, T.Stored, Only, LiveKeys;
      RepParts(Now(), live, free, n);
      Few();
      ghost var s := Now();
      var y := t.Get(Int(ref));
      r := t.Put(Int(0), y);
      if r.Fail? { return; }
      ghost var s1 := Now();
      StoredSet(s, 0, y, s1);
      OnlyMore(s.arr, s.ns, s.g, 0, y, s1.arr, s1.ns, s1.g, n, n);
      Few();
      r := t.Put(Int(ref), v);
      if r.Fail? { return; }
      StoredSet(s1, ref, v, Now());
      OnlyMore(s1.arr, s1.ns, s1.g, ref, v, t.arr, t.nodes, t.g, n, n);
      ReuseRep(s, s1, Now(), live, free, n, v);
      live, free := live[ref := v], free[1..];
      RepParts(Now(), live, free, n);
    }

    /** Without a free slot, the one after the last is used. */
    method Grow(v: Value) returns (r: T.Outcome, ref: int)
      requires Valid() && free == [] && v != Nil
      modifies this, t
      ensures r.Pass? ==> Valid() && ref > 0 && ref !in old(live) && live == old(live)[ref := v]
      ensures r.Pass? ==> peak == |live| > old(peak)
      ensures r.Fail? ==> old(peak) + 3 > MAX_SLOTS
    {
      hide Rep, TableHash.Inv, Lookup, Set, T.Stored, Only, LiveKeys;
      RepParts(Now(), live, free, n);
      Few();
      ghost var s := Now();
      var len := t.GetN();
      OneBorder(s, live, n, len);
      ref := len + 1;
      r := t.Put(Int(ref), v);
      if r.Fail? { return; }
      StoredSet(s, ref, v, Now());
      OnlyMore(s.arr, s.ns, s.g, ref, v, t.arr, t.nodes, t.g, n, n + 1);
      GrowRep(s, Now(), live, n, v);
      live, n := live[ref := v], n + 1;
      RepParts(Now(), live, free, n);
      peak := |live|;
    }

    /** gafqL_unref of a live reference, or of REFNIL and the like, which does nothing. */
    method Unref(ref: int) returns (r: T.Outcome)
      requires Valid() && (ref >= 0 ==> ref in live)
      modifies this, t
      ensures r.Pass? ==> Valid() && peak == old(peak) && live == if ref >= 0 then old(live) - {ref} else old(live)
      ensures r.Fail? ==> old(peak) + 3 > MAX_SLOTS
    {
      hide Rep, TableHash.Inv, Lookup, Set, T.Stored, Only, LiveKeys;
      if ref < 0 { return T.Pass; }
      RepParts(Now(), live, free, n);
      Few();
      ghost var s := Now();
      var x := t.Get(Int(0));
      r := t.Put(Int(ref), x);
      if r.Fail? { return; }
      ghost var s1 := Now();
      StoredSet(s, ref, x, s1);
      OnlyMore(s.arr, s.ns, s.g, ref, x, s1.arr, s1.ns, s1.g, n, n);
      Few();
      r := t.Put(Int(0), IntVal(ref));
      if r.Fail? { return; }
      StoredSet(s1, 0, IntVal(ref), Now());
      OnlyMore(s1.arr, s1.ns, s1.g, 0, IntVal(ref), t.arr, t.nodes, t.g, n, n);
      UnrefRep(s, s1, Now(), live, free, n, ref);
      MapLess(live, ref);
      live, free := live - {ref}, [ref] + free;
    }

    /** Each live reference keeps its object. */
    method Deref(ref: int) returns (v: Value)
      requires Valid() && ref in live
      ensures v == live[ref]
    {
      v := t.Get(Int(ref));
    }
  }

  lemma EmptyRep(s: Snap)
    requires forall r :: At(s, r) == Nil
    ensures Rep(s, map[], [], 0)
  {}

  lemma IntBack(i: int)
    ensures ToInteger(IntVal(i)) == i
  {}

  lemma RepParts(s: Snap, live: map<int, Value>, free: seq<int>, n: int)
    requires Rep(s, live, free, n)
    ensures At(s, 0) == Link(free, 0) && |live| + |free| == n && (free != [] ==> 1 <= free[0] <= n)
    ensures forall r | r in live :: 1 <= r <= n
    ensures free == [] <==> ToInteger(At(s, 0)) == 0
    ensures free != [] ==> ToInteger(At(s, 0)) == free[0]
  {
    hide Lookup, At, IntVal;
    if free != [] {
      assert 1 <= free[0];
      IntBack(free[0]);
    }
  }
}
