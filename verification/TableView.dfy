/** What a table holds, as a function from keys to values, and the facts about counting that rehash needs. */
module TableView {
  import opened Sets
  import opened TableHash
  import opened TableInsert
  import opened TableSize

  /** The key belongs to an array part of this size. */
  predicate InArray(size: int, k: Key) { k.Int? && 1 <= k.i <= size }

  /** The value of a key: in the array part, or in the node where the key lives. */
  ghost function Lookup(arr: seq<Value>, ns: seq<Node>, g: Shape, k: Key): Value {
    if InArray(|arr|, k) then arr[k.i - 1]
    else if k in g.home && InRange(ns, g.home[k]) then ns[g.home[k]].val
    else Nil
  }

  /** Keys of the array part do not live in nodes. */
  ghost predicate Apart(size: int, g: Shape) { forall k | k in g.home :: !InArray(size, k) }

  ghost function FreeNodes(ns: seq<Node>): set<int> { set i | 0 <= i < |ns| && ns[i].key == NoKey }

  // ---------------------------------------------------------------- inserting a key without a value

  /** Every key has the value it had. */
  ghost predicate SameView(arr: seq<Value>, ns: seq<Node>, g: Shape, ns2: seq<Node>, g2: Shape) {
    forall k :: Lookup(arr, ns2, g2, k) == Lookup(arr, ns, g, k)
  }

  lemma ReuseView(hash: Hash, arr: seq<Value>, ns: seq<Node>, lastfree: int, g: Shape, k: Key)
    requires Inv(hash, ns, lastfree, g) && k !in g.home && ns[Pos(hash, k, |ns|)].val == Nil
    ensures var m := Pos(hash, k, |ns|); SameView(arr, ns, g, Reuse(ns, m, k), ReuseShape(ns, g, m, k))
    ensures var m := Pos(hash, k, |ns|); FreeNodes(ns) - {m} <= FreeNodes(Reuse(ns, m, k))
  {}

  lemma AppendView(hash: Hash, arr: seq<Value>, ns: seq<Node>, lastfree: int, g: Shape, m: int, n: int, k: Key, r: real)
    requires Inv(hash, ns, lastfree, g) && InRange(ns, m) && InRange(ns, n) && n != m && ns[n].key == NoKey
    requires k !in g.home
    ensures SameView(arr, ns, g, Append(ns, m, n, k), AppendShape(ns, g, m, n, k, r))
    ensures FreeNodes(ns) - {n} <= FreeNodes(Append(ns, m, n, k))
  {}

  lemma MoveView(hash: Hash, arr: seq<Value>, ns: seq<Node>, g: Shape, p: int, n: int, k: Key)
    requires CanMove(hash, ns, g, p, n, k)
    ensures var m := Pos(hash, k, |ns|); SameView(arr, ns, g, Move(ns, p, m, n, k), MoveShape(ns, g, m, n, k))
    ensures var m := Pos(hash, k, |ns|); FreeNodes(ns) - {n} <= FreeNodes(Move(ns, p, m, n, k))
  {
    MoveFacts(hash, ns, g, p, n, k, p);
  }

  lemma FewerFree(a: set<int>, b: set<int>, x: int)
    requires a - {x} <= b
    ensures |b| >= |a| - 1
  {
    SubsetSize(a - {x}, b);
  }

  // ---------------------------------------------------------------- chains

  /** Following `next`. */
  ghost predicate Path(ns: seq<Node>, p: seq<int>) {
    |p| > 0 && (forall i | 0 <= i < |p| :: InRange(ns, p[i])) &&
    forall i | 0 <= i < |p| - 1 :: ns[p[i]].next == p[i + 1]
  }

  /** Chains have no cycles. */
  lemma {:induction false} PathForward(hash: Hash, ns: seq<Node>, lf: int, g: Shape, p: seq<int>)
    requires Inv(hash, ns, lf, g) && Path(ns, p)
    ensures |p| > 1 ==> p[0] != p[|p| - 1]
    ensures SameChain(g, p[0], p[|p| - 1]) && g.rank[p[0]] <= g.rank[p[|p| - 1]]
    ensures |p| > 1 ==> g.rank[p[0]] < g.rank[p[|p| - 1]]
    decreases |p|
  {
    if |p| > 1 {
      var q := p[..|p| - 1];
      assert Path(ns, q) && ns[q[|q| - 1]].next == p[|p| - 1];
      PathForward(hash, ns, lf, g, q);
      NextAfter(hash, ns, lf, g, q[|q| - 1]);
    }
  }

  lemma {:induction false} PathTo(hash: Hash, ns: seq<Node>, lf: int, g: Shape, i: int, x: int) returns (p: seq<int>)
    requires Inv(hash, ns, lf, g) && InRange(ns, i) && InRange(ns, x) && SameChain(g, i, x) && g.rank[i] <= g.rank[x]
    ensures Path(ns, p) && p[0] == i && p[|p| - 1] == x
    decreases |After(ns, g, i)|
  {
    if i == x { return [i]; }
    NextFinds(hash, ns, lf, g, i, x);
    NextAfter(hash, ns, lf, g, i);
    var q := PathTo(hash, ns, lf, g, ns[i].next, x);
    p := [i] + q;
  }

  /** Every key is reached from its main position; when it is elsewhere, the node at its main position holds a key
      whose own main position that is. */
  lemma KeyReached(hash: Hash, ns: seq<Node>, lf: int, g: Shape, k: Key) returns (p: seq<int>)
    requires Inv(hash, ns, lf, g) && k in g.home
    ensures Path(ns, p) && p[0] == Pos(hash, k, |ns|) && p[|p| - 1] == g.home[k] && ns[p[|p| - 1]].key == Live(k)
    ensures p[|p| - 1] != p[0] ==> ns[p[0]].key != NoKey && Pos(hash, ns[p[0]].key.k, |ns|) == p[0]
    ensures forall i | 0 <= i < |ns| && ns[i].key == Live(k) :: i == g.home[k]
  {
    StartFinds(hash, ns, lf, g, k);
    assert MainOk(hash, ns, g, g.home[k]);
    p := PathTo(hash, ns, lf, g, Pos(hash, k, |ns|), g.home[k]);
  }

  // ---------------------------------------------------------------- writing a value

  lemma WriteInv(hash: Hash, ns: seq<Node>, lastfree: int, g: Shape, i: int, v: Value)
    requires Inv(hash, ns, lastfree, g) && InRange(ns, i) && ns[i].key.Live?
    ensures Inv(hash, ns[i := ns[i].(val := v)], lastfree, g)
  {
    var ns2 := ns[i := ns[i].(val := v)];
    forall j | 0 <= j < |ns| ensures LinkOk(ns2, g, j) && MainOk(hash, ns2, g, j) && UseOk(ns2, g, j) && DeadOk(ns2, g, j) {
      assert LinkOk(ns, g, j) && MainOk(hash, ns, g, j) && UseOk(ns, g, j) && DeadOk(ns, g, j);
    }
  }

  /** removeentry: the collector declares the key of an empty entry dead. */
  ghost function KillShape(g: Shape, k: Key): Shape { g.(home := g.home - {k}) }

  lemma KillInv(hash: Hash, ns: seq<Node>, lastfree: int, g: Shape, i: int)
    requires Inv(hash, ns, lastfree, g) && InRange(ns, i) && ns[i].key.Live? && ns[i].val == Nil
    requires Collectable(ns[i].key.k)
    ensures Inv(hash, ns[i := ns[i].(key := Dead(ns[i].key.k))], lastfree, KillShape(g, ns[i].key.k))
  {
    var ns2, g2 := ns[i := ns[i].(key := Dead(ns[i].key.k))], KillShape(g, ns[i].key.k);
    forall j | 0 <= j < |ns| ensures LinkOk(ns2, g2, j) && MainOk(hash, ns2, g2, j) && UseOk(ns2, g2, j) && DeadOk(ns2, g2, j) {
      assert LinkOk(ns, g, j) && MainOk(hash, ns, g, j) && UseOk(ns, g, j) && DeadOk(ns, g, j);
      assert forall x | 0 <= x < |ns| && SameChain(g2, j, x) :: SameChain(g, j, x);
    }
  }

  // ---------------------------------------------------------------- a fresh hash part

  function FreshNodes(n: nat): (ns: seq<Node>)
    ensures |ns| == n && forall i | 0 <= i < n :: ns[i] == Node(NoKey, Nil, NONE)
  {
    seq(n, i => Node(NoKey, Nil, NONE))
  }

  ghost function FreshShape(n: nat): Shape { Shape(seq(n, i => i), seq(n, i => 0.0), n, map[]) }

  lemma FreshInv(hash: Hash, n: nat)
    requires n > 0
    ensures Inv(hash, FreshNodes(n), n, FreshShape(n))
    ensures |FreeNodes(FreshNodes(n))| == n
  {
    FreshFree(n);
  }

  lemma {:induction false} FreshFree(n: nat)
    ensures |FreeNodes(FreshNodes(n))| == n
  {
    if n > 0 {
      FreshFree(n - 1);
      assert FreeNodes(FreshNodes(n)) == FreeNodes(FreshNodes(n - 1)) + {n - 1};
    } else {
      assert FreeNodes(FreshNodes(0)) == {};
    }
  }

  // ---------------------------------------------------------------- the keys in use

  ghost predicate Used(arr: seq<Value>, i: int) { 1 <= i <= |arr| && arr[i - 1] != Nil }

  ghost function ArrayKeys(arr: seq<Value>, from: int, to: int): set<Key> {
    set i | from < i <= to && Used(arr, i) :: Int(i)
  }

  ghost function UsedIn(arr: seq<Value>, to: int): set<int> { set i | 1 <= i <= to && Used(arr, i) }

  ghost function NodeKeys(ns: seq<Node>, to: int): set<Key> {
    set i | 0 <= i < to && i < |ns| && ns[i].key.Live? && ns[i].val != Nil :: ns[i].key.k
  }

  /** The keys with a value. */
  ghost function LiveKeys(arr: seq<Value>, ns: seq<Node>): set<Key> { ArrayKeys(arr, 0, |arr|) + NodeKeys(ns, |ns|) }

  lemma LiveLookup(hash: Hash, arr: seq<Value>, ns: seq<Node>, lastfree: int, g: Shape, k: Key)
    requires Inv(hash, ns, lastfree, g) && Apart(|arr|, g)
    ensures k in LiveKeys(arr, ns) <==> Lookup(arr, ns, g, k) != Nil
  {
    assert k in NodeKeys(ns, |ns|) ==> k in g.home;
  }

  /** Keys that will not fit into an array part of this size. */
  ghost function HashBound(s: set<Key>, size: int): set<Key> { set k | k in s && !InArray(size, k) }

  /** The integer keys that count for the array part. */
  ghost function IntKeys(s: set<Key>): set<int> { set k | k in s && k.Int? && 1 <= k.i <= MAXASIZE :: k.i }

  lemma {:induction false} IntImage(s: set<int>)
    ensures |(set i | i in s :: Int(i))| == |s|
    decreases |s|
  {
    if s != {} {
      var x := SomeOf(s);
      IntImage(s - {x});
      assert (set i | i in s :: Int(i)) == (set i | i in s - {x} :: Int(i)) + {Int(x)};
    } else {
      assert (set i | i in s :: Int(i)) == {};
    }
  }

  /** The keys that go to the hash part are all but those in 1..n. */
  lemma SplitKeys(s: set<Key>, n: int)
    requires 0 <= n <= MAXASIZE
    ensures |HashBound(s, n)| == |s| - |UpTo(IntKeys(s), n)|
  {
    var a := set i | i in UpTo(IntKeys(s), n) :: Int(i);
    IntImage(UpTo(IntKeys(s), n));
    assert s == HashBound(s, n) + a;
    assert HashBound(s, n) * a == {};
  }
}
