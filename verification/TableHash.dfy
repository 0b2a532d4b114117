/** The hash part of a table (gtable.c): a chained scatter table with Brent's variation. */
module TableHash {
  import opened Sets

  /** Keys: numbers that are integers, and all others. Only some of these are collectable. */
  datatype Key = Int(i: int) | Atom(id: int, collectable: bool)

  predicate Collectable(k: Key) { k.Atom? && k.collectable }

  datatype Value = Nil | Val(id: int)

  /** A node's key: none yet, a key, or one that the collector has declared dead. */
  datatype KeySlot = NoKey | Live(k: Key) | Dead(k: Key)

  const NONE := -1

  datatype Node = Node(key: KeySlot, val: Value, next: int)

  type Hash = (Key, int) -> int

  /** mainposition: any function of the key and the size. */
  function Pos(hash: Hash, k: Key, n: int): (p: int)
    requires n > 0
    ensures 0 <= p < n
  {
    hash(k, n) % n
  }

  /** Where the nodes are in their chains: which chain, and in what order; and where each key lives. */
  datatype Shape = Shape(cid: seq<int>, rank: seq<real>, top: int, home: map<Key, int>)

  predicate InRange(ns: seq<Node>, i: int) { 0 <= i < |ns| }

  ghost predicate SizesOk(hash: Hash, ns: seq<Node>, lastfree: int, g: Shape) {
    |ns| > 0 && |g.cid| == |ns| && |g.rank| == |ns| && lastfree <= |ns|
  }

  ghost predicate SameChain(g: Shape, i: int, j: int)
    requires 0 <= i < |g.cid| && 0 <= j < |g.cid|
  {
    g.cid[i] == g.cid[j]
  }

  /** `next` leads to the node that comes right after in the chain, if there is one. */
  ghost predicate LinkOk(ns: seq<Node>, g: Shape, i: int)
    requires InRange(ns, i) && |g.cid| == |ns| && |g.rank| == |ns|
  {
    g.cid[i] < g.top &&
    if ns[i].next == NONE then forall j | 0 <= j < |ns| && SameChain(g, i, j) :: g.rank[j] <= g.rank[i]
    else
      InRange(ns, ns[i].next) && SameChain(g, i, ns[i].next) && g.rank[i] < g.rank[ns[i].next] &&
      forall j | 0 <= j < |ns| && SameChain(g, i, j) :: g.rank[j] <= g.rank[i] || g.rank[j] >= g.rank[ns[i].next]
  }

  /** Two nodes of a chain are not at the same place. */
  ghost predicate RanksOk(ns: seq<Node>, g: Shape)
    requires |g.cid| == |ns| && |g.rank| == |ns|
  {
    forall i, j | 0 <= i < |ns| && 0 <= j < |ns| && SameChain(g, i, j) && g.rank[i] == g.rank[j] :: i == j
  }

  /** A key is in the chain of its main position, at or after it; when it is not there, the node at its main
      position holds a key whose own main position that is. */
  ghost predicate MainOk(hash: Hash, ns: seq<Node>, g: Shape, i: int)
    requires InRange(ns, i) && |g.cid| == |ns| && |g.rank| == |ns|
  {
    ns[i].key != NoKey ==>
      var m := Pos(hash, ns[i].key.k, |ns|);
      SameChain(g, i, m) && g.rank[m] <= g.rank[i] &&
      (m != i ==> ns[m].key != NoKey && Pos(hash, ns[m].key.k, |ns|) == m)
  }

  /** Unused nodes are clean and alone; dead keys have no value. */
  ghost predicate UseOk(ns: seq<Node>, g: Shape, i: int)
    requires InRange(ns, i) && |g.cid| == |ns|
  {
    (ns[i].key == NoKey ==> ns[i].val == Nil && ns[i].next == NONE && forall j | 0 <= j < |ns| && SameChain(g, i, j) :: j == i) &&
    (ns[i].key.Dead? ==> ns[i].val == Nil && Collectable(ns[i].key.k))
  }

  /** Each key lives in one place. */
  ghost predicate HomeOk(ns: seq<Node>, g: Shape) {
    (forall k | k in g.home :: 0 <= g.home[k] < |ns| && ns[g.home[k]].key == Live(k)) &&
    forall i | 0 <= i < |ns| && ns[i].key.Live? :: ns[i].key.k in g.home && g.home[ns[i].key.k] == i
  }

  /** A dead copy of a key comes after the live one. */
  ghost predicate DeadOk(ns: seq<Node>, g: Shape, j: int)
    requires InRange(ns, j) && |g.rank| == |ns|
  {
    ns[j].key.Dead? && ns[j].key.k in g.home && InRange(ns, g.home[ns[j].key.k]) ==> g.rank[g.home[ns[j].key.k]] < g.rank[j]
  }

  /** What holds of the hash part between operations. */
  ghost predicate Inv(hash: Hash, ns: seq<Node>, lastfree: int, g: Shape) {
    SizesOk(hash, ns, lastfree, g) && RanksOk(ns, g) && HomeOk(ns, g) &&
    (forall i | 0 <= i < |ns| :: LinkOk(ns, g, i)) &&
    (forall i | 0 <= i < |ns| :: MainOk(hash, ns, g, i)) &&
    (forall i | 0 <= i < |ns| :: UseOk(ns, g, i)) &&
    (forall i | 0 <= i < |ns| :: DeadOk(ns, g, i)) &&
    forall i | 0 <= i < |ns| && lastfree <= i :: ns[i].key != NoKey
  }

  // ---------------------------------------------------------------- searching

  /** The nodes that come after `i` in its chain. */
  ghost function After(ns: seq<Node>, g: Shape, i: int): set<int>
    requires InRange(ns, i) && |g.cid| == |ns| && |g.rank| == |ns|
  {
    set j | 0 <= j < |ns| && SameChain(g, i, j) && g.rank[j] > g.rank[i]
  }

  /** Following `next` gets nearer to the end of the chain. */
  lemma NextAfter(hash: Hash, ns: seq<Node>, lastfree: int, g: Shape, i: int)
    requires Inv(hash, ns, lastfree, g) && InRange(ns, i) && ns[i].next != NONE
    ensures InRange(ns, ns[i].next) && SameChain(g, i, ns[i].next) && g.rank[i] < g.rank[ns[i].next]
    ensures |After(ns, g, ns[i].next)| < |After(ns, g, i)|
  {
    assert LinkOk(ns, g, i);
    var j := ns[i].next;
    assert j in After(ns, g, i) && j !in After(ns, g, j);
    assert After(ns, g, j) <= After(ns, g, i) - {j};
    SubsetSize(After(ns, g, j), After(ns, g, i) - {j});
  }

  /** A key that is in the chain after `i` is at the next node or after it. */
  lemma NextFinds(hash: Hash, ns: seq<Node>, lastfree: int, g: Shape, i: int, x: int)
    requires Inv(hash, ns, lastfree, g) && InRange(ns, i) && InRange(ns, x) && x != i
    requires SameChain(g, i, x) && g.rank[i] <= g.rank[x]
    ensures ns[i].next != NONE && InRange(ns, ns[i].next) && SameChain(g, ns[i].next, x)
    ensures g.rank[ns[i].next] <= g.rank[x]
  {
    assert LinkOk(ns, g, i);
  }

  /** A key is to be found from its main position on. */
  lemma StartFinds(hash: Hash, ns: seq<Node>, lastfree: int, g: Shape, k: Key)
    requires Inv(hash, ns, lastfree, g) && k in g.home
    ensures var m, x := Pos(hash, k, |ns|), g.home[k];
            InRange(ns, m) && InRange(ns, x) && SameChain(g, m, x) && g.rank[m] <= g.rank[x] && ns[x].key == Live(k)
  {
    assert MainOk(hash, ns, g, g.home[k]);
  }
}
