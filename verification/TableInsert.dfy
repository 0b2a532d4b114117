/** The three ways in which newkey (gtable.c) places a key, and that each keeps the chains in order. */
module TableInsert {
  import opened TableHash

  // ---------------------------------------------------------------- the main position has no value

  function Reuse(ns: seq<Node>, m: int, k: Key): seq<Node>
    requires InRange(ns, m)
  {
    ns[m := ns[m].(key := Live(k))]
  }

  ghost function ReuseShape(ns: seq<Node>, g: Shape, m: int, k: Key): Shape
    requires InRange(ns, m)
  {
    g.(home := (if ns[m].key.Live? then g.home - {ns[m].key.k} else g.home)[k := m])
  }

  lemma ReuseAt(hash: Hash, ns: seq<Node>, lastfree: int, g: Shape, k: Key, i: int)
    requires Inv(hash, ns, lastfree, g) && k !in g.home && InRange(ns, i) && ns[Pos(hash, k, |ns|)].val == Nil
    ensures var m := Pos(hash, k, |ns|);
            var ns2, g2 := Reuse(ns, m, k), ReuseShape(ns, g, m, k);
            LinkOk(ns2, g2, i) && MainOk(hash, ns2, g2, i) && UseOk(ns2, g2, i) && DeadOk(ns2, g2, i)
  {
    var m := Pos(hash, k, |ns|);
    assert LinkOk(ns, g, i) && MainOk(hash, ns, g, i) && UseOk(ns, g, i) && DeadOk(ns, g, i);
    var ns2, g2 := Reuse(ns, m, k), ReuseShape(ns, g, m, k);
    assert LinkOk(ns2, g2, i);
    if i != m && ns[i].key.Dead? && ns[i].key.k == k { assert SameChain(g, m, i); }
    if i != m && ns[i].key == NoKey {
      forall j | 0 <= j < |ns| && SameChain(g2, i, j) ensures j == i { assert SameChain(g, i, j); }
    }
  }

  lemma ReuseInv(hash: Hash, ns: seq<Node>, lastfree: int, g: Shape, k: Key)
    requires Inv(hash, ns, lastfree, g) && k !in g.home && ns[Pos(hash, k, |ns|)].val == Nil
    ensures var m := Pos(hash, k, |ns|); Inv(hash, Reuse(ns, m, k), lastfree, ReuseShape(ns, g, m, k))
  {
    hide LinkOk, MainOk, UseOk, DeadOk;
    var m := Pos(hash, k, |ns|);
    var ns2, g2 := Reuse(ns, m, k), ReuseShape(ns, g, m, k);
    forall i | 0 <= i < |ns| ensures LinkOk(ns2, g2, i) && MainOk(hash, ns2, g2, i) && UseOk(ns2, g2, i) && DeadOk(ns2, g2, i) {
      ReuseAt(hash, ns, lastfree, g, k, i);
    }
  }

  // ---------------------------------------------------------------- the colliding key is at home

  function Append(ns: seq<Node>, m: int, n: int, k: Key): seq<Node>
    requires InRange(ns, m) && InRange(ns, n)
  {
    ns[n := Node(Live(k), Nil, ns[m].next)][m := ns[m].(next := n)]
  }

  /** A place right after the node at `m`. */
  ghost function RankAfter(ns: seq<Node>, g: Shape, m: int): (r: real)
    requires InRange(ns, m) && |g.cid| == |ns| && |g.rank| == |ns| && LinkOk(ns, g, m)
    ensures g.rank[m] < r && (ns[m].next != NONE ==> r < g.rank[ns[m].next])
  {
    if ns[m].next == NONE then g.rank[m] + 1.0 else (g.rank[m] + g.rank[ns[m].next]) / 2.0
  }

  ghost function AppendShape(ns: seq<Node>, g: Shape, m: int, n: int, k: Key, r: real): Shape
    requires InRange(ns, m) && InRange(ns, n) && |g.cid| == |ns| && |g.rank| == |ns|
  {
    g.(cid := g.cid[n := g.cid[m]], rank := g.rank[n := r], home := g.home[k := n])
  }

  /** `r` is a place right after `m` in its chain. */
  ghost predicate RightAfter(ns: seq<Node>, g: Shape, m: int, r: real)
    requires InRange(ns, m) && |g.cid| == |ns| && |g.rank| == |ns|
  {
    g.rank[m] < r && forall j | 0 <= j < |ns| && SameChain(g, m, j) :: g.rank[j] <= g.rank[m] || r < g.rank[j]
  }

  /** No node leads to an unused one. */
  lemma FreeNotNext(hash: Hash, ns: seq<Node>, lf: int, g: Shape, i: int, n: int)
    requires Inv(hash, ns, lf, g) && InRange(ns, i) && InRange(ns, n) && ns[n].key == NoKey
    ensures ns[i].next != n
  {
    assert LinkOk(ns, g, i) && UseOk(ns, g, n);
    assert i != n ==> !SameChain(g, n, i);
  }

  lemma AppendLink(hash: Hash, ns: seq<Node>, g: Shape, m: int, n: int, k: Key, r: real, i: int)
    requires Inv(hash, ns, n + 1, g) && InRange(ns, m) && InRange(ns, n) && InRange(ns, i) && n != m
    requires ns[n].key == NoKey
    requires RightAfter(ns, g, m, r)
    ensures LinkOk(Append(ns, m, n, k), AppendShape(ns, g, m, n, k, r), i)
  {
    assert LinkOk(ns, g, i) && LinkOk(ns, g, m) && UseOk(ns, g, n);
    var ns2, g2 := Append(ns, m, n, k), AppendShape(ns, g, m, n, k, r);
    FreeNotNext(hash, ns, n + 1, g, i, n);
    FreeNotNext(hash, ns, n + 1, g, m, n);
    if ns[m].next != NONE { assert SameChain(g, m, ns[m].next); }
    forall j | 0 <= j < |ns| && SameChain(g2, i, j) && i != n && j != n ensures SameChain(g, i, j) && g2.rank[j] == g.rank[j] {}
  }

  lemma AppendRanks(hash: Hash, ns: seq<Node>, g: Shape, m: int, n: int, k: Key, r: real)
    requires Inv(hash, ns, n + 1, g) && InRange(ns, m) && InRange(ns, n) && n != m && ns[n].key == NoKey
    requires RightAfter(ns, g, m, r)
    ensures RanksOk(Append(ns, m, n, k), AppendShape(ns, g, m, n, k, r))
  {
    var g2 := AppendShape(ns, g, m, n, k, r);
    forall i, j | 0 <= i < |ns| && 0 <= j < |ns| && SameChain(g2, i, j) && g2.rank[i] == g2.rank[j] ensures i == j {
      if i != n && j != n { assert SameChain(g, i, j); }
      else if i != n { assert SameChain(g, m, i); }
      else if j != n { assert SameChain(g, m, j); }
    }
  }

  lemma AppendRest(hash: Hash, ns: seq<Node>, g: Shape, m: int, n: int, k: Key, r: real, i: int)
    requires Inv(hash, ns, n + 1, g) && m == Pos(hash, k, |ns|) && InRange(ns, n) && InRange(ns, i) && n != m
    requires ns[n].key == NoKey
    requires RightAfter(ns, g, m, r) && k !in g.home
    requires ns[m].key.Live? && Pos(hash, ns[m].key.k, |ns|) == m
    ensures var ns2, g2 := Append(ns, m, n, k), AppendShape(ns, g, m, n, k, r);
            MainOk(hash, ns2, g2, i) && UseOk(ns2, g2, i) && DeadOk(ns2, g2, i)
  {
    assert MainOk(hash, ns, g, i) && UseOk(ns, g, i) && DeadOk(ns, g, i) && UseOk(ns, g, n);
    var ns2, g2 := Append(ns, m, n, k), AppendShape(ns, g, m, n, k, r);
    if i != n && ns[i].key != NoKey { assert Pos(hash, ns[i].key.k, |ns|) != n; }
    if i != n && ns[i].key == NoKey {
      forall j | 0 <= j < |ns| && SameChain(g2, i, j) ensures j == i {
        assert SameChain(g, i, if j == n then m else j);
      }
    }
    if ns2[i].key == Dead(k) { assert SameChain(g, m, i); }
  }

  lemma AppendInv(hash: Hash, ns: seq<Node>, g: Shape, n: int, k: Key, r: real)
    requires Inv(hash, ns, n + 1, g) && InRange(ns, n) && ns[n].key == NoKey && k !in g.home
    requires var m := Pos(hash, k, |ns|); n != m && ns[m].key.Live? && Pos(hash, ns[m].key.k, |ns|) == m && RightAfter(ns, g, m, r)
    ensures var m := Pos(hash, k, |ns|); Inv(hash, Append(ns, m, n, k), n, AppendShape(ns, g, m, n, k, r))
  {
    var m := Pos(hash, k, |ns|);
    var ns2, g2 := Append(ns, m, n, k), AppendShape(ns, g, m, n, k, r);
    AppendRanks(hash, ns, g, m, n, k, r);
    forall i | 0 <= i < |ns| ensures LinkOk(ns2, g2, i) && MainOk(hash, ns2, g2, i) && UseOk(ns2, g2, i) && DeadOk(ns2, g2, i) {
      AppendLink(hash, ns, g, m, n, k, r, i);
      AppendRest(hash, ns, g, m, n, k, r, i);
    }
  }

  lemma AfterIsRight(hash: Hash, ns: seq<Node>, lastfree: int, g: Shape, m: int)
    requires Inv(hash, ns, lastfree, g) && InRange(ns, m) && LinkOk(ns, g, m)
    ensures RightAfter(ns, g, m, RankAfter(ns, g, m))
  {}

  // ---------------------------------------------------------------- the colliding key is not at home

  /** The colliding node moves to `n`; its predecessor `p` follows it there. */
  function Move(ns: seq<Node>, p: int, m: int, n: int, k: Key): seq<Node>
    requires InRange(ns, p) && InRange(ns, m) && InRange(ns, n)
  {
    ns[p := ns[p].(next := n)][n := ns[m]][m := Node(Live(k), Nil, NONE)]
  }

  ghost function MoveShape(ns: seq<Node>, g: Shape, m: int, n: int, k: Key): Shape
    requires InRange(ns, m) && InRange(ns, n) && |g.cid| == |ns| && |g.rank| == |ns| && ns[m].key != NoKey
  {
    g.(cid := g.cid[n := g.cid[m]][m := g.top], rank := g.rank[n := g.rank[m]], top := g.top + 1,
       home := g.home[ns[m].key.k := n][k := m])
  }

  ghost predicate CanMove(hash: Hash, ns: seq<Node>, g: Shape, p: int, n: int, k: Key) {
    Inv(hash, ns, n + 1, g) && InRange(ns, n) && ns[n].key == NoKey && k !in g.home &&
    var m := Pos(hash, k, |ns|);
    ns[m].key.Live? && Pos(hash, ns[m].key.k, |ns|) != m && InRange(ns, p) && ns[p].next == m
  }

  lemma MoveFacts(hash: Hash, ns: seq<Node>, g: Shape, p: int, n: int, k: Key, i: int)
    requires CanMove(hash, ns, g, p, n, k) && InRange(ns, i)
    ensures var m := Pos(hash, k, |ns|);
            m != n && p != m && p != n && SameChain(g, p, m) && g.rank[p] < g.rank[m] && g.cid[i] < g.top &&
            (SameChain(g, i, n) ==> i == n) && (ns[i].next == m ==> i == p) && ns[i].next != n &&
            (ns[i].key != NoKey && i != m ==> Pos(hash, ns[i].key.k, |ns|) != m)
  {
    var m := Pos(hash, k, |ns|);
    assert LinkOk(ns, g, p) && LinkOk(ns, g, i) && UseOk(ns, g, n) && MainOk(hash, ns, g, i);
    if SameChain(g, i, n) { assert SameChain(g, n, i); }
    if ns[i].next == m { assert SameChain(g, p, i) && SameChain(g, i, p); }
  }

  lemma MoveLink(hash: Hash, ns: seq<Node>, g: Shape, p: int, n: int, k: Key, i: int)
    requires CanMove(hash, ns, g, p, n, k) && InRange(ns, i)
    ensures var m := Pos(hash, k, |ns|); LinkOk(Move(ns, p, m, n, k), MoveShape(ns, g, m, n, k), i)
  {
    var m := Pos(hash, k, |ns|);
    var ns2, g2 := Move(ns, p, m, n, k), MoveShape(ns, g, m, n, k);
    MoveFacts(hash, ns, g, p, n, k, i);
    forall j | 0 <= j < |ns|
      ensures g.cid[j] < g.top && (SameChain(g, j, n) ==> j == n)
    {
      MoveFacts(hash, ns, g, p, n, k, j);
    }
    assert LinkOk(ns, g, i) && LinkOk(ns, g, m) && LinkOk(ns, g, p);
    forall j | 0 <= j < |ns| && SameChain(g2, i, j) && i != m ensures j != m && SameChain(g, if i == n then m else i, if j == n then m else j) {}
  }

  lemma MoveRest(hash: Hash, ns: seq<Node>, g: Shape, p: int, n: int, k: Key, i: int)
    requires CanMove(hash, ns, g, p, n, k) && InRange(ns, i)
    ensures var m := Pos(hash, k, |ns|);
            var ns2, g2 := Move(ns, p, m, n, k), MoveShape(ns, g, m, n, k);
            MainOk(hash, ns2, g2, i) && UseOk(ns2, g2, i) && DeadOk(ns2, g2, i)
  {
    var m := Pos(hash, k, |ns|);
    var ns2, g2 := Move(ns, p, m, n, k), MoveShape(ns, g, m, n, k);
    MoveFacts(hash, ns, g, p, n, k, i);
    forall j | 0 <= j < |ns|
      ensures g.cid[j] < g.top && (SameChain(g, j, n) ==> j == n)
      ensures ns[j].key != NoKey && j != m ==> Pos(hash, ns[j].key.k, |ns|) != m
    {
      MoveFacts(hash, ns, g, p, n, k, j);
    }
    assert MainOk(hash, ns, g, i) && MainOk(hash, ns, g, m) && UseOk(ns, g, i) && UseOk(ns, g, m) && DeadOk(ns, g, i);
    if i != m && i != n {
      assert ns2[i].key == ns[i].key && ns2[i].val == ns[i].val;
      if ns[i].key == NoKey {
        forall j | 0 <= j < |ns| && SameChain(g2, i, j) ensures j == i {
          assert SameChain(g, i, if j == n then m else j);
        }
      }
    }
  }

  lemma MoveRanks(hash: Hash, ns: seq<Node>, g: Shape, p: int, n: int, k: Key)
    requires CanMove(hash, ns, g, p, n, k)
    ensures var m := Pos(hash, k, |ns|); RanksOk(Move(ns, p, m, n, k), MoveShape(ns, g, m, n, k))
  {
    var m := Pos(hash, k, |ns|);
    var g2 := MoveShape(ns, g, m, n, k);
    forall j | 0 <= j < |ns|
      ensures g.cid[j] < g.top && (SameChain(g, j, n) ==> j == n)
    {
      MoveFacts(hash, ns, g, p, n, k, j);
    }
    forall i, j | 0 <= i < |ns| && 0 <= j < |ns| && SameChain(g2, i, j) && g2.rank[i] == g2.rank[j] ensures i == j {
      if i != m && j != m { assert SameChain(g, if i == n then m else i, if j == n then m else j); }
    }
  }

  lemma MoveInv(hash: Hash, ns: seq<Node>, g: Shape, p: int, n: int, k: Key)
    requires CanMove(hash, ns, g, p, n, k)
    ensures var m := Pos(hash, k, |ns|); Inv(hash, Move(ns, p, m, n, k), n, MoveShape(ns, g, m, n, k))
  {
    var m := Pos(hash, k, |ns|);
    var ns2, g2 := Move(ns, p, m, n, k), MoveShape(ns, g, m, n, k);
    MoveFacts(hash, ns, g, p, n, k, m);
    MoveRanks(hash, ns, g, p, n, k);
    forall i | 0 <= i < |ns| ensures LinkOk(ns2, g2, i) && MainOk(hash, ns2, g2, i) && UseOk(ns2, g2, i) && DeadOk(ns2, g2, i) {
      MoveLink(hash, ns, g, p, n, k, i);
      MoveRest(hash, ns, g, p, n, k, i);
    }
    assert HomeOk(ns2, g2);
  }
}
