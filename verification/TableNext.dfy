/** Traversal with gafqH_next while fields are cleared and their keys die. */
module TableNext {
  import opened TableHash
  import opened TableView

  /** A table at one moment. */
  datatype Snap = Snap(arr: seq<Value>, ns: seq<Node>, lastfree: int, g: Shape)

  ghost predicate Ok(hash: Hash, t: Snap) { Inv(hash, t.ns, t.lastfree, t.g) && Apart(|t.arr|, t.g) }

  /** The places of a table in the order of a traversal: array part, then nodes. */
  function Size(t: Snap): int { |t.arr| + |t.ns| }

  function ValueAt(t: Snap, i: int): Value
    requires 0 <= i < Size(t)
  {
    if i < |t.arr| then t.arr[i] else t.ns[i - |t.arr|].val
  }

  /** The key of a place with a value. */
  function KeyAt(t: Snap, i: int): Key
    requires 0 <= i < Size(t) && (i >= |t.arr| ==> t.ns[i - |t.arr|].key != NoKey)
  {
    if i < |t.arr| then Int(i + 1) else t.ns[i - |t.arr|].key.k
  }

  predicate HasKey(ns: seq<Node>, i: int, k: Key)
    requires InRange(ns, i)
  {
    ns[i].key == Live(k) || (ns[i].key == Dead(k) && Collectable(k))
  }

  /** The first node of the chain that has the key, alive or dead. */
  ghost predicate FirstWith(ns: seq<Node>, g: Shape, k: Key, i: int) {
    InRange(ns, i) && |g.rank| == |ns| && HasKey(ns, i, k) &&
    forall j | 0 <= j < |ns| && HasKey(ns, j, k) :: g.rank[i] <= g.rank[j]
  }

  /** findindex: the place at which a traversal goes on after key `k`. */
  ghost predicate IndexOf(t: Snap, k: Key, i: int) {
    if InArray(|t.arr|, k) then i == k.i - 1 else i >= |t.arr| && FirstWith(t.ns, t.g, k, i - |t.arr|)
  }

  /** `i` is the first place after `from` that has a value. */
  predicate FirstUsed(t: Snap, from: int, i: int) {
    from < i < Size(t) && 0 <= i && ValueAt(t, i) != Nil && forall j | from < j < i && 0 <= j :: ValueAt(t, j) == Nil
  }

  predicate NoneUsed(t: Snap, from: int) { forall j | from < j < Size(t) && 0 <= j :: ValueAt(t, j) == Nil }

  /** Places are not added; empty fields stay empty; keys stay, or die when their field is empty. */
  ghost predicate Quiet(t: Snap, u: Snap) {
    |u.arr| == |t.arr| && |u.ns| == |t.ns| && u.g.rank == t.g.rank && u.g.cid == t.g.cid &&
    (forall i | 0 <= i < |t.ns| ::
       u.ns[i].key == t.ns[i].key ||
       (t.ns[i].key.Live? && u.ns[i].key == Dead(t.ns[i].key.k) && Collectable(t.ns[i].key.k))) &&
    forall i | 0 <= i < Size(t) :: ValueAt(t, i) == Nil ==> ValueAt(u, i) == Nil
  }

  /** A place with a value is found again from its key. */
  lemma UsedIndex(hash: Hash, t: Snap, i: int)
    requires Ok(hash, t) && 0 <= i < Size(t) && ValueAt(t, i) != Nil
    ensures i >= |t.arr| ==> t.ns[i - |t.arr|].key.Live?
    ensures IndexOf(t, KeyAt(t, i), i)
  {
    if i >= |t.arr| {
      var n := i - |t.arr|;
      assert UseOk(t.ns, t.g, n);
      var k := t.ns[n].key.k;
      assert k in t.g.home && t.g.home[k] == n;
      forall j | 0 <= j < |t.ns| && HasKey(t.ns, j, k)
        ensures t.g.rank[n] <= t.g.rank[j]
      {
        assert DeadOk(t.ns, t.g, j);
      }
    }
  }

  lemma QuietIndex(t: Snap, u: Snap, k: Key, i: int)
    requires Quiet(t, u) && IndexOf(t, k, i)
    ensures IndexOf(u, k, i)
  {
    if !InArray(|t.arr|, k) {
      forall j | 0 <= j < |u.ns| && HasKey(u.ns, j, k)
        ensures u.g.rank[i - |t.arr|] <= u.g.rank[j]
      {
        assert HasKey(t.ns, j, k);
      }
    }
  }

  /** There is only one such place. */
  lemma IndexUnique(hash: Hash, t: Snap, k: Key, i: int, j: int)
    requires Ok(hash, t) && IndexOf(t, k, i) && IndexOf(t, k, j)
    ensures i == j
  {
    if !InArray(|t.arr|, k) {
      var a, b := i - |t.arr|, j - |t.arr|;
      assert MainOk(hash, t.ns, t.g, a) && MainOk(hash, t.ns, t.g, b);
      assert SameChain(t.g, a, b);
    }
  }

  /** A place that still has a value has the key it had. */
  lemma QuietKey(hash: Hash, t: Snap, u: Snap, i: int)
    requires Quiet(t, u) && Ok(hash, t) && Ok(hash, u) && 0 <= i < Size(u) && ValueAt(u, i) != Nil
    ensures i < Size(u) == Size(t) && ValueAt(t, i) != Nil && forall k :: GivesKey(t, i, k) <==> GivesKey(u, i, k)
  {
    UsedIndex(hash, t, i);
    UsedIndex(hash, u, i);
  }

  lemma QuietTrans(t: Snap, u: Snap, w: Snap)
    requires Quiet(t, u) && Quiet(u, w)
    ensures Quiet(t, w)
  {}

  // ---------------------------------------------------------------- gafqH_next

  /** Where a call goes on from: before the first place, or after the key that it is given. */
  ghost predicate GoesOn(t: Snap, first: bool, k: Key, from: int) { if first then from == -1 else IndexOf(t, k, from) }

  const END := -1
  const INVALID_KEY := -2

  /** What gafqH_next answers: the place of the next entry, the end, or the error "invalid key to 'next'". */
  ghost predicate NextGives(t: Snap, first: bool, k: Key, i: int) {
    if i == INVALID_KEY then forall from :: !GoesOn(t, first, k, from)
    else if i == END then exists from :: GoesOn(t, first, k, from) && NoneUsed(t, from)
    else exists from :: GoesOn(t, first, k, from) && FirstUsed(t, from, i)
  }

  /** The place determines the answer. */
  lemma NextFrom(hash: Hash, t: Snap, first: bool, k: Key, from: int, i: int)
    requires Ok(hash, t) && GoesOn(t, first, k, from) && NextGives(t, first, k, i)
    ensures i != INVALID_KEY && (if i == END then NoneUsed(t, from) else FirstUsed(t, from, i))
  {
    if i != INVALID_KEY {
      var f :| GoesOn(t, first, k, f) && (if i == END then NoneUsed(t, f) else FirstUsed(t, f, i));
      if !first { IndexUnique(hash, t, k, from, f); }
    }
  }

  // ---------------------------------------------------------------- whole traversals

  function LastKey(keys: seq<Key>): Key { if keys == [] then Int(0) else keys[|keys| - 1] }

  function LastPlace(at: seq<int>): int { if at == [] then -1 else at[|at| - 1] }

  /** Calls of gafqH_next, each with the key that the one before returned, none of which reported the end or an error:
      states[j] is the table at the call that returned keys[j], the key of the place at[j]. The last state is the table
      at present. */
  ghost predicate Calls(hash: Hash, states: seq<Snap>, keys: seq<Key>, at: seq<int>) {
    |states| == |keys| + 1 && |at| == |keys| &&
    (forall j | 0 <= j < |states| :: Ok(hash, states[j])) &&
    (forall j | 0 <= j < |keys| :: Quiet(states[j], states[j + 1])) &&
    forall j | 0 <= j < |keys| :: Returns(states, keys, at, j)
  }

  ghost predicate Returns(states: seq<Snap>, keys: seq<Key>, at: seq<int>, j: int)
    requires 0 <= j < |keys| && |states| == |keys| + 1 && |at| == |keys|
  {
    at[j] >= 0 && NextGives(states[j], j == 0, LastKey(keys[..j]), at[j]) && at[j] < Size(states[j]) &&
    GivesKey(states[j], at[j], keys[j])
  }

  /** `k` is the key of the place. */
  predicate GivesKey(t: Snap, i: int, k: Key)
    requires 0 <= i < Size(t)
  {
    (i >= |t.arr| ==> t.ns[i - |t.arr|].key != NoKey) && k == KeyAt(t, i)
  }

  /** The key that was returned last, whether it lives or has died since, is found at its place, so that the traversal
      can go on. */
  lemma {:induction false} FoundAgain(hash: Hash, states: seq<Snap>, keys: seq<Key>, at: seq<int>, j: int)
    requires Calls(hash, states, keys, at) && 0 <= j <= |keys|
    ensures GoesOn(states[j], j == 0, LastKey(keys[..j]), LastPlace(at[..j]))
    ensures j <= LastPlace(at[..j]) + 1 <= Size(states[0]) == Size(states[j])
    decreases j
  {
    if j > 0 {
      FoundAgain(hash, states, keys, at, j - 1);
      assert Returns(states, keys, at, j - 1);
      NextFrom(hash, states[j - 1], j == 1, LastKey(keys[..j - 1]), LastPlace(at[..j - 1]), at[j - 1]);
      UsedIndex(hash, states[j - 1], at[j - 1]);
      QuietIndex(states[j - 1], states[j], keys[j - 1], at[j - 1]);
    }
  }

  /** No call raises "invalid key to 'next'", and there are no more calls than places before one reports the end. */
  lemma NextStops(hash: Hash, states: seq<Snap>, keys: seq<Key>, at: seq<int>, i: int)
    requires Calls(hash, states, keys, at) && NextGives(states[|keys|], keys == [], LastKey(keys), i)
    ensures i != INVALID_KEY && |keys| <= Size(states[0]) && (|keys| == Size(states[0]) ==> i == END)
    ensures if i == END then NoneUsed(states[|keys|], LastPlace(at)) else FirstUsed(states[|keys|], LastPlace(at), i)
  {
    var n := |keys|;
    assert keys[..n] == keys && at[..n] == at;
    FoundAgain(hash, states, keys, at, n);
    NextFrom(hash, states[n], n == 0, LastKey(keys), LastPlace(at), i);
  }

  lemma CallAfter(hash: Hash, states: seq<Snap>, keys: seq<Key>, at: seq<int>, j: int)
    requires Calls(hash, states, keys, at) && 0 <= j < |keys|
    ensures Size(states[j]) == Size(states[0]) && FirstUsed(states[j], if j == 0 then -1 else at[j - 1], at[j])
  {
    FoundAgain(hash, states, keys, at, j);
    assert Returns(states, keys, at, j);
    NextFrom(hash, states[j], j == 0, LastKey(keys[..j]), LastPlace(at[..j]), at[j]);
  }

  /** Places are visited in order, so none twice. */
  lemma {:induction false} VisitsOrdered(hash: Hash, states: seq<Snap>, keys: seq<Key>, at: seq<int>, i: int, j: int)
    requires Calls(hash, states, keys, at) && 0 <= i <= j < |keys|
    ensures at[i] + (j - i) <= at[j] < Size(states[0]) && at[i] >= i
    decreases j
  {
    CallAfter(hash, states, keys, at, j);
    if i < j { VisitsOrdered(hash, states, keys, at, i, j - 1); }
    else if i > 0 { VisitsOrdered(hash, states, keys, at, i - 1, i - 1); }
  }

  /** A place that has a value all along is visited, by call `calls` at the latest unless it lies beyond. */
  lemma {:induction false} VisitsAll(hash: Hash, states: seq<Snap>, keys: seq<Key>, at: seq<int>, x: int, calls: int)
    requires Calls(hash, states, keys, at) && Stays(states, x) && 0 <= calls <= |keys|
    ensures (exists j | 0 <= j < calls :: at[j] == x) || (calls == 0 || at[calls - 1] < x)
    decreases calls
  {
    if calls > 0 {
      VisitsAll(hash, states, keys, at, x, calls - 1);
      CallAfter(hash, states, keys, at, calls - 1);
    }
  }

  /** A place that has a value at some call had one, with the same key, from the start. */
  lemma {:induction false} KeptKey(hash: Hash, states: seq<Snap>, keys: seq<Key>, at: seq<int>, x: int, k: Key, j: int)
    requires Calls(hash, states, keys, at) && 0 <= j < |states| && 0 <= x < Size(states[j])
    requires ValueAt(states[j], x) != Nil && GivesKey(states[j], x, k)
    ensures x < Size(states[0]) && ValueAt(states[0], x) != Nil && GivesKey(states[0], x, k)
    decreases j
  {
    hide Quiet, Ok, GivesKey, Returns, ValueAt;
    if j > 0 {
      assert Quiet(states[j - 1], states[j]);
      QuietKey(hash, states[j - 1], states[j], x);
      KeptKey(hash, states, keys, at, x, k, j - 1);
    }
  }

  /** The place has a value all along. */
  predicate Stays(states: seq<Snap>, x: int) { forall j | 0 <= j < |states| :: 0 <= x < Size(states[j]) && ValueAt(states[j], x) != Nil }

  /** Exactly one call returned this place, and that with its key. */
  predicate Once(t: Snap, keys: seq<Key>, at: seq<int>, x: int) {
    0 <= x < Size(t) && |at| == |keys| &&
    exists j | 0 <= j < |keys| :: at[j] == x && GivesKey(t, x, keys[j]) && forall i | 0 <= i < |keys| && at[i] == x :: i == j
  }

  /** Once a call has reported the end, every entry that had a value all along has been returned exactly once, with its
      key. */
  lemma TraversalComplete(hash: Hash, states: seq<Snap>, keys: seq<Key>, at: seq<int>, x: int)
    requires Calls(hash, states, keys, at) && NextGives(states[|keys|], keys == [], LastKey(keys), END)
    requires Stays(states, x)
    ensures Once(states[0], keys, at, x)
  {
    var n := |keys|;
    VisitsAll(hash, states, keys, at, x, n);
    NextStops(hash, states, keys, at, END);
    FoundAgain(hash, states, keys, at, n);
    assert ValueAt(states[n], x) != Nil;
    var j :| 0 <= j < n && at[j] == x;
    forall i | 0 <= i < n && at[i] == x ensures i == j {
      if i < j { VisitsOrdered(hash, states, keys, at, i, j); }
      if j < i { VisitsOrdered(hash, states, keys, at, j, i); }
    }
    assert Returns(states, keys, at, j);
    KeptKey(hash, states, keys, at, x, keys[j], j);
  }

  /** One more call that returned a key, and what then happened to the table. */
  lemma CallsMore(hash: Hash, states: seq<Snap>, keys: seq<Key>, at: seq<int>, i: int, k: Key, u: Snap)
    requires Calls(hash, states, keys, at) && NextGives(states[|keys|], keys == [], LastKey(keys), i)
    requires 0 <= i < Size(states[|keys|])
    requires GivesKey(states[|keys|], i, k) && Quiet(states[|keys|], u) && Ok(hash, u)
    ensures Calls(hash, states + [u], keys + [k], at + [i])
  {
    hide NextGives, Quiet, Ok, GivesKey;
    var n := |keys|;
    forall j | 0 <= j <= n ensures Returns(states + [u], keys + [k], at + [i], j) {
      assert (keys + [k])[..j] == keys[..j];
      if j < n { assert Returns(states, keys, at, j); }
      else { assert keys[..n] == keys; }
    }
  }
}
