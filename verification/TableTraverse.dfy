/** A program that goes through a table with next, while it changes fields and the collector clears keys. */
module TableTraverse {
  import opened TableHash
  import opened TableView
  import opened TableNext
  import T = Table

  /** What may happen between two calls: a store to a field that has a value, and a dead key. */
  datatype Edit = Write(k: Key, v: Value) | Kill(i: int)

  /** An edit of a field or node that is not there does nothing. */
  method Apply(t: T.Table, e: Edit)
    requires t.Valid()
    modifies t
    ensures t.Valid() && Quiet(old(t.At()), t.At())
  {
    hide TableHash.Inv, Quiet;
    QuietSame(t.At());
    match e
    case Write(k, v) =>
      var x := t.Get(k);
      if x != Nil { t.Assign(k, v); }
    case Kill(i) =>
      if 0 <= i < |t.nodes| && t.nodes[i].val == Nil { t.RemoveEntry(i); }
  }

  lemma QuietSame(t: Snap)
    ensures Quiet(t, t)
  {}

  method ApplyAll(t: T.Table, es: seq<Edit>)
    requires t.Valid()
    modifies t
    ensures t.Valid() && Quiet(old(t.At()), t.At())
  {
    hide TableHash.Inv, Quiet;
    QuietSame(t.At());
    for n := 0 to |es|
      invariant t.Valid() && Quiet(old(t.At()), t.At())
    {
      ghost var u := t.At();
      Apply(t, es[n]);
      QuietTrans(old(t.At()), u, t.At());
    }
  }

  /** The whole loop, with any edits after each call: no call fails, the loop ends, and the calls are a traversal that
      has reported the end. */
  method Traverse(t: T.Table, edits: seq<seq<Edit>>)
    returns (keys: seq<Key>, ghost at: seq<int>, ghost states: seq<Snap>)
    requires t.Valid()
    modifies t
    ensures t.Valid() && Calls(t.hash, states, keys, at) && states[0] == old(t.At()) && states[|keys|] == t.At()
    ensures NextGives(t.At(), keys == [], LastKey(keys), END) && |keys| <= Size(old(t.At()))
    ensures forall x | Stays(states, x) :: Once(states[0], keys, at, x)
  {
    hide TableHash.Inv, Quiet, NextGives, GivesKey, FirstUsed, Stays, Once;
    keys, at, states := [], [], [t.At()];
    var i, key, v := t.Next(true, LastKey([]));
    while i >= 0
      invariant t.Valid() && Calls(t.hash, states, keys, at) && states[0] == old(t.At()) && states[|keys|] == t.At()
      invariant -2 <= i < Size(t.At()) && NextGives(t.At(), keys == [], LastKey(keys), i)
      invariant i >= 0 ==> GivesKey(t.At(), i, key)
      decreases Size(states[0]) - |keys|
    {
      NextStops(t.hash, states, keys, at, i);
      ApplyAll(t, if |keys| < |edits| then edits[|keys|] else []);
      CallsMore(t.hash, states, keys, at, i, key, t.At());
      keys, at, states := keys + [key], at + [i], states + [t.At()];
      i, key, v := t.Next(false, key);
    }
    NextStops(t.hash, states, keys, at, i);
    forall x | Stays(states, x) ensures Once(states[0], keys, at, x) { TraversalComplete(t.hash, states, keys, at, x); }
  }
}
