/** Tables as gtable.c has them: an array part and a hash part that change in place. */
module Table {
  import opened Sets
  import opened TableHash
  import opened TableInsert
  import opened TableSize
  import opened TableView
  import opened TableNext

  /** Whether "table overflow" was raised. */
  datatype Outcome = Pass | Fail

  /** A value used as a key. */
  datatype Arg = NilArg | NaNArg | Some(k: Key)

  datatype Status = Done | TableOverflow | IndexIsNil | IndexIsNaN

  /** A place for a value. */
  datatype Slot = ArraySlot(i: int) | NodeSlot(i: int)

  ghost predicate SameLook(a1: seq<Value>, n1: seq<Node>, g1: Shape, a2: seq<Value>, n2: seq<Node>, g2: Shape) {
    forall k :: Lookup(a2, n2, g2, k) == Lookup(a1, n1, g1, k)
  }

  class Table {
    const hash: Hash
    var arr: seq<Value>
    var nodes: seq<Node>
    var dummy: bool
    var lastfree: int
    ghost var g: Shape

    /** The hash part is in order, keys of the array part are not in it, and the shared dummy node is empty. */
    ghost predicate Valid()
      reads this
    {
      |arr| <= MAXASIZE && |nodes| > 0 && Inv(hash, nodes, if dummy then 1 else lastfree, g) && Apart(|arr|, g) &&
      (dummy ==> nodes == FreshNodes(1) && lastfree <= 0 && g == FreshShape(1))
    }

    /** The value of a key. */
    ghost function Look(k: Key): Value
      reads this
    {
      Lookup(arr, nodes, g, k)
    }

    /** There is a node that was never used. */
    ghost predicate Room()
      reads this
    {
      !dummy && FreeNodes(nodes) != {}
    }

    /** Whether the key has a place already. */
    ghost predicate Placed(k: Key)
      reads this
    {
      InArray(|arr|, k) || k in g.home
    }

    ghost predicate SlotOf(s: Slot, k: Key)
      reads this
    {
      if InArray(|arr|, k) then s == ArraySlot(k.i - 1) else k in g.home && s == NodeSlot(g.home[k])
    }

    /** Used to show that rehash is not needed twice. */
    ghost function Steps(k: Key): nat
      reads this
    {
      if Placed(k) || Room() then 0 else 1
    }

    ghost function At(): Snap
      reads this
    {
      Snap(arr, nodes, if dummy then 1 else lastfree, g)
    }

    /** gafqH_new. */
    constructor (hash: Hash, narray: int, nhash: int)
      requires 0 <= narray <= MAXASIZE && 0 <= nhash <= MAXASIZE
      ensures Valid() && forall k :: Look(k) == Nil
    {
      this.hash := hash;
      arr := seq(narray, _ => Nil);
      nodes, dummy, lastfree, g := FreshNodes(1), true, 0, FreshShape(1);
      new;
      var r := NewNodes(nhash);
    }

    // -------------------------------------------------------------- searching

    /** The loop that all search functions have: along the chain from the main position. */
    method Find(k: Key) returns (i: int)
      requires Valid()
      ensures i == if k in g.home then g.home[k] else NONE
      ensures i != NONE <==> k in g.home
    {
      ghost var lf := if dummy then 1 else lastfree;
      i := Pos(hash, k, |nodes|);
      if k in g.home { StartFinds(hash, nodes, lf, g, k); }
      while i != NONE
        invariant i == NONE || InRange(nodes, i)
        invariant k in g.home ==> i != NONE && InRange(nodes, g.home[k]) && SameChain(g, i, g.home[k])
        invariant k in g.home ==> g.rank[i] <= g.rank[g.home[k]]
        decreases i != NONE, if i == NONE then 0 else |After(nodes, g, i)|
      {
        if nodes[i].key == Live(k) { return; }
        if k in g.home { NextFinds(hash, nodes, lf, g, i, g.home[k]); }
        if nodes[i].next != NONE { NextAfter(hash, nodes, lf, g, i); }
        i := nodes[i].next;
      }
    }

    /** gafqH_get, gafqH_getnum and gafqH_getstr. */
    method Get(k: Key) returns (v: Value)
      requires Valid()
      ensures v == Look(k)
    {
      if k.Int? && 1 <= k.i <= |arr| { return arr[k.i - 1]; }
      var i := Find(k);
      if i == NONE { return Nil; }
      assert HomeOk(nodes, g);
      return nodes[i].val;
    }

    /** getfreepos; without a free node, `lastfree` ends one before the first. */
    method GetFreePos() returns (n: int)
      requires Valid()
      modifies this`lastfree
      ensures n == NONE ==> !Room() && lastfree < 0 && Inv(hash, nodes, if dummy then 1 else lastfree, g)
      ensures n != NONE ==> !dummy && InRange(nodes, n) && nodes[n].key == NoKey && lastfree == n
      ensures n != NONE ==> Inv(hash, nodes, n + 1, g)
    {
      while lastfree > 0
        invariant lastfree <= |nodes| && Inv(hash, nodes, if dummy then 1 else lastfree, g)
        invariant dummy ==> lastfree <= 0
      {
        lastfree := lastfree - 1;
        if nodes[lastfree].key == NoKey { return lastfree; }
      }
      if !dummy { assert FreeNodes(nodes) == {}; }
      lastfree := lastfree - 1;
      return NONE;
    }

    /** The walk of newkey from the main position of the colliding node to its predecessor. */
    method Previous(m: int, o: int) returns (p: int)
      requires exists lf :: Inv(hash, nodes, lf, g)
      requires InRange(nodes, m) && nodes[m].key.Live? && o == Pos(hash, nodes[m].key.k, |nodes|) && o != m
      ensures InRange(nodes, p) && nodes[p].next == m
    {
      ghost var lf :| Inv(hash, nodes, lf, g);
      p := o;
      assert MainOk(hash, nodes, g, m);
      while nodes[p].next != m
        invariant InRange(nodes, p) && p != m && SameChain(g, p, m) && g.rank[p] <= g.rank[m]
        decreases |After(nodes, g, p)|
      {
        NextFinds(hash, nodes, lf, g, p, m);
        NextAfter(hash, nodes, lf, g, p);
        p := nodes[p].next;
      }
    }

    // -------------------------------------------------------------- inserting

    /** The part of newkey that does not grow the table. */
    method Place(k: Key, n: int) returns (s: Slot)
      requires !dummy && |arr| <= MAXASIZE && Apart(|arr|, g) && !Placed(k)
      requires if n == NONE then Inv(hash, nodes, lastfree, g) && nodes[Pos(hash, k, |nodes|)].val == Nil
               else InRange(nodes, n) && nodes[n].key == NoKey && lastfree == n && Inv(hash, nodes, n + 1, g) &&
                    nodes[Pos(hash, k, |nodes|)].val != Nil
      modifies this`nodes, this`g
      ensures Valid() && SlotOf(s, k) && !InArray(|arr|, k) && |nodes| == |old(nodes)|
      ensures SameLook(arr, old(nodes), old(g), arr, nodes, g)
      ensures |FreeNodes(nodes)| >= |FreeNodes(old(nodes))| - 1
    {
      hide Inv, FreeNodes;
      ghost var ns0, g0 := nodes, g;
      var m := Pos(hash, k, |nodes|);
      if n == NONE {
        ReuseInv(hash, nodes, lastfree, g, k);
        ReuseView(hash, arr, nodes, lastfree, g, k);
        FewerFree(FreeNodes(ns0), FreeNodes(Reuse(ns0, m, k)), m);
        nodes, g := Reuse(nodes, m, k), ReuseShape(nodes, g, m, k);
        return NodeSlot(m);
      }
      Occupied(hash, nodes, n + 1, g, m);
      var o := Pos(hash, nodes[m].key.k, |nodes|);
      if o != m {
        var p := Previous(m, o);
        MoveInv(hash, ns0, g0, p, n, k);
        MoveView(hash, arr, ns0, g0, p, n, k);
        FewerFree(FreeNodes(ns0), FreeNodes(Move(ns0, p, m, n, k)), n);
        nodes, g := Move(nodes, p, m, n, k), MoveShape(nodes, g, m, n, k);
        return NodeSlot(m);
      } else {
        ghost var r := RankAfter(nodes, g, m);
        AfterIsRight(hash, nodes, n + 1, g, m);
        AppendInv(hash, ns0, g0, n, k, r);
        AppendView(hash, arr, ns0, n + 1, g0, m, n, k, r);
        FewerFree(FreeNodes(ns0), FreeNodes(Append(ns0, m, n, k)), n);
        nodes, g := Append(nodes, m, n, k), AppendShape(nodes, g, m, n, k, r);
        return NodeSlot(n);
      }
    }
  
    /** newkey: a place for a key that has none; the table grows when there is no free node. */
    method NewKey(k: Key) returns (r: Outcome, s: Slot)
      requires Valid() && !Placed(k)
      modifies this
      ensures r.Pass? ==> Valid() && SlotOf(s, k) && SameLook(old(arr), old(nodes), old(g), arr, nodes, g)
      ensures r.Fail? ==> |LiveKeys(old(arr), old(nodes))| + 1 > MAXASIZE
      ensures old(Room()) ==> r.Pass? && !dummy && arr == old(arr) && |nodes| == |old(nodes)|
      ensures old(Room()) ==> |FreeNodes(nodes)| >= |old(FreeNodes(nodes))| - 1
      decreases Steps(k), 2
    {
      hide Inv, Lookup, FreeNodes;
      r := Pass;
      var m := Pos(hash, k, |nodes|);
      if nodes[m].val != Nil || dummy {
        ghost var a0, n0, g0, rm := arr, nodes, g, Room();
        var n := GetFreePos();
        if n == NONE {
          s := NodeSlot(m);
          r := Rehash(k);
          if r.Fail? { return; }
          ghost var a1, n1, g1 := arr, nodes, g;
          r, s := SetSlot(k);
          return;
        }
        s := Place(k, n);
      } else {
        s := Place(k, NONE);
      }
    }

    /** gafqH_set, gafqH_setnum and gafqH_setstr: a place for the value of a key. */
    method SetSlot(k: Key) returns (r: Outcome, s: Slot)
      requires Valid()
      modifies this
      ensures r.Pass? ==> Valid() && SlotOf(s, k) && SameLook(old(arr), old(nodes), old(g), arr, nodes, g)
      ensures r.Fail? ==> |LiveKeys(old(arr), old(nodes))| + 1 > MAXASIZE
      ensures old(Placed(k)) ==> r.Pass? && arr == old(arr) && nodes == old(nodes) && g == old(g) && dummy == old(dummy)
      ensures old(Placed(k)) ==> lastfree == old(lastfree)
      ensures old(Room()) ==> r.Pass? && !dummy && arr == old(arr) && |nodes| == |old(nodes)|
      ensures old(Room()) ==> |FreeNodes(nodes)| >= |old(FreeNodes(nodes))| - 1
      decreases Steps(k), 3
    {
      hide Inv, Lookup, FreeNodes;
      if k.Int? && 1 <= k.i <= |arr| { return Pass, ArraySlot(k.i - 1); }
      var i := Find(k);
      if i != NONE { return Pass, NodeSlot(i); }
      r, s := NewKey(k);
    }
  
    /** A store: gafqH_set and the assignment to the place it returns. */
    method Put(k: Key, v: Value) returns (r: Outcome)
      requires Valid()
      modifies this
      ensures r.Pass? ==> Valid() && Stored(old(arr), old(nodes), old(g), k, v, arr, nodes, g)
      ensures r.Fail? ==> |LiveKeys(old(arr), old(nodes))| + 1 > MAXASIZE
      ensures old(Placed(k)) ==> r.Pass? && |arr| == |old(arr)| && FreeNodes(nodes) == old(FreeNodes(nodes))
      ensures old(Placed(k)) ==> dummy == old(dummy)
      ensures old(Placed(k)) ==> g == old(g) && lastfree == old(lastfree)
      ensures old(Placed(k)) ==> Written(old(arr), old(nodes), g, k, v, arr, nodes)
      ensures old(Room()) ==> r.Pass? && !dummy && |arr| == |old(arr)|
      ensures old(Room()) ==> |FreeNodes(nodes)| >= |old(FreeNodes(nodes))| - 1
      decreases Steps(k), 4
    {
      hide Inv, Lookup, LiveKeys;
      var s;
      r, s := SetSlot(k);
      if r.Fail? { return; }
      ghost var a1, n1, g1, lf := arr, nodes, g, if dummy then 1 else lastfree;
      assert !InArray(|arr|, k) ==> !dummy;
      WriteStored(hash, a1, n1, lf, g1, k, v);
      StoredAfter(old(arr), old(nodes), old(g), a1, n1, g1, k, v);
      if s.ArraySlot? { arr := arr[s.i := v]; }
      else { nodes := nodes[s.i := nodes[s.i].(val := v)]; }
    }

    /** gafqH_set with its errors: nil and NaN are no keys. */
    method Store(a: Arg, v: Value) returns (r: Status)
      requires Valid()
      modifies this
      ensures a == NilArg <==> r == IndexIsNil
      ensures a == NaNArg <==> r == IndexIsNaN
      ensures r.IndexIsNil? || r.IndexIsNaN? ==> arr == old(arr) && nodes == old(nodes) && g == old(g) && Valid()
      ensures r == TableOverflow ==> |LiveKeys(old(arr), old(nodes))| + 1 > MAXASIZE
      ensures r == Done ==> Valid() && Stored(old(arr), old(nodes), old(g), a.k, v, arr, nodes, g)
    {
      if a == NilArg { return IndexIsNil; }
      if a == NaNArg { return IndexIsNaN; }
      var o := Put(a.k, v);
      return if o.Pass? then Done else TableOverflow;
    }

    // -------------------------------------------------------------- rehash

    /** numusearray: the keys in use in the array part, by slices. */
    method NumUseArray() returns (nums: seq<int>, ause: int, ghost s: set<int>)
      requires |arr| <= MAXASIZE
      ensures s == UsedIn(arr, |arr|) && Counts(s, nums) && ause == |s|
    {
      hide Pow2, Counts;
      nums := seq(MAXBITS + 1, _ => 0);
      CountsNone(nums);
      var lg, ttlg, i := 0, 1, 1;
      ause, s := 0, {};
      assert UsedIn(arr, 0) == {} && Pow2(0) == 1 by { SoFarStart({}); }
      Pow2Max();
      while lg <= MAXBITS
        invariant 0 <= lg <= MAXBITS + 1 && ttlg == Pow2(lg) && 1 <= i <= |arr| + 1
        invariant s == UsedIn(arr, i - 1) && Counts(s, nums) && ause == |s|
        invariant i == Below(lg) + 1 || (i == |arr| + 1 && |arr| <= Below(lg))
        invariant lg == MAXBITS + 1 ==> i == |arr| + 1
      {
        var lc := 0;
        var lim := ttlg;
        if lim > |arr| {
          lim := |arr|;
          if i > lim { break; }
        }
        ghost var base, s0 := nums, s;
        SlicesThere(s, nums);
        assert base[lg := base[lg] + lc] == base;
        while i <= lim
          invariant Below(lg) < i <= lim + 1 && lim <= |arr| && lim <= Pow2(lg) && 0 <= lc
          invariant |base| == MAXBITS + 1 && nums == base && s == UsedIn(arr, i - 1)
          invariant Counts(s, base[lg := base[lg] + lc]) && |s| == ause + lc
        {
          assert UsedIn(arr, i) == if arr[i - 1] != Nil then UsedIn(arr, i - 1) + {i} else UsedIn(arr, i - 1);
          if arr[i - 1] != Nil {
            CountsAdd(s, base[lg := base[lg] + lc], i, lg);
            assert base[lg := base[lg] + lc][lg := base[lg] + lc + 1] == base[lg := base[lg] + lc + 1];
            lc := lc + 1;
            s := s + {i};
          }
          i := i + 1;
        }
        nums := nums[lg := nums[lg] + lc];
        ause := ause + lc;
        Pow2Step(lg);
        lg, ttlg := lg + 1, ttlg * 2;
      }
    }

    /** numusehash: all keys in use in the hash part, and the integer ones by slices. */
    method NumUseHash(nums0: seq<int>, ghost s0: set<int>)
      returns (nums: seq<int>, totaluse: int, ause: int, ghost s: set<int>)
      requires Valid() && Counts(s0, nums0) && (forall j | j in s0 :: 1 <= j <= |arr|)
      ensures s == s0 + IntKeys(NodeKeys(nodes, |nodes|)) && Counts(s, nums)
      ensures totaluse == |NodeKeys(nodes, |nodes|)| && ause == |s| - |s0|
    {
      hide Inv, Pow2, Counts, IntKeys;
      nums, totaluse, ause, s := nums0, 0, 0, s0;
      var i := |nodes|;
      NoKeysFrom(nodes);
      while i > 0
        invariant 0 <= i <= |nodes|
        invariant s == s0 + IntKeys(KeysFrom(nodes, i)) && Counts(s, nums)
        invariant totaluse == |KeysFrom(nodes, i)| && ause == |s| - |s0|
      {
        i := i - 1;
        if nodes[i].val != Nil {
          ghost var s1 := s;
          KeysFromNext(hash, nodes, if dummy then 1 else lastfree, g, i, |arr|, s0);
          var k := nodes[i].key.k;
          if k.Int? && 0 < k.i <= MAXASIZE {
            var c := CeilLog2(k.i);
            Pow2Max();
            SliceApart(k.i, MAXBITS, c);
            SlicesThere(s, nums);
            CountsAdd(s, nums, k.i, c);
            nums := nums[c := nums[c] + 1];
            ause := ause + 1;
            s := s + {k.i};
          }
          totaluse := totaluse + 1;
        } else {
          assert KeysFrom(nodes, i) == KeysFrom(nodes, i + 1);
        }
      }
      AllKeysFrom(nodes);
    }
  
    /** setarrayvector, to grow. */
    method GrowArray(size: int)
      requires |arr| <= size
      modifies this`arr
      ensures |arr| == size && arr[..|old(arr)|] == old(arr) && forall i | |old(arr)| <= i < size :: arr[i] == Nil
    {
      arr := arr + seq(size - |arr|, _ => Nil);
    }

    /** setnodevector: a hash part of at least this size, all of it free. */
    method NewNodes(size: int) returns (r: Outcome)
      requires size >= 0
      modifies this`nodes, this`dummy, this`lastfree, this`g
      ensures r.Fail? <==> size > MAXASIZE
      ensures r.Fail? ==> nodes == old(nodes) && dummy == old(dummy) && lastfree == old(lastfree) && g == old(g)
      ensures r.Pass? ==> |nodes| > 0 && Inv(hash, nodes, if dummy then 1 else lastfree, g) && g.home == map[]
      ensures r.Pass? ==> dummy == (size == 0)
      ensures r.Pass? ==> |FreeNodes(nodes)| >= size
      ensures r.Pass? ==> (dummy ==> nodes == FreshNodes(1) && lastfree == 0 && g == FreshShape(1))
    {
      hide Inv, Pow2, FreeNodes;
      Pow2Max();
      if size == 0 {
        FreshInv(hash, 1);
        nodes, dummy, lastfree, g := FreshNodes(1), true, 0, FreshShape(1);
        return Pass;
      }
      var lsize := CeilLog2(size);
      if lsize > MAXBITS {
        Pow2Mono(MAXBITS, lsize - 1);
        return Fail;
      }
      Pow2Mono(lsize, MAXBITS);
      var n := Pow2(lsize);
      FreshInv(hash, n);
      nodes, dummy, lastfree, g := FreshNodes(n), false, n, FreshShape(n);
      return Pass;
    }

    /** Re-inserting one entry: there is room for it, so nothing grows. */
    method Reinsert(k: Key, v: Value, ghost old1: Old, ghost p: set<Key>, ghost slack: int)
      requires Valid() && Halfway(old1, p, slack, arr, nodes, g, dummy) && k in p
      requires v == Lookup(old1.arr, old1.ns, old1.g, k)
      modifies this
      ensures Valid() && |arr| == |old(arr)| && Halfway(old1, p - {k}, slack, arr, nodes, g, dummy)
      decreases 0, 5
    {
      hide Inv, Lookup, FreeNodes;
      if !InArray(|arr|, k) { HalfwayRoom(old1, p, slack, arr, nodes, g, dummy, k); }
      ghost var a1, n1, g1, d1 := arr, nodes, g, dummy;
      var r := Put(k, v);
      HalfwayStep(old1, p, slack, a1, n1, g1, d1, k, v, arr, nodes, g, dummy);
    }

    /** resize: new sizes for both parts; every key keeps its value, and room is left as asked for. */
    method Resize(nasize: int, nhsize: int) returns (r: Outcome)
      requires Valid() && 0 <= nasize <= MAXASIZE && nhsize >= |HashBound(LiveKeys(arr, nodes), nasize)|
      modifies this
      ensures r.Fail? ==> nhsize > MAXASIZE
      ensures r.Pass? ==> Valid() && |arr| == nasize && SameLook(old(arr), old(nodes), old(g), arr, nodes, g)
      ensures r.Pass? && nhsize > |HashBound(LiveKeys(old(arr), old(nodes)), nasize)| ==> Room()
      decreases 1, 0
    {
      hide Inv, Lookup, FreeNodes, LiveKeys, HashBound, Halfway;
      var aold, nold := arr, nodes;
      ghost var o := Old(arr, nodes, g);
      ghost var slack := nhsize - |HashBound(LiveKeys(arr, nodes), nasize)|;
      ghost var lf := if dummy then 1 else lastfree;
      if nasize > |aold| { GrowArray(nasize); }
      r := NewNodes(nhsize);
      if r.Fail? { return; }
      if nasize < |aold| { arr := arr[..nasize]; }
      HalfwayStart(hash, o, lf, nasize, nhsize, arr, nodes, g, dummy);
      var i := nasize;
      ghost var p := Pending(o, nasize);
      while i < |aold|
        invariant nasize <= i && Valid() && |arr| == nasize && p == ArrayKeys(aold, i, |aold|) + NodeKeys(nold, |nold|)
        invariant Halfway(o, p, slack, arr, nodes, g, dummy)
      {
        PendingArray(hash, o, lf, i);
        if aold[i] != Nil {
          Reinsert(Int(i + 1), aold[i], o, p, slack);
          p := p - {Int(i + 1)};
        }
        i := i + 1;
      }
      PendingNodes(o, i);
      i := |nold|;
      while i > 0
        invariant 0 <= i <= |nold| && Valid() && |arr| == nasize && p == NodeKeys(nold, i)
        invariant Halfway(o, p, slack, arr, nodes, g, dummy)
      {
        i := i - 1;
        if nold[i].val != Nil {
          PendingNode(hash, o, lf, i);
          Reinsert(nold[i].key.k, nold[i].val, o, p, slack);
          p := p - {nold[i].key.k};
        } else {
          assert NodeKeys(nold, i) == NodeKeys(nold, i + 1);
        }
      }
      HalfwayEnd(o, p, slack, arr, nodes, g, dummy);
    }

    /** rehash: every key keeps its value; the array part has the best size for the keys with `ek`; and there is a
        place for `ek`. */
    method Rehash(ek: Key) returns (r: Outcome)
      requires Valid() && !Placed(ek)
      modifies this
      ensures r.Fail? ==> |LiveKeys(old(arr), old(nodes))| + 1 > MAXASIZE
      ensures r.Pass? ==> Valid() && SameLook(old(arr), old(nodes), old(g), arr, nodes, g) && Steps(ek) == 0
      ensures r.Pass? ==> Optimal(IntKeys(LiveKeys(old(arr), old(nodes)) + {ek}), |arr|)
      decreases 1, 1
    {
      hide Inv, Lookup, FreeNodes, Pow2, Counts, Optimal, LiveKeys, NodeKeys, IntKeys;
      ghost var keys := LiveKeys(arr, nodes) + {ek};
      var nums, nasize, s := NumUseArray();
      var totaluse := nasize;
      var nh, ah;
      ghost var s0 := s;
      nums, nh, ah, s := NumUseHash(nums, s);
      totaluse, nasize := totaluse + nh, nasize + ah;
      CountedKeys(hash, arr, nodes, if dummy then 1 else lastfree, g, ek, s);
      if ek.Int? && 0 < ek.i <= MAXASIZE {
        var c := CeilLog2(ek.i);
        Pow2Max();
        SliceApart(ek.i, MAXBITS, c);
        SlicesThere(s, nums);
        CountsAdd(s, nums, ek.i, c);
        nums := nums[c := nums[c] + 1];
        nasize := nasize + 1;
        s := s + {ek.i};
      }
      totaluse := totaluse + 1;
      assert s == IntKeys(keys) && nasize == |s| && totaluse == |keys|;
      var n, na := ComputeSizes(nums, nasize, s);
      assert 0 <= n by { OptimalSign(s, n); }
      SplitKeys(keys, n);
      BoundWithout(LiveKeys(arr, nodes), ek, n);
      r := Resize(n, totaluse - na);
      if r.Fail? { SubsetSize(HashBound(keys, n), keys); }
    }
  
    /** gafqH_resizearray, which OP_SETLIST calls to grow the array part. */
    method ResizeArray(nasize: int) returns (r: Outcome)
      requires Valid() && |arr| <= nasize <= MAXASIZE
      modifies this
      ensures r.Pass? ==> Valid() && |arr| == nasize && SameLook(old(arr), old(nodes), old(g), arr, nodes, g)
      ensures r.Fail? ==> |old(nodes)| > MAXASIZE
    {
      hide Inv, Lookup, LiveKeys, HashBound;
      GrownBound(arr, nodes, nasize);
      if dummy { DummyKeys(); }
      r := Resize(nasize, if dummy then 0 else |nodes|);
    }

    // -------------------------------------------------------------- the collector's part

    /** removeentry: an empty entry with a collectable key. */
    method RemoveEntry(i: int)
      requires Valid() && InRange(nodes, i) && nodes[i].val == Nil
      modifies this`nodes, this`g
      ensures Valid() && Quiet(old(At()), At()) && SameLook(arr, old(nodes), old(g), arr, nodes, g)
      ensures nodes[i].key.Live? ==> nodes[i].key == old(nodes[i].key) && !Collectable(nodes[i].key.k)
      ensures |nodes| == |old(nodes)| && forall j | 0 <= j < |nodes| && j != i :: nodes[j] == old(nodes)[j]
    {
      if nodes[i].key.Live? && nodes[i].key.k.Atom? && nodes[i].key.k.collectable {
        KillInv(hash, nodes, if dummy then 1 else lastfree, g, i);
        nodes, g := nodes[i := nodes[i].(key := Dead(nodes[i].key.k))], KillShape(g, nodes[i].key.k);
      }
    }

    /** Clearing or changing a field that is there, or clearing one once more. */
    method Assign(k: Key, v: Value)
      requires Valid() && Placed(k) && (Look(k) != Nil || v == Nil)
      modifies this
      ensures Valid() && Quiet(old(At()), At()) && Stored(old(arr), old(nodes), old(g), k, v, arr, nodes, g)
    {
      hide Inv;
      var r := Put(k, v);
      WrittenQuiet(old(At()), k, v, At());
    }

    // -------------------------------------------------------------- traversal

    /** findindex: -1 for nil; NONE - 1 stands for "invalid key to 'next'". */
    method FindIndex(first: bool, k: Key) returns (i: int)
      requires Valid()
      ensures first ==> i == -1
      ensures !first ==> if i == -2 then forall j :: !IndexOf(At(), k, j) else i >= 0 && IndexOf(At(), k, i) && i < Size(At())
    {
      if first { return -1; }
      if k.Int? && 1 <= k.i <= |arr| { return k.i - 1; }
      ghost var lf := if dummy then 1 else lastfree;
      i := Pos(hash, k, |nodes|);
      forall x | 0 <= x < |nodes| && HasKey(nodes, x, k)
        ensures SameChain(g, i, x) && g.rank[i] <= g.rank[x]
      {
        assert MainOk(hash, nodes, g, x);
      }
      while i != NONE
        invariant i == NONE || InRange(nodes, i)
        invariant forall x | 0 <= x < |nodes| && HasKey(nodes, x, k) :: i != NONE && SameChain(g, i, x) && g.rank[i] <= g.rank[x]
        decreases i != NONE, if i == NONE then 0 else |After(nodes, g, i)|
      {
        if nodes[i].key == Live(k) || (nodes[i].key == Dead(k) && Collectable(k)) { return i + |arr|; }
        forall x | 0 <= x < |nodes| && HasKey(nodes, x, k)
          ensures nodes[i].next != NONE && InRange(nodes, nodes[i].next) && SameChain(g, nodes[i].next, x)
          ensures g.rank[nodes[i].next] <= g.rank[x]
        {
          NextFinds(hash, nodes, lf, g, i, x);
        }
        if nodes[i].next != NONE { NextAfter(hash, nodes, lf, g, i); }
        i := nodes[i].next;
      }
      i := -2;
    }

    /** gafqH_next: the place, key and value of the next entry, or END or INVALID_KEY. */
    method Next(first: bool, k: Key) returns (i: int, key: Key, v: Value)
      requires Valid()
      ensures i >= -2 && NextGives(At(), first, k, i) && i < Size(At())
      ensures i >= 0 ==> v == ValueAt(At(), i) && (i >= |arr| ==> nodes[i - |arr|].key.Live?) && GivesKey(At(), i, key)
    {
      ghost var t := At();
      key, v := k, Nil;
      var from := FindIndex(first, k);
      if from == -2 { return -2, k, Nil; }
      i := from + 1;
      while i < |arr|
        invariant from < i && i <= Size(t) && 0 <= i && forall j | from < j < i && 0 <= j :: ValueAt(t, j) == Nil
      {
        if arr[i] != Nil {
          assert GoesOn(t, first, k, from) && FirstUsed(t, from, i);
          return i, Int(i + 1), arr[i];
        }
        i := i + 1;
      }
      while i < |arr| + |nodes|
        invariant from < i && |arr| <= i <= Size(t) && forall j | from < j < i && 0 <= j :: ValueAt(t, j) == Nil
      {
        if nodes[i - |arr|].val != Nil {
          assert UseOk(nodes, g, i - |arr|);
          assert t == At() && GoesOn(At(), first, k, from) && FirstUsed(At(), from, i);
          return i, nodes[i - |arr|].key.k, nodes[i - |arr|].val;
        }
        i := i + 1;
      }
      assert t == At() && GoesOn(At(), first, k, from) && NoneUsed(At(), from);
      i := -1;
    }

    // -------------------------------------------------------------- length

    /** A border: 0 and nothing at 1, or something at `n` and nothing at `n + 1`. */
    ghost predicate Border(n: int)
      reads this
    {
      n >= 0 && (n > 0 ==> Look(Int(n)) != Nil) && Look(Int(n + 1)) == Nil
    }

    /** unbound_search, from a present index or 0. */
    method UnboundSearch(start: int) returns (n: int)
      requires Valid() && 0 <= start <= MAXASIZE && (start > 0 ==> Look(Int(start)) != Nil)
      ensures Border(n)
    {
      hide Inv;
      var i := start;
      var j := start + 1;
      var v := Get(Int(j));
      while v != Nil
        invariant 0 <= i < j <= MAX_INT && (i > 0 ==> Look(Int(i)) != Nil) && v == Look(Int(j))
        decreases MAX_INT - j
      {
        i := j;
        j := j * 2;
        if j > MAX_INT {
          n := LinearSearch();
          return;
        }
        v := Get(Int(j));
      }
      while j - i > 1
        invariant 0 <= i < j && (i > 0 ==> Look(Int(i)) != Nil) && Look(Int(j)) == Nil
        decreases j - i
      {
        var m := (i + j) / 2;
        v := Get(Int(m));
        if v == Nil { j := m; } else { i := m; }
      }
      return i;
    }

    /** The linear search, for a table "built with bad purposes". */
    method LinearSearch() returns (n: int)
      requires Valid()
      ensures Border(n)
    {
      hide Inv, Lookup, LiveKeys;
      var i := 1;
      var v := Get(Int(i));
      while v != Nil
        invariant i >= 1 && v == Look(Int(i)) && forall j | 1 <= j < i :: Look(Int(j)) != Nil
        decreases |LiveKeys(arr, nodes)| + 1 - i
      {
        FewIntegers(hash, arr, nodes, if dummy then 1 else lastfree, g, i);
        i := i + 1;
        v := Get(Int(i));
      }
      return i - 1;
    }

    /** gafqH_getn. */
    method GetN() returns (n: int)
      requires Valid()
      ensures Border(n)
    {
      hide Inv;
      var j := |arr|;
      if j > 0 && arr[j - 1] == Nil {
        var i := 0;
        while j - i > 1
          invariant 0 <= i < j <= |arr| && (i > 0 ==> arr[i - 1] != Nil) && arr[j - 1] == Nil
        {
          var m := (i + j) / 2;
          if arr[m - 1] == Nil { j := m; } else { i := m; }
        }
        return i;
      }
      if dummy { return j; }
      n := UnboundSearch(j);
    }
  }

  const MAX_INT := 2147483645

  lemma GrownBound(arr: seq<Value>, ns: seq<Node>, nasize: int)
    requires |arr| <= nasize
    ensures |HashBound(LiveKeys(arr, ns), nasize)| <= |NodeKeys(ns, |ns|)| <= |ns|
  {
    assert HashBound(LiveKeys(arr, ns), nasize) <= NodeKeys(ns, |ns|);
    SubsetSize(HashBound(LiveKeys(arr, ns), nasize), NodeKeys(ns, |ns|));
    NodeKeysFew(ns, |ns|);
  }

  lemma {:induction false} NodeKeysFew(ns: seq<Node>, n: nat)
    requires n <= |ns|
    ensures |NodeKeys(ns, n)| <= n
  {
    if n > 0 {
      NodeKeysFew(ns, n - 1);
      var extra := if ns[n - 1].key.Live? && ns[n - 1].val != Nil then {ns[n - 1].key.k} else {};
      assert NodeKeys(ns, n) == NodeKeys(ns, n - 1) + extra;
    } else {
      assert NodeKeys(ns, 0) == {};
    }
  }

  lemma DummyKeys()
    ensures NodeKeys(FreshNodes(1), 1) == {}
  {}

  /** When 1..m have values, there are at least that many keys. */
  lemma FewIntegers(hash: Hash, arr: seq<Value>, ns: seq<Node>, lf: int, g: Shape, m: int)
    requires Inv(hash, ns, lf, g) && Apart(|arr|, g) && m >= 1
    requires forall j | 1 <= j <= m :: Lookup(arr, ns, g, Int(j)) != Nil
    ensures m <= |LiveKeys(arr, ns)|
  {
    hide Inv, Lookup, LiveKeys;
    forall j | 1 <= j <= m ensures Int(j) in LiveKeys(arr, ns) { LiveLookup(hash, arr, ns, lf, g, Int(j)); }
    IntsUpTo(m, LiveKeys(arr, ns));
  }

  lemma {:induction false} IntsUpTo(m: nat, s: set<Key>)
    requires forall j | 1 <= j <= m :: Int(j) in s
    ensures m <= |s|
    decreases m
  {
    if m > 0 { IntsUpTo(m - 1, s - {Int(m)}); }
  }

  /** Only the value of `k` was written, in place. */
  ghost predicate Written(a1: seq<Value>, n1: seq<Node>, g: Shape, k: Key, v: Value, a2: seq<Value>, n2: seq<Node>) {
    if InArray(|a1|, k) then a2 == a1[k.i - 1 := v] && n2 == n1
    else k in g.home && InRange(n1, g.home[k]) && a2 == a1 && n2 == n1[g.home[k] := n1[g.home[k]].(val := v)]
  }

  lemma WrittenQuiet(t: Snap, k: Key, v: Value, u: Snap)
    requires (Lookup(t.arr, t.ns, t.g, k) != Nil || v == Nil) && Written(t.arr, t.ns, t.g, k, v, u.arr, u.ns)
    requires u.g == t.g
    ensures Quiet(t, u)
  {}

  /** A table before its parts are replaced. */
  datatype Old = Old(arr: seq<Value>, ns: seq<Node>, g: Shape)

  /** All keys have the value they had, except those still to be inserted; there is room for these, and some more. */
  ghost predicate Halfway(o: Old, p: set<Key>, slack: int, arr: seq<Value>, ns: seq<Node>, g: Shape, dummy: bool) {
    (forall k :: Lookup(arr, ns, g, k) == if k in p then Nil else Lookup(o.arr, o.ns, o.g, k)) &&
    (if dummy then HashBound(p, |arr|) == {} && slack <= 0 else |FreeNodes(ns)| >= |HashBound(p, |arr|)| + slack) &&
    slack >= 0
  }

  lemma HalfwayRoom(o: Old, p: set<Key>, slack: int, arr: seq<Value>, ns: seq<Node>, g: Shape, dummy: bool, k: Key)
    requires Halfway(o, p, slack, arr, ns, g, dummy) && k in p && !InArray(|arr|, k)
    ensures !dummy && FreeNodes(ns) != {}
  {
    assert k in HashBound(p, |arr|);
  }

  lemma HalfwayStep(o: Old, p: set<Key>, slack: int, a1: seq<Value>, n1: seq<Node>, g1: Shape, d1: bool, k: Key, v: Value,
                    a2: seq<Value>, n2: seq<Node>, g2: Shape, d2: bool)
    requires Halfway(o, p, slack, a1, n1, g1, d1) && k in p && v == Lookup(o.arr, o.ns, o.g, k)
    requires Stored(a1, n1, g1, k, v, a2, n2, g2) && |a2| == |a1|
    requires if InArray(|a1|, k) then FreeNodes(n2) == FreeNodes(n1) && d2 == d1 else !d2 && |FreeNodes(n2)| >= |FreeNodes(n1)| - 1
    ensures Halfway(o, p - {k}, slack, a2, n2, g2, d2)
  {
    if InArray(|a1|, k) { assert HashBound(p - {k}, |a2|) == HashBound(p, |a1|); }
    else { assert HashBound(p - {k}, |a2|) == HashBound(p, |a1|) - {k}; }
  }

  /** The entries that resize inserts again. */
  ghost function Pending(o: Old, nasize: int): set<Key> { ArrayKeys(o.arr, nasize, |o.arr|) + NodeKeys(o.ns, |o.ns|) }

  lemma HalfwayStart(hash: Hash, o: Old, lf: int, nasize: int, nhsize: int, arr: seq<Value>, ns: seq<Node>, g: Shape,
                     dummy: bool)
    requires Inv(hash, o.ns, lf, o.g) && Apart(|o.arr|, o.g) && |arr| == nasize && g.home == map[]
    requires forall i | 0 <= i < nasize :: arr[i] == if i < |o.arr| then o.arr[i] else Nil
    requires dummy == (nhsize == 0) && |FreeNodes(ns)| >= nhsize >= |HashBound(LiveKeys(o.arr, o.ns), nasize)|
    ensures Halfway(o, Pending(o, nasize), nhsize - |HashBound(LiveKeys(o.arr, o.ns), nasize)|, arr, ns, g, dummy)
  {
    var p := Pending(o, nasize);
    assert HashBound(p, nasize) == HashBound(LiveKeys(o.arr, o.ns), nasize) by {
      forall k ensures k in HashBound(p, nasize) <==> k in HashBound(LiveKeys(o.arr, o.ns), nasize) {}
    }
    forall k ensures Lookup(arr, ns, g, k) == if k in p then Nil else Lookup(o.arr, o.ns, o.g, k) {
      StartLookup(hash, o, lf, nasize, arr, ns, g, k);
    }
  }

  lemma StartLookup(hash: Hash, o: Old, lf: int, nasize: int, arr: seq<Value>, ns: seq<Node>, g: Shape, k: Key)
    requires Inv(hash, o.ns, lf, o.g) && Apart(|o.arr|, o.g) && |arr| == nasize && g.home == map[]
    requires forall i | 0 <= i < nasize :: arr[i] == if i < |o.arr| then o.arr[i] else Nil
    ensures Lookup(arr, ns, g, k) == if k in Pending(o, nasize) then Nil else Lookup(o.arr, o.ns, o.g, k)
  {
    assert k in NodeKeys(o.ns, |o.ns|) ==> k in o.g.home;
    assert k in o.g.home && o.ns[o.g.home[k]].val != Nil ==> k in NodeKeys(o.ns, |o.ns|);
    if InArray(|o.arr|, k) { assert Used(o.arr, k.i) <==> o.arr[k.i - 1] != Nil; }
  }

  lemma HalfwayEnd(o: Old, p: set<Key>, slack: int, arr: seq<Value>, ns: seq<Node>, g: Shape, dummy: bool)
    requires Halfway(o, p, slack, arr, ns, g, dummy) && p == NodeKeys(o.ns, 0)
    ensures SameLook(o.arr, o.ns, o.g, arr, ns, g) && (slack > 0 ==> !dummy && FreeNodes(ns) != {})
  {
    hide Lookup;
    assert p == {};
  }

  lemma PendingArray(hash: Hash, o: Old, lf: int, i: int)
    requires Inv(hash, o.ns, lf, o.g) && Apart(|o.arr|, o.g) && 0 <= i < |o.arr|
    ensures var p := ArrayKeys(o.arr, i, |o.arr|) + NodeKeys(o.ns, |o.ns|);
            ArrayKeys(o.arr, i + 1, |o.arr|) + NodeKeys(o.ns, |o.ns|) == (if o.arr[i] != Nil then p - {Int(i + 1)} else p) &&
            (o.arr[i] != Nil ==> Int(i + 1) in p)
    ensures o.arr[i] == Lookup(o.arr, o.ns, o.g, Int(i + 1))
  {
    assert Used(o.arr, i + 1) <==> o.arr[i] != Nil;
    assert Int(i + 1) in NodeKeys(o.ns, |o.ns|) ==> Int(i + 1) in o.g.home;
    assert InArray(|o.arr|, Int(i + 1));
  }

  lemma PendingNodes(o: Old, i: int)
    requires i >= |o.arr|
    ensures ArrayKeys(o.arr, i, |o.arr|) + NodeKeys(o.ns, |o.ns|) == NodeKeys(o.ns, |o.ns|)
  {}

  lemma PendingNode(hash: Hash, o: Old, lf: int, i: int)
    requires Inv(hash, o.ns, lf, o.g) && Apart(|o.arr|, o.g) && 0 <= i < |o.ns| && o.ns[i].val != Nil
    ensures o.ns[i].key.Live? && o.ns[i].val == Lookup(o.arr, o.ns, o.g, o.ns[i].key.k)
    ensures o.ns[i].key.k in NodeKeys(o.ns, i + 1) && NodeKeys(o.ns, i) == NodeKeys(o.ns, i + 1) - {o.ns[i].key.k}
  {
    assert UseOk(o.ns, o.g, i);
    assert o.g.home[o.ns[i].key.k] == i;
  }

  lemma CountedKeys(hash: Hash, arr: seq<Value>, ns: seq<Node>, lf: int, g: Shape, ek: Key, s: set<int>)
    requires Inv(hash, ns, lf, g) && Apart(|arr|, g) && |arr| <= MAXASIZE && !InArray(|arr|, ek) && ek !in g.home
    requires s == UsedIn(arr, |arr|) + IntKeys(NodeKeys(ns, |ns|))
    ensures var keys := LiveKeys(arr, ns);
            IntKeys(keys + {ek}) == s + (if ek.Int? && 1 <= ek.i <= MAXASIZE then {ek.i} else {}) && ek !in keys &&
            (ek.Int? ==> ek.i !in s) &&
            |keys| == |UsedIn(arr, |arr|)| + |NodeKeys(ns, |ns|)| && |keys + {ek}| == |keys| + 1 &&
            Positive(IntKeys(keys + {ek}))
  {
    hide Inv, IntKeys, UsedIn, NodeKeys, ArrayKeys, Lookup;
    var a, b := ArrayKeys(arr, 0, |arr|), NodeKeys(ns, |ns|);
    LiveLookup(hash, arr, ns, lf, g, ek);
    assert ek !in LiveKeys(arr, ns) by { NoValue(arr, ns, g, ek); }
    ArraySide(arr);
    NodeSide(hash, arr, ns, lf, g);
    IntKeysUnion(a, b);
    IntKeysUnion(a + b, {ek});
    IntKeysOne(ek);
    if ek.Int? { NotCounted(a + b, ek); }
    assert |a + b| == |a| + |b|;
    PositiveInts(a + b + {ek});
  }

  lemma NoValue(arr: seq<Value>, ns: seq<Node>, g: Shape, k: Key)
    requires !InArray(|arr|, k) && k !in g.home
    ensures Lookup(arr, ns, g, k) == Nil
  {}

  lemma ArraySide(arr: seq<Value>)
    requires |arr| <= MAXASIZE
    ensures var a := ArrayKeys(arr, 0, |arr|); |a| == |UsedIn(arr, |arr|)| && IntKeys(a) == UsedIn(arr, |arr|)
  {
    var a, u := ArrayKeys(arr, 0, |arr|), UsedIn(arr, |arr|);
    IntImage(u);
    assert a == set i | i in u :: Int(i);
    forall i ensures i in IntKeys(a) <==> i in u { assert i in u ==> Int(i) in a; }
  }

  lemma NodeSide(hash: Hash, arr: seq<Value>, ns: seq<Node>, lf: int, g: Shape)
    requires Inv(hash, ns, lf, g) && Apart(|arr|, g)
    ensures ArrayKeys(arr, 0, |arr|) * NodeKeys(ns, |ns|) == {}
  {
    assert forall k | k in NodeKeys(ns, |ns|) :: k in g.home;
    assert forall k | k in ArrayKeys(arr, 0, |arr|) :: InArray(|arr|, k);
  }

  lemma IntKeysUnion(a: set<Key>, b: set<Key>)
    ensures IntKeys(a + b) == IntKeys(a) + IntKeys(b)
  {}

  lemma IntKeysOne(k: Key)
    ensures IntKeys({k}) == if k.Int? && 1 <= k.i <= MAXASIZE then {k.i} else {}
  {}

  lemma NotCounted(s: set<Key>, k: Key)
    requires k.Int? && k !in s
    ensures k.i !in IntKeys(s)
  {
    assert k == Int(k.i);
  }

  lemma PositiveInts(s: set<Key>)
    ensures Positive(IntKeys(s))
  {}

  lemma OptimalSign(s: set<int>, n: int)
    requires Optimal(s, n)
    ensures n >= 0
  {}

  lemma BoundWithout(s: set<Key>, ek: Key, n: int)
    requires ek !in s
    ensures |HashBound(s + {ek}, n)| == |HashBound(s, n)| + if InArray(n, ek) then 0 else 1
  {
    assert HashBound(s + {ek}, n) == HashBound(s, n) + if InArray(n, ek) then {} else {ek};
  }

  /** Storing `v` at `k` changes the value of `k` and of no other key. */
  ghost predicate Stored(a1: seq<Value>, n1: seq<Node>, g1: Shape, k: Key, v: Value, a2: seq<Value>, n2: seq<Node>,
                         g2: Shape) {
    forall x :: Lookup(a2, n2, g2, x) == if x == k then v else Lookup(a1, n1, g1, x)
  }

  lemma WriteStored(hash: Hash, arr: seq<Value>, ns: seq<Node>, lf: int, g: Shape, k: Key, v: Value)
    requires Inv(hash, ns, lf, g) && (InArray(|arr|, k) || k in g.home)
    ensures if InArray(|arr|, k) then Stored(arr, ns, g, k, v, arr[k.i - 1 := v], ns, g)
            else InRange(ns, g.home[k]) && var i := g.home[k];
              Stored(arr, ns, g, k, v, arr, ns[i := ns[i].(val := v)], g) &&
              Inv(hash, ns[i := ns[i].(val := v)], lf, g) &&
              FreeNodes(ns[i := ns[i].(val := v)]) == FreeNodes(ns)
  {
    if !InArray(|arr|, k) { WriteInv(hash, ns, lf, g, g.home[k], v); }
  }

  lemma StoredAfter(a0: seq<Value>, n0: seq<Node>, g0: Shape, a1: seq<Value>, n1: seq<Node>, g1: Shape, k: Key,
                    v: Value)
    requires SameLook(a0, n0, g0, a1, n1, g1)
    ensures forall a2, n2, g2 | Stored(a1, n1, g1, k, v, a2, n2, g2) :: Stored(a0, n0, g0, k, v, a2, n2, g2)
  {
    hide Lookup;
  }

  lemma SlicesThere(s: set<int>, nums: seq<int>)
    requires Counts(s, nums)
    ensures |nums| == MAXBITS + 1
  {}

  ghost function KeysFrom(ns: seq<Node>, from: int): set<Key> {
    set i | 0 <= i < |ns| && from <= i && ns[i].key.Live? && ns[i].val != Nil :: ns[i].key.k
  }

  lemma NoKeysFrom(ns: seq<Node>)
    ensures KeysFrom(ns, |ns|) == {} && IntKeys({}) == {}
  {}

  lemma AllKeysFrom(ns: seq<Node>)
    ensures KeysFrom(ns, 0) == NodeKeys(ns, |ns|)
  {}

  /** The key of the node before is a new one. */
  lemma KeysFromNext(hash: Hash, ns: seq<Node>, lf: int, g: Shape, i: int, size: int, s0: set<int>)
    requires Inv(hash, ns, lf, g) && Apart(size, g) && InRange(ns, i) && ns[i].val != Nil
    requires forall j | j in s0 :: 1 <= j <= size
    ensures ns[i].key.Live?
    ensures var k := ns[i].key.k;
            k !in KeysFrom(ns, i + 1) && KeysFrom(ns, i) == KeysFrom(ns, i + 1) + {k} &&
            IntKeys(KeysFrom(ns, i)) == IntKeys(KeysFrom(ns, i + 1)) + (if k.Int? && 1 <= k.i <= MAXASIZE then {k.i} else {}) &&
            (k.Int? ==> k.i !in s0 + IntKeys(KeysFrom(ns, i + 1)))
  {
    assert UseOk(ns, g, i);
    var k := ns[i].key.k;
    assert k in g.home && g.home[k] == i;
  }

  lemma Occupied(hash: Hash, ns: seq<Node>, lf: int, g: Shape, m: int)
    requires Inv(hash, ns, lf, g) && InRange(ns, m) && ns[m].val != Nil
    ensures ns[m].key.Live? && ns[m].key.k in g.home && |g.cid| == |ns| && |g.rank| == |ns| && LinkOk(ns, g, m)
  {
    assert UseOk(ns, g, m);
  }
}
