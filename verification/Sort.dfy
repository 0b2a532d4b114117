/** The quicksort of gtablib.c, on the array part of a table. */
module Sort {

  /** The values that are sorted. */
  type Elem(==, !new)

  type Less = (Elem, Elem) -> bool

  predicate Le(lt: Less, x: Elem, y: Elem) { !lt(y, x) }

  /** `lt` is a strict weak order on the elements of `m`. */
  ghost predicate Order(lt: Less, m: multiset<Elem>) {
    (forall x, y | x in m && y in m :: lt(x, y) ==> Le(lt, x, y)) &&
    (forall x | x in m :: Le(lt, x, x)) &&
    forall x, y, z | x in m && y in m && z in m && Le(lt, x, y) && Le(lt, y, z) :: Le(lt, x, z)
  }

  // ---------------------------------------------------------------- permutations of a part

  /** `t` is `s` with the elements from `l` to `u` in another order. */
  ghost predicate Perm(s: seq<Elem>, t: seq<Elem>, l: int, u: int) {
    |s| == |t| && 0 <= l && u < |s| && (forall i | 0 <= i < |s| && (i < l || i > u) :: t[i] == s[i]) &&
    (l <= u ==> multiset(s[l..u + 1]) == multiset(t[l..u + 1])) && multiset(s) == multiset(t)
  }

  lemma PermRefl(s: seq<Elem>, l: int, u: int)
    requires 0 <= l && u < |s|
    ensures Perm(s, s, l, u)
  {}

  lemma PermTrans(s: seq<Elem>, t: seq<Elem>, r: seq<Elem>, l: int, u: int)
    requires Perm(s, t, l, u) && Perm(t, r, l, u)
    ensures Perm(s, r, l, u)
  {}

  /** Every element of the part comes from the part. */
  lemma PermFrom(s: seq<Elem>, t: seq<Elem>, l: int, u: int, i: int) returns (j: int)
    requires Perm(s, t, l, u) && l <= i <= u
    ensures l <= j <= u && t[i] == s[j]
  {
    assert t[l..u + 1][i - l] == t[i];
    assert t[i] in multiset(t[l..u + 1]);
    assert t[i] in s[l..u + 1];
    j :| l <= j <= u && s[j] == t[i];
  }

  lemma PermWider(s: seq<Elem>, t: seq<Elem>, l: int, u: int, l2: int, u2: int)
    requires Perm(s, t, l, u) && 0 <= l2 <= l && u <= u2 < |s| && l2 <= u2 && l <= u
    ensures Perm(s, t, l2, u2)
  {
    assert s[l2..u2 + 1] == s[l2..l] + s[l..u + 1] + s[u + 1..u2 + 1];
    assert t[l2..u2 + 1] == t[l2..l] + t[l..u + 1] + t[u + 1..u2 + 1];
    assert s[l2..l] == t[l2..l] && s[u + 1..u2 + 1] == t[u + 1..u2 + 1];
  }

  function Swapped(s: seq<Elem>, i: int, j: int): seq<Elem>
    requires 0 <= i < |s| && 0 <= j < |s|
  {
    s[i := s[j]][j := s[i]]
  }

  lemma SwapPerm(s: seq<Elem>, i: int, j: int, l: int, u: int)
    requires 0 <= l <= i <= u < |s| && l <= j <= u
    ensures Perm(s, Swapped(s, i, j), l, u)
  {
    var t := Swapped(s, i, j);
    var p, q := s[l..u + 1], t[l..u + 1];
    assert q == p[i - l := p[j - l]][j - l := p[i - l]];
  }

  // ---------------------------------------------------------------- order of a part

  /** From `lo` to `hi`, all is in order but for pairs inside `l` to `u`. */
  ghost predicate Settled(lt: Less, s: seq<Elem>, lo: int, hi: int, l: int, u: int) {
    0 <= lo && hi < |s| && forall p, q | lo <= p < q <= hi && (p < l || q > u) :: Le(lt, s[p], s[q])
  }

  lemma SettledPerm(lt: Less, s: seq<Elem>, t: seq<Elem>, lo: int, hi: int, l: int, u: int)
    requires Settled(lt, s, lo, hi, l, u) && Perm(s, t, l, u) && lo <= l && u <= hi
    ensures Settled(lt, t, lo, hi, l, u)
  {
    forall p, q | lo <= p < q <= hi && (p < l || q > u) ensures Le(lt, t[p], t[q]) {
      if l <= p <= u { var p2 := PermFrom(s, t, l, u, p); assert Le(lt, s[p2], s[q]); }
      else if l <= q <= u { var q2 := PermFrom(s, t, l, u, q); assert Le(lt, s[p], s[q2]); }
    }
  }

  /** The part is split at `i`: smaller elements before, larger ones after. */
  ghost predicate Split(lt: Less, s: seq<Elem>, l: int, u: int, i: int) {
    0 <= l <= i <= u < |s| && (forall p | l <= p < i :: Le(lt, s[p], s[i])) &&
    forall q | i < q <= u :: Le(lt, s[i], s[q])
  }

  ghost predicate Sorted(lt: Less, s: seq<Elem>, l: int, u: int) {
    0 <= l && u < |s| && forall p, q | l <= p < q <= u :: Le(lt, s[p], s[q])
  }

  /** Sorting one side of a split leaves the split. */
  lemma SplitPerm(lt: Less, s: seq<Elem>, t: seq<Elem>, l: int, u: int, i: int, a: int, b: int)
    requires Split(lt, s, l, u, i) && Perm(s, t, a, b) && ((l <= a && b < i) || (i < a && b <= u))
    ensures Split(lt, t, l, u, i)
  {
    forall p | l <= p < i ensures Le(lt, t[p], t[i]) { if a <= p <= b { var p2 := PermFrom(s, t, a, b, p); } }
    forall q | i < q <= u ensures Le(lt, t[i], t[q]) { if a <= q <= b { var q2 := PermFrom(s, t, a, b, q); } }
  }

  /** With one side sorted, only the other side is left. */
  lemma SettledSide(lt: Less, s: seq<Elem>, lo: int, hi: int, l: int, u: int, i: int, left: bool)
    requires Order(lt, multiset(s)) && Settled(lt, s, lo, hi, l, u) && Split(lt, s, l, u, i) && lo <= l && u <= hi
    requires if left then Sorted(lt, s, l, i - 1) else Sorted(lt, s, i + 1, u)
    ensures if left then Settled(lt, s, lo, hi, i + 1, u) else Settled(lt, s, lo, hi, l, i - 1)
  {
    forall p, q | lo <= p < q <= hi && (if left then p < i + 1 || q > u else p < l || q > i - 1) ensures Le(lt, s[p], s[q]) {
      if l <= p && q <= u && p < i < q {
        assert s[p] in multiset(s) && s[i] in multiset(s) && s[q] in multiset(s);
        assert Le(lt, s[p], s[i]) && Le(lt, s[i], s[q]);
      }
    }
  }

  // ---------------------------------------------------------------- the methods

  /** set2 on two values just read: they change places. */
  method Swap(a: array<Elem>, i: int, j: int, ghost l: int, ghost u: int)
    requires 0 <= l <= i <= u < a.Length && l <= j <= u
    modifies a
    ensures a[..] == Swapped(old(a[..]), i, j) && Perm(old(a[..]), a[..], l, u)
    ensures a[i] == old(a[j]) && a[j] == old(a[i])
    ensures forall k | 0 <= k < a.Length && k != i && k != j :: a[k] == old(a[k])
  {
    SwapPerm(a[..], i, j, l, u);
    a[i], a[j] := a[j], a[i];
  }

  /** Sort a[l], a[i] and a[u], as the body of the loop begins; with two elements only the ends. */
  method SortThree(a: array<Elem>, l: int, u: int, lt: Less) returns (i: int)
    requires 0 <= l < u < a.Length && Order(lt, multiset(a[..]))
    modifies a
    ensures Perm(old(a[..]), a[..], l, u) && Le(lt, a[l], a[u]) && l <= i <= u
    ensures u - l > 1 ==> l < i < u && Le(lt, a[l], a[i]) && Le(lt, a[i], a[u])
  {
    hide Perm, Swapped, Order;
    ghost var s := a[..];
    PermRefl(s, l, u);
    OrderPair(lt, s, l, u);
    if lt(a[u], a[l]) { Swap(a, l, u, l, u); }
    if u - l == 1 { return l; }
    i := (l + u) / 2;
    ghost var t := a[..];
    OrderPermed(lt, s, t, l, u);
    OrderPair(lt, t, i, l);
    OrderPair(lt, t, i, u);
    OrderTrans(lt, t, i, l, u);
    if lt(a[i], a[l]) {
      Swap(a, i, l, l, u);
      PermTrans(s, t, a[..], l, u);
    } else if lt(a[u], a[i]) {
      Swap(a, i, u, l, u);
      PermTrans(s, t, a[..], l, u);
    }
  }

  lemma OrderPair(lt: Less, s: seq<Elem>, i: int, j: int)
    requires Order(lt, multiset(s)) && 0 <= i < |s| && 0 <= j < |s|
    ensures lt(s[i], s[j]) ==> Le(lt, s[i], s[j])
    ensures lt(s[j], s[i]) ==> Le(lt, s[j], s[i])
    ensures Le(lt, s[i], s[i])
  {
    InAll(s, i);
    InAll(s, j);
  }

  lemma OrderTrans(lt: Less, s: seq<Elem>, i: int, j: int, k: int)
    requires Order(lt, multiset(s)) && 0 <= i < |s| && 0 <= j < |s| && 0 <= k < |s|
    ensures Le(lt, s[i], s[j]) && Le(lt, s[j], s[k]) ==> Le(lt, s[i], s[k])
  {
    InAll(s, i);
    InAll(s, j);
    InAll(s, k);
  }

  lemma OrderPermed(lt: Less, s: seq<Elem>, t: seq<Elem>, l: int, u: int)
    requires Order(lt, multiset(s)) && Perm(s, t, l, u)
    ensures Order(lt, multiset(t))
  {}

  lemma InAll(s: seq<Elem>, i: int)
    requires 0 <= i < |s|
    ensures s[i] in multiset(s)
  {}

  /** What holds while partitioning: a[l..i] <= p <= a[j..u]. */
  ghost predicate Scanning(lt: Less, s: seq<Elem>, l: int, u: int, i: int, j: int, p: Elem) {
    0 <= l <= i <= u && 0 <= j <= u - 1 && u < |s| && p in multiset(s) && s[u - 1] == p &&
    (forall k | l <= k <= i :: Le(lt, s[k], p)) && forall k | j <= k <= u :: Le(lt, p, s[k])
  }

  /** repeat ++i until a[i] >= p. */
  method ScanUp(a: array<Elem>, l: int, u: int, i0: int, j: int, p: Elem, lt: Less) returns (i: int, bad: bool)
    requires u < a.Length && Order(lt, multiset(a[..])) && Scanning(lt, a[..], l, u, i0, j, p) && i0 < u - 1
    ensures !bad && i0 < i <= u - 1 && Le(lt, p, a[i]) && forall k | l <= k < i :: Le(lt, a[k], p)
  {
    i, bad := i0 + 1, false;
    while lt(a[i], p)
      invariant i0 < i <= u - 1 && forall k | l <= k < i :: Le(lt, a[k], p)
      decreases u - i
    {
      if i > u { return i, true; }
      InAll(a[..], i);
      i := i + 1;
    }
  }

  /** repeat --j until a[j] <= p. */
  method ScanDown(a: array<Elem>, l: int, u: int, i: int, j0: int, p: Elem, lt: Less) returns (j: int, bad: bool)
    requires u < a.Length && Order(lt, multiset(a[..])) && Scanning(lt, a[..], l, u, i, j0, p) && l < j0
    ensures !bad && l <= j < j0 && Le(lt, a[j], p) && forall k | j < k <= u :: Le(lt, p, a[k])
  {
    j, bad := j0 - 1, false;
    assert forall k | j0 <= k <= u :: a[k] == a[..][k];
    while lt(p, a[j])
      invariant l <= j < j0 && forall k | j < k <= u :: Le(lt, p, a[k])
      decreases j
    {
      if j < l { return j, true; }
      InAll(a[..], j);
      assert a[..][l] == a[l];
      j := j - 1;
    }
  }

  /** The scans have met: a[l..i-1] <= p <= a[i..u]. */
  ghost predicate Met(lt: Less, s: seq<Elem>, l: int, u: int, i: int, p: Elem) {
    0 <= l < i <= u - 1 && u < |s| && s[u - 1] == p && (forall k | l <= k < i :: Le(lt, s[k], p)) &&
    forall k | i <= k <= u :: Le(lt, p, s[k])
  }

  /** The loop that partitions around `p`, which is at u - 1. */
  method Scan(a: array<Elem>, l: int, u: int, p: Elem, lt: Less) returns (i: int, bad: bool)
    requires 0 <= l < u - 2 && u < a.Length && Order(lt, multiset(a[..])) && Scanning(lt, a[..], l, u, l, u - 1, p)
    modifies a
    ensures Perm(old(a[..]), a[..], l, u) && !bad && Met(lt, a[..], l, u, i, p)
  {
    hide Perm, Swapped, Order, Scanning;
    ghost var s := a[..];
    PermRefl(s, l, u);
    i, bad := l, false;
    var j := u - 1;
    while true
      invariant l <= i <= j && i < u - 1 && l < j <= u - 1 && !bad
      invariant Perm(s, a[..], l, u) && Order(lt, multiset(a[..])) && Scanning(lt, a[..], l, u, i, j, p)
      decreases u - i
    {
      ghost var t := a[..];
      var i1, j1;
      i1, bad := ScanUp(a, l, u, i, j, p, lt);
      if bad { return; }
      j1, bad := ScanDown(a, l, u, i, j, p, lt);
      if bad { return; }
      ScanFacts(lt, t, l, u, i, j, p);
      i, j := i1, j1;
      if j < i { break; }
      Swap(a, i, j, l, u);
      PermTrans(s, t, a[..], l, u);
      OrderPermed(lt, s, a[..], l, u);
      SameElems(t, a[..], l, u);
      ScanSwapped(lt, t, a[..], l, u, i, j, p);
    }
  }

  lemma ScanFacts(lt: Less, s: seq<Elem>, l: int, u: int, i: int, j: int, p: Elem)
    requires Scanning(lt, s, l, u, i, j, p)
    ensures 0 <= u - 1 < |s| && s[u - 1] == p && p in multiset(s)
  {}

  /** Partition: the pivot, the median of three, ends at `i`. */
  method Partition(a: array<Elem>, l: int, u: int, mid: int, lt: Less) returns (i: int, bad: bool)
    requires 0 <= l < mid < u < a.Length && u - l > 2 && Order(lt, multiset(a[..])) && Le(lt, a[l], a[mid])
    requires Le(lt, a[mid], a[u])
    modifies a
    ensures Perm(old(a[..]), a[..], l, u) && !bad && l < i < u && Split(lt, a[..], l, u, i)
  {
    hide Perm, Swapped, Order;
    ghost var s := a[..];
    OrderPair(lt, s, mid, mid);
    InAll(s, mid);
    var p := a[mid];
    Swap(a, mid, u - 1, l, u);
    ghost var t := a[..];
    OrderPermed(lt, s, t, l, u);
    SameElems(s, t, l, u);
    i, bad := Scan(a, l, u, p, lt);
    if bad { return; }
    ghost var r := a[..];
    Swap(a, u - 1, i, l, u);
    PermTrans(s, t, r, l, u);
    PermTrans(s, r, a[..], l, u);
  }

  lemma SameElems(s: seq<Elem>, t: seq<Elem>, l: int, u: int)
    requires Perm(s, t, l, u)
    ensures multiset(s) == multiset(t)
  {}

  lemma ScanSwapped(lt: Less, t: seq<Elem>, s: seq<Elem>, l: int, u: int, i: int, j: int, p: Elem)
    requires 0 <= l < i <= j < u - 1 && u < |t| && multiset(t) == multiset(s) && p in multiset(t) && t[u - 1] == p
    requires s == Swapped(t, i, j) && Le(lt, p, t[i]) && Le(lt, t[j], p)
    requires (forall k | l <= k < i :: Le(lt, t[k], p)) && forall k | j < k <= u :: Le(lt, p, t[k])
    ensures Scanning(lt, s, l, u, i, j, p)
  {}

  function Pow2(n: nat): nat { if n == 0 then 1 else 2 * Pow2(n - 1) }

  /** Permuting a part, which may be empty, permutes all that was permuted before. */
  lemma PermNext(s0: seq<Elem>, s: seq<Elem>, t: seq<Elem>, l0: int, u0: int, l: int, u: int)
    requires Perm(s0, s, l0, u0) && Perm(s, t, l, u) && l0 <= l && u <= u0 && l0 <= u0
    ensures Perm(s0, t, l0, u0)
  {
    if l <= u { PermWider(s, t, l, u, l0, u0); }
    else { assert s == t; }
    PermTrans(s0, s, t, l0, u0);
  }

  /** Two or three elements are in order once the ends and the middle are. */
  lemma SmallSorted(lt: Less, s: seq<Elem>, lo: int, hi: int, l: int, u: int)
    requires Settled(lt, s, lo, hi, l, u) && lo <= l < u <= hi && u - l <= 2 && Le(lt, s[l], s[u])
    requires u - l == 2 ==> Le(lt, s[l], s[l + 1]) && Le(lt, s[l + 1], s[u])
    ensures Sorted(lt, s, lo, hi)
  {}

  /** Sorting the smaller side of a split. */
  lemma SideSorted(lt: Less, s: seq<Elem>, t: seq<Elem>, lo: int, hi: int, l: int, u: int, i: int, left: bool)
    requires Order(lt, multiset(s)) && Settled(lt, s, lo, hi, l, u) && Split(lt, s, l, u, i) && lo <= l && u <= hi
    requires l < i < u
    requires if left then Perm(s, t, l, i - 1) && Sorted(lt, t, l, i - 1) else Perm(s, t, i + 1, u) && Sorted(lt, t, i + 1, u)
    ensures if left then Settled(lt, t, lo, hi, i + 1, u) else Settled(lt, t, lo, hi, l, i - 1)
  {
    hide Perm, Order;
    var a, b := if left then l else i + 1, if left then i - 1 else u;
    SplitPerm(lt, s, t, l, u, i, a, b);
    assert Perm(s, t, l, u) by { PermWider(s, t, a, b, l, u); }
    SettledPerm(lt, s, t, lo, hi, l, u);
    OrderPermed(lt, s, t, l, u);
    SettledSide(lt, t, lo, hi, l, u, i, left);
  }

  /** What the loop of auxsort keeps. */
  ghost predicate Going(lt: Less, s0: seq<Elem>, s: seq<Elem>, l0: int, u0: int, l: int, u: int) {
    l0 <= l && u <= u0 && Perm(s0, s, l0, u0) && Order(lt, multiset(s)) && Settled(lt, s, l0, u0, l, u)
  }

  lemma GoingPerm(lt: Less, s0: seq<Elem>, s: seq<Elem>, t: seq<Elem>, l0: int, u0: int, l: int, u: int)
    requires Going(lt, s0, s, l0, u0, l, u) && Perm(s, t, l, u) && l < u
    ensures Going(lt, s0, t, l0, u0, l, u)
  {
    hide Perm, Order, Settled;
    PermNext(s0, s, t, l0, u0, l, u);
    SettledPerm(lt, s, t, l0, u0, l, u);
    OrderPermed(lt, s, t, l, u);
  }

  lemma GoingSide(lt: Less, s0: seq<Elem>, s: seq<Elem>, t: seq<Elem>, l0: int, u0: int, l: int, u: int, i: int,
                  left: bool)
    requires Going(lt, s0, s, l0, u0, l, u) && Split(lt, s, l, u, i) && l < i < u
    requires if left then Perm(s, t, l, i - 1) && Sorted(lt, t, l, i - 1) else Perm(s, t, i + 1, u) && Sorted(lt, t, i + 1, u)
    ensures if left then Going(lt, s0, t, l0, u0, i + 1, u) else Going(lt, s0, t, l0, u0, l, i - 1)
  {
    hide Perm, Order, Settled, Split;
    var a, b := if left then l else i + 1, if left then i - 1 else u;
    PermNext(s0, s, t, l0, u0, a, b);
    OrderPermed(lt, s, t, a, b);
    SideSorted(lt, s, t, l0, u0, l, u, i, left);
  }

  /** The smaller half of four or more elements needs one level less. */
  lemma HalfDepth(n: int, part: int, d: nat)
    requires 4 <= n < Pow2(d + 1) && 2 * part < n
    ensures d >= 1 && part < Pow2(d)
  {
    assert Pow2(1) == 2;
  }

  /** auxsort: for every strict weak order on the elements, the part from `l0` to `u0` ends up a sorted permutation of
      itself, no error is raised, and the recursion is at most `d` deep when the part has less than 2^(d+1) elements. */
  method AuxSort(a: array<Elem>, l0: int, u0: int, lt: Less, ghost d: nat) returns (bad: bool)
    requires 0 <= l0 && u0 < a.Length && Order(lt, multiset(a[..])) && u0 - l0 + 1 < Pow2(d + 1)
    modifies a
    ensures !bad && Sorted(lt, a[..], l0, u0) && Perm(old(a[..]), a[..], l0, u0)
    decreases d
  {
    hide Perm, Order, Split, Settled, Swapped, Pow2, Sorted;
    var l, u := l0, u0;
    ghost var s0 := a[..];
    PermRefl(s0, l0, u0);
    SettledStart(lt, s0, l0, u0);
    bad := false;
    while l < u
      invariant l0 <= l && u <= u0 && !bad && Going(lt, s0, a[..], l0, u0, l, u)
      decreases u - l
    {
      ghost var s := a[..];
      var i := SortThree(a, l, u, lt);
      ghost var t := a[..];
      GoingPerm(lt, s0, s, t, l0, u0, l, u);
      if u - l <= 2 {
        SmallSorted(lt, t, l0, u0, l, u);
        return;
      }
      i, bad := Partition(a, l, u, i, lt);
      if bad { return; }
      ghost var r := a[..];
      GoingPerm(lt, s0, t, r, l0, u0, l, u);
      OrderOf(lt, s0, r, l0, u0, l, u);
      HalfDepth(u0 - l0 + 1, if i - l < u - i then i - l else u - i, d);
      if i - l < u - i {
        bad := AuxSort(a, l, i - 1, lt, d - 1);
        if bad { return; }
        GoingSide(lt, s0, r, a[..], l0, u0, l, u, i, true);
        l := i + 1;
      } else {
        bad := AuxSort(a, i + 1, u, lt, d - 1);
        if bad { return; }
        GoingSide(lt, s0, r, a[..], l0, u0, l, u, i, false);
        u := i - 1;
      }
    }
    SettledEnd(lt, a[..], l0, u0, l, u);
  }

  lemma OrderOf(lt: Less, s0: seq<Elem>, s: seq<Elem>, l0: int, u0: int, l: int, u: int)
    requires Going(lt, s0, s, l0, u0, l, u)
    ensures Order(lt, multiset(s))
  {}

  lemma SettledStart(lt: Less, s: seq<Elem>, l: int, u: int)
    requires 0 <= l && u < |s|
    ensures Settled(lt, s, l, u, l, u)
  {}

  lemma SettledEnd(lt: Less, s: seq<Elem>, lo: int, hi: int, l: int, u: int)
    requires Settled(lt, s, lo, hi, l, u) && l >= u
    ensures Sorted(lt, s, lo, hi)
  {}

  /** The depth that n elements need: the floor of the logarithm of n. */
  function Depth(n: nat): (d: nat)
    ensures n < Pow2(d + 1) && (n > 0 ==> Pow2(d) <= n)
  {
    if n <= 1 then assert Pow2(1) == 2; 0 else 1 + Depth(n / 2)
  }

  /** sort: a sorted permutation, without an error, for every strict weak order on the elements. */
  method SortAll(a: array<Elem>, lt: Less) returns (bad: bool)
    requires Order(lt, multiset(a[..]))
    modifies a
    ensures !bad && multiset(a[..]) == multiset(old(a[..]))
    ensures forall i, j | 0 <= i < j < a.Length :: !lt(a[j], a[i])
  {
    bad := AuxSort(a, 0, a.Length - 1, lt, Depth(a.Length));
    assert forall i, j | 0 <= i < j < a.Length :: Le(lt, a[..][i], a[..][j]);
  }
}
