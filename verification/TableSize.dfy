/** The sizes that rehash (gtable.c) chooses, and the logarithm of gobject.c. */
module TableSize {
  import opened Sets

  const MAXBITS := 26

  /** 2^MAXBITS. */
  const MAXASIZE := 67108864

  function Pow2(n: nat): (p: nat)
    ensures p >= 1
  {
    if n == 0 then 1 else 2 * Pow2(n - 1)
  }

  lemma {:induction false} Pow2Mono(a: nat, b: nat)
    requires a <= b
    ensures Pow2(a) <= Pow2(b)
    decreases b
  {
    if a < b { Pow2Mono(a, b - 1); }
  }

  lemma Pow2Step(n: nat)
    ensures Pow2(n + 1) == 2 * Pow2(n)
  {}

  lemma {:induction false} Pow2Less(a: nat, b: nat)
    requires a < b
    ensures 2 * Pow2(a) <= Pow2(b)
  {
    Pow2Mono(a, b - 1);
  }

  lemma Pow2Max()
    ensures Pow2(MAXBITS) == MAXASIZE
  {
    assert Pow2(10) == 1024;
    assert Pow2(20) == 1024 * 1024;
  }

  lemma {:induction false} Pow2Shift(x: nat, l: nat)
    requires Pow2(l) <= x < Pow2(l + 1)
    ensures forall y | x == y / 256 :: Pow2(l + 8) <= y < Pow2(l + 9)
  {
    assert Pow2(l + 8) == 256 * Pow2(l) by {
      assert Pow2(l + 2) == 4 * Pow2(l);
      assert Pow2(l + 4) == 4 * Pow2(l + 2);
      assert Pow2(l + 6) == 4 * Pow2(l + 4);
      assert Pow2(l + 8) == 4 * Pow2(l + 6);
    }
  }

  /** The table log_2 of gafqO_log2. */
  function LogByte(x: int): (l: int)
    requires 0 <= x < 256
  {
    if x < 1 then 0 else if x < 2 then 1 else if x < 4 then 2 else if x < 8 then 3 else if x < 16 then 4
    else if x < 32 then 5 else if x < 64 then 6 else if x < 128 then 7 else 8
  }

  lemma LogByteOk(x: int)
    requires 1 <= x < 256
    ensures 1 <= LogByte(x) && Pow2(LogByte(x) - 1) <= x < Pow2(LogByte(x))
  {
    assert Pow2(2) == 4 && Pow2(3) == 8 && Pow2(4) == 16;
    assert Pow2(5) == 32 && Pow2(6) == 64 && Pow2(7) == 128 && Pow2(8) == 256;
  }

  /** gafqO_log2: the floor of the logarithm, -1 for 0. */
  method Log2(x: nat) returns (l: int)
    ensures x == 0 ==> l == -1
    ensures x > 0 ==> l >= 0 && Pow2(l) <= x < Pow2(l + 1)
  {
    l := -1;
    var y := x;
    ghost var steps := 0;
    while y >= 256
      invariant l == 8 * steps - 1 && steps >= 0 && y == Down(x, steps) && (x > 0 ==> y > 0) && y <= x
      invariant steps > 0 ==> x > 0
    {
      l := l + 8;
      y := y / 256;
      steps := steps + 1;
    }
    if y > 0 {
      LogByteOk(y);
      Up(x, steps, LogByte(y) - 1);
    }
    l := l + LogByte(y);
  }

  /** `x` after some shifts by eight bits. */
  function Down(x: nat, n: nat): nat { if n == 0 then x else Down(x, n - 1) / 256 }

  lemma {:induction false} Up(x: nat, n: nat, l: nat)
    requires Pow2(l) <= Down(x, n) < Pow2(l + 1)
    ensures Pow2(l + 8 * n) <= x < Pow2(l + 8 * n + 1)
    decreases n
  {
    if n > 0 {
      Pow2Shift(Down(x, n), l);
      Up(x, n - 1, l + 8);
    }
  }

  /** ceillog2. */
  method CeilLog2(x: nat) returns (l: nat)
    requires x >= 1
    ensures Below(l) < x <= Pow2(l)
  {
    var f := Log2(x - 1);
    l := f + 1;
  }

  /** Slice `l` of the integers is those above Below(l), up to 2^l. */
  function Below(l: nat): (b: nat)
    ensures b < Pow2(l)
  {
    if l == 0 then 0 else Pow2(l - 1)
  }

  lemma SliceUnique(x: nat, a: nat, b: nat)
    requires Below(a) < x <= Pow2(a) && Below(b) < x <= Pow2(b)
    ensures a == b
  {
    hide Below, Pow2;
    SliceApart(x, a, b);
    SliceApart(x, b, a);
  }

  lemma SliceApart(x: nat, a: nat, b: nat)
    requires x <= Pow2(a) && Below(b) < x
    ensures b <= a
  {
    hide Pow2;
    if a < b { Pow2Mono(a, b - 1); }
  }

  // ---------------------------------------------------------------- counting integer keys by slices

  ghost function Slice(s: set<int>, l: nat): set<int> { set j | j in s && Below(l) < j <= Pow2(l) }

  ghost function UpTo(s: set<int>, n: int): set<int> { set j | j in s && j <= n }

  ghost predicate Positive(s: set<int>) { forall j | j in s :: 1 <= j <= MAXASIZE }

  /** nums[i] is the number of keys between 2^(i-1) and 2^i. */
  ghost predicate Counts(s: set<int>, nums: seq<int>) {
    |nums| == MAXBITS + 1 && forall l: nat | l <= MAXBITS :: nums[l] == |Slice(s, l)|
  }

  lemma CountsNone(nums: seq<int>)
    requires |nums| == MAXBITS + 1 && forall l | 0 <= l <= MAXBITS :: nums[l] == 0
    ensures Counts({}, nums)
  {
    forall l: nat | l <= MAXBITS ensures |Slice({}, l)| == 0 { assert Slice({}, l) == {}; }
  }

  /** countint: one more key. */
  lemma CountsAdd(s: set<int>, nums: seq<int>, j: int, c: nat)
    requires Counts(s, nums) && j !in s && 1 <= j && c <= MAXBITS && Below(c) < j <= Pow2(c)
    ensures Counts(s + {j}, nums[c := nums[c] + 1])
  {
    forall l: nat | l <= MAXBITS ensures nums[c := nums[c] + 1][l] == |Slice(s + {j}, l)| {
      if l == c { assert Slice(s + {j}, l) == Slice(s, l) + {j}; }
      else {
        if Below(l) < j <= Pow2(l) { SliceUnique(j, l, c); }
        assert Slice(s + {j}, l) == Slice(s, l);
      }
    }
  }

  lemma UpToNext(s: set<int>, l: nat)
    requires Positive(s)
    ensures |UpTo(s, Pow2(l))| == (if l == 0 then 0 else |UpTo(s, Pow2(l - 1))|) + |Slice(s, l)|
  {
    if l == 0 { assert UpTo(s, Pow2(0)) == Slice(s, 0); }
    else {
      assert UpTo(s, Pow2(l)) == UpTo(s, Pow2(l - 1)) + Slice(s, l);
      assert UpTo(s, Pow2(l - 1)) * Slice(s, l) == {};
    }
  }

  /** There are at most `n` keys in 1..n. */
  lemma {:induction false} UpToBound(s: set<int>, n: nat)
    requires Positive(s)
    ensures |UpTo(s, n)| <= n
    decreases n
  {
    if n == 0 { assert UpTo(s, 0) == {}; }
    else {
      UpToBound(s, n - 1);
      assert UpTo(s, n) <= UpTo(s, n - 1) + {n};
      SubsetSize(UpTo(s, n), UpTo(s, n - 1) + {n});
    }
  }

  /** `n` is 0 or a power of two, more than half of 1..n is in use, and no larger power of two is like that. */
  ghost predicate Optimal(s: set<int>, n: int) {
    (n == 0 || (exists l: nat :: n == Pow2(l) && l <= MAXBITS)) && (n > 0 ==> |UpTo(s, n)| > n / 2) &&
    forall l: nat | Pow2(l) > n :: |UpTo(s, Pow2(l))| <= Pow2(l) / 2
  }

  /** What the loop of computesizes has found after slice `i - 1`. */
  ghost predicate OptimalSoFar(s: set<int>, n: int, i: nat) {
    (n == 0 || (exists l: nat :: n == Pow2(l) && l < i)) && (n > 0 ==> |UpTo(s, n)| > n / 2) &&
    forall l: nat | l < i && Pow2(l) > n :: |UpTo(s, Pow2(l))| <= Pow2(l) / 2
  }

  /** computesizes. */
  method ComputeSizes(nums: seq<int>, narray: int, ghost s: set<int>) returns (n: int, na: int)
    requires Positive(s) && Counts(s, nums) && narray == |s|
    ensures Optimal(s, n) && na == |UpTo(s, n)| && n <= MAXASIZE
  {
    hide Pow2, OptimalSoFar, Optimal, UpTo, Slice, Positive;
    var i, twotoi, a := 0, 1, 0;
    n, na := 0, 0;
    SoFarStart(s);
    var going := true;
    while going && twotoi / 2 < narray
      invariant 0 <= i && twotoi == Pow2(i) && OptimalSoFar(s, n, i) && na == |UpTo(s, n)|
      invariant a == CountBefore(s, i)
      invariant !going ==> i > 0 && a == narray
      decreases going, MAXBITS + 2 - i
    {
      InSlices(s, narray, i);
      UpToNext(s, i);
      ghost var a0, n0 := a, n;
      if nums[i] > 0 {
        a := a + nums[i];
        if a > twotoi / 2 { n, na := twotoi, a; }
      }
      SoFarStep(s, n0, n, i, a0, a);
      if a == narray { going := false; }
      Pow2Step(i);
      i, twotoi := i + 1, twotoi * 2;
    }
    Finish(s, n, i, a, narray);
  }

  /** The number of keys in the slices before `i`. */
  ghost function CountBefore(s: set<int>, i: nat): nat { if i == 0 then 0 else |UpTo(s, Pow2(i - 1))| }

  lemma SoFarStart(s: set<int>)
    requires Positive(s)
    ensures OptimalSoFar(s, 0, 0) && |UpTo(s, 0)| == 0 && Pow2(0) == 1
  {
    assert UpTo(s, 0) == {};
  }

  lemma SmallRange(s: set<int>)
    requires Positive(s)
    ensures |s| <= MAXASIZE
  {
    UpToBound(s, MAXASIZE);
    assert UpTo(s, MAXASIZE) == s;
  }

  lemma InSlices(s: set<int>, narray: int, i: nat)
    requires Positive(s) && narray == |s| && Pow2(i) / 2 < narray
    ensures i <= MAXBITS
  {
    SmallRange(s);
    Pow2Max();
    if i > MAXBITS { Pow2Less(MAXBITS, i); }
  }

  lemma SoFarStep(s: set<int>, n0: int, n: int, i: nat, a0: int, a: int)
    requires Positive(s) && OptimalSoFar(s, n0, i) && a == |UpTo(s, Pow2(i))| && a0 == CountBefore(s, i) <= a
    requires n == if a > a0 && a > Pow2(i) / 2 then Pow2(i) else n0
    ensures OptimalSoFar(s, n, i + 1)
  {
    hide Pow2, UpTo, Positive;
    if a > a0 && a > Pow2(i) / 2 {
      forall l: nat | l < i + 1 ensures Pow2(l) <= n { Pow2Mono(l, i); }
    } else {
      if i > 0 { UpToBound(s, Pow2(i - 1)); Pow2Step(i - 1); }
      else { ZeroHalf(s, a); }
      forall l: nat | l < i + 1 && Pow2(l) > n ensures |UpTo(s, Pow2(l))| <= Pow2(l) / 2 {
        if l == i && a == a0 && i > 0 { assert a <= Pow2(i) / 2; }
      }
    }
  }

  lemma ZeroHalf(s: set<int>, a: int)
    ensures a <= 0 ==> a <= Pow2(0) / 2
    ensures Pow2(0) == 1
  {}

  lemma Finish(s: set<int>, n: int, i: nat, a: int, narray: int)
    requires Positive(s) && OptimalSoFar(s, n, i) && narray == |s| && a == CountBefore(s, i)
    requires Pow2(i) / 2 >= narray || (i > 0 && a == narray)
    ensures Optimal(s, n) && n <= MAXASIZE
  {
    hide Pow2, UpTo, Positive;
    forall l: nat | Pow2(l) > n ensures |UpTo(s, Pow2(l))| <= Pow2(l) / 2 {
      if l >= i { FinishAt(s, i, a, l); }
    }
    if n > 0 {
      var l: nat :| n == Pow2(l) && l < i;
      FewSlices(s, l);
      Pow2Mono(l, MAXBITS);
      Pow2Max();
    }
  }

  lemma FinishAt(s: set<int>, i: nat, a: int, l: nat)
    requires Positive(s) && a == CountBefore(s, i) && l >= i && (Pow2(i) / 2 >= |s| || (i > 0 && a == |s|))
    ensures |UpTo(s, Pow2(l))| <= Pow2(l) / 2
  {
    hide Pow2;
    SubsetSize(UpTo(s, Pow2(l)), s);
    Pow2Mono(i, l);
    if i > 0 && a == |s| {
      UpToBound(s, Pow2(i - 1));
      Pow2Less(i - 1, l);
    }
  }

  lemma FewSlices(s: set<int>, l: nat)
    requires Positive(s) && |UpTo(s, Pow2(l))| > Pow2(l) / 2
    ensures l <= MAXBITS
  {
    hide Pow2;
    SubsetSize(UpTo(s, Pow2(l)), s);
    InSlices(s, |s|, l);
  }
}
