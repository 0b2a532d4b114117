/** Reading a precompiled chunk from buffered input, as gundump.c does. */
module LoadMachine {
  import opened CheckCode
  import opened Dump
  import opened DumpProof
  import opened Zio

  /** What a method has read is what the function reads from the bytes that were left; None is an error raised. */
  predicate Reads<T(==)>(r: Option<T>, g: Got<T>, left: Bytes) { if r.None? then g.Bad? else g == Got(r.v, left) }

  /** What was read before, and then `g`. */
  function Join<T>(acc: seq<T>, g: Got<seq<T>>): Got<seq<T>> { if g.Bad? then Bad else Got(acc + g.v, g.rest) }

  lemma JoinStart<T>(g: Got<seq<T>>)
    ensures Join([], g) == g
  {
    if g.Got? { assert [] + g.v == g.v; }
  }

  lemma JoinEnd<T>(acc: seq<T>, rest: Bytes)
    ensures Join(acc, Got([], rest)) == Got(acc, rest)
  {
    assert acc + [] == acc;
  }

  lemma JoinNext<T>(acc: seq<T>, x: T, g: Got<seq<T>>)
    ensures Join(acc, Join([x], g)) == Join(acc + [x], g)
  {
    if g.Got? { assert acc + ([x] + g.v) == acc + [x] + g.v; }
  }

  /** The words in a block of bytes. */
  function WordsIn(b: Bytes): seq<Word>
    requires |b| % 4 == 0
  {
    if b == [] then [] else
    assert Dec(b[..4]) < INT_RANGE by { Pow256Four(); }
    [Dec(b[..4]) as Word] + WordsIn(b[4..])
  }

  function IntsIn(b: Bytes): seq<int>
    requires |b| % 4 == 0
  {
    if b == [] then [] else [Signed(Dec(b[..4]))] + IntsIn(b[4..])
  }

  lemma {:induction false} BlockWords(b: Bytes, n: nat)
    ensures LoadWords(b, n) == if |b| < 4 * n then Bad else Got(WordsIn(b[..4 * n]), b[4 * n..])
    decreases n
  {
    hide Dec;
    if n == 0 { assert b[0..] == b; }
    else if |b| >= 4 {
      BlockWords(b[4..], n - 1);
      if |b| >= 4 * n {
        assert b[..4 * n][..4] == b[..4] && b[..4 * n][4..] == b[4..][..4 * (n - 1)];
        assert b[4..][4 * (n - 1)..] == b[4 * n..];
      }
    }
  }

  lemma {:induction false} BlockInts(b: Bytes, n: nat)
    ensures LoadInts(b, n) == if |b| < 4 * n then Bad else Got(IntsIn(b[..4 * n]), b[4 * n..])
    decreases n
  {
    hide Dec;
    if n == 0 { assert b[0..] == b; }
    else if |b| >= 4 {
      BlockInts(b[4..], n - 1);
      if |b| >= 4 * n {
        assert b[..4 * n][..4] == b[..4] && b[..4 * n][4..] == b[4..][..4 * (n - 1)];
        assert b[4..][4 * (n - 1)..] == b[4 * n..];
      }
    }
  }

  /** LoadState. */
  class LoadState {
    const z: ZIO
    /** How many C calls are active, and how many may be. */
    var calls: int
    const limit: int

    constructor (z: ZIO, limit: int)
      requires limit >= 0
      ensures this.z == z && this.limit == limit && calls == 0
    {
      this.z, this.limit, calls := z, limit, 0;
    }

    /** LoadBlock: "unexpected end" when bytes are missing. */
    method Block(n: nat) returns (r: Option<Bytes>)
      modifies z
      ensures Reads(r, LoadBlock(old(z.Left()), n), z.Left())
    {
      var b, missing := z.Read(n);
      return if missing != 0 then None else Some(b);
    }

    /** LoadInt. */
    method Integer() returns (r: Option<nat>)
      modifies z
      ensures Reads(r, LoadInt(old(z.Left())), z.Left())
    {
      var b := Block(4);
      if b.None? { return None; }
      var x := Signed(Dec(b.v));
      return if x < 0 then None else Some(x);
    }

    /** LoadString. */
    method String() returns (r: Option<Option<Bytes>>)
      modifies z
      ensures Reads(r, LoadString(old(z.Left())), z.Left())
    {
      hide Dec;
      ghost var all := z.Left();
      var b := Block(8);
      if b.None? { return None; }
      var size := Dec(b.v);
      if size == 0 { return Some(None); }
      var s := Block(size);
      if s.None? { return None; }
      assert all[8..][..size][..size - 1] == all[8..8 + size - 1] && all[8..][size..] == all[8 + size..];
      return Some(Some(s.v[..size - 1]));
    }

    /** LoadCode. */
    method Words(n: nat) returns (r: Option<seq<Word>>)
      modifies z
      ensures Reads(r, LoadWords(old(z.Left()), n), z.Left())
    {
      BlockWords(z.Left(), n);
      var b := Block(4 * n);
      return if b.None? then None else Some(WordsIn(b.v));
    }

    method Ints(n: nat) returns (r: Option<seq<int>>)
      modifies z
      ensures Reads(r, LoadInts(old(z.Left()), n), z.Left())
    {
      BlockInts(z.Left(), n);
      var b := Block(4 * n);
      return if b.None? then None else Some(IntsIn(b.v));
    }

    /** One constant of LoadConstants. */
    method Constant() returns (r: Option<Const>)
      modifies z
      ensures Reads(r, LoadConst(old(z.Left())), z.Left())
    {
      hide Dec, LoadString;
      ghost var all := z.Left();
      var t := Block(1);
      if t.None? { return None; }
      if t.v[0] == TNIL { return Some(KNil); }
      if t.v[0] == TBOOLEAN {
        var b := Block(1);
        if b.None? { return None; }
        assert all[1..][1..] == all[2..];
        return Some(KBool(b.v[0] != 0));
      }
      if t.v[0] == TNUMBER {
        var b := Block(8);
        if b.None? { return None; }
        assert all[1..][..8] == all[1..9] && all[1..][8..] == all[9..];
        return Some(KNum(Dec(b.v)));
      }
      if t.v[0] == TSTRING {
        var s := String();
        return if s.None? || s.v.None? then None else Some(KStr(s.v.v));
      }
      return None;
    }

    method Constants(n: nat) returns (r: Option<seq<Const>>)
      modifies z
      ensures Reads(r, LoadConsts(old(z.Left()), n), z.Left())
    {
      hide LoadConst;
      var ks: seq<Const> := [];
      var i := 0;
      JoinStart(LoadConsts(z.Left(), n));
      while i < n
        invariant 0 <= i <= n && LoadConsts(old(z.Left()), n) == Join(ks, LoadConsts(z.Left(), n - i))
      {
        ghost var left := z.Left();
        var k := Constant();
        assert LoadConsts(left, n - i) == if k.None? then Bad else Join([k.v], LoadConsts(z.Left(), n - i - 1));
        if k.None? { return None; }
        JoinNext(ks, k.v, LoadConsts(z.Left(), n - i - 1));
        ks := ks + [k.v];
        i := i + 1;
      }
      JoinEnd(ks, z.Left());
      return Some(ks);
    }

    method LocVars(n: nat) returns (r: Option<seq<LocVar>>)
      modifies z
      ensures Reads(r, LoadLocVars(old(z.Left()), n), z.Left())
    {
      hide LoadString, LoadInt;
      var vs: seq<LocVar> := [];
      var i := 0;
      JoinStart(LoadLocVars(z.Left(), n));
      while i < n
        invariant 0 <= i <= n && LoadLocVars(old(z.Left()), n) == Join(vs, LoadLocVars(z.Left(), n - i))
      {
        ghost var left := z.Left();
        var s := String();
        if s.None? { return None; }
        var x := Integer();
        if x.None? { return None; }
        var y := Integer();
        if y.None? { return None; }
        var v := LocVar(s.v, x.v, y.v);
        assert LoadLocVars(left, n - i) == Join([v], LoadLocVars(z.Left(), n - i - 1));
        JoinNext(vs, v, LoadLocVars(z.Left(), n - i - 1));
        vs := vs + [v];
        i := i + 1;
      }
      JoinEnd(vs, z.Left());
      return Some(vs);
    }

    method Names(n: nat) returns (r: Option<seq<Option<Bytes>>>)
      modifies z
      ensures Reads(r, LoadNames(old(z.Left()), n), z.Left())
    {
      hide LoadString;
      var ns: seq<Option<Bytes>> := [];
      var i := 0;
      JoinStart(LoadNames(z.Left(), n));
      while i < n
        invariant 0 <= i <= n && LoadNames(old(z.Left()), n) == Join(ns, LoadNames(z.Left(), n - i))
      {
        ghost var left := z.Left();
        var s := String();
        if s.None? { return None; }
        assert LoadNames(left, n - i) == Join([s.v], LoadNames(z.Left(), n - i - 1));
        JoinNext(ns, s.v, LoadNames(z.Left(), n - i - 1));
        ns := ns + [s.v];
        i := i + 1;
      }
      JoinEnd(ns, z.Left());
      return Some(ns);
    }

    /** LoadDebug. */
    method DebugData() returns (r: Option<Debug>)
      modifies z
      ensures Reads(r, LoadDebug(old(z.Left())), z.Left())
    {
      hide LoadInt, LoadInts, LoadLocVars, LoadNames;
      var n := Integer();
      if n.None? { return None; }
      var li := Ints(n.v);
      if li.None? { return None; }
      n := Integer();
      if n.None? { return None; }
      var lv := LocVars(n.v);
      if lv.None? { return None; }
      n := Integer();
      if n.None? { return None; }
      var up := Names(n.v);
      if up.None? { return None; }
      return Some(Debug(li.v, lv.v, up.v));
    }

    /** LoadFunction up to the nested functions. */
    method FunctionHead(parent: Bytes) returns (r: Option<Head>)
      modifies z
      ensures Reads(r, LoadHead(old(z.Left()), parent), z.Left())
    {
      hide LoadInt, LoadWords, LoadConsts, LoadString;
      var s := String();
      if s.None? { return None; }
      var l1 := Integer();
      if l1.None? { return None; }
      var l2 := Integer();
      if l2.None? { return None; }
      var bs := Block(4);
      if bs.None? { return None; }
      var n := Integer();
      if n.None? { return None; }
      var c := Words(n.v);
      if c.None? { return None; }
      n := Integer();
      if n.None? { return None; }
      var k := Constants(n.v);
      if k.None? { return None; }
      n := Integer();
      if n.None? { return None; }
      return Some(Head(if s.v.None? then parent else s.v.v, l1.v, l2.v, bs.v[0], bs.v[1], bs.v[2], bs.v[3], c.v, k.v, n.v));
    }

    /** LoadFunction: errors for "code too deep" and "bad code", and those of the parts. */
    method Function(parent: Bytes) returns (r: Option<Func>)
      requires 0 <= calls <= limit
      modifies z, this`calls
      ensures Reads(r, LoadFunction(old(z.Left()), parent, limit - old(calls)), z.Left())
      ensures r.Some? ==> calls == old(calls)
      decreases limit - calls
    {
      hide LoadHead, LoadDebug, Accepted;
      ghost var room := limit - calls;
      calls := calls + 1;
      if calls > limit { return None; }
      var h := FunctionHead(parent);
      if h.None? { return None; }
      ghost var b1 := z.Left();
      var ps: seq<Func> := [];
      var i := 0;
      JoinStart(LoadNested(b1, h.v.source, room - 1, h.v.sizep));
      while i < h.v.sizep
        invariant 0 <= i <= h.v.sizep && calls == old(calls) + 1
        invariant LoadNested(b1, h.v.source, room - 1, h.v.sizep) == Join(ps, LoadNested(z.Left(), h.v.source, room - 1, h.v.sizep - i))
      {
        ghost var left := z.Left();
        var f := Function(h.v.source);
        NestedNext(left, h.v.source, room - 1, h.v.sizep - i);
        if f.None? { return None; }
        JoinNext(ps, f.v, LoadNested(z.Left(), h.v.source, room - 1, h.v.sizep - i - 1));
        ps := ps + [f.v];
        i := i + 1;
      }
      JoinEnd(ps, z.Left());
      var d := DebugData();
      if d.None? { return None; }
      var f := Assemble(h.v, ps, d.v);
      var ok := CheckCode.CheckCode(ForCheck(f));
      if !ok { return None; }
      calls := calls - 1;
      return Some(f);
    }

    /** gafqU_undump, with the header as a fixed prefix. */
    method Chunk(header: Bytes) returns (r: Option<Func>)
      requires 0 <= calls <= limit
      modifies z, this`calls
      ensures r == LoadChunk(header, old(z.Left()), limit - old(calls))
    {
      hide LoadFunction;
      var h := Block(|header|);
      if h.None? || h.v != header { return None; }
      r := Function(UNKNOWN);
    }
  }

  lemma NestedNext(b: Bytes, parent: Bytes, room: nat, n: nat)
    requires n > 0
    ensures var x := LoadFunction(b, parent, room);
            LoadNested(b, parent, room, n) == if x.Bad? then Bad else Join([x.v], LoadNested(x.rest, parent, room, n - 1))
  {
    hide LoadFunction;
  }

  /** However the reader splits a dumped chunk into chunks that are not empty, loading it gives the function back. */
  method LoadSplit(header: Bytes, f: Func, strip: bool, chunks: seq<Bytes>, limit: int) returns (r: Option<Func>)
    requires WellFormed(f) && Deep(f) <= limit && Flat(chunks) == DumpChunk(header, f, strip)
    ensures r == Some(if strip then Stripped(f, UNKNOWN) else f)
  {
    hide WellFormed, Deep, DumpChunk, LoadChunk, Stripped;
    var z := new ZIO(chunks);
    var s := new LoadState(z, limit);
    r := s.Chunk(header);
    RoundTrip(header, f, strip, limit);
  }
}
