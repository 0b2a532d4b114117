/** Buffered input (gzio.c): the reader hands over chunks, and an empty one is the end. */
module Zio {
  import opened Dump

  const EOZ := -1

  /** All bytes that the reader will still hand over. */
  function Flat(cs: seq<Bytes>): Bytes { if cs == [] || cs[0] == [] then [] else cs[0] + Flat(cs[1..]) }

  class ZIO {
    /** The unread part of the current chunk, and the chunks to come. */
    var cur: Bytes
    var chunks: seq<Bytes>

    constructor (chunks: seq<Bytes>)
      ensures Left() == Flat(chunks)
    {
      cur, this.chunks := [], chunks;
    }

    function Left(): Bytes
      reads this
    {
      cur + Flat(chunks)
    }

    /** gafqZ_fill: the next chunk, and its first byte. */
    method Fill() returns (c: int)
      requires cur == []
      modifies this
      ensures if old(Left()) == [] then c == EOZ && Left() == [] && cur == [] else c == old(Left())[0] && Left() == old(Left())[1..]
    {
      assert Left() == Flat(chunks);
      if chunks == [] || chunks[0] == [] { return EOZ; }
      var buff := chunks[0];
      c, cur, chunks := buff[0], buff[1..], chunks[1..];
      assert Left() == old(Flat(chunks))[1..];
    }

    /** gafqZ_lookahead: the next byte, which stays unread. */
    method Lookahead() returns (c: int)
      modifies this
      ensures Left() == old(Left()) && (c == EOZ <==> Left() == []) && (c != EOZ ==> cur != [] && c == Left()[0])
    {
      if cur == [] {
        assert Left() == Flat(chunks);
        c := Fill();
        if c == EOZ { return; }
        ghost var all := old(Left());
        cur := [c] + cur;
        assert Left() == [c] + all[1..];
      }
      assert Left()[0] == cur[0];
      return cur[0];
    }

    /** gafqZ_read: the next `n` bytes, and how many of them are missing. However the bytes come in chunks, they come in
        order. */
    method Read(n: nat) returns (b: Bytes, missing: nat)
      modifies this
      ensures |old(Left())| >= n ==> missing == 0 && b == old(Left())[..n] && Left() == old(Left())[n..]
      ensures |old(Left())| < n ==> missing == n - |old(Left())| && b == old(Left())
    {
      b, missing := [], n;
      ghost var all := Left();
      while missing > 0
        invariant |b| + missing == n && |b| <= |all| && b == all[..|b|] && Left() == all[|b|..]
        decreases missing
      {
        var c := Lookahead();
        if c == EOZ { return; }
        var m := if missing <= |cur| then missing else |cur|;
        ghost var before := Left();
        b := b + cur[..m];
        cur := cur[m..];
        missing := missing - m;
        assert before == all[|b| - m..] && Left() == before[m..];
      }
    }
  }
}
