/** The matcher as gstrlib.c has it: a MatchState whose captures are set and undone in place. */
module MatcherMachine {
  import opened Matcher
  import MatcherClass

  /** NULL, an error raised, or the end of the match. */
  datatype Ptr = Null | Raised | To(e: int)

  class MatchState {
    const src: Bytes
    const pat: Bytes
    var level: int
    const capture: array<Cap>

    constructor (src: Bytes, pat: Bytes)
      ensures this.src == src && this.pat == pat && Valid() && Caps() == [] && fresh(capture)
    {
      this.src, this.pat, level := src, pat, 0;
      capture := new Cap[MAXCAPTURES](i => Cap(0, Unfinished));
    }

    ghost predicate Valid()
      reads this
    {
      capture.Length == MAXCAPTURES && 0 <= level <= MAXCAPTURES
    }

    /** The captures begun so far. */
    ghost function Caps(): seq<Cap>
      requires Valid()
      reads this, capture
    {
      capture[..level]
    }

    /** The pointer and the captures stand for the result. A failed match leaves level and captures as they were. */
    ghost predicate Gives(r: Ptr, res: Res, before: seq<Cap>)
      requires Valid()
      reads this, capture
    {
      match r
      case Null => res == NoMatch && Caps() == before
      case Raised => res == Error
      case To(e) => res == Match(e, Caps()) && e <= |src|
    }

    // -------------------------------------------------------------- classes

    /** classend. */
    method FindClassEnd(p: int) returns (r: int)
      requires 0 <= p < |pat|
      ensures r == ClassEnd(pat, p)
    {
      var q := p + 1;
      if pat[p] == ESC {
        return if At(pat, q) == 0 then -1 else q + 1;
      }
      if pat[p] == '[' as int {
        if At(pat, q) == '^' as int { q := q + 1; }
        ghost var start := q;
        while true
          invariant p < q <= |pat| && SetEnd(pat, q) == SetEnd(pat, start)
          decreases |pat| - q
        {
          if At(pat, q) == 0 { return -1; }
          if pat[q] == ESC && At(pat, q + 1) != 0 { q := q + 2; } else { q := q + 1; }
          if At(pat, q) == ']' as int { return q + 1; }
        }
      }
      return q;
    }

    /** matchbracketclass. */
    method BracketMatches(c: int, p0: int, ec: int) returns (b: bool)
      ensures b == MatchBracket(c, pat, p0, ec)
      ensures b <==> MatcherClass.Has(MatcherClass.SetAt(pat, p0, ec), c)
    {
      MatcherClass.SetMeans(c, pat, p0, ec);
      var sig, p := true, p0;
      if At(pat, p + 1) == '^' as int { sig, p := false, p + 1; }
      p := p + 1;
      ghost var start := p;
      while p < ec
        invariant InSet(c, pat, p, ec) == InSet(c, pat, start, ec)
        decreases ec - p
      {
        if At(pat, p) == ESC {
          if MatchClass(c, At(pat, p + 1)) { return sig; }
          p := p + 2;
        } else if At(pat, p + 1) == '-' as int && p + 2 < ec {
          if At(pat, p) <= c <= At(pat, p + 2) { return sig; }
          p := p + 3;
        } else {
          if At(pat, p) == c { return sig; }
          p := p + 1;
        }
      }
      return !sig;
    }

    /** singlematch. */
    method Single(c: int, p: int, ep: int) returns (b: bool)
      ensures b == SingleMatch(c, pat, p, ep)
      ensures b <==> MatcherClass.Has(MatcherClass.SingleAt(pat, p, ep), c)
    {
      MatcherClass.SingleMeans(c, pat, p, ep);
      if At(pat, p) == '.' as int { return true; }
      if At(pat, p) == ESC { return MatchClass(c, At(pat, p + 1)); }
      if At(pat, p) == '[' as int { b := BracketMatches(c, p, ep - 1); return; }
      return At(pat, p) == c;
    }

    /** matchbalance, after its check of the pattern. */
    method MatchBalance(s: int, b: int, e: int) returns (r: int)
      requires 0 <= s <= |src| && b != 0
      ensures r == if At(src, s) != b then -1 else BalanceEnd(src, s + 1, b, e, 1)
    {
      if At(src, s) != b { return -1; }
      var cont, q := 1, s + 1;
      while q < |src|
        invariant s < q <= |src| && cont >= 1 && BalanceEnd(src, q, b, e, cont) == BalanceEnd(src, s + 1, b, e, 1)
      {
        if src[q] == e {
          if cont == 1 { return q + 1; }
          cont := cont - 1;
        } else if src[q] == b {
          cont := cont + 1;
        }
        q := q + 1;
      }
      return -1;
    }

    /** capture_to_close. */
    method CaptureToClose() returns (l: int)
      requires Valid()
      ensures l == ToClose(Caps())
    {
      l := level - 1;
      assert capture[..level] == Caps();
      while l >= 0
        invariant -1 <= l < level && ToClose(capture[..l + 1]) == ToClose(Caps())
      {
        assert capture[..l + 1][..l] == capture[..l];
        if capture[l].len == Unfinished { return; }
        l := l - 1;
      }
    }

    /** match_capture. */
    method MatchCapture(s: int, l: int) returns (r: int)
      requires Valid() && 0 <= s <= |src|
      ensures r == BackRef(src, s, l, Caps())
    {
      var i := l - '1' as int;
      if i < 0 || i >= level || capture[i].len == Unfinished { return -2; }
      var c := capture[i];
      if c.len.Length? && 0 <= c.len.n <= |src| - s && 0 <= c.init && c.init + c.len.n <= |src| &&
         src[c.init..c.init + c.len.n] == src[s..s + c.len.n] {
        return s + c.len.n;
      }
      return -1;
    }

    // -------------------------------------------------------------- matching

    /** max_expand. */
    method Longest(s: int, p: int, ep: int) returns (r: Ptr)
      requires Valid() && 0 <= s <= |src| && 0 <= ep < |pat|
      modifies this`level, capture
      ensures Valid() && Gives(r, MaxExpand(src, pat, s, Repeats(src, pat, s, p, ep), ep, old(Caps())), old(Caps()))
      decreases |pat| - ep - 1, |src| + 3
    {
      var i := 0;
      ghost var caps := Caps();
      while s + i < |src|
        invariant Valid() && Caps() == caps
        invariant 0 <= i && s + i <= |src| && Repeats(src, pat, s, p, ep) == i + Repeats(src, pat, s + i, p, ep)
      {
        var m := Single(src[s + i], p, ep);
        if !m { break; }
        i := i + 1;
      }
      ghost var all := MaxExpand(src, pat, s, i, ep, caps);
      while i >= 0
        invariant -1 <= i && s + i <= |src| && Valid() && Caps() == caps
        invariant if i < 0 then all == NoMatch else MaxExpand(src, pat, s, i, ep, caps) == all
      {
        r := Run(s + i, ep + 1);
        if r != Null { return; }
        i := i - 1;
      }
      return Null;
    }

    /** min_expand. */
    method Shortest(s0: int, p: int, ep: int) returns (r: Ptr)
      requires Valid() && 0 <= s0 <= |src| && 0 <= ep < |pat|
      modifies this`level, capture
      ensures Valid() && Gives(r, MinExpand(src, pat, s0, p, ep, old(Caps())), old(Caps()))
      decreases |pat| - ep - 1, |src| + 3
    {
      var s := s0;
      ghost var caps := Caps();
      while true
        invariant 0 <= s <= |src| && Valid() && Caps() == caps
        invariant MinExpand(src, pat, s, p, ep, caps) == MinExpand(src, pat, s0, p, ep, caps)
        decreases |src| - s
      {
        r := Run(s, ep + 1);
        if r != Null { return; }
        if s >= |src| { return; }
        var m := Single(src[s], p, ep);
        if !m { return; }
        s := s + 1;
      }
    }

    /** start_capture. */
    method StartCapture(s: int, p: int, what: Len) returns (r: Ptr)
      requires Valid() && 0 <= s <= |src| && 0 <= p <= |pat|
      modifies this`level, capture
      ensures Valid()
      ensures Gives(r, if |old(Caps())| >= MAXCAPTURES then Error else DoMatch(src, pat, s, p, old(Caps()) + [Cap(s, what)]), old(Caps()))
      decreases |pat| - p, |src| + 4
    {
      if level >= MAXCAPTURES { return Raised; }
      ghost var caps := Caps();
      capture[level] := Cap(s, what);
      level := level + 1;
      assert Caps() == caps + [Cap(s, what)];
      r := Run(s, p);
      if r == Null {
        level := level - 1;
        assert Caps() == (caps + [Cap(s, what)])[..|caps|];
      }
    }

    /** end_capture. */
    method EndCapture(s: int, p: int) returns (r: Ptr)
      requires Valid() && 0 <= s <= |src| && 0 <= p <= |pat|
      modifies this`level, capture
      ensures Valid()
      ensures var caps := old(Caps());
              var l := ToClose(caps);
              Gives(r, if l == -1 then Error else DoMatch(src, pat, s, p, caps[l := Cap(caps[l].init, Length(s - caps[l].init))]), caps)
      decreases |pat| - p, |src| + 4
    {
      var l := CaptureToClose();
      if l == -1 { return Raised; }
      ghost var caps := Caps();
      capture[l] := Cap(capture[l].init, Length(s - capture[l].init));
      ghost var closed := caps[l := Cap(caps[l].init, Length(s - caps[l].init))];
      assert Caps() == closed;
      r := Run(s, p);
      if r == Null {
        assert capture[l] == Caps()[l];
        capture[l] := Cap(capture[l].init, Unfinished);
        assert Caps() == closed[l := caps[l]];
        assert Caps() == caps;
      }
    }

    /** match for %b, %f and %1 to %9: failure or error, or where to go on. */
    method EscapeItem(s: int, p: int) returns (r: Ptr, s1: int, p1: int)
      requires Valid() && 0 <= s <= |src| && 0 <= p <= |pat|
      requires At(pat, p) == ESC
      requires At(pat, p + 1) == 'b' as int || At(pat, p + 1) == 'f' as int || IsDigit(At(pat, p + 1))
      ensures r == Null ==> DoMatch(src, pat, s, p, Caps()) == NoMatch
      ensures r == Raised ==> DoMatch(src, pat, s, p, Caps()) == Error
      ensures r.To? ==> 0 <= s1 <= |src| && p < p1 <= |pat|
      ensures r.To? ==> DoMatch(src, pat, s, p, Caps()) == DoMatch(src, pat, s1, p1, Caps())
    {
      var d := At(pat, p + 1);
      s1, p1 := s, p;
      if d == 'b' as int {
        if At(pat, p + 2) == 0 || At(pat, p + 3) == 0 { return Raised, s, p; }
        var e := MatchBalance(s, At(pat, p + 2), At(pat, p + 3));
        return if e == -1 then Null else To(e), e, p + 4;
      }
      if d == 'f' as int {
        if At(pat, p + 2) != '[' as int { return Raised, s, p; }
        var ep := FindClassEnd(p + 2);
        if ep == -1 { return Raised, s, p; }
        var before := BracketMatches(At(src, s - 1), p + 2, ep - 1);
        var here := BracketMatches(At(src, s), p + 2, ep - 1);
        return if before || !here then Null else To(s), s, ep;
      }
      var e := MatchCapture(s, d);
      return if e == -2 then Raised else if e == -1 then Null else To(e), e, p + 2;
    }

    /** match for a class item: the result, or where to go on. */
    method ClassItem(s: int, p: int) returns (goes: bool, r: Ptr, s1: int, p1: int)
      requires Valid() && 0 <= s <= |src| && 0 <= p < |pat| && IsClassItem(pat, p)
      modifies this`level, capture
      ensures Valid() && (!goes ==> Gives(r, DoMatch(src, pat, s, p, old(Caps())), old(Caps())))
      ensures goes ==> Caps() == old(Caps()) && 0 <= s1 <= |src| && p < p1 <= |pat|
      ensures goes ==> DoMatch(src, pat, s, p, Caps()) == DoMatch(src, pat, s1, p1, Caps())
      decreases |pat| - p, |src| + 1
    {
      hide DoMatch, MaxExpand, MinExpand, MatcherClass.Has, MatcherClass.SingleAt;
      ghost var caps := Caps();
      goes, r, s1, p1 := false, Raised, s, p;
      var ep := FindClassEnd(p);
      ItemUnfold(src, pat, s, p, caps);
      if ep == -1 { return; }
      var m := false;
      if s < |src| { m := Single(src[s], p, ep); }
      var q := At(pat, ep);
      if q == '?' as int {
        if m {
          r := Run(s + 1, ep + 1);
          if r != Null { return; }
        }
        return true, Null, s, ep + 1;
      } else if q == '*' as int {
        r := Longest(s, p, ep);
      } else if q == '+' as int {
        r := Null;
        if m { r := Longest(s + 1, p, ep); }
      } else if q == '-' as int {
        r := Shortest(s, p, ep);
      } else {
        return m, Null, s + 1, ep;
      }
    }

    /** match, with its gotos as a loop. */
    method Run(s0: int, p0: int) returns (r: Ptr)
      requires Valid() && 0 <= s0 <= |src| && 0 <= p0 <= |pat|
      modifies this`level, capture
      ensures Valid() && Gives(r, DoMatch(src, pat, s0, p0, old(Caps())), old(Caps()))
      decreases |pat| - p0, |src| + 2
    {
      var s, p := s0, p0;
      ghost var caps := Caps();
      while true
        invariant 0 <= s <= |src| && p0 <= p <= |pat| && Valid() && Caps() == caps
        invariant DoMatch(src, pat, s, p, caps) == DoMatch(src, pat, s0, p0, caps)
        decreases |pat| - p
      {
        var c, d := At(pat, p), At(pat, p + 1);
        if c == '(' as int {
          if d == ')' as int { r := StartCapture(s, p + 2, Position); } else { r := StartCapture(s, p + 1, Unfinished); }
          return;
        }
        if c == ')' as int {
          r := EndCapture(s, p + 1);
          return;
        }
        if c == 0 { return To(s); }
        if c == ESC && (d == 'b' as int || d == 'f' as int || IsDigit(d)) {
          r, s, p := EscapeItem(s, p);
          if !r.To? { return; }
        } else if c == '$' as int && d == 0 {
          return if s == |src| then To(s) else Null;
        } else {
          var goes;
          goes, r, s, p := ClassItem(s, p);
          if !goes { return; }
        }
      }
    }
  }
}
