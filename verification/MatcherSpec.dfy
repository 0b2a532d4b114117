/** What patterns mean (section 5.4.1 of the Lua 5.1 manual), and that the matcher finds exactly that. */
module MatcherSpec {
  import opened Matcher
  import opened MatcherClass

  datatype Quant = One | Optional | Longest | LongestOne | Shortest

  /** A pattern item: a class with its repetition, %bxy, %f[set], $ at the end, the
      start of a capture or a position capture, the end of a capture, a back reference, or something malformed. */
  datatype Elem =
    | Class(c: Single, q: Quant) | Balanced(x: int, y: int) | Frontier(c: Single) | AtEnd
    | OpenCap(position: bool) | CloseCap | Back(l: int) | Malformed

  function QuantOf(c: int): Quant {
    if c == '?' as int then Optional else if c == '*' as int then Longest else if c == '+' as int then LongestOne
    else if c == '-' as int then Shortest else One
  }

  /** The items of a pattern, up to the first that is malformed. */
  function Parse(pat: Bytes, p: int): seq<Elem>
    requires 0 <= p <= |pat|
    decreases |pat| - p
  {
    var c, d := At(pat, p), At(pat, p + 1);
    if c == 0 then []
    else if c == '(' as int then
      if d == ')' as int then [OpenCap(true)] + Parse(pat, p + 2) else [OpenCap(false)] + Parse(pat, p + 1)
    else if c == ')' as int then [CloseCap] + Parse(pat, p + 1)
    else if c == ESC && d == 'b' as int then
      if At(pat, p + 2) == 0 || At(pat, p + 3) == 0 then [Malformed]
      else [Balanced(At(pat, p + 2), At(pat, p + 3))] + Parse(pat, p + 4)
    else if c == ESC && d == 'f' as int then
      if At(pat, p + 2) != '[' as int || ClassEnd(pat, p + 2) == -1 then [Malformed]
      else [Frontier(SetAt(pat, p + 2, ClassEnd(pat, p + 2) - 1))] + Parse(pat, ClassEnd(pat, p + 2))
    else if c == ESC && IsDigit(d) then [Back(d)] + Parse(pat, p + 2)
    else if c == '$' as int && d == 0 then [AtEnd]
    else
      var ep := ClassEnd(pat, p);
      if ep == -1 then [Malformed]
      else
        var q := QuantOf(At(pat, ep));
        [Class(SingleAt(pat, p, ep), q)] + Parse(pat, if q == One then ep else ep + 1)
  }

  // ---------------------------------------------------------------- the relation

  /** The characters from `s` to `m` are all in the class. */
  ghost predicate Run(src: Bytes, c: Single, s: int, m: int) {
    0 <= s <= m <= |src| && forall i | s <= i < m :: Has(c, src[i])
  }

  /** Open brackets after src[s..e), when one was open before. */
  function Depth(src: Bytes, s: int, e: int, x: int, y: int): int
    requires 0 <= s <= e <= |src|
    decreases e
  {
    if s == e then 1
    else Depth(src, s, e - 1, x, y) + if src[e - 1] == y then -1 else if src[e - 1] == x then 1 else 0
  }

  /** %bxy matches src[s..e): an `x`, and up to where as many were closed as opened. */
  ghost predicate IsBalanced(src: Bytes, s: int, e: int, x: int, y: int) {
    0 <= s < |src| && src[s] == x && ClosesAt(src, s + 1, e, x, y)
  }

  ghost predicate ClosesAt(src: Bytes, f: int, e: int, x: int, y: int) {
    0 <= f <= e <= |src| && Depth(src, f, e, x, y) == 0 && forall i | f <= i < e :: Depth(src, f, i, x, y) > 0
  }

  /** `l` is the capture that a closing parenthesis ends: the last one that is unfinished. */
  ghost predicate Closes(caps: seq<Cap>, l: int) {
    0 <= l < |caps| && caps[l].len == Unfinished && forall j | l < j < |caps| :: caps[j].len != Unfinished
  }

  /** src[s..m) is the text of capture `i`, which has been closed. */
  ghost predicate Repeated(src: Bytes, s: int, m: int, caps: seq<Cap>, i: int) {
    0 <= i < |caps| && caps[i].len.Length? &&
    var a, n := caps[i].init, caps[i].len.n;
    0 <= a && 0 <= n && a + n <= |src| && 0 <= s && m == s + n <= |src| && src[a..a + n] == src[s..m]
  }

  /** The items match src[s..e), and turn the captures `caps` into `out`. */
  ghost predicate Matches(src: Bytes, items: seq<Elem>, s: int, caps: seq<Cap>, e: int, out: seq<Cap>)
    requires 0 <= s <= |src|
    decreases |items|
  {
    if items == [] then e == s && out == caps
    else
      var rest := items[1..];
      match items[0]
      case Malformed => false
      case AtEnd => s == |src| && Matches(src, rest, s, caps, e, out)
      case Frontier(c) =>
        !Has(c, At(src, s - 1)) && Has(c, At(src, s)) &&
        Matches(src, rest, s, caps, e, out)
      case Balanced(x, y) => exists m | s <= m <= |src| :: IsBalanced(src, s, m, x, y) && Matches(src, rest, m, caps, e, out)
      case Class(c, q) =>
        exists m | s <= m <= |src| :: Run(src, c, s, m) && Allowed(q, m - s) && Matches(src, rest, m, caps, e, out)
      case OpenCap(position) =>
        |caps| < MAXCAPTURES &&
        Matches(src, rest, s, caps + [Cap(s, if position then Position else Unfinished)], e, out)
      case CloseCap =>
        exists l | 0 <= l < |caps| ::
          Closes(caps, l) && Matches(src, rest, s, caps[l := Cap(caps[l].init, Length(s - caps[l].init))], e, out)
      case Back(l) => exists m | s <= m <= |src| :: Repeated(src, s, m, caps, l - '1' as int) && Matches(src, rest, m, caps, e, out)
  }

  /** How often an item may repeat. */
  predicate Allowed(q: Quant, n: int) {
    match q
    case One => n == 1
    case Optional => n <= 1
    case LongestOne => n >= 1
    case _ => n >= 0
  }

  // ---------------------------------------------------------------- all ends, in order of preference

  /** Every end of a match with its captures, the preferred ones first: more repetitions before fewer, or the other way
      for `-`. Where an item is in error, that is what is found there. */
  ghost function Ends(src: Bytes, items: seq<Elem>, s: int, caps: seq<Cap>): seq<Res>
    requires 0 <= s <= |src|
    decreases |items|, 0
  {
    if items == [] then [Match(s, caps)]
    else
      var rest := items[1..];
      match items[0]
      case Malformed => [Error]
      case AtEnd => if s == |src| then Ends(src, rest, s, caps) else []
      case Frontier(c) =>
        if !Has(c, At(src, s - 1)) && Has(c, At(src, s)) then Ends(src, rest, s, caps) else []
      case Balanced(x, y) =>
        var e := if s < |src| && src[s] == x then BalanceEnd(src, s + 1, x, y, 1) else -1;
        if e == -1 then [] else Ends(src, rest, e, caps)
      case Class(c, q) =>
        var n := Times(src, c, s);
        if Most(q, n) < Least(q) then []
        else if q == Shortest then Up(src, rest, s, 0, n, caps)
        else Down(src, rest, s, Most(q, n), Least(q), caps)
      case OpenCap(position) =>
        if |caps| >= MAXCAPTURES then [Error]
        else Ends(src, rest, s, caps + [Cap(s, if position then Position else Unfinished)])
      case CloseCap =>
        var l := ToClose(caps);
        if l == -1 then [Error] else Ends(src, rest, s, caps[l := Cap(caps[l].init, Length(s - caps[l].init))])
      case Back(l) =>
        var e := BackRef(src, s, l, caps);
        if e == -2 then [Error] else if e == -1 then [] else Ends(src, rest, e, caps)
  }

  function Least(q: Quant): int { if q == One || q == LongestOne then 1 else 0 }

  /** The most repetitions, when the class matches `n` times. */
  function Most(q: Quant, n: int): int { if (q == One || q == Optional) && n > 1 then 1 else n }

  /** From `i` repetitions down to `least`. */
  ghost function Down(src: Bytes, rest: seq<Elem>, s: int, i: int, least: int, caps: seq<Cap>): seq<Res>
    requires 0 <= s && 0 <= least <= i && s + i <= |src|
    decreases |rest|, i + 1
  {
    Ends(src, rest, s + i, caps) + if i == least then [] else Down(src, rest, s, i - 1, least, caps)
  }

  /** From `i` repetitions up to `n`. */
  ghost function Up(src: Bytes, rest: seq<Elem>, s: int, i: int, n: int, caps: seq<Cap>): seq<Res>
    requires 0 <= s && 0 <= i <= n && s + n <= |src|
    decreases |rest|, n - i + 1
  {
    Ends(src, rest, s + i, caps) + if i == n then [] else Up(src, rest, s, i + 1, n, caps)
  }

  // ---------------------------------------------------------------- ends are what the relation says

  /** How often a class matches from `s` on. */
  ghost function Times(src: Bytes, c: Single, s: int): (n: int)
    requires 0 <= s <= |src|
    ensures 0 <= n <= |src| - s
    decreases |src| - s
  {
    if s < |src| && Has(c, src[s]) then 1 + Times(src, c, s + 1) else 0
  }

  lemma {:induction false} TimesRun(src: Bytes, c: Single, s: int, m: int)
    requires 0 <= s <= |src|
    ensures Run(src, c, s, m) <==> s <= m <= s + Times(src, c, s)
    decreases |src| - s
  {
    hide Has;
    if s < |src| && Has(c, src[s]) {
      TimesRun(src, c, s + 1, m);
      if m > s { assert Run(src, c, s, m) <==> Run(src, c, s + 1, m); }
    }
  }

  lemma {:induction false} RepeatsIs(src: Bytes, pat: Bytes, s: int, p: int, ep: int)
    requires 0 <= s <= |src|
    ensures Repeats(src, pat, s, p, ep) == Times(src, SingleAt(pat, p, ep), s)
    decreases |src| - s
  {
    hide Has, SingleAt, SingleMatch;
    if s < |src| {
      SingleMeans(src[s], pat, p, ep);
      RepeatsIs(src, pat, s + 1, p, ep);
    }
  }

  lemma {:induction false} BalanceIs(src: Bytes, s: int, e: int, x: int, y: int, m: int, cont: int)
    requires 0 <= s <= m <= |src| && cont == Depth(src, s, m, x, y) > 0
    ensures BalanceEnd(src, m, x, y, cont) == e && e != -1 ==> m < e <= |src| && Depth(src, s, e, x, y) == 0
    ensures BalanceEnd(src, m, x, y, cont) == e && e != -1 ==> forall i | m <= i < e :: Depth(src, s, i, x, y) > 0
    ensures m <= e <= |src| && Depth(src, s, e, x, y) == 0 && (forall i | m <= i < e :: Depth(src, s, i, x, y) > 0)
            ==> BalanceEnd(src, m, x, y, cont) == e
    decreases |src| - m
  {
    if m < |src| {
      var c := Depth(src, s, m + 1, x, y);
      if c > 0 { BalanceIs(src, s, e, x, y, m + 1, c); }
    }
  }

  lemma BalancedIff(src: Bytes, s: int, e: int, x: int, y: int)
    requires 0 <= s < |src| && src[s] == x && e != -1
    ensures IsBalanced(src, s, e, x, y) <==> BalanceEnd(src, s + 1, x, y, 1) == e
  {
    BalanceIs(src, s + 1, e, x, y, s + 1, 1);
  }

  ghost predicate SomeEnd(src: Bytes, rest: seq<Elem>, lo: int, hi: int, caps: seq<Cap>, x: Res)
    requires 0 <= lo && hi <= |src|
  {
    exists m | lo <= m <= hi :: x in Ends(src, rest, m, caps)
  }

  lemma SomeEndSplit(src: Bytes, rest: seq<Elem>, lo: int, hi: int, caps: seq<Cap>, x: Res)
    requires 0 <= lo <= hi <= |src|
    ensures SomeEnd(src, rest, lo, hi, caps, x) <==> x in Ends(src, rest, hi, caps) || SomeEnd(src, rest, lo, hi - 1, caps, x)
    ensures SomeEnd(src, rest, lo, hi, caps, x) <==> x in Ends(src, rest, lo, caps) || SomeEnd(src, rest, lo + 1, hi, caps, x)
  {
    hide Ends;
  }

  lemma {:induction false} DownIff(src: Bytes, rest: seq<Elem>, s: int, i: int, least: int,
                                   caps: seq<Cap>, x: Res)
    requires 0 <= s && 0 <= least <= i && s + i <= |src|
    ensures x in Down(src, rest, s, i, least, caps) <==> SomeEnd(src, rest, s + least, s + i, caps, x)
    decreases i
  {
    hide SomeEnd, Ends, Down;
    SomeEndSplit(src, rest, s + least, s + i, caps, x);
    if i > least { DownIff(src, rest, s, i - 1, least, caps, x); }
    else { NoEnd(src, rest, s + least, caps, x); }
    DownIs(src, rest, s, i, least, caps);
  }

  lemma NoEnd(src: Bytes, rest: seq<Elem>, lo: int, caps: seq<Cap>, x: Res)
    requires 0 <= lo <= |src|
    ensures !SomeEnd(src, rest, lo, lo - 1, caps, x) && !SomeEnd(src, rest, lo + 1, lo, caps, x)
  {}

  lemma DownIs(src: Bytes, rest: seq<Elem>, s: int, i: int, least: int, caps: seq<Cap>)
    requires 0 <= s && 0 <= least <= i && s + i <= |src|
    ensures Down(src, rest, s, i, least, caps) ==
            Ends(src, rest, s + i, caps) + if i == least then [] else Down(src, rest, s, i - 1, least, caps)
  {}

  lemma UpIs(src: Bytes, rest: seq<Elem>, s: int, i: int, n: int, caps: seq<Cap>)
    requires 0 <= s && 0 <= i <= n && s + n <= |src|
    ensures Up(src, rest, s, i, n, caps) ==
            Ends(src, rest, s + i, caps) + if i == n then [] else Up(src, rest, s, i + 1, n, caps)
  {}

  lemma {:induction false} UpIff(src: Bytes, rest: seq<Elem>, s: int, i: int, n: int, caps: seq<Cap>,
                                 x: Res)
    requires 0 <= s && 0 <= i <= n && s + n <= |src|
    ensures x in Up(src, rest, s, i, n, caps) <==> SomeEnd(src, rest, s + i, s + n, caps, x)
    decreases n - i
  {
    hide SomeEnd, Ends, Up;
    SomeEndSplit(src, rest, s + i, s + n, caps, x);
    if i < n { UpIff(src, rest, s, i + 1, n, caps, x); }
    else { NoEnd(src, rest, s + i, caps, x); }
    UpIs(src, rest, s, i, n, caps);
  }

  /** An end with captures is listed exactly when the items match up to it and capture those. */
  lemma {:induction false} EndsIff(src: Bytes, items: seq<Elem>, s: int, caps: seq<Cap>, e: int,
                                   out: seq<Cap>)
    requires 0 <= s <= |src|
    ensures Match(e, out) in Ends(src, items, s, caps) <==> Matches(src, items, s, caps, e, out)
    decreases |items|
  {
    if items != [] {
      var rest := items[1..];
      match items[0]
      case Malformed =>
      case AtEnd => EndsIff(src, rest, s, caps, e, out);
      case Frontier(c) => EndsIff(src, rest, s, caps, e, out);
      case Balanced(x, y) => BalancedEnds(src, items, s, caps, e, out);
      case Class(c, q) => ClassEnds(src, items, s, caps, e, out);
      case OpenCap(position) =>
        EndsIff(src, rest, s, caps + [Cap(s, if position then Position else Unfinished)], e, out);
      case CloseCap => CloseEnds(src, items, s, caps, e, out);
      case Back(l) => BackEnds(src, items, s, caps, e, out);
    }
  }

  /** capture_to_close finds the capture to close, if there is one. */
  lemma {:induction false} ToCloseIff(caps: seq<Cap>, l: int)
    ensures Closes(caps, l) <==> l == ToClose(caps) != -1
    decreases |caps|
  {
    if caps != [] && caps[|caps| - 1].len != Unfinished {
      var less := caps[..|caps| - 1];
      ToCloseIff(less, l);
      assert Closes(caps, l) <==> Closes(less, l);
    }
  }

  lemma {:induction false} CloseEnds(src: Bytes, items: seq<Elem>, s: int, caps: seq<Cap>, e: int,
                                     out: seq<Cap>)
    requires 0 <= s <= |src| && items != [] && items[0].CloseCap?
    ensures Match(e, out) in Ends(src, items, s, caps) <==> Matches(src, items, s, caps, e, out)
    decreases |items|, 0
  {
    var rest := items[1..];
    forall l ensures Closes(caps, l) <==> l == ToClose(caps) != -1 { ToCloseIff(caps, l); }
    var l := ToClose(caps);
    if l != -1 {
      assert Closes(caps, l);
      EndsIff(src, rest, s, caps[l := Cap(caps[l].init, Length(s - caps[l].init))], e, out);
    }
  }

  /** match_capture finds where the text is repeated. */
  lemma BackIff(src: Bytes, s: int, l: int, caps: seq<Cap>, m: int)
    requires 0 <= s <= m <= |src|
    ensures Repeated(src, s, m, caps, l - '1' as int) <==> BackRef(src, s, l, caps) == m
  {}

  lemma {:induction false} BackEnds(src: Bytes, items: seq<Elem>, s: int, caps: seq<Cap>, e: int,
                                    out: seq<Cap>)
    requires 0 <= s <= |src| && items != [] && items[0].Back?
    ensures Match(e, out) in Ends(src, items, s, caps) <==> Matches(src, items, s, caps, e, out)
    decreases |items|, 0
  {
    var l, rest := items[0].l, items[1..];
    var i := l - '1' as int;
    forall m | s <= m <= |src|
      ensures Repeated(src, s, m, caps, i) <==> BackRef(src, s, l, caps) == m
    {
      BackIff(src, s, l, caps, m);
    }
    var m := BackRef(src, s, l, caps);
    if m >= 0 {
      assert Repeated(src, s, m, caps, i);
      EndsIff(src, rest, m, caps, e, out);
    }
  }

  lemma {:induction false} BalancedEnds(src: Bytes, items: seq<Elem>, s: int, caps: seq<Cap>, e: int,
                                        out: seq<Cap>)
    requires 0 <= s <= |src| && items != [] && items[0].Balanced?
    ensures Match(e, out) in Ends(src, items, s, caps) <==> Matches(src, items, s, caps, e, out)
    decreases |items|, 0
  {
    var x, y, rest := items[0].x, items[0].y, items[1..];
    if s < |src| && src[s] == x {
      forall m | s <= m <= |src|
        ensures IsBalanced(src, s, m, x, y) <==> BalanceEnd(src, s + 1, x, y, 1) == m
      {
        BalancedIff(src, s, m, x, y);
      }
      var m := BalanceEnd(src, s + 1, x, y, 1);
      if m != -1 {
        assert IsBalanced(src, s, m, x, y);
        EndsIff(src, rest, m, caps, e, out);
      }
    }
  }

  lemma {:induction false} ClassEnds(src: Bytes, items: seq<Elem>, s: int, caps: seq<Cap>, e: int,
                                     out: seq<Cap>)
    requires 0 <= s <= |src| && items != [] && items[0].Class?
    ensures Match(e, out) in Ends(src, items, s, caps) <==> Matches(src, items, s, caps, e, out)
    decreases |items|, 0
  {
    var c, q, rest := items[0].c, items[0].q, items[1..];
    var n := Times(src, c, s);
    var lo, hi := s + Least(q), s + Most(q, n);
    ClassOptions(src, items, s, caps, Match(e, out));
    forall m | s <= m <= |src|
      ensures lo <= m <= hi <==> Run(src, c, s, m) && Allowed(q, m - s)
      ensures Match(e, out) in Ends(src, rest, m, caps) <==> Matches(src, rest, m, caps, e, out)
    {
      TimesRun(src, c, s, m);
      EndsIff(src, rest, m, caps, e, out);
    }
    hide Ends, Times, Run;
    ClassMatches(src, items, s, caps, e, out);
  }

  lemma ClassMatches(src: Bytes, items: seq<Elem>, s: int, caps: seq<Cap>, e: int, out: seq<Cap>)
    requires 0 <= s <= |src| && items != [] && items[0].Class?
    ensures var c := items[0];
            Matches(src, items, s, caps, e, out) <==>
              exists m | s <= m <= |src| ::
                Run(src, c.c, s, m) && Allowed(c.q, m - s) && Matches(src, items[1..], m, caps, e, out)
  {}

  lemma ClassOptions(src: Bytes, items: seq<Elem>, s: int, caps: seq<Cap>, x: Res)
    requires 0 <= s <= |src| && items != [] && items[0].Class?
    ensures var c := items[0];
            var n := Times(src, c.c, s);
            x in Ends(src, items, s, caps) <==> SomeEnd(src, items[1..], s + Least(c.q), s + Most(c.q, n), caps, x)
  {
    var c := items[0];
    var n := Times(src, c.c, s);
    if Most(c.q, n) >= Least(c.q) {
      if c.q == Shortest { UpIff(src, items[1..], s, 0, n, caps, x); }
      else { DownIff(src, items[1..], s, Most(c.q, n), Least(c.q), caps, x); }
    }
  }

  // ---------------------------------------------------------------- patterns without errors

  /** Which captures are unfinished. */
  function Unclosed(caps: seq<Cap>): seq<bool> { seq(|caps|, i requires 0 <= i < |caps| => caps[i].len == Unfinished) }

  /** Nothing is malformed, there are at most MAXCAPTURES captures, each is closed after it was opened, and only closed
      ones are referred to. */
  ghost predicate Legal(items: seq<Elem>, open: seq<bool>)
    decreases |items|
  {
    items != [] ==>
      match items[0]
      case Malformed => false
      case OpenCap(position) => |open| < MAXCAPTURES && Legal(items[1..], open + [!position])
      case CloseCap => exists l | 0 <= l < |open| :: IsLast(open, l) && Legal(items[1..], open[l := false])
      case Back(l) => 0 <= l - '1' as int < |open| && !open[l - '1' as int] && Legal(items[1..], open)
      case _ => Legal(items[1..], open)
  }

  ghost predicate IsLast(open: seq<bool>, l: int) { 0 <= l < |open| && open[l] && forall j | l < j < |open| :: !open[j] }

  lemma {:induction false} NoErrors(src: Bytes, items: seq<Elem>, s: int, caps: seq<Cap>)
    requires 0 <= s <= |src| && Legal(items, Unclosed(caps))
    ensures Error !in Ends(src, items, s, caps)
    decreases |items|
  {
    if items != [] {
      var rest := items[1..];
      match items[0]
      case Malformed =>
      case AtEnd => NoErrors(src, rest, s, caps);
      case Frontier(c) => NoErrors(src, rest, s, caps);
      case Balanced(x, y) =>
        var e := if s < |src| && src[s] == x then BalanceEnd(src, s + 1, x, y, 1) else -1;
        if e != -1 { NoErrors(src, rest, e, caps); }
      case Class(c, q) =>
        ClassOptions(src, items, s, caps, Error);
        forall m | s <= m <= |src|
          ensures Error !in Ends(src, rest, m, caps)
        {
          NoErrors(src, rest, m, caps);
        }
      case OpenCap(position) =>
        var more := caps + [Cap(s, if position then Position else Unfinished)];
        assert Unclosed(more) == Unclosed(caps) + [!position];
        NoErrors(src, rest, s, more);
      case CloseCap => CloseNoErrors(src, items, s, caps);
      case Back(l) =>
        var e := BackRef(src, s, l, caps);
        if e >= 0 { NoErrors(src, rest, e, caps); }
    }
  }

  lemma {:induction false} CloseNoErrors(src: Bytes, items: seq<Elem>, s: int, caps: seq<Cap>)
    requires 0 <= s <= |src| && Legal(items, Unclosed(caps)) && items != [] && items[0].CloseCap?
    ensures Error !in Ends(src, items, s, caps)
    decreases |items|, 0
  {
    var open := Unclosed(caps);
    var l :| 0 <= l < |open| && IsLast(open, l) && Legal(items[1..], open[l := false]);
    assert forall j | 0 <= j < |caps| :: caps[j].len == Unfinished <==> open[j];
    assert Closes(caps, l);
    ToCloseIff(caps, l);
    var less := caps[l := Cap(caps[l].init, Length(s - caps[l].init))];
    assert Unclosed(less) == open[l := false];
    NoErrors(src, items[1..], s, less);
  }

  // ---------------------------------------------------------------- the matcher finds the first end

  function First(ends: seq<Res>): Res { if ends == [] then NoMatch else ends[0] }

  lemma {:induction false} MatchFinds(src: Bytes, pat: Bytes, s: int, p: int, caps: seq<Cap>)
    requires 0 <= s <= |src| && 0 <= p <= |pat|
    ensures DoMatch(src, pat, s, p, caps) == First(Ends(src, Parse(pat, p), s, caps))
    decreases |pat| - p, |src| + 2
  {
    var c, d := At(pat, p), At(pat, p + 1);
    if c == '(' as int || c == ')' as int || (c == ESC && IsDigit(d)) {
      CaptureFinds(src, pat, s, p, caps);
    } else if c == ESC && (d == 'b' as int || d == 'f' as int) {
      SpecialFinds(src, pat, s, p, caps);
    } else if c == 0 || (c == '$' as int && d == 0) || ClassEnd(pat, p) == -1 {
      LastFinds(src, pat, s, p, caps);
    } else {
      hide DoMatch, Ends, Parse;
      ClassFinds(src, pat, s, p, caps);
    }
  }

  lemma LastFinds(src: Bytes, pat: Bytes, s: int, p: int, caps: seq<Cap>)
    requires 0 <= s <= |src| && 0 <= p <= |pat|
    requires At(pat, p) == 0 || (At(pat, p) == '$' as int && At(pat, p + 1) == 0) ||
             (p < |pat| && IsClassItem(pat, p) && ClassEnd(pat, p) == -1)
    ensures DoMatch(src, pat, s, p, caps) == First(Ends(src, Parse(pat, p), s, caps))
  {
    assert [AtEnd][1..] == [];
  }

  lemma {:induction false} SpecialFinds(src: Bytes, pat: Bytes, s: int, p: int, caps: seq<Cap>)
    requires 0 <= s <= |src| && 0 <= p < |pat| && At(pat, p) == ESC
    requires At(pat, p + 1) == 'b' as int || At(pat, p + 1) == 'f' as int
    ensures DoMatch(src, pat, s, p, caps) == First(Ends(src, Parse(pat, p), s, caps))
    decreases |pat| - p, |src| + 1
  {
    hide Has, SetAt, MatchBracket;
    if At(pat, p + 1) == 'b' as int {
      if At(pat, p + 2) != 0 && At(pat, p + 3) != 0 {
        var e := BalanceEnd(src, s + 1, At(pat, p + 2), At(pat, p + 3), 1);
        if At(src, s) == At(pat, p + 2) && e != -1 { MatchFinds(src, pat, e, p + 4, caps); }
      }
    } else if At(pat, p + 2) == '[' as int && ClassEnd(pat, p + 2) != -1 {
      var ep := ClassEnd(pat, p + 2);
      SetMeans(At(src, s - 1), pat, p + 2, ep - 1);
      SetMeans(At(src, s), pat, p + 2, ep - 1);
      MatchFinds(src, pat, s, ep, caps);
    }
  }

  lemma {:induction false} CaptureFinds(src: Bytes, pat: Bytes, s: int, p: int, caps: seq<Cap>)
    requires 0 <= s <= |src| && 0 <= p < |pat|
    requires At(pat, p) == '(' as int || At(pat, p) == ')' as int || (At(pat, p) == ESC && IsDigit(At(pat, p + 1)))
    ensures DoMatch(src, pat, s, p, caps) == First(Ends(src, Parse(pat, p), s, caps))
    decreases |pat| - p, |src| + 1
  {
    var c, d := At(pat, p), At(pat, p + 1);
    if c == '(' as int {
      if |caps| < MAXCAPTURES {
        if d == ')' as int { MatchFinds(src, pat, s, p + 2, caps + [Cap(s, Position)]); }
        else { MatchFinds(src, pat, s, p + 1, caps + [Cap(s, Unfinished)]); }
      }
    } else if c == ')' as int {
      var l := ToClose(caps);
      if l != -1 { MatchFinds(src, pat, s, p + 1, caps[l := Cap(caps[l].init, Length(s - caps[l].init))]); }
    } else {
      var e := BackRef(src, s, d, caps);
      if e >= 0 { MatchFinds(src, pat, e, p + 2, caps); }
    }
  }

  /** What match does with a class item. */
  function ClassResult(src: Bytes, pat: Bytes, s: int, p: int, ep: int, q: Quant, caps: seq<Cap>): Res
    requires 0 <= s <= |src| && 0 <= p < ep <= |pat| && (q != One ==> ep < |pat|)
  {
    var n := Repeats(src, pat, s, p, ep);
    match q
    case One => if n >= 1 then DoMatch(src, pat, s + 1, ep, caps) else NoMatch
    case Optional =>
      var r := if n >= 1 then DoMatch(src, pat, s + 1, ep + 1, caps) else NoMatch;
      if r != NoMatch then r else DoMatch(src, pat, s, ep + 1, caps)
    case Longest => MaxExpand(src, pat, s, n, ep, caps)
    case LongestOne => if n >= 1 then MaxExpand(src, pat, s + 1, n - 1, ep, caps) else NoMatch
    case Shortest => MinExpand(src, pat, s, p, ep, caps)
  }

  lemma ClassUnfold(src: Bytes, pat: Bytes, s: int, p: int, caps: seq<Cap>)
    requires 0 <= s <= |src| && 0 <= p < |pat| && IsClassItem(pat, p) && ClassEnd(pat, p) != -1
    ensures var ep := ClassEnd(pat, p);
            var q := QuantOf(At(pat, ep));
            var next := if q == One then ep else ep + 1;
            p < ep <= |pat| && (q != One ==> ep < |pat|) &&
            Parse(pat, p) == [Class(SingleAt(pat, p, ep), q)] + Parse(pat, next) &&
            DoMatch(src, pat, s, p, caps) == ClassResult(src, pat, s, p, ep, q, caps)
  {}

  lemma EndsUnfold(src: Bytes, s: int, c: Elem, rest: seq<Elem>, caps: seq<Cap>)
    requires 0 <= s <= |src| && c.Class?
    ensures var n := Times(src, c.c, s);
            Ends(src, [c] + rest, s, caps) ==
              if Most(c.q, n) < Least(c.q) then []
              else if c.q == Shortest then Up(src, rest, s, 0, n, caps)
              else Down(src, rest, s, Most(c.q, n), Least(c.q), caps)
  {
    assert ([c] + rest)[1..] == rest;
  }

  lemma {:induction false} ClassFinds(src: Bytes, pat: Bytes, s: int, p: int, caps: seq<Cap>)
    requires 0 <= s <= |src| && 0 <= p < |pat| && IsClassItem(pat, p) && ClassEnd(pat, p) != -1
    ensures DoMatch(src, pat, s, p, caps) == First(Ends(src, Parse(pat, p), s, caps))
    decreases |pat| - p, |src| + 1
  {
    hide DoMatch, Ends, Down, Up, MaxExpand, MinExpand, Parse, ClassResult, IsClassItem, ClassEnd;
    hide Repeats, Times, SingleAt;
    ClassUnfold(src, pat, s, p, caps);
    var ep := ClassEnd(pat, p);
    var q := QuantOf(At(pat, ep));
    var rest := Parse(pat, if q == One then ep else ep + 1);
    EndsUnfold(src, s, Class(SingleAt(pat, p, ep), q), rest, caps);
    var n := Repeats(src, pat, s, p, ep);
    RepeatsIs(src, pat, s, p, ep);
    match q
    case One => OneFinds(src, pat, s, p, ep, n, rest, caps);
    case Optional => OptionalFinds(src, pat, s, p, ep, n, rest, caps);
    case Longest => LongestFinds(src, pat, s, p, ep, n, rest, caps);
    case LongestOne => LongestOneFinds(src, pat, s, p, ep, n, rest, caps);
    case Shortest => ShortestFinds(src, pat, s, p, ep, n, rest, caps);
  }

  lemma {:induction false} OneFinds(src: Bytes, pat: Bytes, s: int, p: int, ep: int, n: int, rest: seq<Elem>,
                                    caps: seq<Cap>)
    requires 0 <= s <= |src| && 0 <= p < ep <= |pat| && n == Repeats(src, pat, s, p, ep) && Parse(pat, ep) == rest
    ensures ClassResult(src, pat, s, p, ep, One, caps) == First(if n >= 1 then Down(src, rest, s, 1, 1, caps) else [])
    decreases |pat| - p, |src|
  {
    hide DoMatch, Ends, Down, Up, Parse;
    if n >= 1 {
      MatchFinds(src, pat, s + 1, ep, caps);
      DownIs(src, rest, s, 1, 1, caps);
    }
  }

  lemma {:induction false} LongestFinds(src: Bytes, pat: Bytes, s: int, p: int, ep: int, n: int, rest: seq<Elem>,
                                        caps: seq<Cap>)
    requires 0 <= s <= |src| && 0 <= p < ep < |pat| && n == Repeats(src, pat, s, p, ep) && Parse(pat, ep + 1) == rest
    ensures ClassResult(src, pat, s, p, ep, Longest, caps) == First(Down(src, rest, s, n, 0, caps))
    decreases |pat| - p, |src|
  {
    hide DoMatch, Ends, Down, Up, Parse, MaxExpand;
    MaxFinds(src, pat, s, n, 0, ep, caps);
  }

  lemma {:induction false} LongestOneFinds(src: Bytes, pat: Bytes, s: int, p: int, ep: int, n: int, rest: seq<Elem>,
                                           caps: seq<Cap>)
    requires 0 <= s <= |src| && 0 <= p < ep < |pat| && n == Repeats(src, pat, s, p, ep) && Parse(pat, ep + 1) == rest
    ensures ClassResult(src, pat, s, p, ep, LongestOne, caps) == First(if n >= 1 then Down(src, rest, s, n, 1, caps) else [])
    decreases |pat| - p, |src|
  {
    hide DoMatch, Ends, Down, Up, Parse, MaxExpand;
    if n >= 1 { MaxFinds(src, pat, s + 1, n - 1, 1, ep, caps); }
  }

  lemma {:induction false} ShortestFinds(src: Bytes, pat: Bytes, s: int, p: int, ep: int, n: int, rest: seq<Elem>,
                                         caps: seq<Cap>)
    requires 0 <= s <= |src| && 0 <= p < ep < |pat| && n == Repeats(src, pat, s, p, ep) && Parse(pat, ep + 1) == rest
    ensures ClassResult(src, pat, s, p, ep, Shortest, caps) == First(Up(src, rest, s, 0, n, caps))
    decreases |pat| - p, |src|
  {
    hide DoMatch, Ends, Down, Up, Parse, MinExpand;
    MinFinds(src, pat, s, 0, n, p, ep, caps);
  }

  lemma {:induction false} OptionalFinds(src: Bytes, pat: Bytes, s: int, p: int, ep: int, n: int, rest: seq<Elem>,
                                         caps: seq<Cap>)
    requires 0 <= s <= |src| && 0 <= p < ep < |pat| && n == Repeats(src, pat, s, p, ep) && Parse(pat, ep + 1) == rest
    ensures ClassResult(src, pat, s, p, ep, Optional, caps) == First(Down(src, rest, s, if n >= 1 then 1 else 0, 0, caps))
    decreases |pat| - p, |src|
  {
    hide DoMatch, Ends, Down, Up, Parse;
    MatchFinds(src, pat, s, ep + 1, caps);
    DownIs(src, rest, s, 0, 0, caps);
    if n >= 1 {
      EndsKinds(src, rest, s + 1, caps);
      MatchFinds(src, pat, s + 1, ep + 1, caps);
      DownIs(src, rest, s, 1, 0, caps);
    }
  }

  /** max_expand from `s`, of which `least` repetitions lie before. */
  lemma {:induction false} MaxFinds(src: Bytes, pat: Bytes, s: int, i: int, least: int, ep: int, caps: seq<Cap>)
    requires 0 <= i && 0 <= least <= s && s + i <= |src| && 0 <= ep < |pat|
    ensures MaxExpand(src, pat, s, i, ep, caps) == First(Down(src, Parse(pat, ep + 1), s - least, i + least, least, caps))
    decreases |pat| - ep - 1, |src| + 3 + i
  {
    hide DoMatch, Ends, Parse;
    MatchFinds(src, pat, s + i, ep + 1, caps);
    EndsKinds(src, Parse(pat, ep + 1), s + i, caps);
    DownIs(src, Parse(pat, ep + 1), s - least, i + least, least, caps);
    if i > 0 { MaxFinds(src, pat, s, i - 1, least, ep, caps); }
  }

  lemma {:induction false} MinFinds(src: Bytes, pat: Bytes, s: int, i: int, n: int, p: int, ep: int, caps: seq<Cap>)
    requires 0 <= s && 0 <= i <= n && s + n <= |src| && 0 <= ep < |pat|
    requires Repeats(src, pat, s + i, p, ep) == n - i
    ensures MinExpand(src, pat, s + i, p, ep, caps) == First(Up(src, Parse(pat, ep + 1), s, i, n, caps))
    decreases |pat| - ep - 1, |src| + 3 + n - i
  {
    hide DoMatch, Ends, Parse, Up, MinExpand;
    MinIs(src, pat, s + i, p, ep, n - i, caps);
    MatchFinds(src, pat, s + i, ep + 1, caps);
    EndsKinds(src, Parse(pat, ep + 1), s + i, caps);
    UpIs(src, Parse(pat, ep + 1), s, i, n, caps);
    if i < n { MinFinds(src, pat, s, i + 1, n, p, ep, caps); }
  }

  lemma MinIs(src: Bytes, pat: Bytes, s: int, p: int, ep: int, n: int, caps: seq<Cap>)
    requires 0 <= s <= |src| && 0 <= ep < |pat| && Repeats(src, pat, s, p, ep) == n
    ensures MinExpand(src, pat, s, p, ep, caps) ==
            var r := DoMatch(src, pat, s, ep + 1, caps);
            if r != NoMatch then r else if n == 0 then NoMatch else MinExpand(src, pat, s + 1, p, ep, caps)
    ensures n > 0 ==> Repeats(src, pat, s + 1, p, ep) == n - 1
  {
    hide DoMatch, SingleMatch;
  }

  /** For every pattern and subject, with any captures before: the matcher gives what is first in the order of
      preference; what it returns satisfies the relation; and on a legal pattern it raises no error, and fails exactly
      when nothing satisfies the relation. */
  lemma MatcherCorrect(src: Bytes, pat: Bytes, s: int, p: int, caps: seq<Cap>)
    requires 0 <= s <= |src| && 0 <= p <= |pat|
    ensures var r := DoMatch(src, pat, s, p, caps);
            var items := Parse(pat, p);
            && r == First(Ends(src, items, s, caps)) &&
               (r.Match? ==> Matches(src, items, s, caps, r.e, r.caps))
            && (r == NoMatch ==> forall e, out :: !Matches(src, items, s, caps, e, out))
            && (Legal(items, Unclosed(caps)) ==> !r.Error? && (r == NoMatch <==> forall e, out :: !Matches(src, items, s, caps, e, out)))
  {
    var items := Parse(pat, p);
    var ends, r := Ends(src, items, s, caps), DoMatch(src, pat, s, p, caps);
    MatchFinds(src, pat, s, p, caps);
    forall e, out
      ensures Match(e, out) in ends <==> Matches(src, items, s, caps, e, out)
    {
      EndsIff(src, items, s, caps, e, out);
    }
    if Legal(items, Unclosed(caps)) { NoErrors(src, items, s, caps); }
    hide Ends, DoMatch, Legal, Parse, Matches;
    if ends != [] { assert ends[0] in ends; }
    assert r.Match? ==> Match(r.e, r.caps) in ends;
    EndsKinds(src, items, s, caps);
  }

  /** NoMatch itself is never listed. */
  lemma {:induction false} EndsKinds(src: Bytes, items: seq<Elem>, s: int, caps: seq<Cap>)
    requires 0 <= s <= |src|
    ensures NoMatch !in Ends(src, items, s, caps)
    decreases |items|
  {
    if items != [] {
      var rest := items[1..];
      match items[0]
      case Class(c, q) =>
        ClassOptions(src, items, s, caps, NoMatch);
        forall m | s <= m <= |src|
          ensures NoMatch !in Ends(src, rest, m, caps)
        {
          EndsKinds(src, rest, m, caps);
        }
      case Balanced(x, y) =>
        var e := if s < |src| && src[s] == x then BalanceEnd(src, s + 1, x, y, 1) else -1;
        if e != -1 { EndsKinds(src, rest, e, caps); }
      case OpenCap(position) => EndsKinds(src, rest, s, caps + [Cap(s, if position then Position else Unfinished)]);
      case CloseCap =>
        var l := ToClose(caps);
        if l != -1 { EndsKinds(src, rest, s, caps[l := Cap(caps[l].init, Length(s - caps[l].init))]); }
      case Back(l) =>
        var e := BackRef(src, s, l, caps);
        if e >= 0 { EndsKinds(src, rest, e, caps); }
      case Malformed =>
      case _ => EndsKinds(src, rest, s, caps);
    }
  }

  // ---------------------------------------------------------------- captures

  /** Captures lie before `s`, and closed ones end before it. */
  predicate CapsBefore(caps: seq<Cap>, s: int) {
    forall i | 0 <= i < |caps| :: 0 <= caps[i].init <= s && (caps[i].len.Length? ==> 0 <= caps[i].len.n && caps[i].init + caps[i].len.n <= s)
  }

  /** A match does not move backwards, and its captures are parts of what was matched. */
  ghost predicate Forward(r: Res, s: int, n: int) { r.Match? ==> s <= r.e <= n && CapsBefore(r.caps, r.e) }

  lemma {:induction false} MatchForward(src: Bytes, pat: Bytes, s: int, p: int, caps: seq<Cap>)
    requires 0 <= s <= |src| && 0 <= p <= |pat| && CapsBefore(caps, s)
    ensures Forward(DoMatch(src, pat, s, p, caps), s, |src|)
    decreases |pat| - p, |src| + 2
  {
    var c, d := At(pat, p), At(pat, p + 1);
    if c == '(' as int {
      if |caps| < MAXCAPTURES {
        if d == ')' as int { MatchForward(src, pat, s, p + 2, caps + [Cap(s, Position)]); }
        else { MatchForward(src, pat, s, p + 1, caps + [Cap(s, Unfinished)]); }
      }
    } else if c == ')' as int {
      var l := ToClose(caps);
      if l != -1 { MatchForward(src, pat, s, p + 1, caps[l := Cap(caps[l].init, Length(s - caps[l].init))]); }
    } else if c == 0 || (c == '$' as int && d == 0) {
    } else if c == ESC && d == 'b' as int {
      if At(pat, p + 2) != 0 && At(pat, p + 3) != 0 && At(src, s) == At(pat, p + 2) {
        var e := BalanceEnd(src, s + 1, At(pat, p + 2), At(pat, p + 3), 1);
        if e != -1 { MatchForward(src, pat, e, p + 4, caps); }
      }
    } else if c == ESC && d == 'f' as int {
      if At(pat, p + 2) == '[' as int && ClassEnd(pat, p + 2) != -1 { MatchForward(src, pat, s, ClassEnd(pat, p + 2), caps); }
    } else if c == ESC && IsDigit(d) {
      var e := BackRef(src, s, d, caps);
      if e >= 0 { MatchForward(src, pat, e, p + 2, caps); }
    } else {
      ItemForward(src, pat, s, p, caps);
    }
  }

  lemma {:induction false} ItemForward(src: Bytes, pat: Bytes, s: int, p: int, caps: seq<Cap>)
    requires 0 <= s <= |src| && 0 <= p < |pat| && CapsBefore(caps, s) && IsClassItem(pat, p)
    ensures Forward(DoMatch(src, pat, s, p, caps), s, |src|)
    decreases |pat| - p, |src| + 1
  {
    ItemUnfold(src, pat, s, p, caps);
    hide DoMatch, MaxExpand, MinExpand;
    var ep := ClassEnd(pat, p);
    if ep != -1 {
      var q := At(pat, ep);
      var m := s < |src| && SingleMatch(src[s], pat, p, ep);
      if q == '?' as int {
        MatchForward(src, pat, s, ep + 1, caps);
        if m { MatchForward(src, pat, s + 1, ep + 1, caps); }
      } else if q == '*' as int { MaxForward(src, pat, s, Repeats(src, pat, s, p, ep), ep, caps); }
      else if q == '+' as int { if m { MaxForward(src, pat, s + 1, Repeats(src, pat, s + 1, p, ep), ep, caps); } }
      else if q == '-' as int { MinForward(src, pat, s, p, ep, caps); }
      else if m { MatchForward(src, pat, s + 1, ep, caps); }
    }
  }

  lemma {:induction false} MaxForward(src: Bytes, pat: Bytes, s: int, i: int, ep: int, caps: seq<Cap>)
    requires 0 <= i && 0 <= s && s + i <= |src| && 0 <= ep < |pat| && CapsBefore(caps, s)
    ensures Forward(MaxExpand(src, pat, s, i, ep, caps), s, |src|)
    decreases |pat| - ep - 1, |src| + 3 + i
  {
    MatchForward(src, pat, s + i, ep + 1, caps);
    if i > 0 { MaxForward(src, pat, s, i - 1, ep, caps); }
  }

  lemma {:induction false} MinForward(src: Bytes, pat: Bytes, s: int, p: int, ep: int, caps: seq<Cap>)
    requires 0 <= s <= |src| && 0 <= ep < |pat| && CapsBefore(caps, s)
    ensures Forward(MinExpand(src, pat, s, p, ep, caps), s, |src|)
    decreases |pat| - ep - 1, |src| + 3 + |src| - s
  {
    MatchForward(src, pat, s, ep + 1, caps);
    if s < |src| { MinForward(src, pat, s + 1, p, ep, caps); }
  }

  /** match_capture compares the text of the capture with what comes next, and needs no check that it is inside. */
  lemma BackRefText(src: Bytes, s: int, l: int, caps: seq<Cap>)
    requires 0 <= s <= |src| && CapsBefore(caps, s)
    ensures var i := l - '1' as int;
            BackRef(src, s, l, caps) ==
              if i < 0 || i >= |caps| || caps[i].len == Unfinished then -2
              else if caps[i].len == Position || caps[i].len.n > |src| - s then -1
              else if src[caps[i].init..caps[i].init + caps[i].len.n] == src[s..s + caps[i].len.n] then s + caps[i].len.n
              else -1
  {}
}
