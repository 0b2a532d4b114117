/** The pattern matcher of gstrlib.c as functions: subject and pattern are byte strings, and positions
    past the end of either read as NUL, as C strings do. */
module Matcher {

  type Bytes = seq<int>

  const MAXCAPTURES := 32

  function At(b: Bytes, i: int): int { if 0 <= i < |b| then b[i] else 0 }

  /** A capture: unfinished, a position, or closed with a length. */
  datatype Len = Unfinished | Position | Length(n: int)
  datatype Cap = Cap(init: int, len: Len)

  /** No match, an error in the pattern, or a match that ends at `e`. */
  datatype Res = NoMatch | Error | Match(e: int, caps: seq<Cap>)

  // ---------------------------------------------------------------- character classes (C locale)

  predicate IsDigit(c: int) { 48 <= c <= 57 }
  predicate IsLower(c: int) { 97 <= c <= 122 }
  predicate IsUpper(c: int) { 65 <= c <= 90 }
  predicate IsAlpha(c: int) { IsLower(c) || IsUpper(c) }
  predicate IsAlnum(c: int) { IsAlpha(c) || IsDigit(c) }
  predicate IsCntrl(c: int) { 0 <= c < 32 || c == 127 }
  predicate IsSpace(c: int) { 9 <= c <= 13 || c == 32 }
  predicate IsXDigit(c: int) { IsDigit(c) || 97 <= c <= 102 || 65 <= c <= 70 }
  predicate IsPunct(c: int) { 33 <= c <= 126 && !IsAlnum(c) }
  function ToLower(c: int): int { if IsUpper(c) then c + 32 else c }

  const ESC := '%' as int

  /** match_class. */
  predicate MatchClass(c: int, cl: int) {
    var l := ToLower(cl) as int;
    if l == 'a' as int then IsAlpha(c) == IsLower(cl)
    else if l == 'c' as int then IsCntrl(c) == IsLower(cl)
    else if l == 'd' as int then IsDigit(c) == IsLower(cl)
    else if l == 'l' as int then IsLower(c) == IsLower(cl)
    else if l == 'p' as int then IsPunct(c) == IsLower(cl)
    else if l == 's' as int then IsSpace(c) == IsLower(cl)
    else if l == 'u' as int then IsUpper(c) == IsLower(cl)
    else if l == 'w' as int then IsAlnum(c) == IsLower(cl)
    else if l == 'x' as int then IsXDigit(c) == IsLower(cl)
    else if l == 'z' as int then (c == 0) == IsLower(cl)
    else cl == c
  }

  /** The end of the set that starts at `p`, after its first character; -1 when there is none. */
  function SetEnd(pat: Bytes, p: int): (r: int)
    requires 0 <= p <= |pat|
    ensures r == -1 || p < r <= |pat|
    decreases |pat| - p
  {
    if At(pat, p) == 0 then -1
    else
      var q := if At(pat, p) == ESC && At(pat, p + 1) != 0 then p + 2 else p + 1;
      if At(pat, q) == ']' as int then q + 1 else SetEnd(pat, q)
  }

  /** classend: where the single character class at `p` ends; -1 for a malformed pattern. */
  function ClassEnd(pat: Bytes, p: int): (r: int)
    requires 0 <= p < |pat|
    ensures r == -1 || p < r <= |pat|
  {
    if At(pat, p) == ESC then (if At(pat, p + 1) == 0 then -1 else p + 2)
    else if At(pat, p) == '[' as int then SetEnd(pat, if At(pat, p + 1) == '^' as int then p + 2 else p + 1)
    else p + 1
  }

  /** Some element of the set from `p` to `ec` has the character. */
  predicate InSet(c: int, pat: Bytes, p: int, ec: int)
    decreases ec - p
  {
    if p >= ec then false
    else if At(pat, p) == ESC then MatchClass(c, At(pat, p + 1)) || InSet(c, pat, p + 2, ec)
    else if At(pat, p + 1) == '-' as int && p + 2 < ec then At(pat, p) <= c <= At(pat, p + 2) || InSet(c, pat, p + 3, ec)
    else At(pat, p) == c || InSet(c, pat, p + 1, ec)
  }

  /** matchbracketclass: `p` is at the bracket, `ec` at the closing one. */
  predicate MatchBracket(c: int, pat: Bytes, p: int, ec: int) {
    if At(pat, p + 1) == '^' as int then !InSet(c, pat, p + 2, ec) else InSet(c, pat, p + 1, ec)
  }

  /** singlematch. */
  predicate SingleMatch(c: int, pat: Bytes, p: int, ep: int) {
    if At(pat, p) == '.' as int then true
    else if At(pat, p) == ESC then MatchClass(c, At(pat, p + 1))
    else if At(pat, p) == '[' as int then MatchBracket(c, pat, p, ep - 1)
    else At(pat, p) == c
  }

  // ---------------------------------------------------------------- matching

  /** The loop of matchbalance, from `s` with `cont` open: where it closes, or -1. */
  function BalanceEnd(src: Bytes, s: int, b: int, e: int, cont: int): (r: int)
    requires 0 <= s
    ensures r == -1 || s < r <= |src|
    decreases |src| - s
  {
    if s >= |src| then -1
    else if src[s] == e then (if cont == 1 then s + 1 else BalanceEnd(src, s + 1, b, e, cont - 1))
    else BalanceEnd(src, s + 1, b, e, if src[s] == b then cont + 1 else cont)
  }

  /** capture_to_close: the last unfinished capture, or -1. */
  function ToClose(caps: seq<Cap>): (l: int)
    ensures l == -1 || (0 <= l < |caps| && caps[l].len == Unfinished)
  {
    if caps == [] then -1
    else if caps[|caps| - 1].len == Unfinished then |caps| - 1
    else ToClose(caps[..|caps| - 1])
  }

  /** match_capture: where the text of a capture, repeated at `s`, ends; -1 for no match, -2 for an error. */
  function BackRef(src: Bytes, s: int, l: int, caps: seq<Cap>): (r: int)
    requires 0 <= s <= |src|
    ensures r == -1 || r == -2 || s <= r <= |src|
  {
    var i := l - '1' as int;
    if i < 0 || i >= |caps| || caps[i].len == Unfinished then -2
    else if caps[i].len.Length? && 0 <= caps[i].len.n <= |src| - s && 0 <= caps[i].init && caps[i].init + caps[i].len.n <= |src| &&
            src[caps[i].init..caps[i].init + caps[i].len.n] == src[s..s + caps[i].len.n] then s + caps[i].len.n
    else -1
  }

  /** How often the class at `p` matches from `s` on. */
  function Repeats(src: Bytes, pat: Bytes, s: int, p: int, ep: int): (n: int)
    requires 0 <= s <= |src|
    ensures 0 <= n <= |src| - s
    decreases |src| - s
  {
    if s < |src| && SingleMatch(src[s], pat, p, ep) then 1 + Repeats(src, pat, s + 1, p, ep) else 0
  }

  /** match. */
  function DoMatch(src: Bytes, pat: Bytes, s: int, p: int, caps: seq<Cap>): Res
    requires 0 <= s <= |src| && 0 <= p <= |pat|
    decreases |pat| - p, |src| + 2
  {
    var c, d := At(pat, p), At(pat, p + 1);
    if c == '(' as int then
      if |caps| >= MAXCAPTURES then Error
      else if d == ')' as int then DoMatch(src, pat, s, p + 2, caps + [Cap(s, Position)])
      else DoMatch(src, pat, s, p + 1, caps + [Cap(s, Unfinished)])
    else if c == ')' as int then
      var l := ToClose(caps);
      if l == -1 then Error
      else DoMatch(src, pat, s, p + 1, caps[l := Cap(caps[l].init, Length(s - caps[l].init))])
    else if c == 0 then Match(s, caps)
    else if c == ESC && d == 'b' as int then
      if At(pat, p + 2) == 0 || At(pat, p + 3) == 0 then Error
      else if At(src, s) != At(pat, p + 2) then NoMatch
      else
        var e := BalanceEnd(src, s + 1, At(pat, p + 2), At(pat, p + 3), 1);
        if e == -1 then NoMatch else DoMatch(src, pat, e, p + 4, caps)
    else if c == ESC && d == 'f' as int then
      if At(pat, p + 2) != '[' as int then Error
      else
        var ep := ClassEnd(pat, p + 2);
        if ep == -1 then Error
        else if MatchBracket(At(src, s - 1), pat, p + 2, ep - 1) || !MatchBracket(At(src, s), pat, p + 2, ep - 1) then NoMatch
        else DoMatch(src, pat, s, ep, caps)
    else if c == ESC && IsDigit(d) then
      var e := BackRef(src, s, d, caps);
      if e == -2 then Error else if e == -1 then NoMatch else DoMatch(src, pat, e, p + 2, caps)
    else if c == '$' as int && d == 0 then (if s == |src| then Match(s, caps) else NoMatch)
    else
      var ep := ClassEnd(pat, p);
      if ep == -1 then Error
      else
        var m := s < |src| && SingleMatch(src[s], pat, p, ep);
        var q := At(pat, ep);
        if q == '?' as int then
          var r := if m then DoMatch(src, pat, s + 1, ep + 1, caps) else NoMatch;
          if r != NoMatch then r else DoMatch(src, pat, s, ep + 1, caps)
        else if q == '*' as int then MaxExpand(src, pat, s, Repeats(src, pat, s, p, ep), ep, caps)
        else if q == '+' as int then
          if m then MaxExpand(src, pat, s + 1, Repeats(src, pat, s + 1, p, ep), ep, caps) else NoMatch
        else if q == '-' as int then MinExpand(src, pat, s, p, ep, caps)
        else if m then DoMatch(src, pat, s + 1, ep, caps)
        else NoMatch
  }

  /** The second loop of max_expand: `i` repetitions, then fewer. */
  function MaxExpand(src: Bytes, pat: Bytes, s: int, i: int, ep: int, caps: seq<Cap>): Res
    requires 0 <= i && 0 <= s && s + i <= |src| && 0 <= ep < |pat|
    decreases |pat| - ep - 1, |src| + 3 + i
  {
    var r := DoMatch(src, pat, s + i, ep + 1, caps);
    if r != NoMatch || i == 0 then r else MaxExpand(src, pat, s, i - 1, ep, caps)
  }

  /** min_expand. */
  function MinExpand(src: Bytes, pat: Bytes, s: int, p: int, ep: int, caps: seq<Cap>): Res
    requires 0 <= s <= |src| && 0 <= ep < |pat|
    decreases |pat| - ep - 1, |src| + 3 + |src| - s
  {
    var r := DoMatch(src, pat, s, ep + 1, caps);
    if r != NoMatch then r
    else if s < |src| && SingleMatch(src[s], pat, p, ep) then MinExpand(src, pat, s + 1, p, ep, caps)
    else NoMatch
  }

  /** An item that is a class with an optional suffix. */
  predicate IsClassItem(pat: Bytes, p: int) {
    var c, d := At(pat, p), At(pat, p + 1);
    c != '(' as int && c != ')' as int && c != 0 && !(c == ESC && (d == 'b' as int || d == 'f' as int || IsDigit(d))) &&
    !(c == '$' as int && d == 0)
  }

  lemma ItemUnfold(src: Bytes, pat: Bytes, s: int, p: int, caps: seq<Cap>)
    requires 0 <= s <= |src| && 0 <= p < |pat| && IsClassItem(pat, p)
    ensures var ep := ClassEnd(pat, p);
            DoMatch(src, pat, s, p, caps) ==
              if ep == -1 then Error
              else
                var m := s < |src| && SingleMatch(src[s], pat, p, ep);
                var q := At(pat, ep);
                if q == '?' as int then
                  var r := if m then DoMatch(src, pat, s + 1, ep + 1, caps) else NoMatch;
                  if r != NoMatch then r else DoMatch(src, pat, s, ep + 1, caps)
                else if q == '*' as int then MaxExpand(src, pat, s, Repeats(src, pat, s, p, ep), ep, caps)
                else if q == '+' as int then
                  if m then MaxExpand(src, pat, s + 1, Repeats(src, pat, s + 1, p, ep), ep, caps) else NoMatch
                else if q == '-' as int then MinExpand(src, pat, s, p, ep, caps)
                else if m then DoMatch(src, pat, s + 1, ep, caps)
                else NoMatch
  {}
}
