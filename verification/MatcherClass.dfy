/** Character classes and sets of gstrlib.c (section 5.4.1 of the Lua 5.1 manual): what they mean, character by
    character. */
module MatcherClass {
  import opened Matcher

  // ---------------------------------------------------------------- named classes

  /** The digits, the small and the capital letters, hexadecimal digits, white space and punctuation. */
  const DIGITS := {'0', '1', '2', '3', '4', '5', '6', '7', '8', '9'}
  const SMALL := {'a', 'b', 'c', 'd', 'e', 'f', 'g', 'h', 'i', 'j', 'k', 'l', 'm', 'n', 'o', 'p', 'q', 'r', 's', 't', 'u', 'v',
                  'w', 'x', 'y', 'z'}
  const CAPITALS := {'A', 'B', 'C', 'D', 'E', 'F', 'G', 'H', 'I', 'J', 'K', 'L', 'M', 'N', 'O', 'P', 'Q', 'R', 'S', 'T', 'U',
                     'V', 'W', 'X', 'Y', 'Z'}
  const HEX := {'0', '1', '2', '3', '4', '5', '6', '7', '8', '9', 'a', 'b', 'c', 'd', 'e', 'f', 'A', 'B', 'C', 'D', 'E', 'F'}
  const PUNCTUATION := {'!', '"', '#', '$', '%', '&', '\'', '(', ')', '*', '+', ',', '-', '.', '/', ':', ';', '<', '=', '>', '?',
                        '@', '[', '\\', ']', '^', '_', '`', '{', '|', '}', '~'}
  const SPACES := {' ', '\t', '\n', 11 as char, 12 as char, '\r'}

  predicate OneOf(c: int, s: set<char>) { 0 <= c < 128 && c as char in s }

  /** The class of a small letter. */
  predicate Named(l: char, c: int) {
    match l
    case 'a' => OneOf(c, SMALL + CAPITALS)
    case 'c' => 0 <= c <= 31 || c == 127
    case 'd' => OneOf(c, DIGITS)
    case 'l' => OneOf(c, SMALL)
    case 'p' => OneOf(c, PUNCTUATION)
    case 's' => OneOf(c, SPACES)
    case 'u' => OneOf(c, CAPITALS)
    case 'w' => OneOf(c, SMALL + CAPITALS + DIGITS)
    case 'x' => OneOf(c, HEX)
    case 'z' => c == 0
    case _ => false
  }

  const CLASSES := {'a', 'c', 'd', 'l', 'p', 's', 'u', 'w', 'x', 'z'}

  /** `%x` has the character: `x` is the letter of a class, or its capital, which has all others, or stands for
      itself. */
  predicate EscapeHas(x: int, c: int) {
    if OneOf(x, CLASSES) then Named(x as char, c)
    else if OneOf(x + 32, CLASSES) then !Named((x + 32) as char, c)
    else c == x
  }

  lemma Letters(c: int)
    ensures IsDigit(c) <==> OneOf(c, DIGITS)
    ensures IsXDigit(c) <==> OneOf(c, HEX)
    ensures IsSpace(c) <==> OneOf(c, SPACES)
  {}

  lemma SmallLetters(c: int)
    ensures IsLower(c) <==> OneOf(c, SMALL)
  {}

  lemma CapitalLetters(c: int)
    ensures IsUpper(c) <==> OneOf(c, CAPITALS)
  {}

  lemma Punctuation(c: int)
    ensures IsPunct(c) <==> OneOf(c, PUNCTUATION)
  {}

  /** Small letters first. */
  lemma NamedMeans(l: char, c: int)
    requires l in CLASSES
    ensures Named(l, c) <==> MatchClass(c, l as int)
  {
    Letters(c);
    SmallLetters(c);
    CapitalLetters(c);
    Punctuation(c);
    hide DIGITS, SMALL, CAPITALS, HEX, PUNCTUATION, SPACES;
    assert OneOf(c, SMALL + CAPITALS) <==> OneOf(c, SMALL) || OneOf(c, CAPITALS);
    assert OneOf(c, SMALL + CAPITALS + DIGITS) <==> OneOf(c, SMALL + CAPITALS) || OneOf(c, DIGITS);
    hide OneOf;
  }

  lemma CapitalMeans(l: char, c: int)
    requires l in CLASSES
    ensures MatchClass(c, l as int - 32) <==> !MatchClass(c, l as int)
  {}

  lemma OtherMeans(x: int, c: int)
    requires !OneOf(x, CLASSES) && !OneOf(x + 32, CLASSES)
    ensures MatchClass(c, x) <==> c == x
  {
    ClassLetter(x);
    ClassLetter(x + 32);
    hide OneOf;
  }

  lemma ClassLetter(x: int)
    ensures OneOf(x, CLASSES) <==> x == 97 || x == 99 || x == 100 || x == 108 || x == 112 || x == 115 || x == 117 || x == 119 || x == 120 || x == 122
  {}

  lemma ClassMeans(c: int, x: int)
    ensures MatchClass(c, x) <==> EscapeHas(x, c)
  {
    hide Named, MatchClass;
    if OneOf(x, CLASSES) {
      NamedMeans(x as char, c);
    } else if OneOf(x + 32, CLASSES) {
      NamedMeans((x + 32) as char, c);
      CapitalMeans((x + 32) as char, c);
    } else {
      OtherMeans(x, c);
    }
  }

  /** The laws of the manual: capitals are complements, letters are small or capital, alphanumeric ones letters or
      digits, and every byte is alphanumeric, punctuation, the space, a control character or above 127, and only one of
      these. */
  lemma ClassLaws(c: int, l: char)
    requires l in CLASSES
    ensures MatchClass(c, l as int - 32) <==> !MatchClass(c, l as int)
    ensures MatchClass(c, 'a' as int) <==> MatchClass(c, 'l' as int) || MatchClass(c, 'u' as int)
    ensures MatchClass(c, 'w' as int) <==> MatchClass(c, 'a' as int) || MatchClass(c, 'd' as int)
    ensures 0 <= c < 256 ==>
              (if MatchClass(c, 'w' as int) then 1 else 0) + (if MatchClass(c, 'p' as int) then 1 else 0) +
              (if c == ' ' as int then 1 else 0) + (if MatchClass(c, 'c' as int) then 1 else 0) + (if c > 127 then 1 else 0) == 1
  {}

  // ---------------------------------------------------------------- sets

  /** An item of a set: a character, a range with both its ends, or an escaped class. */
  datatype SetItem = Char(c: int) | Range(lo: int, hi: int) | Escape(x: int)

  predicate ItemHas(i: SetItem, c: int) {
    match i
    case Char(d) => c == d
    case Range(lo, hi) => lo <= c && c <= hi
    case Escape(x) => EscapeHas(x, c)
  }

  /** The items of a set between `p` and its closing bracket at `ec`. */
  function Items(pat: Bytes, p: int, ec: int): seq<SetItem>
    decreases ec - p
  {
    if p >= ec then []
    else if At(pat, p) == ESC then [Escape(At(pat, p + 1))] + Items(pat, p + 2, ec)
    else if At(pat, p + 1) == '-' as int && p + 2 < ec then [Range(At(pat, p), At(pat, p + 2))] + Items(pat, p + 3, ec)
    else [Char(At(pat, p))] + Items(pat, p + 1, ec)
  }

  ghost predicate SomeItem(items: seq<SetItem>, c: int) { exists i | 0 <= i < |items| :: ItemHas(items[i], c) }

  lemma SomeItemMore(x: SetItem, items: seq<SetItem>, c: int)
    ensures SomeItem([x] + items, c) <==> ItemHas(x, c) || SomeItem(items, c)
  {
    var all := [x] + items;
    if SomeItem(items, c) {
      var i :| 0 <= i < |items| && ItemHas(items[i], c);
      assert all[i + 1] == items[i];
    }
    if ItemHas(x, c) { assert all[0] == x; }
  }

  /** matchbracketclass looks for an item that has the character. */
  lemma {:induction false} ItemsIff(c: int, pat: Bytes, p: int, ec: int)
    ensures InSet(c, pat, p, ec) <==> SomeItem(Items(pat, p, ec), c)
    decreases ec - p
  {
    hide SomeItem, EscapeHas, MatchClass;
    if p >= ec {
      NoItem(c);
    } else if At(pat, p) == ESC {
      ClassMeans(c, At(pat, p + 1));
      ItemsIff(c, pat, p + 2, ec);
      SomeItemMore(Escape(At(pat, p + 1)), Items(pat, p + 2, ec), c);
    } else if At(pat, p + 1) == '-' as int && p + 2 < ec {
      ItemsIff(c, pat, p + 3, ec);
      SomeItemMore(Range(At(pat, p), At(pat, p + 2)), Items(pat, p + 3, ec), c);
    } else {
      ItemsIff(c, pat, p + 1, ec);
      SomeItemMore(Char(At(pat, p)), Items(pat, p + 1, ec), c);
    }
  }

  lemma NoItem(c: int)
    ensures !SomeItem([], c)
  {}

  // ---------------------------------------------------------------- what one item of a pattern matches

  /** A single character class: any character, a character, an escaped one, or a set. */
  datatype Single = Any | Lit(c: int) | Esc(x: int) | Set(negated: bool, items: seq<SetItem>)

  ghost predicate Has(s: Single, c: int) {
    match s
    case Any => true
    case Lit(d) => c == d
    case Esc(x) => EscapeHas(x, c)
    case Set(negated, items) => SomeItem(items, c) != negated
  }

  function SetAt(pat: Bytes, p: int, ec: int): Single {
    if At(pat, p + 1) == '^' as int then Set(true, Items(pat, p + 2, ec)) else Set(false, Items(pat, p + 1, ec))
  }

  /** The class at `p`, which ends before `ep`. */
  function SingleAt(pat: Bytes, p: int, ep: int): Single {
    if At(pat, p) == '.' as int then Any
    else if At(pat, p) == ESC then Esc(At(pat, p + 1))
    else if At(pat, p) == '[' as int then SetAt(pat, p, ep - 1)
    else Lit(At(pat, p))
  }

  /** A set matches what some item of it has, or, after `^`, what none has. */
  lemma SetMeans(c: int, pat: Bytes, p: int, ec: int)
    ensures MatchBracket(c, pat, p, ec) <==> Has(SetAt(pat, p, ec), c)
  {
    hide InSet, Items, SomeItem;
    ItemsIff(c, pat, p + 2, ec);
    ItemsIff(c, pat, p + 1, ec);
  }

  lemma SingleMeans(c: int, pat: Bytes, p: int, ep: int)
    ensures SingleMatch(c, pat, p, ep) <==> Has(SingleAt(pat, p, ep), c)
  {
    hide MatchBracket, SetAt, EscapeHas, MatchClass, SomeItem;
    ClassMeans(c, At(pat, p + 1));
    SetMeans(c, pat, p, ep - 1);
  }

  // ---------------------------------------------------------------- where a class ends

  /** A set is read in units: an escape with its character, or one character. */
  function Unit(pat: Bytes, p: int): int { if At(pat, p) == ESC && At(pat, p + 1) != 0 then p + 2 else p + 1 }

  /** Starts of units, one after the other, before the end of the pattern. */
  predicate Units(pat: Bytes, us: seq<int>) {
    |us| > 0 && forall i | 0 <= i < |us| - 1 :: At(pat, us[i]) != 0 && us[i + 1] == Unit(pat, us[i])
  }

  /** A set whose first unit is at `p` ends with the first bracket that is a unit of its own, the first unit aside. */
  ghost predicate SetEndsAt(pat: Bytes, p: int, r: int) { exists us: seq<int> :: SetUnits(pat, p, r, us) }

  predicate SetUnits(pat: Bytes, p: int, r: int, us: seq<int>) {
    |us| >= 2 && us[0] == p && Units(pat, us) && us[|us| - 1] == r - 1 && At(pat, r - 1) == ']' as int &&
    forall i | 0 < i < |us| - 1 :: At(pat, us[i]) != ']' as int
  }

  lemma {:induction false} SetEndFinds(pat: Bytes, p: int)
    requires 0 <= p <= |pat| && SetEnd(pat, p) != -1
    ensures SetEndsAt(pat, p, SetEnd(pat, p))
    decreases |pat| - p
  {
    var q, r := Unit(pat, p), SetEnd(pat, p);
    if At(pat, q) == ']' as int {
      assert SetUnits(pat, p, r, [p, q]);
    } else {
      SetEndFinds(pat, q);
      var us :| SetUnits(pat, q, r, us);
      var vs := [p] + us;
      forall i | 0 <= i < |vs| - 1
        ensures At(pat, vs[i]) != 0 && vs[i + 1] == Unit(pat, vs[i])
      {
        if i > 0 { assert vs[i] == us[i - 1]; }
      }
      forall i | 0 < i < |vs| - 1 ensures At(pat, vs[i]) != ']' as int { assert vs[i] == us[i - 1]; }
      assert SetUnits(pat, p, r, vs);
    }
  }

  lemma {:induction false} SetEndOnly(pat: Bytes, p: int, r: int, us: seq<int>)
    requires 0 <= p <= |pat| && SetUnits(pat, p, r, us)
    ensures SetEnd(pat, p) == r
    decreases |pat| - p
  {
    assert At(pat, us[0]) != 0 && us[1] == Unit(pat, us[0]);
    if |us| > 2 {
      var vs := us[1..];
      forall i | 0 <= i < |vs| - 1 ensures At(pat, vs[i]) != 0 && vs[i + 1] == Unit(pat, vs[i]) {
        assert At(pat, us[i + 1]) != 0 && us[i + 2] == Unit(pat, us[i + 1]);
      }
      forall i | 0 < i < |vs| - 1 ensures At(pat, vs[i]) != ']' as int { assert At(pat, us[i + 1]) != ']' as int; }
      assert At(pat, us[1]) != ']' as int;
      SetEndOnly(pat, us[1], r, vs);
    }
  }

  /** classend: an escape takes two characters, a set ends at its bracket, all else is one character; nothing else is an
      end. */
  lemma ClassEndIff(pat: Bytes, p: int, r: int)
    requires 0 <= p < |pat| && r >= 0
    ensures ClassEnd(pat, p) == r <==>
            if At(pat, p) == ESC then At(pat, p + 1) != 0 && r == p + 2
            else if At(pat, p) == '[' as int then SetEndsAt(pat, if At(pat, p + 1) == '^' as int then p + 2 else p + 1, r)
            else r == p + 1
  {
    if At(pat, p) == '[' as int {
      var f := if At(pat, p + 1) == '^' as int then p + 2 else p + 1;
      if SetEnd(pat, f) == r { SetEndFinds(pat, f); }
      if SetEndsAt(pat, f, r) {
        var us :| SetUnits(pat, f, r, us);
        SetEndOnly(pat, f, r, us);
      }
    }
  }
}
