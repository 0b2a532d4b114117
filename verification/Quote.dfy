/** The %q format of gstrlib.c, and the lexer of glex.c reading its output back. */
module Quote {

  type Byte = b: int | 0 <= b < 256
  type Bytes = seq<Byte>

  const QUOTE: Byte := 34
  const BACKSLASH: Byte := 92
  const LF: Byte := 10
  const CR: Byte := 13
  const EOZ := -1
  const MAX_INT := 2147483645

  // ---------------------------------------------------------------- addquoted

  function QuoteByte(b: Byte): Bytes {
    if b == QUOTE || b == BACKSLASH || b == LF then [BACKSLASH, b]
    else if b == CR then [BACKSLASH, 'r' as Byte]
    else if b == 0 then [BACKSLASH, '0' as Byte, '0' as Byte, '0' as Byte]
    else [b]
  }

  function Body(s: Bytes): Bytes { if s == [] then [] else QuoteByte(s[0]) + Body(s[1..]) }

  function Quoted(s: Bytes): Bytes { [QUOTE] + Body(s) + [QUOTE] }

  lemma BodyNext(r: Bytes, s: Bytes)
    requires s != []
    ensures r + Body(s) == r + QuoteByte(s[0]) + Body(s[1..])
  {
    hide QuoteByte;
    assert r + (QuoteByte(s[0]) + Body(s[1..])) == r + QuoteByte(s[0]) + Body(s[1..]);
  }

  /** addquoted. */
  method AddQuoted(b: Bytes, s: Bytes) returns (r: Bytes)
    ensures r == b + Quoted(s)
  {
    r := b + [QUOTE];
    var i := 0;
    while i < |s|
      invariant 0 <= i <= |s| && r + Body(s[i..]) == b + [QUOTE] + Body(s)
    {
      var c := s[i];
      assert s[i..][1..] == s[i + 1..];
      BodyNext(r, s[i..]);
      if c == QUOTE || c == BACKSLASH || c == LF {
        r := r + [BACKSLASH, c];
      } else if c == CR {
        r := r + [BACKSLASH, 'r' as Byte];
      } else if c == 0 {
        r := r + [BACKSLASH, '0' as Byte, '0' as Byte, '0' as Byte];
      } else {
        r := r + [c];
      }
      i := i + 1;
    }
    assert r == b + [QUOTE] + Body(s);
    r := r + [QUOTE];
  }

  // ---------------------------------------------------------------- read_string

  /** The token read, the line, and what comes after it; or an error. */
  datatype Lexed = Token(s: Bytes, line: int, rest: Bytes) | Unfinished | TooLarge | TooManyLines

  function Current(r: Bytes): int { if r == [] then EOZ else r[0] }

  predicate IsDigit(c: int) { 48 <= c <= 57 }

  function EscapeOf(c: int): int {
    if c == 'a' as int then 7 else if c == 'b' as int then 8 else if c == 'f' as int then 12 else if c == 'n' as int then 10
    else if c == 'r' as int then 13 else if c == 't' as int then 9 else if c == 'v' as int then 11 else -1
  }

  /** The letters stand for the control characters from 7 on, in the order bell, backspace, tab, line feed, vertical
      tab, form feed, carriage return; nothing else does. */
  lemma EscapeLetters(c: int)
    ensures forall i | 0 <= i < 7 :: EscapeOf("abtnvfr"[i] as int) == 7 + i
    ensures EscapeOf('n' as int) == '\n' as int && EscapeOf('r' as int) == '\r' as int
    ensures EscapeOf('t' as int) == '\t' as int
    ensures EscapeOf(c) >= 0 ==> exists i | 0 <= i < 7 :: c == "abtnvfr"[i] as int
  {
    var l := "abtnvfr";
    assert l[0] == 'a' && l[1] == 'b' && l[2] == 't' && l[3] == 'n' && l[4] == 'v' && l[5] == 'f' && l[6] == 'r';
  }

  /** What inclinenumber skips: a line end, and another one that is its counterpart. */
  function SkipLine(r: Bytes): (q: Bytes)
    requires r != []
    ensures |q| < |r|
  {
    if |r| > 1 && (r[1] == LF || r[1] == CR) && r[1] != r[0] then r[2..] else r[1..]
  }

  /** Up to three digits: how many, and their value. */
  function Digits(r: Bytes, n: nat, c: nat): (nat, nat)
    requires n <= 3
    decreases 3 - n
  {
    if n < 3 && IsDigit(Current(r)) then Digits(r[1..], n + 1, 10 * c + (r[0] - 48)) else (n, c)
  }

  lemma {:induction false} DigitsBound(r: Bytes, n: nat, c: nat)
    requires n <= 3
    ensures n <= Digits(r, n, c).0 <= 3 && Digits(r, n, c).0 - n <= |r|
    decreases 3 - n
  {
    if n < 3 && IsDigit(Current(r)) { DigitsBound(r[1..], n + 1, 10 * c + (r[0] - 48)); }
  }

  lemma DigitsNext(d: nat, r: Bytes, n: nat, c: nat)
    requires d <= 9 && n < 3
    ensures Digits([48 + d] + r, n, c) == Digits(r, n + 1, 10 * c + d)
  {
    assert ([48 + d] + r)[1..] == r;
  }

  lemma DigitsEnd(r: Bytes, n: nat, c: nat)
    requires n <= 3
    ensures n == 3 || !IsDigit(Current(r)) ==> Digits(r, n, c) == (n, c)
  {}

  /** A decimal escape is the number that its digits, one to three of them, write. */
  lemma DigitsMean(x: nat, y: nat, z: nat, rest: Bytes)
    requires x <= 9 && y <= 9 && z <= 9
    ensures Digits([48 + x] + ([48 + y] + ([48 + z] + rest)), 0, 0) == (3, 100 * x + 10 * y + z)
    ensures !IsDigit(Current(rest)) ==> Digits([48 + x] + ([48 + y] + rest), 0, 0) == (2, 10 * x + y)
    ensures !IsDigit(Current(rest)) ==> Digits([48 + x] + rest, 0, 0) == (1, x)
  {
    hide Digits;
    DigitsEnd(rest, 3, 100 * x + 10 * y + z);
    DigitsEnd(rest, 2, 10 * x + y);
    DigitsEnd(rest, 1, x);
    DigitsNext(x, [48 + y] + ([48 + z] + rest), 0, 0);
    DigitsNext(y, [48 + z] + rest, 1, x);
    DigitsNext(z, rest, 2, 10 * x + y);
    DigitsNext(x, [48 + y] + rest, 0, 0);
    DigitsNext(y, rest, 1, x);
    DigitsNext(x, rest, 0, 0);
  }

  /** read_string, from within the string: `buf` is what was saved after the delimiter. */
  function ReadString(r: Bytes, del: int, line: int, buf: Bytes): Lexed
    decreases |r|
  {
    var c := Current(r);
    if c == EOZ then Unfinished
    else if c == del then Token(buf, line, r[1..])
    else if c == LF || c == CR then Unfinished
    else if c != BACKSLASH then ReadString(r[1..], del, line, buf + [r[0]])
    else
      var q := r[1..];
      var d := Current(q);
      if d == EOZ then Unfinished
      else if EscapeOf(d) >= 0 then ReadString(q[1..], del, line, buf + [EscapeOf(d)])
      else if d == LF || d == CR then
        if line + 1 >= MAX_INT then TooManyLines else ReadString(SkipLine(q), del, line + 1, buf + [LF])
      else if !IsDigit(d) then ReadString(q[1..], del, line, buf + [q[0]])
      else
        DigitsBound(q, 0, 0);
        var (n, v) := Digits(q, 0, 0);
        if v > 255 then TooLarge else ReadString(q[n..], del, line, buf + [v])
  }

  // ---------------------------------------------------------------- round trip

  function Newlines(s: Bytes): nat { if s == [] then 0 else (if s[0] == LF then 1 else 0) + Newlines(s[1..]) }

  /** The line counter does not overflow. */
  predicate Fits(s: Bytes, line: int) { Newlines(s) == 0 || line + Newlines(s) < MAX_INT }

  /** One byte read back. */
  lemma ByteBack(b: Byte, tail: Bytes, line: int, buf: Bytes)
    requires tail != [] && tail[0] != CR && tail[0] != LF
    ensures ReadString(QuoteByte(b) + tail, QUOTE, line, buf) ==
            if b == LF && line + 1 >= MAX_INT then TooManyLines else ReadString(tail, QUOTE, if b == LF then line + 1 else line, buf + [b])
  {
    var r := QuoteByte(b) + tail;
    if b == 0 {
      var q := r[1..];
      assert q[0] == 48 && q[1] == 48 && q[2] == 48 && q[3..] == tail;
      assert Digits(q[1..][1..][1..], 3, 0) == (3, 0);
      assert Digits(q[1..][1..], 2, 0) == (3, 0);
      assert Digits(q[1..], 1, 0) == (3, 0);
    } else if b == QUOTE || b == BACKSLASH || b == LF || b == CR {
      assert r[1..][1..] == tail;
    } else {
      assert r[1..] == tail;
    }
  }

  lemma BodyStart(s: Bytes, rest: Bytes)
    ensures var t := Body(s) + [QUOTE] + rest; t != [] && t[0] != CR && t[0] != LF
  {}

  lemma EndBack(rest: Bytes, line: int, buf: Bytes)
    ensures ReadString([QUOTE] + rest, QUOTE, line, buf) == Token(buf, line, rest)
  {
    assert ([QUOTE] + rest)[1..] == rest;
  }

  /** Reading back the body of a quoted string, and its closing quote: the bytes exactly, unless there are too many
      lines. */
  lemma {:induction false} ReadBack(s: Bytes, rest: Bytes, line: int, buf: Bytes)
    ensures ReadString(Body(s) + [QUOTE] + rest, QUOTE, line, buf) ==
            if Fits(s, line) then Token(buf + s, line + Newlines(s), rest) else TooManyLines
    decreases |s|
  {
    hide ReadString, QuoteByte;
    if s == [] {
      assert Body(s) + [QUOTE] + rest == [QUOTE] + rest && buf + s == buf;
      EndBack(rest, line, buf);
    } else {
      var tail := Body(s[1..]) + [QUOTE] + rest;
      assert Body(s) + [QUOTE] + rest == QuoteByte(s[0]) + tail;
      hide Body;
      BodyStart(s[1..], rest);
      ByteBack(s[0], tail, line, buf);
      ReadBack(s[1..], rest, if s[0] == LF then line + 1 else line, buf + [s[0]]);
      assert buf + [s[0]] + s[1..] == buf + s;
    }
  }

  /** What the lexer does with a string literal: it is at the opening delimiter. */
  function ReadLiteral(r: Bytes, line: int): Lexed
    requires r != []
  {
    ReadString(r[1..], r[0], line, [])
  }

  /** For every byte string, reading the quoted form gives it back exactly when its line ends do not overflow the line
      counter. */
  lemma RoundTrip(s: Bytes, rest: Bytes, line: int)
    ensures ReadLiteral(Quoted(s) + rest, line) == Token(s, line + Newlines(s), rest) <==> Fits(s, line)
    ensures !Fits(s, line) ==> ReadLiteral(Quoted(s) + rest, line) == TooManyLines
  {
    var r := Quoted(s) + rest;
    assert r[1..] == Body(s) + [QUOTE] + rest;
    ReadBack(s, rest, line, []);
    assert [] + s == s;
  }

  // ---------------------------------------------------------------- in place

  class LexState {
    /** What is left of the input, with the current character first; the line; the token buffer. */
    var input: Bytes
    var linenumber: int
    var buff: Bytes

    constructor (input: Bytes)
      ensures this.input == input && linenumber == 1 && buff == []
    {
      this.input, linenumber, buff := input, 1, [];
    }

    /** The state stands for the result; `start` is where the token began in the buffer. */
    ghost predicate Gives(r: Lexed, res: Lexed)
      reads this
    {
      if res.Token? then r == res && linenumber == res.line && input == res.rest else r == res
    }

    method Next()
      requires input != []
      modifies this`input
      ensures input == old(input)[1..]
    {
      input := input[1..];
    }

    /** inclinenumber; false when there are too many lines. */
    method IncLineNumber() returns (ok: bool)
      requires input != [] && (input[0] == LF || input[0] == CR)
      modifies this`input, this`linenumber
      ensures input == SkipLine(old(input)) && linenumber == old(linenumber) + 1 && ok == (linenumber < MAX_INT)
    {
      var was := input[0];
      Next();
      if input != [] && (input[0] == LF || input[0] == CR) && input[0] != was { Next(); }
      linenumber := linenumber + 1;
      return linenumber < MAX_INT;
    }

    /** The loop for \\ddd. */
    method ReadDigits() returns (c: nat)
      requires input != [] && IsDigit(input[0])
      modifies this`input
      ensures var (n, v) := Digits(old(input), 0, 0); c == v && n <= |old(input)| && input == old(input)[n..]
    {
      ghost var all := input;
      DigitsBound(all, 0, 0);
      c := 0;
      var i := 0;
      while i < 3 && input != [] && IsDigit(input[0])
        invariant 0 <= i <= 3 && i <= |all| && input == all[i..] && Digits(input, i, c) == Digits(all, 0, 0)
        decreases 3 - i
      {
        c := 10 * c + (input[0] - 48);
        Next();
        assert all[i..][1..] == all[i + 1..];
        i := i + 1;
      }
    }

    /** read_string: the delimiters are saved too, and cut off at the end. */
    method ReadToken(del: Byte) returns (r: Lexed)
      requires input != [] && input[0] == del && buff == []
      modifies this
      ensures Gives(r, ReadLiteral(old(input), old(linenumber)))
    {
      ghost var res := ReadLiteral(input, linenumber);
      buff := buff + [input[0]];
      Next();
      assert buff[1..] == [] && input == old(input)[1..];
      while Current(input) != del
        invariant buff != [] && buff[0] == del && ReadString(input, del, linenumber, buff[1..]) == res
        decreases |input|
      {
        var c := Current(input);
        if c == EOZ || c == LF || c == CR { return Unfinished; }
        if c != BACKSLASH {
          assert (buff + [input[0]])[1..] == buff[1..] + [input[0]];
          buff := buff + [input[0]];
          Next();
        } else {
          Next();
          var d := Current(input);
          if d == EOZ { return Unfinished; }
          if EscapeOf(d) >= 0 {
            assert (buff + [EscapeOf(d) as Byte])[1..] == buff[1..] + [EscapeOf(d) as Byte];
            buff := buff + [EscapeOf(d) as Byte];
            Next();
          } else if d == LF || d == CR {
            assert (buff + [LF])[1..] == buff[1..] + [LF];
            buff := buff + [LF];
            var ok := IncLineNumber();
            if !ok { return TooManyLines; }
          } else if !IsDigit(d) {
            assert (buff + [input[0]])[1..] == buff[1..] + [input[0]];
            buff := buff + [input[0]];
            Next();
          } else {
            DigitsBound(input, 0, 0);
            var v := ReadDigits();
            if v > 255 { return TooLarge; }
            assert (buff + [v as Byte])[1..] == buff[1..] + [v as Byte];
            buff := buff + [v as Byte];
          }
        }
      }
      buff := buff + [input[0]];
      Next();
      assert buff[1..|buff| - 1] == buff[1..][..|buff| - 2];
      return Token(buff[1..|buff| - 1], linenumber, input);
    }
  }
}
