/** Loading a dumped function gives it back. */
module DumpProof {
  import opened CheckCode
  import opened Dump

  // ---------------------------------------------------------------- the pieces

  lemma Front(a: Bytes, b: Bytes)
    ensures (a + b)[..|a|] == a && (a + b)[|a|..] == b
  {}

  lemma Assoc(a: Bytes, b: Bytes, c: Bytes)
    ensures a + b + c == a + (b + c)
  {}

  lemma IntBack(x: int, rest: Bytes)
    requires Nat32(x)
    ensures LoadInt(EncInt(x) + rest) == Got(x, rest)
  {
    Front(EncInt(x), rest);
    SignedEnc(x);
  }

  lemma StringBack(s: Option<Bytes>, rest: Bytes)
    requires StringOk(s)
    ensures LoadString(DumpString(s) + rest) == Got(s, rest)
  {
    Pow256Four();
    DecEnc(0, 8);
    if s.None? { Front(Enc(0, 8), rest); }
    else { SomeBack(s.v, rest); }
  }

  lemma SomeBack(s: Bytes, rest: Bytes)
    requires |s| + 1 < INT_RANGE * INT_RANGE
    ensures LoadString(Enc(|s| + 1, 8) + s + [0] + rest) == Got(Some(s), rest)
  {
    Pow256Four();
    DecEnc(|s| + 1, 8);
    Cut(Enc(|s| + 1, 8), s, [0], rest);
    hide Enc, Dec, Pow256;
    var b := Enc(|s| + 1, 8) + s + [0] + rest;
    assert Dec(b[..8]) == |s| + 1;
  }

  lemma Cut(e: Bytes, s: Bytes, z: Bytes, rest: Bytes)
    ensures var b := e + s + z + rest;
            b[..|e|] == e && b[|e|..|e| + |s|] == s && b[|e| + |s| + |z|..] == rest
  {}

  lemma {:induction false} WordsBack(ws: seq<Word>, rest: Bytes)
    ensures LoadWords(DumpWords(ws) + rest, |ws|) == Got(ws, rest)
    decreases |ws|
  {
    if ws == [] { assert DumpWords(ws) + rest == rest; }
    else {
      Pow256Four();
      DecEnc(ws[0], 4);
      hide Enc, Dec;
      Assoc(Enc(ws[0], 4), DumpWords(ws[1..]), rest);
      Front(Enc(ws[0], 4), DumpWords(ws[1..]) + rest);
      WordsBack(ws[1..], rest);
      assert [ws[0]] + ws[1..] == ws;
    }
  }

  lemma {:induction false} IntsBack(xs: seq<int>, rest: Bytes)
    requires forall i | 0 <= i < |xs| :: IsInt(xs[i])
    ensures LoadInts(DumpInts(xs) + rest, |xs|) == Got(xs, rest)
    decreases |xs|
  {
    if xs == [] { assert DumpInts(xs) + rest == rest; }
    else {
      SignedEnc(xs[0]);
      assert |EncInt(xs[0])| == 4;
      hide EncInt, Dec, Signed, IsInt;
      Assoc(EncInt(xs[0]), DumpInts(xs[1..]), rest);
      Front(EncInt(xs[0]), DumpInts(xs[1..]) + rest);
      IntsBack(xs[1..], rest);
      assert [xs[0]] + xs[1..] == xs;
    }
  }

  lemma ConstBack(k: Const, rest: Bytes)
    requires ConstOk(k)
    ensures LoadConst(DumpConst(k) + rest) == Got(k, rest)
  {
    match k
    case KNil =>
    case KBool(x) =>
    case KNum(bits) => NumBack(bits, rest);
    case KStr(s) =>
      StringBack(Some(s), rest);
      hide DumpString, LoadString;
      Assoc([TSTRING], DumpString(Some(s)), rest);
      Front([TSTRING], DumpString(Some(s)) + rest);
  }

  lemma NumBack(bits: nat, rest: Bytes)
    requires bits < INT_RANGE * INT_RANGE
    ensures LoadConst([TNUMBER] + Enc(bits, 8) + rest) == Got(KNum(bits), rest)
  {
    Pow256Four();
    DecEnc(bits, 8);
    hide Enc, Dec, Pow256;
    var b := [TNUMBER] + Enc(bits, 8) + rest;
    assert b[1..9] == Enc(bits, 8) && b[9..] == rest;
  }

  lemma {:induction false} ConstsBack(ks: seq<Const>, rest: Bytes)
    requires forall i | 0 <= i < |ks| :: ConstOk(ks[i])
    ensures LoadConsts(DumpConsts(ks) + rest, |ks|) == Got(ks, rest)
    decreases |ks|
  {
    if ks == [] { assert DumpConsts(ks) + rest == rest; }
    else {
      hide DumpConst, LoadConst, ConstOk;
      Assoc(DumpConst(ks[0]), DumpConsts(ks[1..]), rest);
      ConstBack(ks[0], DumpConsts(ks[1..]) + rest);
      ConstsBack(ks[1..], rest);
      assert [ks[0]] + ks[1..] == ks;
    }
  }

  lemma LocVarBack(v: LocVar, rest: Bytes)
    requires LocVarOk(v)
    ensures LoadLocVar(DumpLocVar(v) + rest) == Got(v, rest)
  {
    hide DumpString, LoadString, LoadInt, EncInt, StringOk;
    var b2 := EncInt(v.endpc) + rest;
    var b1 := EncInt(v.startpc) + b2;
    Assoc(DumpString(v.name) + EncInt(v.startpc), EncInt(v.endpc), rest);
    Assoc(DumpString(v.name), EncInt(v.startpc), b2);
    StringBack(v.name, b1);
    IntBack(v.startpc, b2);
    IntBack(v.endpc, rest);
  }

  lemma {:induction false} LocVarsBack(vs: seq<LocVar>, rest: Bytes)
    requires forall i | 0 <= i < |vs| :: LocVarOk(vs[i])
    ensures LoadLocVars(DumpLocVars(vs) + rest, |vs|) == Got(vs, rest)
    decreases |vs|
  {
    if vs == [] { assert DumpLocVars(vs) + rest == rest; }
    else {
      hide DumpLocVar, LoadLocVar, LocVarOk;
      var tail := DumpLocVars(vs[1..]) + rest;
      Assoc(DumpLocVar(vs[0]), DumpLocVars(vs[1..]), rest);
      LocVarBack(vs[0], tail);
      LocVarsBack(vs[1..], rest);
      LocVarsStep(DumpLocVar(vs[0]) + tail, vs[0], tail, vs[1..], rest);
      assert [vs[0]] + vs[1..] == vs;
    }
  }

  lemma LocVarsStep(b: Bytes, v: LocVar, tail: Bytes, vs: seq<LocVar>, rest: Bytes)
    requires LoadLocVar(b) == Got(v, tail) && LoadLocVars(tail, |vs|) == Got(vs, rest)
    ensures LoadLocVars(b, |vs| + 1) == Got([v] + vs, rest)
  {
    hide LoadLocVar;
  }

  lemma {:induction false} NamesBack(ns: seq<Option<Bytes>>, rest: Bytes)
    requires forall i | 0 <= i < |ns| :: StringOk(ns[i])
    ensures LoadNames(DumpNames(ns) + rest, |ns|) == Got(ns, rest)
    decreases |ns|
  {
    if ns == [] { assert DumpNames(ns) + rest == rest; }
    else {
      hide DumpString, LoadString, StringOk;
      Assoc(DumpString(ns[0]), DumpNames(ns[1..]), rest);
      StringBack(ns[0], DumpNames(ns[1..]) + rest);
      NamesBack(ns[1..], rest);
      assert [ns[0]] + ns[1..] == ns;
    }
  }

  // ---------------------------------------------------------------- functions

  predicate DebugOk(f: Func) {
    |f.lineinfo| <= MAX_INT32 && |f.locvars| <= MAX_INT32 && |f.upvalues| <= MAX_INT32 &&
    (forall i | 0 <= i < |f.lineinfo| :: IsInt(f.lineinfo[i])) &&
    (forall i | 0 <= i < |f.locvars| :: LocVarOk(f.locvars[i])) &&
    (forall i | 0 <= i < |f.upvalues| :: StringOk(f.upvalues[i]))
  }

  lemma DebugBack(f: Func, strip: bool, rest: Bytes)
    requires DebugOk(f)
    ensures LoadDebug(DumpDebug(f, strip) + rest) == Got(if strip then Debug([], [], []) else Debug(f.lineinfo, f.locvars, f.upvalues), rest)
  {
    var li, lv, up := if strip then [] else f.lineinfo, if strip then [] else f.locvars, if strip then [] else f.upvalues;
    hide LoadInt, EncInt, IsInt, LocVarOk, StringOk, DumpInts, LoadInts, DumpLocVars, LoadLocVars, DumpNames, LoadNames;
    var b5 := DumpNames(up) + rest;
    var b4 := EncInt(|up|) + b5;
    var b3 := DumpLocVars(lv) + b4;
    var b2 := EncInt(|lv|) + b3;
    var b1 := DumpInts(li) + b2;
    assert DumpDebug(f, strip) + rest == EncInt(|li|) + b1 by {
      var x1 := EncInt(|li|) + DumpInts(li);
      var x2 := x1 + EncInt(|lv|);
      var x3 := x2 + DumpLocVars(lv);
      var x4 := x3 + EncInt(|up|);
      Assoc(x4, DumpNames(up), rest);
      Assoc(x3, EncInt(|up|), b5);
      Assoc(x2, DumpLocVars(lv), b4);
      Assoc(x1, EncInt(|lv|), b3);
      Assoc(EncInt(|li|), DumpInts(li), b2);
    }
    IntBack(|li|, b1);
    IntsBack(li, b2);
    IntBack(|lv|, b3);
    LocVarsBack(lv, b4);
    IntBack(|up|, b5);
    NamesBack(up, rest);
  }

  predicate HeadOk(f: Func) {
    StringOk(Some(f.source)) && Nat32(f.linedefined) && Nat32(f.lastlinedefined) && |f.code| <= MAX_INT32 &&
    |f.k| <= MAX_INT32 && |f.p| <= MAX_INT32 &&
    forall i | 0 <= i < |f.k| :: ConstOk(f.k[i])
  }

  function HeadOf(f: Func, source: Bytes): (h: Head)
    requires HeadOk(f)
    ensures h.source == source && h.sizep == |f.p|
  {
    Head(source, f.linedefined, f.lastlinedefined, f.nups, f.numparams, f.vararg, f.maxstack, f.code, f.k, |f.p|)
  }

  lemma HeadBack(f: Func, parent: Option<Bytes>, strip: bool, inherited: Bytes, rest: Bytes)
    requires HeadOk(f)
    ensures var s := SourceOf(f, parent, strip);
            LoadHead(DumpHead(f, parent, strip) + rest, inherited) == Got(HeadOf(f, if s.None? then inherited else s.v), rest)
  {
    var s := SourceOf(f, parent, strip);
    assert StringOk(s);
    hide LoadInt, EncInt, ConstOk, LoadString, DumpString, LoadWords, DumpWords, LoadConsts, DumpConsts, StringOk;
    var bytes := [f.nups, f.numparams, f.vararg, f.maxstack];
    var b8 := EncInt(|f.p|) + rest;
    var b7 := DumpConsts(f.k) + b8;
    var b6 := EncInt(|f.k|) + b7;
    var b5 := DumpWords(f.code) + b6;
    var b4 := EncInt(|f.code|) + b5;
    var b3 := bytes + b4;
    var b2 := EncInt(f.lastlinedefined) + b3;
    var b1 := EncInt(f.linedefined) + b2;
    assert DumpHead(f, parent, strip) + rest == DumpString(s) + b1 by {
      var x1 := DumpString(s) + EncInt(f.linedefined);
      var x2 := x1 + EncInt(f.lastlinedefined);
      var x3 := x2 + bytes;
      var x4 := x3 + EncInt(|f.code|);
      var x5 := x4 + DumpWords(f.code);
      var x6 := x5 + EncInt(|f.k|);
      var x7 := x6 + DumpConsts(f.k);
      Assoc(x7, EncInt(|f.p|), rest);
      Assoc(x6, DumpConsts(f.k), b8);
      Assoc(x5, EncInt(|f.k|), b7);
      Assoc(x4, DumpWords(f.code), b6);
      Assoc(x3, EncInt(|f.code|), b5);
      Assoc(x2, bytes, b4);
      Assoc(x1, EncInt(f.lastlinedefined), b3);
      Assoc(DumpString(s), EncInt(f.linedefined), b2);
    }
    StringBack(s, b1);
    IntBack(f.linedefined, b2);
    IntBack(f.lastlinedefined, b3);
    Front(bytes, b4);
    IntBack(|f.code|, b5);
    WordsBack(f.code, b6);
    IntBack(|f.k|, b7);
    ConstsBack(f.k, b8);
    IntBack(|f.p|, rest);
  }

  /** What loading a dump gives: the function itself, or stripped. */
  function Loaded(f: Func, strip: bool, inherited: Bytes): Func { if strip then Stripped(f, inherited) else f }

  /** The checker accepts a function without its debug data when it accepts the function. */
  lemma StripAccepted(f: Func, source: Bytes)
    requires Accepted(ForCheck(f))
    ensures Accepted(ForCheck(Stripped(f, source)))
  {
    hide Accepted;
    var g := Stripped(f, source);
    var a, b := ForCheck(f), ForCheck(g);
    assert forall i | 0 <= i < |f.p| :: g.p[i] == Stripped(f.p[i], source) && g.p[i].nups == f.p[i].nups;
    assert a.subnups == b.subnups;
    assert b == a.(sizeupvalues := 0, sizelineinfo := 0);
    SameChecks(a, b);
  }

  lemma SameChecks(a: Proto, b: Proto)
    requires b == a.(sizeupvalues := 0, sizelineinfo := 0) && Accepted(a) && 0 <= a.nups
    ensures Accepted(b)
  {
    forall pc | 0 <= pc < |b.code| && Real(b.code, pc) ensures ArgsOk(b, pc) && OpcodeOk(b, pc) {
      assert ArgsOk(a, pc) && OpcodeOk(a, pc);
    }
  }

  /** The source that a function has after loading is the inherited one exactly when none was written. */
  predicate Inherits(f: Func, parent: Option<Bytes>, strip: bool, inherited: Bytes) { strip || parent.None? || parent.v == inherited }

  lemma {:induction false} FunctionBack(f: Func, parent: Option<Bytes>, strip: bool, inherited: Bytes, room: nat,
                                        rest: Bytes)
    requires WellFormed(f) && Deep(f) <= room && Inherits(f, parent, strip, inherited)
    ensures LoadFunction(DumpFunction(f, parent, strip) + rest, inherited, room) == Got(Loaded(f, strip, inherited), rest)
    decreases f, 2, 0
  {
    hide *;
    WellFormedParts(f, room);
    var head, nested, debug := DumpHead(f, parent, strip), DumpNested(f, 0, strip), DumpDebug(f, strip);
    var b2 := debug + rest;
    var b1 := nested + b2;
    DumpParts(f, parent, strip, rest);
    HeadBack(f, parent, strip, inherited, b1);
    var source := if strip then inherited else f.source;
    SourceBack(f, parent, strip, inherited);
    NestedBack(f, 0, strip, source, room - 1, b2);
    DebugBack(f, strip, rest);
    LoadedParts(f, strip, inherited, source);
    if strip { StripAccepted(f, inherited); }
    var d := if strip then Debug([], [], []) else Debug(f.lineinfo, f.locvars, f.upvalues);
    assert Accepted(ForCheck(Loaded(f, strip, inherited))) by { LoadedIs(f, strip, inherited); }
    LoadParts(head + b1, inherited, room, HeadOf(f, source), b1, NestedLoaded(f, 0, strip, source), b2, d, rest);
  }

  lemma LoadedIs(f: Func, strip: bool, inherited: Bytes)
    ensures Loaded(f, strip, inherited) == if strip then Stripped(f, inherited) else f
  {}

  lemma SourceBack(f: Func, parent: Option<Bytes>, strip: bool, inherited: Bytes)
    requires Inherits(f, parent, strip, inherited)
    ensures var s := SourceOf(f, parent, strip);
            (if s.None? then inherited else s.v) == if strip then inherited else f.source
  {}

  lemma DumpParts(f: Func, parent: Option<Bytes>, strip: bool, rest: Bytes)
    ensures DumpFunction(f, parent, strip) + rest == DumpHead(f, parent, strip) + (DumpNested(f, 0, strip) + (DumpDebug(f, strip) + rest))
  {
    hide DumpHead, DumpNested, DumpDebug;
    Assoc(DumpHead(f, parent, strip) + DumpNested(f, 0, strip), DumpDebug(f, strip), rest);
    Assoc(DumpHead(f, parent, strip), DumpNested(f, 0, strip), DumpDebug(f, strip) + rest);
  }

  lemma LoadParts(b: Bytes, parent: Bytes, room: nat, h: Head, b1: Bytes, p: seq<Func>, b2: Bytes, d: Debug,
                  rest: Bytes)
    requires room > 0 && LoadHead(b, parent) == Got(h, b1) && LoadNested(b1, h.source, room - 1, h.sizep) == Got(p, b2)
    requires LoadDebug(b2) == Got(d, rest)
    requires Accepted(ForCheck(Assemble(h, p, d)))
    ensures LoadFunction(b, parent, room) == Got(Assemble(h, p, d), rest)
  {
    hide LoadHead, LoadNested, LoadDebug, Accepted, Assemble;
  }

  lemma WellFormedParts(f: Func, room: nat)
    requires WellFormed(f) && Deep(f) <= room
    ensures room > 0 && HeadOk(f) && DebugOk(f) && Accepted(ForCheck(f))
    ensures forall j | 0 <= j < |f.p| :: WellFormed(f.p[j]) && Deep(f.p[j]) <= room - 1
  {
    hide Accepted, ConstOk, LocVarOk, IsInt, StringOk, ForCheck;
  }

  lemma LoadedParts(f: Func, strip: bool, inherited: Bytes, source: Bytes)
    requires HeadOk(f) && source == if strip then inherited else f.source
    ensures Loaded(f, strip, inherited) ==
            Assemble(HeadOf(f, source), NestedLoaded(f, 0, strip, source),
                     if strip then Debug([], [], []) else Debug(f.lineinfo, f.locvars, f.upvalues))
  {
    var g := Loaded(f, strip, inherited);
    assert |g.p| == |f.p|;
    assert forall i | 0 <= i < |f.p| :: g.p[i] == Loaded(f.p[i], strip, source);
    assert g.p == NestedLoaded(f, 0, strip, source);
  }

  function NestedLoaded(f: Func, i: nat, strip: bool, source: Bytes): seq<Func>
    requires i <= |f.p|
  {
    seq(|f.p| - i, j requires 0 <= j < |f.p| - i => Loaded(f.p[i + j], strip, source))
  }

  lemma {:induction false} NestedBack(f: Func, i: nat, strip: bool, source: Bytes, room: nat, rest: Bytes)
    requires i <= |f.p| && (forall j | 0 <= j < |f.p| :: WellFormed(f.p[j]) && Deep(f.p[j]) <= room)
    requires strip || source == f.source
    ensures LoadNested(DumpNested(f, i, strip) + rest, source, room, |f.p| - i) == Got(NestedLoaded(f, i, strip, source), rest)
    decreases f, 1, |f.p| - i
  {
    hide WellFormed, DumpFunction, LoadFunction, Loaded, Deep;
    if i == |f.p| {
      assert DumpNested(f, i, strip) + rest == rest;
    } else {
      var b := DumpNested(f, i + 1, strip) + rest;
      Assoc(DumpFunction(f.p[i], Some(f.source), strip), DumpNested(f, i + 1, strip), rest);
      FunctionBack(f.p[i], Some(f.source), strip, source, room, b);
      NestedBack(f, i + 1, strip, source, room, rest);
      assert NestedLoaded(f, i, strip, source) == [Loaded(f.p[i], strip, source)] + NestedLoaded(f, i + 1, strip, source);
    }
  }

  // ---------------------------------------------------------------- whole chunks

  /** gafqU_dump and gafqU_undump, with the header as a fixed prefix. */
  function DumpChunk(header: Bytes, f: Func, strip: bool): Bytes { header + DumpFunction(f, None, strip) }

  const UNKNOWN: Bytes := [61, 63]  // "=?"

  function LoadChunk(header: Bytes, b: Bytes, room: nat): Option<Func> {
    if |b| < |header| || b[..|header|] != header then None
    else
      var r := LoadFunction(b[|header|..], UNKNOWN, room);
      if r.Bad? then None else Some(r.v)
  }

  /** Loading what was dumped gives the function back; with strip, without debug data and with source "=?". */
  lemma RoundTrip(header: Bytes, f: Func, strip: bool, room: nat)
    requires WellFormed(f) && Deep(f) <= room
    ensures LoadChunk(header, DumpChunk(header, f, strip), room) == Some(if strip then Stripped(f, UNKNOWN) else f)
  {
    hide WellFormed;
    Front(header, DumpFunction(f, None, strip));
    FunctionBack(f, None, strip, UNKNOWN, room, []);
    assert DumpFunction(f, None, strip) + [] == DumpFunction(f, None, strip);
  }

  // ---------------------------------------------------------------- the format

  /** Numbers are written lowest byte first. */
  lemma EncLowFirst(a: Byte, b: Byte, c: Byte, d: Byte)
    ensures Enc(a + 256 * b + 65536 * c + 16777216 * d, 4) == [a, b, c, d]
  {
    var x := a + 256 * b + 65536 * c + 16777216 * d;
    assert x == a + 256 * (b + 256 * (c + 256 * d));
    Low(a, b + 256 * (c + 256 * d), 4);
    Low(b, c + 256 * d, 3);
    Low(c, d, 2);
    Low(d, 0, 1);
  }

  lemma Low(a: Byte, y: nat, n: nat)
    requires n > 0
    ensures Enc(a + 256 * y, n) == [a] + Enc(y, n - 1)
  {
    LowByte(a, y);
  }

  lemma LowByte(a: Byte, y: nat)
    ensures (a + 256 * y) % 256 == a && (a + 256 * y) / 256 == y
  {}
}
