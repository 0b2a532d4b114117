/** Precompiled chunks: what gdump.c writes and gundump.c reads, as functions on byte strings. */
module Dump {
  import opened CheckCode

  type Byte = b: int | 0 <= b < 256
  type Bytes = seq<Byte>

  datatype Option<T> = None | Some(v: T)

  /** A constant; a number is the eight bytes that represent it. */
  datatype Const = KNil | KBool(b: bool) | KNum(bits: nat) | KStr(s: Bytes)

  datatype LocVar = LocVar(name: Option<Bytes>, startpc: int, endpc: int)

  /** Proto. */
  datatype Func = Func(source: Bytes, linedefined: int, lastlinedefined: int, nups: Byte, numparams: Byte, vararg: Byte, maxstack: Byte,
                       code: seq<Word>, k: seq<Const>, p: seq<Func>, lineinfo: seq<int>, locvars: seq<LocVar>, upvalues: seq<Option<Bytes>>)

  // ---------------------------------------------------------------- numbers as bytes, lowest first

  function Pow256(n: nat): nat { if n == 0 then 1 else 256 * Pow256(n - 1) }

  function Enc(x: nat, n: nat): (b: Bytes)
    ensures |b| == n
  {
    if n == 0 then [] else [x % 256] + Enc(x / 256, n - 1)
  }

  function Dec(b: Bytes): (x: nat)
    ensures x < Pow256(|b|)
  {
    if b == [] then 0 else b[0] + 256 * Dec(b[1..])
  }

  lemma {:induction false} DecEnc(x: nat, n: nat)
    requires x < Pow256(n)
    ensures Dec(Enc(x, n)) == x
    decreases n
  {
    if n > 0 {
      DecEnc(x / 256, n - 1);
      assert Enc(x, n)[1..] == Enc(x / 256, n - 1);
    }
  }

  const INT_RANGE := 0x1_0000_0000
  const MAX_INT32 := 0x7FFF_FFFF

  /** A C int as its four bytes. */
  function EncInt(x: int): Bytes { Enc(if x < 0 then (x + INT_RANGE) % INT_RANGE else x, 4) }

  function Signed(u: int): int { if u > MAX_INT32 then u - INT_RANGE else u }

  predicate IsInt(x: int) { -MAX_INT32 - 1 <= x <= MAX_INT32 }

  lemma Pow256Four()
    ensures Pow256(4) == INT_RANGE && Pow256(8) == INT_RANGE * INT_RANGE && Pow256(1) == 256
  {
    assert Pow256(2) == 65536;
    assert Pow256(4) == 65536 * 65536;
    assert Pow256(6) == 65536 * 65536 * 65536;
  }

  lemma SignedEnc(x: int)
    requires IsInt(x)
    ensures Signed(Dec(EncInt(x))) == x
  {
    Pow256Four();
    DecEnc(if x < 0 then (x + INT_RANGE) % INT_RANGE else x, 4);
  }

  // ---------------------------------------------------------------- dumping

  /** DumpString: NULL is length 0; others have a trailing NUL, which is counted. */
  function DumpString(s: Option<Bytes>): Bytes {
    if s.None? then Enc(0, 8) else Enc(|s.v| + 1, 8) + s.v + [0]
  }

  function DumpWords(ws: seq<Word>): Bytes { if ws == [] then [] else Enc(ws[0], 4) + DumpWords(ws[1..]) }

  function DumpInts(xs: seq<int>): Bytes { if xs == [] then [] else EncInt(xs[0]) + DumpInts(xs[1..]) }

  const TNIL: Byte := 0
  const TBOOLEAN: Byte := 1
  const TNUMBER: Byte := 3
  const TSTRING: Byte := 4

  function DumpConst(k: Const): Bytes {
    match k
    case KNil => [TNIL]
    case KBool(b) => [TBOOLEAN, if b then 1 else 0]
    case KNum(bits) => [TNUMBER] + Enc(bits, 8)
    case KStr(s) => [TSTRING] + DumpString(Some(s))
  }

  function DumpConsts(ks: seq<Const>): Bytes { if ks == [] then [] else DumpConst(ks[0]) + DumpConsts(ks[1..]) }

  function DumpLocVar(v: LocVar): Bytes { DumpString(v.name) + EncInt(v.startpc) + EncInt(v.endpc) }

  function DumpLocVars(vs: seq<LocVar>): Bytes { if vs == [] then [] else DumpLocVar(vs[0]) + DumpLocVars(vs[1..]) }

  function DumpNames(ns: seq<Option<Bytes>>): Bytes { if ns == [] then [] else DumpString(ns[0]) + DumpNames(ns[1..]) }

  /** DumpDebug: with strip, three empty lists. */
  function DumpDebug(f: Func, strip: bool): Bytes {
    var li, lv, up := if strip then [] else f.lineinfo, if strip then [] else f.locvars, if strip then [] else f.upvalues;
    EncInt(|li|) + DumpInts(li) + EncInt(|lv|) + DumpLocVars(lv) + EncInt(|up|) + DumpNames(up)
  }

  /** The source is left out when it is the parent's. */
  function SourceOf(f: Func, parent: Option<Bytes>, strip: bool): Option<Bytes> {
    if strip || parent == Some(f.source) then None else Some(f.source)
  }

  /** The part of DumpFunction before the nested functions. */
  function DumpHead(f: Func, parent: Option<Bytes>, strip: bool): Bytes {
    DumpString(SourceOf(f, parent, strip)) + EncInt(f.linedefined) + EncInt(f.lastlinedefined) +
    [f.nups, f.numparams, f.vararg, f.maxstack] + EncInt(|f.code|) + DumpWords(f.code) + EncInt(|f.k|) + DumpConsts(f.k) + EncInt(|f.p|)
  }

  /** DumpFunction. */
  function DumpFunction(f: Func, parent: Option<Bytes>, strip: bool): Bytes
    decreases f, 1
  {
    DumpHead(f, parent, strip) + DumpNested(f, 0, strip) + DumpDebug(f, strip)
  }

  /** The nested functions from the i-th on. */
  function DumpNested(f: Func, i: nat, strip: bool): Bytes
    requires i <= |f.p|
    decreases f, 0, |f.p| - i
  {
    if i == |f.p| then [] else DumpFunction(f.p[i], Some(f.source), strip) + DumpNested(f, i + 1, strip)
  }

  // ---------------------------------------------------------------- loading

  /** An error, or what was read and the bytes that are left. */
  datatype Got<T> = Bad | Got(v: T, rest: Bytes)

  /** LoadBlock. */
  function LoadBlock(b: Bytes, n: nat): Got<Bytes> { if |b| < n then Bad else Got(b[..n], b[n..]) }

  /** LoadInt: negative numbers are refused. */
  function LoadInt(b: Bytes): Got<nat> {
    if |b| < 4 || Signed(Dec(b[..4])) < 0 then Bad else Got(Signed(Dec(b[..4])), b[4..])
  }

  /** LoadString. */
  function LoadString(b: Bytes): Got<Option<Bytes>> {
    if |b| < 8 then Bad
    else
      var size := Dec(b[..8]);
      if size == 0 then Got(None, b[8..])
      else if |b| - 8 < size then Bad
      else Got(Some(b[8..8 + size - 1]), b[8 + size..])
  }

  function LoadWords(b: Bytes, n: nat): Got<seq<Word>> {
    if n == 0 then Got([], b)
    else if |b| < 4 then Bad
    else
      assert Dec(b[..4]) < INT_RANGE by { Pow256Four(); }
      var r := LoadWords(b[4..], n - 1);
      if r.Bad? then Bad else Got([Dec(b[..4]) as Word] + r.v, r.rest)
  }

  function LoadInts(b: Bytes, n: nat): Got<seq<int>> {
    if n == 0 then Got([], b)
    else if |b| < 4 then Bad
    else
      var r := LoadInts(b[4..], n - 1);
      if r.Bad? then Bad else Got([Signed(Dec(b[..4]))] + r.v, r.rest)
  }

  function LoadConst(b: Bytes): Got<Const> {
    if |b| < 1 then Bad
    else if b[0] == TNIL then Got(KNil, b[1..])
    else if b[0] == TBOOLEAN then (if |b| < 2 then Bad else Got(KBool(b[1] != 0), b[2..]))
    else if b[0] == TNUMBER then (if |b| < 9 then Bad else Got(KNum(Dec(b[1..9])), b[9..]))
    else if b[0] == TSTRING then
      var r := LoadString(b[1..]);
      if r.Bad? || r.v.None? then Bad else Got(KStr(r.v.v), r.rest)
    else Bad
  }

  function LoadConsts(b: Bytes, n: nat): Got<seq<Const>> {
    if n == 0 then Got([], b)
    else
      var x := LoadConst(b);
      if x.Bad? then Bad
      else
        var r := LoadConsts(x.rest, n - 1);
        if r.Bad? then Bad else Got([x.v] + r.v, r.rest)
  }

  function LoadLocVar(b: Bytes): Got<LocVar> {
    var s := LoadString(b);
    if s.Bad? then Bad
    else
      var x := LoadInt(s.rest);
      if x.Bad? then Bad
      else
        var y := LoadInt(x.rest);
        if y.Bad? then Bad else Got(LocVar(s.v, x.v, y.v), y.rest)
  }

  function LoadLocVars(b: Bytes, n: nat): Got<seq<LocVar>> {
    if n == 0 then Got([], b)
    else
      var x := LoadLocVar(b);
      if x.Bad? then Bad
      else
        var r := LoadLocVars(x.rest, n - 1);
        if r.Bad? then Bad else Got([x.v] + r.v, r.rest)
  }

  function LoadNames(b: Bytes, n: nat): Got<seq<Option<Bytes>>> {
    if n == 0 then Got([], b)
    else
      var x := LoadString(b);
      if x.Bad? then Bad
      else
        var r := LoadNames(x.rest, n - 1);
        if r.Bad? then Bad else Got([x.v] + r.v, r.rest)
  }

  /** A function without its nested functions and debug data. */
  datatype Head = Head(source: Bytes, linedefined: nat, lastlinedefined: nat, nups: Byte, numparams: Byte, vararg: Byte, maxstack: Byte,
                       code: seq<Word>, k: seq<Const>, sizep: nat)

  datatype Debug = Debug(lineinfo: seq<int>, locvars: seq<LocVar>, upvalues: seq<Option<Bytes>>)

  /** LoadFunction up to the nested functions. */
  function LoadHead(b: Bytes, parent: Bytes): Got<Head> {
    var s := LoadString(b);
    if s.Bad? then Bad else
    var l1 := LoadInt(s.rest);
    if l1.Bad? then Bad else
    var l2 := LoadInt(l1.rest);
    if l2.Bad? || |l2.rest| < 4 then Bad else
    var bs := l2.rest;
    var nc := LoadInt(bs[4..]);
    if nc.Bad? then Bad else
    var c := LoadWords(nc.rest, nc.v);
    if c.Bad? then Bad else
    var nk := LoadInt(c.rest);
    if nk.Bad? then Bad else
    var k := LoadConsts(nk.rest, nk.v);
    if k.Bad? then Bad else
    var np := LoadInt(k.rest);
    if np.Bad? then Bad else
    Got(Head(if s.v.None? then parent else s.v.v, l1.v, l2.v, bs[0], bs[1], bs[2], bs[3], c.v, k.v, np.v), np.rest)
  }

  function LoadDebug(b: Bytes): Got<Debug> {
    var n1 := LoadInt(b);
    if n1.Bad? then Bad else
    var li := LoadInts(n1.rest, n1.v);
    if li.Bad? then Bad else
    var n2 := LoadInt(li.rest);
    if n2.Bad? then Bad else
    var lv := LoadLocVars(n2.rest, n2.v);
    if lv.Bad? then Bad else
    var n3 := LoadInt(lv.rest);
    if n3.Bad? then Bad else
    var up := LoadNames(n3.rest, n3.v);
    if up.Bad? then Bad else Got(Debug(li.v, lv.v, up.v), up.rest)
  }

  function Assemble(h: Head, p: seq<Func>, d: Debug): Func {
    Func(h.source, h.linedefined, h.lastlinedefined, h.nups, h.numparams, h.vararg, h.maxstack, h.code, h.k, p,
         d.lineinfo, d.locvars, d.upvalues)
  }

  /** What gafqG_checkcode sees of a function. */
  function ForCheck(f: Func): Proto {
    Proto(f.code, seq(|f.k|, i requires 0 <= i < |f.k| => f.k[i].KStr?), seq(|f.p|, i requires 0 <= i < |f.p| => f.p[i].nups as nat),
          f.nups, f.numparams, f.vararg, f.maxstack, |f.upvalues|, |f.lineinfo|)
  }

  /** LoadFunction; `room` is how deep functions may still nest. */
  function LoadFunction(b: Bytes, parent: Bytes, room: nat): Got<Func>
    decreases room, 1, 0
  {
    if room == 0 then Bad else
    var h := LoadHead(b, parent);
    if h.Bad? then Bad else
    var p := LoadNested(h.rest, h.v.source, room - 1, h.v.sizep);
    if p.Bad? then Bad else
    var d := LoadDebug(p.rest);
    if d.Bad? then Bad else
    var f := Assemble(h.v, p.v, d.v);
    if Accepted(ForCheck(f)) then Got(f, d.rest) else Bad
  }

  function LoadNested(b: Bytes, parent: Bytes, room: nat, n: nat): Got<seq<Func>>
    decreases room, 2, n
  {
    if n == 0 then Got([], b)
    else
      var x := LoadFunction(b, parent, room);
      if x.Bad? then Bad
      else
        var r := LoadNested(x.rest, parent, room, n - 1);
        if r.Bad? then Bad else Got([x.v] + r.v, r.rest)
  }

  // ---------------------------------------------------------------- well-formed functions, and what loading gives

  predicate StringOk(s: Option<Bytes>) { s.Some? ==> |s.v| + 1 < INT_RANGE * INT_RANGE }

  predicate Nat32(x: int) { 0 <= x <= MAX_INT32 }

  /** Sizes and integers fit, and the code checker accepts the code, here and in all nested functions. */
  predicate WellFormed(f: Func)
    decreases f
  {
    StringOk(Some(f.source)) && Nat32(f.linedefined) && Nat32(f.lastlinedefined) &&
    |f.code| <= MAX_INT32 && |f.k| <= MAX_INT32 && |f.p| <= MAX_INT32 && |f.lineinfo| <= MAX_INT32 &&
    |f.locvars| <= MAX_INT32 && |f.upvalues| <= MAX_INT32 &&
    (forall i | 0 <= i < |f.k| :: ConstOk(f.k[i])) &&
    (forall i | 0 <= i < |f.lineinfo| :: IsInt(f.lineinfo[i])) &&
    (forall i | 0 <= i < |f.locvars| :: LocVarOk(f.locvars[i])) &&
    (forall i | 0 <= i < |f.upvalues| :: StringOk(f.upvalues[i])) &&
    Accepted(ForCheck(f)) && forall i | 0 <= i < |f.p| :: WellFormed(f.p[i])
  }

  predicate ConstOk(k: Const) { (k.KNum? ==> k.bits < INT_RANGE * INT_RANGE) && (k.KStr? ==> StringOk(Some(k.s))) }

  predicate LocVarOk(v: LocVar) { StringOk(v.name) && Nat32(v.startpc) && Nat32(v.endpc) }

  /** How deep functions nest. */
  function Deep(f: Func): nat
    decreases f, 1
  {
    1 + DeepFrom(f, 0)
  }

  function DeepFrom(f: Func, i: nat): (n: nat)
    requires i <= |f.p|
    ensures forall j | i <= j < |f.p| :: Deep(f.p[j]) <= n
    decreases f, 0, |f.p| - i
  {
    if i == |f.p| then 0
    else
      var a, b := Deep(f.p[i]), DeepFrom(f, i + 1);
      if a > b then a else b
  }

  /** The function without its debug data; all sources are the one given. */
  function Stripped(f: Func, source: Bytes): Func
    decreases f
  {
    f.(source := source, p := seq(|f.p|, i requires 0 <= i < |f.p| => Stripped(f.p[i], source)), lineinfo := [], locvars := [], upvalues := [])
  }
}
