/** Writing and reading precompiled chunks step by step, as gdump.c and gundump.c do. */
module DumpMachine {
  import opened CheckCode
  import opened Dump
  import opened DumpProof
  import opened Zio

  /** The writer: given what was written and the next block, 0 to go on. */
  type Writer = (Bytes, Bytes) -> int

  /** `b` was written, and the writer took it all; or the writer refused something after a part of it, and said why; or
      it had failed before, and nothing was written. */
  ghost predicate Written(w: Writer, out0: Bytes, status0: int, b: Bytes, out: Bytes, status: int) {
    if status0 != 0 then status == status0 && out == out0
    else if status == 0 then out == out0 + b
    else Stopped(w, out0, b, out, status)
  }

  ghost predicate Stopped(w: Writer, out0: Bytes, b: Bytes, out: Bytes, status: int) {
    out0 <= out <= out0 + b && exists c :: w(out, c) == status
  }

  /** A writer that takes everything gets everything. */
  lemma WillingWriter(w: Writer, out0: Bytes, b: Bytes, out: Bytes, status: int)
    requires Written(w, out0, 0, b, out, status) && forall o, c :: w(o, c) == 0
    ensures status == 0 && out == out0 + b
  {}

  /** One thing after the other. */
  lemma Then(w: Writer, out0: Bytes, status0: int, a: Bytes, out1: Bytes, status1: int, b: Bytes, out2: Bytes,
             status2: int)
    requires Written(w, out0, status0, a, out1, status1) && Written(w, out1, status1, b, out2, status2)
    ensures Written(w, out0, status0, a + b, out2, status2)
  {
    Assoc(out0, a, b);
    if status0 == 0 && status1 == 0 && status2 != 0 {
      assert out0 <= out1 <= out2;
    } else if status0 == 0 && status1 != 0 {
      assert out0 + (a + b) == out0 + a + b;
      assert out0 + a <= out0 + a + b;
    }
  }

  /** DumpState. */
  class DumpState {
    const writer: Writer
    const strip: bool
    var out: Bytes
    var status: int

    constructor (writer: Writer, strip: bool)
      ensures this.writer == writer && this.strip == strip && out == [] && status == 0
    {
      this.writer, this.strip, out, status := writer, strip, [], 0;
    }

    /** What became of writing `b`, from an earlier point on. */
    ghost predicate Wrote(out0: Bytes, status0: int, b: Bytes)
      reads this
    {
      Written(writer, out0, status0, b, out, status)
    }

    /** DumpBlock: the writer is called with the block, unless it has failed before. */
    method Block(b: Bytes)
      modifies this
      ensures old(status) == 0 ==> status == writer(old(out), b) && out == if status == 0 then old(out) + b else old(out)
      ensures old(status) != 0 ==> status == old(status) && out == old(out)
      ensures Wrote(old(out), old(status), b)
    {
      if status == 0 {
        status := writer(out, b);
        if status == 0 { out := out + b; }
      }
    }

    method String(s: Option<Bytes>)
      modifies this
      ensures Wrote(old(out), old(status), DumpString(s))
    {
      hide Enc;
      if s.None? { Block(Enc(0, 8)); }
      else {
        Block(Enc(|s.v| + 1, 8));
        ghost var o, st := out, status;
        Block(s.v + [0]);
        Then(writer, old(out), old(status), Enc(|s.v| + 1, 8), o, st, s.v + [0], out, status);
        assert Enc(|s.v| + 1, 8) + (s.v + [0]) == DumpString(s);
      }
    }

    method Integer(x: int)
      modifies this
      ensures Wrote(old(out), old(status), EncInt(x))
    {
      Block(EncInt(x));
    }

    method Constant(k: Const)
      modifies this
      ensures Wrote(old(out), old(status), DumpConst(k))
    {
      hide Enc, DumpString;
      match k {
        case KNil => Block([TNIL]);
        case KBool(b) =>
          Block([TBOOLEAN]);
          ghost var o, st := out, status;
          Block([if b then 1 else 0]);
          Then(writer, old(out), old(status), [TBOOLEAN], o, st, [if b then 1 else 0], out, status);
          assert [TBOOLEAN] + [if b then 1 else 0] == DumpConst(k);
        case KNum(bits) =>
          Block([TNUMBER]);
          ghost var o, st := out, status;
          Block(Enc(bits, 8));
          Then(writer, old(out), old(status), [TNUMBER], o, st, Enc(bits, 8), out, status);
        case KStr(s) =>
          Block([TSTRING]);
          ghost var o, st := out, status;
          String(Some(s));
          Then(writer, old(out), old(status), [TSTRING], o, st, DumpString(Some(s)), out, status);
      }
    }

    method Constants(ks: seq<Const>)
      modifies this
      ensures Wrote(old(out), old(status), DumpConsts(ks))
    {
      hide DumpConst;
      var i := 0;
      while i < |ks|
        invariant 0 <= i <= |ks| && Wrote(old(out), old(status), DumpConsts(ks[..i]))
      {
        ghost var o, st := out, status;
        Constant(ks[i]);
        ConstsNext(ks, i);
        Then(writer, old(out), old(status), DumpConsts(ks[..i]), o, st, DumpConst(ks[i]), out, status);
        i := i + 1;
      }
      assert ks[..i] == ks;
    }

    method LocVariable(v: LocVar)
      modifies this
      ensures Wrote(old(out), old(status), DumpLocVar(v))
    {
      hide DumpString, EncInt, Written;
      String(v.name);
      ghost var o1, st1 := out, status;
      Integer(v.startpc);
      Then(writer, old(out), old(status), DumpString(v.name), o1, st1, EncInt(v.startpc), out, status);
      ghost var o2, st2 := out, status;
      Integer(v.endpc);
      Then(writer, old(out), old(status), DumpString(v.name) + EncInt(v.startpc), o2, st2, EncInt(v.endpc), out, status);
    }

    method LocVars(vs: seq<LocVar>)
      modifies this
      ensures Wrote(old(out), old(status), DumpLocVars(vs))
    {
      hide DumpString, EncInt;
      var i := 0;
      while i < |vs|
        invariant 0 <= i <= |vs| && Wrote(old(out), old(status), DumpLocVars(vs[..i]))
      {
        ghost var o, st := out, status;
        LocVariable(vs[i]);
        LocVarsNext(vs, i);
        Then(writer, old(out), old(status), DumpLocVars(vs[..i]), o, st, DumpLocVar(vs[i]), out, status);
        i := i + 1;
      }
      assert vs[..i] == vs;
    }

    method Names(ns: seq<Option<Bytes>>)
      modifies this
      ensures Wrote(old(out), old(status), DumpNames(ns))
    {
      hide DumpString;
      var i := 0;
      while i < |ns|
        invariant 0 <= i <= |ns| && Wrote(old(out), old(status), DumpNames(ns[..i]))
      {
        ghost var o, st := out, status;
        String(ns[i]);
        NamesNext(ns, i);
        Then(writer, old(out), old(status), DumpNames(ns[..i]), o, st, DumpString(ns[i]), out, status);
        i := i + 1;
      }
      assert ns[..i] == ns;
    }

    /** DumpDebug. */
    method DebugData(f: Func)
      modifies this
      ensures Wrote(old(out), old(status), DumpDebug(f, strip))
    {
      hide EncInt, DumpInts, DumpLocVars, DumpNames;
      var li, lv, up := if strip then [] else f.lineinfo, if strip then [] else f.locvars, if strip then [] else f.upvalues;
      Integer(|li|);
      ghost var x, o, st := EncInt(|li|), out, status;
      Block(DumpInts(li));
      Then(writer, old(out), old(status), x, o, st, DumpInts(li), out, status);
      x, o, st := x + DumpInts(li), out, status;
      Integer(|lv|);
      Then(writer, old(out), old(status), x, o, st, EncInt(|lv|), out, status);
      x, o, st := x + EncInt(|lv|), out, status;
      LocVars(lv);
      Then(writer, old(out), old(status), x, o, st, DumpLocVars(lv), out, status);
      x, o, st := x + DumpLocVars(lv), out, status;
      Integer(|up|);
      Then(writer, old(out), old(status), x, o, st, EncInt(|up|), out, status);
      x, o, st := x + EncInt(|up|), out, status;
      Names(up);
      Then(writer, old(out), old(status), x, o, st, DumpNames(up), out, status);
    }

    /** DumpFunction up to the nested functions. */
    method FunctionHead(f: Func, parent: Option<Bytes>)
      modifies this
      ensures Wrote(old(out), old(status), DumpHead(f, parent, strip))
    {
      hide EncInt, DumpWords, DumpConsts, DumpString;
      var bytes := [f.nups, f.numparams, f.vararg, f.maxstack];
      String(SourceOf(f, parent, strip));
      ghost var x, o, st := DumpString(SourceOf(f, parent, strip)), out, status;
      Integer(f.linedefined);
      Then(writer, old(out), old(status), x, o, st, EncInt(f.linedefined), out, status);
      x, o, st := x + EncInt(f.linedefined), out, status;
      Integer(f.lastlinedefined);
      Then(writer, old(out), old(status), x, o, st, EncInt(f.lastlinedefined), out, status);
      x, o, st := x + EncInt(f.lastlinedefined), out, status;
      Block(bytes);
      Then(writer, old(out), old(status), x, o, st, bytes, out, status);
      x, o, st := x + bytes, out, status;
      Integer(|f.code|);
      Then(writer, old(out), old(status), x, o, st, EncInt(|f.code|), out, status);
      x, o, st := x + EncInt(|f.code|), out, status;
      Block(DumpWords(f.code));
      Then(writer, old(out), old(status), x, o, st, DumpWords(f.code), out, status);
      x, o, st := x + DumpWords(f.code), out, status;
      Integer(|f.k|);
      Then(writer, old(out), old(status), x, o, st, EncInt(|f.k|), out, status);
      x, o, st := x + EncInt(|f.k|), out, status;
      Constants(f.k);
      Then(writer, old(out), old(status), x, o, st, DumpConsts(f.k), out, status);
      x, o, st := x + DumpConsts(f.k), out, status;
      Integer(|f.p|);
      Then(writer, old(out), old(status), x, o, st, EncInt(|f.p|), out, status);
    }

    /** DumpFunction. */
    method Function(f: Func, parent: Option<Bytes>)
      modifies this
      ensures Wrote(old(out), old(status), DumpFunction(f, parent, strip))
      ensures old(status) == 0 && (forall o, c :: writer(o, c) == 0) ==>
                status == 0 && out == old(out) + DumpFunction(f, parent, strip)
      decreases f
    {
      hide DumpHead, DumpDebug, Written, DumpFunction;
      FunctionHead(f, parent);
      ghost var o, st := out, status;
      var i := 0;
      WroteNothing(writer, out, status);
      while i < |f.p|
        invariant 0 <= i <= |f.p| && Wrote(o, st, NestedTo(f, i, strip))
      {
        ghost var o1, st1 := out, status;
        Function(f.p[i], Some(f.source));
        Then(writer, o, st, NestedTo(f, i, strip), o1, st1, DumpFunction(f.p[i], Some(f.source), strip), out, status);
        i := i + 1;
      }
      NestedAll(f, 0, strip);
      ghost var o2, st2 := out, status;
      Then(writer, old(out), old(status), DumpHead(f, parent, strip), o, st, DumpNested(f, 0, strip), out, status);
      DebugData(f);
      ghost var x := DumpHead(f, parent, strip) + DumpNested(f, 0, strip);
      Then(writer, old(out), old(status), x, o2, st2, DumpDebug(f, strip), out, status);
      FunctionIs(f, parent, strip);
      if old(status) == 0 && forall o, c :: writer(o, c) == 0 {
        WillingWriter(writer, old(out), DumpFunction(f, parent, strip), out, status);
      }
    }
  }

  lemma WroteNothing(w: Writer, out: Bytes, status: int)
    ensures Written(w, out, status, [], out, status)
  {
    assert out + [] == out;
  }

  lemma FunctionIs(f: Func, parent: Option<Bytes>, strip: bool)
    ensures DumpFunction(f, parent, strip) == DumpHead(f, parent, strip) + DumpNested(f, 0, strip) + DumpDebug(f, strip)
  {
    hide DumpHead, DumpDebug;
  }

  lemma {:induction false} ConstsNext(ks: seq<Const>, i: int)
    requires 0 <= i < |ks|
    ensures DumpConsts(ks[..i + 1]) == DumpConsts(ks[..i]) + DumpConst(ks[i])
    decreases |ks|
  {
    hide DumpConst;
    if i > 0 {
      ConstsNext(ks[1..], i - 1);
      assert ks[..i + 1][1..] == ks[1..][..i] && ks[..i][1..] == ks[1..][..i - 1];
      Assoc(DumpConst(ks[0]), DumpConsts(ks[1..][..i - 1]), DumpConst(ks[i]));
    } else {
      assert ks[..1][1..] == [];
    }
  }

  lemma {:induction false} LocVarsNext(vs: seq<LocVar>, i: int)
    requires 0 <= i < |vs|
    ensures DumpLocVars(vs[..i + 1]) == DumpLocVars(vs[..i]) + DumpLocVar(vs[i])
    decreases |vs|
  {
    hide DumpLocVar;
    if i > 0 {
      LocVarsNext(vs[1..], i - 1);
      assert vs[..i + 1][1..] == vs[1..][..i] && vs[..i][1..] == vs[1..][..i - 1];
      Assoc(DumpLocVar(vs[0]), DumpLocVars(vs[1..][..i - 1]), DumpLocVar(vs[i]));
    } else {
      assert vs[..1][1..] == [];
    }
  }

  lemma {:induction false} NamesNext(ns: seq<Option<Bytes>>, i: int)
    requires 0 <= i < |ns|
    ensures DumpNames(ns[..i + 1]) == DumpNames(ns[..i]) + DumpString(ns[i])
    decreases |ns|
  {
    hide DumpString;
    if i > 0 {
      NamesNext(ns[1..], i - 1);
      assert ns[..i + 1][1..] == ns[1..][..i] && ns[..i][1..] == ns[1..][..i - 1];
      Assoc(DumpString(ns[0]), DumpNames(ns[1..][..i - 1]), DumpString(ns[i]));
    } else {
      assert ns[..1][1..] == [];
    }
  }

  /** The first `i` nested functions. */
  function NestedTo(f: Func, i: nat, strip: bool): Bytes
    requires i <= |f.p|
  {
    if i == 0 then [] else NestedTo(f, i - 1, strip) + DumpFunction(f.p[i - 1], Some(f.source), strip)
  }

  lemma {:induction false} NestedAll(f: Func, i: nat, strip: bool)
    requires i <= |f.p|
    ensures NestedTo(f, i, strip) + DumpNested(f, i, strip) == NestedTo(f, |f.p|, strip)
    ensures i == 0 ==> DumpNested(f, 0, strip) == NestedTo(f, |f.p|, strip)
    decreases |f.p| - i
  {
    hide DumpFunction;
    if i < |f.p| {
      NestedAll(f, i + 1, strip);
      Assoc(NestedTo(f, i, strip), DumpFunction(f.p[i], Some(f.source), strip), DumpNested(f, i + 1, strip));
    }
    assert [] + DumpNested(f, 0, strip) == DumpNested(f, 0, strip);
  }
}
