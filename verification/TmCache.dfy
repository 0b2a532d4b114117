/** The cache of absent metamethods: the flags of a table, gafqT_gettm and fasttm (gtm.c, gtm.h), and the stores that
    reset them (gtable.c, gvm.c, gapi.c). */
module TmCache {

  /** The events that fasttm caches. */
  datatype Event = Index | NewIndex | Gc | Mode | Eq

  /** Keys: the name of an event, an integer, or something else. */
  datatype Key = Name(e: Event) | Num(i: int) | Other(id: int)

  datatype Val = Nil | Tab(id: int) | Fun(f: int) | Plain(p: int)

  const NONE := -1
  const MAXTAGLOOP := 100

  /** A table: its fields, which are not nil, the events it is known not to have, and its metatable. */
  datatype Tbl = Tbl(slots: map<Key, Val>, flags: set<Event>, meta: int)

  /** All tables, and the metatable of values that are not tables. */
  datatype State = State(heap: map<int, Tbl>, base: int)

  function Get(t: Tbl, k: Key): Val { if k in t.slots then t.slots[k] else Nil }

  function Put(t: Tbl, k: Key, v: Val): Tbl { t.(slots := if v == Nil then t.slots - {k} else t.slots[k := v]) }

  /** A set bit means that the event is absent. */
  predicate TblOk(s: State, t: Tbl) {
    (forall e | e in t.flags :: Name(e) !in t.slots) && (forall k | k in t.slots :: t.slots[k] != Nil) &&
    (t.meta == NONE || t.meta in s.heap) &&
    forall k | k in t.slots && t.slots[k].Tab? :: t.slots[k].id in s.heap
  }

  predicate Inv(s: State) { (forall id | id in s.heap :: TblOk(s, s.heap[id])) && (s.base == NONE || s.base in s.heap) }

  predicate ValOk(s: State, v: Val) { v.Tab? ==> v.id in s.heap }

  // ---------------------------------------------------------------- lookups that cache

  /** gafqT_gettm: a lookup that remembers absence. */
  function GetTm(s: State, mt: int, e: Event): (State, Val)
    requires mt in s.heap
  {
    var t := s.heap[mt];
    var v := Get(t, Name(e));
    (if v == Nil then s.(heap := s.heap[mt := t.(flags := t.flags + {e})]) else s, v)
  }

  /** fasttm. */
  function FastTm(s: State, mt: int, e: Event): (State, Val)
    requires mt == NONE || mt in s.heap
  {
    if mt == NONE || mt !in s.heap then (s, Nil) else if e in s.heap[mt].flags then (s, Nil) else GetTm(s, mt, e)
  }

  /** The plain lookup that fasttm stands for. */
  function PlainTm(s: State, mt: int, e: Event): Val { if mt in s.heap && mt != NONE then Get(s.heap[mt], Name(e)) else Nil }

  /** fasttm always agrees with the plain lookup, keeps what is stored, and remembers exactly what is absent. */
  lemma FastTmAgrees(s: State, mt: int, e: Event)
    requires Inv(s) && (mt == NONE || mt in s.heap)
    ensures var (s1, v) := FastTm(s, mt, e);
            v == PlainTm(s, mt, e) && Inv(s1) && s1.heap.Keys == s.heap.Keys && s1.base == s.base &&
            forall id | id in s.heap :: s1.heap[id].slots == s.heap[id].slots && s1.heap[id].meta == s.heap[id].meta
    ensures var s1 := FastTm(s, mt, e).0;
            (forall id | id in s.heap && id != mt :: s1.heap[id] == s.heap[id]) &&
            (mt in s.heap && mt != NONE ==>
               (e in s1.heap[mt].flags <==> PlainTm(s, mt, e) == Nil) && s1.heap[mt].flags - {e} == s.heap[mt].flags - {e})
  {
    if mt in s.heap && mt != NONE {
      var t := s.heap[mt];
      assert TblOk(s, t);
      if e !in t.flags && Get(t, Name(e)) == Nil { SetTblInv(s, mt, t.(flags := t.flags + {e})); }
    }
  }

  // ---------------------------------------------------------------- stores

  function SetTbl(s: State, id: int, t: Tbl): State { s.(heap := s.heap[id := t]) }

  /** gafqH_set: a place for the key, and no event is known to be absent any more. */
  function ResetFlags(s: State, id: int): State
    requires id in s.heap
  {
    SetTbl(s, id, s.heap[id].(flags := {}))
  }

  /** gafq_rawset. */
  function RawSet(s: State, id: int, k: Key, v: Val): State
    requires id in s.heap
  {
    SetTbl(s, id, Put(s.heap[id].(flags := {}), k, v))
  }

  /** gafq_rawseti: gafqH_setnum does not reset the flags, unless it rehashes and inserts keys again. */
  function RawSetI(s: State, id: int, i: int, v: Val, rehash: bool): State
    requires id in s.heap
  {
    SetTbl(s, id, Put(if rehash then s.heap[id].(flags := {}) else s.heap[id], Num(i), v))
  }

  datatype Outcome = Stored | Called(f: int) | TypeError | LoopError

  /** The metamethod for a value that is not a table, looked up without the cache. */
  function BaseTm(s: State, e: Event): Val { PlainTm(s, s.base, e) }

  /** gafqV_settable from its `loop`-th round on. */
  function SetTable(s: State, t: Val, k: Key, v: Val, loop: nat): (State, Outcome)
    requires Inv(s) && ValOk(s, t) && ValOk(s, v)
    decreases MAXTAGLOOP - loop
  {
    if loop >= MAXTAGLOOP then (s, LoopError)
    else if t.Tab? then
      var s1 := ResetFlags(s, t.id);
      SetTblInv(s, t.id, s.heap[t.id].(flags := {}));
      if Get(s.heap[t.id], k) != Nil then (RawSet(s1, t.id, k, v), Stored)
      else
        assert TblOk(s, s.heap[t.id]);
        var (s2, tm) := FastTm(s1, s.heap[t.id].meta, NewIndex);
        FastTmAgrees(s1, s.heap[t.id].meta, NewIndex);
        if tm == Nil then (RawSet(s2, t.id, k, v), Stored)
        else if tm.Fun? then (s2, Called(tm.f))
        else
          TmOk(s1, s.heap[t.id].meta, NewIndex);
          SetTable(s2, tm, k, v, loop + 1)
    else
      var tm := BaseTm(s, NewIndex);
      if tm == Nil then (s, TypeError)
      else if tm.Fun? then (s, Called(tm.f))
      else
        TmOk(s, s.base, NewIndex);
        SetTable(s, tm, k, v, loop + 1)
  }

  lemma TmOk(s: State, mt: int, e: Event)
    requires Inv(s)
    ensures ValOk(s, PlainTm(s, mt, e))
  {
    if mt in s.heap { assert TblOk(s, s.heap[mt]); }
  }

  lemma MetaOk(s: State, id: int)
    requires Inv(s) && id in s.heap
    ensures (s.heap[id].meta == NONE || s.heap[id].meta in s.heap) && TblOk(s, s.heap[id].(flags := {}))
  {
    assert TblOk(s, s.heap[id]);
  }

  lemma SetTblInv(s: State, id: int, t: Tbl)
    requires Inv(s) && id in s.heap && TblOk(s, t)
    ensures Inv(SetTbl(s, id, t))
  {
    var s1 := SetTbl(s, id, t);
    forall x | x in s1.heap ensures TblOk(s1, s1.heap[x]) { if x != id { assert TblOk(s, s.heap[x]); } }
  }

  lemma RawSetInv(s: State, id: int, k: Key, v: Val)
    requires Inv(s) && id in s.heap && ValOk(s, v)
    ensures Inv(RawSet(s, id, k, v))
  {
    assert TblOk(s, s.heap[id]);
    SetTblInv(s, id, Put(s.heap[id].(flags := {}), k, v));
  }

  lemma RawSetIInv(s: State, id: int, i: int, v: Val, rehash: bool)
    requires Inv(s) && id in s.heap && ValOk(s, v)
    ensures Inv(RawSetI(s, id, i, v, rehash))
  {
    assert TblOk(s, s.heap[id]);
    SetTblInv(s, id, RawSetI(s, id, i, v, rehash).heap[id]);
  }

  /** gafqV_settable keeps the cache right, also for a table that is its own metatable. */
  lemma {:induction false} SetTableInv(s: State, t: Val, k: Key, v: Val, loop: nat)
    requires Inv(s) && ValOk(s, t) && ValOk(s, v)
    ensures Inv(SetTable(s, t, k, v, loop).0) && SetTable(s, t, k, v, loop).0.heap.Keys == s.heap.Keys
    decreases MAXTAGLOOP - loop
  {
    hide Inv, TblOk, Get, Put, FastTm, PlainTm;
    if loop < MAXTAGLOOP {
      if t.Tab? {
        MetaOk(s, t.id);
        var s1 := ResetFlags(s, t.id);
        SetTblInv(s, t.id, s.heap[t.id].(flags := {}));
        if Get(s.heap[t.id], k) != Nil { RawSetInv(s1, t.id, k, v); }
        else {
          FastTmAgrees(s1, s.heap[t.id].meta, NewIndex);
          var (s2, tm) := FastTm(s1, s.heap[t.id].meta, NewIndex);
          if tm == Nil { RawSetInv(s2, t.id, k, v); }
          else if !tm.Fun? {
            TmOk(s1, s.heap[t.id].meta, NewIndex);
            SetTableInv(s2, tm, k, v, loop + 1);
          }
        }
      } else {
        var tm := BaseTm(s, NewIndex);
        if tm != Nil && !tm.Fun? {
          TmOk(s, s.base, NewIndex);
          SetTableInv(s, tm, k, v, loop + 1);
        }
      }
    }
  }

  // ---------------------------------------------------------------- where a store ends

  /** What handles a store to key `k` of `t`: for a table without that field the __newindex of its metatable, for
      another value that of the metatable for such values. */
  function Handler(s: State, t: Val): Val
    requires t.Tab? ==> t.id in s.heap
  {
    if t.Tab? then PlainTm(s, s.heap[t.id].meta, NewIndex) else PlainTm(s, s.base, NewIndex)
  }

  /** A table takes the store itself when it has the field, or when there is no handler. */
  predicate Takes(s: State, t: Val, k: Key) {
    t.Tab? && t.id in s.heap && (Get(s.heap[t.id], k) != Nil || Handler(s, t) == Nil)
  }

  /** The store to `t` is repeated with `u`. */
  predicate Passes(s: State, t: Val, u: Val, k: Key) {
    ValOk(s, t) && !Takes(s, t, k) && Handler(s, t) == u && u != Nil && !u.Fun?
  }

  /** Values that a store to `ts[0]` is passed along: each but the last is handled by the next, which is no function. */
  predicate Chain(s: State, ts: seq<Val>, k: Key) {
    |ts| > 0 && (forall i | 0 <= i < |ts| :: ValOk(s, ts[i])) && forall i | 0 <= i < |ts| - 1 :: Passes(s, ts[i], ts[i + 1], k)
  }

  /** What the end of the chain makes of the store. */
  predicate EndsAs(s: State, ts: seq<Val>, k: Key, o: Outcome)
    requires Chain(s, ts, k)
  {
    EndsAfter(s, ts, k, o, 0)
  }

  /** The same when `loop` rounds have been taken before. */
  predicate EndsAfter(s: State, ts: seq<Val>, k: Key, o: Outcome, loop: nat)
    requires Chain(s, ts, k)
  {
    var last := ts[|ts| - 1];
    match o
    case Stored => |ts| + loop <= MAXTAGLOOP && Takes(s, last, k)
    case Called(f) => |ts| + loop <= MAXTAGLOOP && !Takes(s, last, k) && Handler(s, last) == Fun(f)
    case TypeError => |ts| + loop <= MAXTAGLOOP && !last.Tab? && Handler(s, last) == Nil
    case LoopError => |ts| + loop == MAXTAGLOOP + 1
  }

  /** Only the flags may have changed. */
  predicate SameFields(s: State, r: State) {
    r.heap.Keys == s.heap.Keys && r.base == s.base &&
    forall id | id in s.heap :: r.heap[id].slots == s.heap[id].slots && r.heap[id].meta == s.heap[id].meta
  }

  /** Every field of every table is as it was, but for field `k` of table `id`, which is `v`. */
  ghost predicate OneField(s: State, r: State, id: int, k: Key, v: Val) {
    id in s.heap && r.heap.Keys == s.heap.Keys && r.base == s.base && Get(r.heap[id], k) == v &&
    (forall x | x in s.heap :: r.heap[x].meta == s.heap[x].meta) &&
    forall x, j | x in s.heap && (x != id || j != k) :: Get(r.heap[x], j) == Get(s.heap[x], j)
  }

  ghost predicate Effect(s: State, r: State, o: Outcome, last: Val, k: Key, v: Val) {
    if o == Stored then last.Tab? && OneField(s, r, last.id, k, v) else SameFields(s, r)
  }

  lemma SameHandler(s: State, r: State, t: Val, k: Key)
    requires SameFields(s, r) && ValOk(s, t)
    ensures Handler(r, t) == Handler(s, t) && Takes(r, t, k) == Takes(s, t, k)
  {}

  lemma SameChain(s: State, r: State, ts: seq<Val>, k: Key)
    requires SameFields(s, r) && Chain(r, ts, k)
    ensures Chain(s, ts, k) && forall o :: EndsAs(s, ts, k, o) <==> EndsAs(r, ts, k, o)
  {
    forall i | 0 <= i < |ts| ensures ValOk(s, ts[i]) { assert ValOk(r, ts[i]); }
    forall i | 0 <= i < |ts| - 1 ensures Passes(s, ts[i], ts[i + 1], k) {
      assert Passes(r, ts[i], ts[i + 1], k);
      SameHandler(s, r, ts[i], k);
    }
    SameHandler(s, r, ts[|ts| - 1], k);
  }

  /** Where a store that has taken `loop` rounds before ends. */
  ghost predicate Reaches(s: State, r: State, o: Outcome, t: Val, k: Key, v: Val, loop: nat, ts: seq<Val>) {
    |ts| > 0 && ts[0] == t && Chain(s, ts, k) && Effect(s, r, o, ts[|ts| - 1], k, v) && EndsAfter(s, ts, k, o, loop)
  }

  lemma {:induction false} SetTableReaches(s: State, t: Val, k: Key, v: Val, loop: nat) returns (ts: seq<Val>)
    requires Inv(s) && ValOk(s, t) && ValOk(s, v) && loop <= MAXTAGLOOP
    ensures var (r, o) := SetTable(s, t, k, v, loop); Reaches(s, r, o, t, k, v, loop, ts)
    decreases MAXTAGLOOP - loop
  {
    hide Inv, TblOk;
    var (r, o) := SetTable(s, t, k, v, loop);
    if loop == MAXTAGLOOP {
      ts := [t];
    } else if t.Tab? {
      ts := TableReaches(s, t, k, v, loop);
    } else {
      var tm := BaseTm(s, NewIndex);
      if tm == Nil || tm.Fun? {
        ts := [t];
      } else {
        TmOk(s, s.base, NewIndex);
        var us := SetTableReaches(s, tm, k, v, loop + 1);
        Longer(s, s, t, us, k);
        ts := [t] + us;
      }
    }
  }

  /** One more value in front. */
  lemma Longer(s: State, r: State, t: Val, ts: seq<Val>, k: Key)
    requires SameFields(s, r) && Chain(r, ts, k) && ValOk(s, t) && !Takes(s, t, k) && Handler(s, t) == ts[0]
    requires ts[0] != Nil && !ts[0].Fun?
    ensures Chain(s, [t] + ts, k)
  {
    SameChain(s, r, ts, k);
    var us := [t] + ts;
    forall i | 0 <= i < |us| ensures ValOk(s, us[i]) { if i > 0 { assert us[i] == ts[i - 1]; } }
    forall i | 0 <= i < |us| - 1
      ensures Passes(s, us[i], us[i + 1], k)
    {
      if i > 0 { assert Passes(s, ts[i - 1], ts[i], k); }
    }
  }

  lemma {:induction false} TableReaches(s: State, t: Val, k: Key, v: Val, loop: nat) returns (ts: seq<Val>)
    requires Inv(s) && ValOk(s, t) && ValOk(s, v) && loop < MAXTAGLOOP && t.Tab?
    ensures var (r, o) := SetTable(s, t, k, v, loop); Reaches(s, r, o, t, k, v, loop, ts)
    decreases MAXTAGLOOP - loop, 0
  {
    hide Inv, TblOk, SetTable, Handler, Takes;
    MetaOk(s, t.id);
    if Takes(s, t, k) {
      TableStores(s, t, k, v, loop);
      ts := [t];
    } else {
      var s2 := TablePasses(s, t, k, v, loop);
      var tm := Handler(s, t);
      if tm.Fun? {
        ts := [t];
      } else {
        var us := SetTableReaches(s2, tm, k, v, loop + 1);
        Longer(s, s2, t, us, k);
        SameChain(s, s2, us, k);
        SameHandler(s, s2, us[|us| - 1], k);
        ts := [t] + us;
      }
    }
  }

  lemma TableStores(s: State, t: Val, k: Key, v: Val, loop: nat)
    requires Inv(s) && ValOk(s, t) && ValOk(s, v) && loop < MAXTAGLOOP && t.Tab? && Takes(s, t, k)
    ensures var (r, o) := SetTable(s, t, k, v, loop); o == Stored && OneField(s, r, t.id, k, v)
  {
    hide Inv, TblOk;
    MetaOk(s, t.id);
    var s1 := ResetFlags(s, t.id);
    SetTblInv(s, t.id, s.heap[t.id].(flags := {}));
    FastTmAgrees(s1, s.heap[t.id].meta, NewIndex);
    var s2 := if Get(s.heap[t.id], k) != Nil then s1 else FastTm(s1, s.heap[t.id].meta, NewIndex).0;
    hide FastTm, RawSet, OneField;
    RawSetField(s, s2, t.id, k, v);
  }

  lemma RawSetField(s: State, s2: State, id: int, k: Key, v: Val)
    requires SameFields(s, s2) && id in s.heap
    ensures OneField(s, RawSet(s2, id, k, v), id, k, v)
  {}

  lemma TablePasses(s: State, t: Val, k: Key, v: Val, loop: nat) returns (s2: State)
    requires Inv(s) && ValOk(s, t) && ValOk(s, v) && loop < MAXTAGLOOP && t.Tab? && !Takes(s, t, k)
    ensures SameFields(s, s2) && Inv(s2) && ValOk(s2, Handler(s, t)) && ValOk(s2, v) && Handler(s, t) != Nil
    ensures SetTable(s, t, k, v, loop) ==
            if Handler(s, t).Fun? then (s2, Called(Handler(s, t).f)) else SetTable(s2, Handler(s, t), k, v, loop + 1)
  {
    hide Inv, TblOk;
    MetaOk(s, t.id);
    var s1, mt := ResetFlags(s, t.id), s.heap[t.id].meta;
    SetTblInv(s, t.id, s.heap[t.id].(flags := {}));
    FastTmAgrees(s1, mt, NewIndex);
    TmOk(s1, mt, NewIndex);
    s2 := FastTm(s1, mt, NewIndex).0;
    hide FastTm;
  }

  /** gafqV_settable: a store ends where its chain of handlers ends, within MAXTAGLOOP rounds. Exactly the field of the
      table that takes it changes; else exactly the function at the end of the chain is called, or the error is
      raised. */
  lemma StoreEnds(s: State, t: Val, k: Key, v: Val) returns (ts: seq<Val>)
    requires Inv(s) && ValOk(s, t) && ValOk(s, v)
    ensures var (r, o) := SetTable(s, t, k, v, 0);
            |ts| > 0 && ts[0] == t && Chain(s, ts, k) && EndsAs(s, ts, k, o) && Effect(s, r, o, ts[|ts| - 1], k, v)
  {
    ts := SetTableReaches(s, t, k, v, 0);
  }

  /** A chain can end in one way only, and there is only one: so each outcome comes exactly when the chain says so. */
  lemma {:induction false} EndsOnce(s: State, ts: seq<Val>, us: seq<Val>, k: Key, o: Outcome, p: Outcome)
    requires Chain(s, ts, k) && Chain(s, us, k) && ts[0] == us[0] && EndsAs(s, ts, k, o) && EndsAs(s, us, k, p)
    ensures ts == us && o == p
  {
    SamePrefix(s, ts, us, k, if |ts| < |us| then |ts| - 1 else |us| - 1);
    if |ts| < |us| { EndNotPassed(s, ts, k, o, us[|ts|]); }
    if |us| < |ts| { EndNotPassed(s, us, k, p, ts[|us|]); }
  }

  /** A chain that has ended does not go on. */
  lemma EndNotPassed(s: State, ts: seq<Val>, k: Key, o: Outcome, u: Val)
    requires Chain(s, ts, k) && EndsAs(s, ts, k, o) && |ts| <= MAXTAGLOOP
    ensures !Passes(s, ts[|ts| - 1], u, k)
  {}

  lemma {:induction false} SamePrefix(s: State, ts: seq<Val>, us: seq<Val>, k: Key, i: nat)
    requires Chain(s, ts, k) && Chain(s, us, k) && ts[0] == us[0] && i < |ts| && i < |us|
    ensures forall j | 0 <= j <= i :: ts[j] == us[j]
    decreases i
  {
    if i > 0 {
      SamePrefix(s, ts, us, k, i - 1);
      assert Passes(s, ts[i - 1], ts[i], k) && Passes(s, us[i - 1], us[i], k);
    }
  }

  // ---------------------------------------------------------------- runs

  /** Place is a gafqH_set whose value is stored later or never, or a rehash; ClearField is the collector emptying a
      field of a weak table; SetBase changes the metatable of values that are not tables. */
  datatype Op =
    | Query(mt: int, e: Event)
    | DoRawSet(id: int, k: Key, v: Val)
    | DoRawSetI(id1: int, i: int, v1: Val, rehash: bool)
    | DoSetTable(t: Val, k2: Key, v2: Val)
    | NewTable(id3: int)
    | SetMeta(id4: int, mt4: int)
    | Place(id5: int)
    | ClearField(id6: int, k6: Key)
    | SetBase(mt7: int)

  predicate Enabled(s: State, op: Op) {
    match op
    case Query(mt, _) => mt == NONE || mt in s.heap
    case DoRawSet(id, _, v) => id in s.heap && ValOk(s, v)
    case DoRawSetI(id, _, v, _) => id in s.heap && ValOk(s, v)
    case DoSetTable(t, _, v) => ValOk(s, t) && ValOk(s, v)
    case NewTable(id) => id !in s.heap && id != NONE
    case SetMeta(id, mt) => id in s.heap && (mt == NONE || mt in s.heap)
    case Place(id) => id in s.heap
    case ClearField(id, _) => id in s.heap
    case SetBase(mt) => mt == NONE || mt in s.heap
  }

  /** gafqH_new: an empty table has none of the events. */
  const ALL: set<Event> := {Index, NewIndex, Gc, Mode, Eq}

  function Apply(s: State, op: Op): State
    requires Inv(s) && Enabled(s, op)
  {
    match op
    case Query(mt, e) => FastTm(s, mt, e).0
    case DoRawSet(id, k, v) => RawSet(s, id, k, v)
    case DoRawSetI(id, i, v, rehash) => RawSetI(s, id, i, v, rehash)
    case DoSetTable(t, k, v) => SetTable(s, t, k, v, 0).0
    case NewTable(id) => SetTbl(s, id, Tbl(map[], ALL, NONE))
    case SetMeta(id, mt) => SetTbl(s, id, s.heap[id].(meta := mt))
    case Place(id) => ResetFlags(s, id)
    case ClearField(id, k) => SetTbl(s, id, Put(s.heap[id], k, Nil))
    case SetBase(mt) => s.(base := mt)
  }

  lemma ApplyInv(s: State, op: Op)
    requires Inv(s) && Enabled(s, op)
    ensures Inv(Apply(s, op))
  {
    match op
    case Query(mt, e) => FastTmAgrees(s, mt, e);
    case DoRawSet(id, k, v) => RawSetInv(s, id, k, v);
    case DoRawSetI(id, i, v, rehash) => RawSetIInv(s, id, i, v, rehash);
    case DoSetTable(t, k, v) => SetTableInv(s, t, k, v, 0);
    case NewTable(id) =>
      var s1 := Apply(s, op);
      forall x | x in s1.heap ensures TblOk(s1, s1.heap[x]) { if x != id { assert TblOk(s, s.heap[x]); } }
    case SetMeta(id, mt) =>
      assert TblOk(s, s.heap[id]);
      SetTblInv(s, id, s.heap[id].(meta := mt));
    case Place(id) =>
      MetaOk(s, id);
      SetTblInv(s, id, s.heap[id].(flags := {}));
    case ClearField(id, k) =>
      assert TblOk(s, s.heap[id]);
      SetTblInv(s, id, Put(s.heap[id], k, Nil));
    case SetBase(mt) =>
      forall x | x in s.heap ensures TblOk(Apply(s, op), s.heap[x]) { assert TblOk(s, s.heap[x]); }
  }

  /** What the steps other than gafqV_settable do to the fields: raw stores set one field of one table, a lookup and a
      new place none. */
  lemma ApplyChanges(s: State, op: Op)
    requires Inv(s) && Enabled(s, op)
    ensures var r := Apply(s, op);
            match op
            case Query(_, _) => SameFields(s, r)
            case Place(_) => SameFields(s, r)
            case DoRawSet(id, k, v) => OneField(s, r, id, k, v)
            case DoRawSetI(id, i, v, _) => OneField(s, r, id, Num(i), v)
            case ClearField(id, k) => OneField(s, r, id, k, Nil)
            case NewTable(id) => r.heap.Keys == s.heap.Keys + {id} && r.heap[id].slots == map[] && r.heap[id].meta == NONE
            case SetMeta(id, mt) => r.heap == s.heap[id := s.heap[id].(meta := mt)] && r.base == s.base
            case SetBase(mt) => r == State(s.heap, mt)
            case _ => true
  {
    hide Inv, TblOk, SetTable;
    if op.Query? { FastTmAgrees(s, op.mt, op.e); }
  }

  ghost predicate IsRun(states: seq<State>, ops: seq<Op>) {
    |states| == |ops| + 1 && Inv(states[0]) &&
    forall i | 0 <= i < |ops| :: Inv(states[i]) ==> Enabled(states[i], ops[i]) && states[i + 1] == Apply(states[i], ops[i])
  }

  /** In every state of every run, a set bit means an absent event, and fasttm agrees with the plain lookup on every
      table. */
  lemma {:induction false} RunAgrees(states: seq<State>, ops: seq<Op>, n: nat)
    requires IsRun(states, ops) && n < |states|
    ensures Inv(states[n])
    ensures forall mt, e | mt in states[n].heap :: FastTm(states[n], mt, e).1 == PlainTm(states[n], mt, e)
    decreases n
  {
    if n > 0 {
      RunAgrees(states, ops, n - 1);
      ApplyInv(states[n - 1], ops[n - 1]);
    }
    forall mt, e | mt in states[n].heap
      ensures FastTm(states[n], mt, e).1 == PlainTm(states[n], mt, e)
    {
      FastTmAgrees(states[n], mt, e);
    }
  }

  // ---------------------------------------------------------------- in place

  class Tables {
    var state: State

    constructor ()
      ensures state == State(map[], NONE) && Inv(state)
    {
      state := State(map[], NONE);
    }

    /** fasttm with gafqT_gettm. */
    method Fast(mt: int, e: Event) returns (v: Val)
      requires Inv(state) && (mt == NONE || mt in state.heap)
      modifies this
      ensures (state, v) == FastTm(old(state), mt, e) && Inv(state) && v == PlainTm(old(state), mt, e)
    {
      FastTmAgrees(state, mt, e);
      if mt == NONE || mt !in state.heap { return Nil; }
      var t := state.heap[mt];
      if e in t.flags { return Nil; }
      v := Get(t, Name(e));
      if v == Nil { state := state.(heap := state.heap[mt := t.(flags := t.flags + {e})]); }
    }

    /** gafqV_settable. */
    method Store(t0: Val, k: Key, v: Val) returns (r: Outcome, ghost ts: seq<Val>)
      requires Inv(state) && ValOk(state, t0) && ValOk(state, v)
      modifies this
      ensures (state, r) == SetTable(old(state), t0, k, v, 0) && Inv(state)
      ensures |ts| > 0 && ts[0] == t0 && Chain(old(state), ts, k) && EndsAs(old(state), ts, k, r)
      ensures Effect(old(state), state, r, ts[|ts| - 1], k, v)
    {
      hide Inv, TblOk, Get, Put, FastTm, PlainTm, Chain, EndsAs, Effect;
      ghost var s0 := state;
      ts := StoreEnds(s0, t0, k, v);
      SetTableInv(s0, t0, k, v, 0);
      var t, loop := t0, 0;
      while loop < MAXTAGLOOP
        invariant 0 <= loop <= MAXTAGLOOP && Inv(state) && ValOk(state, t) && ValOk(state, v)
        invariant SetTable(state, t, k, v, loop) == SetTable(s0, t0, k, v, 0)
      {
        var tm;
        if t.Tab? {
          MetaOk(state, t.id);
          var h := state.heap[t.id];
          SetTblInv(state, t.id, h.(flags := {}));
          state := ResetFlags(state, t.id);
          if Get(h, k) != Nil {
            state := RawSet(state, t.id, k, v);
            return Stored, ts;
          }
          TmOk(state, h.meta, NewIndex);
          FastTmAgrees(state, h.meta, NewIndex);
          tm := Fast(h.meta, NewIndex);
          if tm == Nil {
            state := RawSet(state, t.id, k, v);
            return Stored, ts;
          }
        } else {
          TmOk(state, state.base, NewIndex);
          tm := BaseTm(state, NewIndex);
          if tm == Nil { return TypeError, ts; }
        }
        if tm.Fun? { return Called(tm.f), ts; }
        t := tm;
        loop := loop + 1;
      }
      return LoopError, ts;
    }
  }
}
