/** The collected heap of ggc.c and ggc.h: object kinds, mark bits, references, and the
    state that the collector and the mutator share. */
module GcHeap {

  /** The address of an object. */
  type Id(==, !new)

  datatype Option<+T> = None | Some(value: T)

  /** A tagged value, as far as the collector can tell values apart. */
  datatype Value = Nil | Plain | Ref(id: Id)

  /** The two white bits and the black bit of `marked`; gray is "neither". */
  datatype Color = White(w: bool) | Gray | Black

  datatype Node = Node(key: Value, val: Value)

  datatype Body =
    | Str(hasK: bool, hasV: bool)                                 // does the text contain 'k' / 'v'?
    | Udata(mt: Option<Id>, env: Id)
    | UpOpen(thread: Id, slot: nat)                         // value lives in a stack slot
    | UpClosed(val: Value)                                    // value lives in the upvalue
    | Closure(env: Id, parts: seq<Value>)                   // C upvalues, or prototype and upvalues
    | Table(mt: Option<Id>, arr: seq<Value>, nodes: seq<Node>)
    | Thread(gt: Value, stack: seq<Value>, open: seq<Id>)   // stack below top; open upvalues
    | Proto(parts: seq<Value>)

  /** An object: its mark bits (colour, FIXED, FINALIZED, KEYWEAK, VALUEWEAK) and its contents. */
  datatype Obj = Obj(color: Color, fixed: bool, fin: bool, wk: bool, wv: bool, body: Body)

  datatype Phase = Pause | Propagate | SweepString | Sweep | Finalize

  datatype State = State(
    heap: map<Id, Obj>,
    cw: bool,                    // current white
    phase: Phase,
    strs: seq<seq<Id>>,          // string table
    sweepstr: nat,               // next bucket to sweep
    swept: seq<Id>,              // rootgc list up to sweepgc
    unswept: seq<Id>,            // rootgc list from sweepgc on
    gray: seq<Id>,
    grayagain: seq<Id>,
    weak: seq<Id>,
    tmu: seq<Id>,                // userdata waiting for __gc, first to run first
    uvhead: seq<Id>,             // all open upvalues
    env: Env)

  /** The roots, and the names of the events the collector looks up. */
  datatype Env = Env(
    registry: Id,
    main: Id,                    // main thread
    running: Id,                 // running thread
    mts: seq<Option<Id>>,        // metatables of the basic types
    modeName: Id,                // the interned string "__mode"
    gcName: Id)                  // the interned string "__gc"

  predicate IsWhite(s: State, o: Id) { o in s.heap && s.heap[o].color.White? }

  predicate NonWhite(s: State, o: Id) { o in s.heap && !s.heap[o].color.White? }

  /** isdead, with the FIXED bit that sweeplist folds into its mask. */
  predicate Dead(s: State, o: Id) {
    o in s.heap && s.heap[o].color == White(!s.cw) && !s.heap[o].fixed
  }

  predicate Live(s: State, o: Id) { o in s.heap && !Dead(s, o) }

  /** `o` is on the rootgc list. */
  predicate InRoot(s: State, o: Id) { o in s.swept || o in s.unswept }

  function WhiteSet(s: State): set<Id> { set o | o in s.heap && s.heap[o].color.White? }

  // ---------------------------------------------------------------- references

  function SlotValue(h: map<Id, Obj>, t: Id, i: nat): Value {
    if t in h && h[t].body.Thread? && i < |h[t].body.stack| then h[t].body.stack[i] else Nil
  }

  predicate NodePts(n: Node, x: Id, keys: bool, vals: bool) {
    n.val != Nil && ((keys && n.key == Ref(x)) || (vals && n.val == Ref(x)))
  }

  predicate NodesPts(ns: seq<Node>, x: Id, keys: bool, vals: bool) {
    exists n :: n in ns && NodePts(n, x, keys, vals)
  }

  /** Does object body `b` hold a reference to `x`, strong or weak? An entry whose value is
      nil holds nothing: its key may already be a dead key. */
  predicate BodyPts(h: map<Id, Obj>, b: Body, x: Id) {
    match b
    case Str(_, _) => false
    case Udata(mt, env) => mt == Some(x) || env == x
    case UpOpen(t, i) => SlotValue(h, t, i) == Ref(x)
    case UpClosed(v) => v == Ref(x)
    case Closure(env, parts) => env == x || Ref(x) in parts
    case Table(mt, arr, nodes) => mt == Some(x) || Ref(x) in arr || NodesPts(nodes, x, true, true)
    case Thread(gt, stack, _) => gt == Ref(x) || Ref(x) in stack
    case Proto(parts) => Ref(x) in parts
  }

  predicate Pts(s: State, o: Id, x: Id) { o in s.heap && BodyPts(s.heap, s.heap[o].body, x) }

  /** Value stored under a string key, as gafqH_getstr finds it. */
  function FieldOf(ns: seq<Node>, name: Id): Value {
    if ns == [] then Nil
    else if ns[0].key == Ref(name) && ns[0].val != Nil then ns[0].val
    else FieldOf(ns[1..], name)
  }

  function MetaField(h: map<Id, Obj>, mt: Option<Id>, name: Id): Value {
    if mt.Some? && mt.value in h && h[mt.value].body.Table? then FieldOf(h[mt.value].body.nodes, name)
    else Nil
  }

  /** The weak mode of a table: which of keys and values are weak. */
  function Mode(s: State, mt: Option<Id>): (bool, bool) {
    var v := MetaField(s.heap, mt, s.env.modeName);
    if v.Ref? && v.id in s.heap && s.heap[v.id].body.Str? then (s.heap[v.id].body.hasK, s.heap[v.id].body.hasV)
    else (false, false)
  }

  /** The references that keep their target alive: all but the weak ones of a weak table. */
  predicate StrongPts(s: State, o: Id, x: Id) {
    o in s.heap &&
    match s.heap[o].body
    case Table(mt, arr, nodes) =>
      var (wk, wv) := Mode(s, mt);
      mt == Some(x) || (!wv && Ref(x) in arr) || NodesPts(nodes, x, !wk, !wv)
    case _ => Pts(s, o, x)
  }

  lemma StrongIsPts(s: State, o: Id, x: Id)
    requires StrongPts(s, o, x)
    ensures Pts(s, o, x)
  {
  }

  // ---------------------------------------------------------------- what a traversal marks

  function Ids(vs: seq<Value>): (r: seq<Id>)
    ensures forall x :: x in r <==> Ref(x) in vs
  {
    if vs == [] then []
    else
      assert vs == [vs[0]] + vs[1..];
      (if vs[0].Ref? then [vs[0].id] else []) + Ids(vs[1..])
  }

  function OptIds(os: seq<Option<Id>>): (r: seq<Id>)
    ensures forall x :: x in r <==> Some(x) in os
  {
    if os == [] then []
    else
      assert os == [os[0]] + os[1..];
      (if os[0].Some? then [os[0].value] else []) + OptIds(os[1..])
  }

  function NodeIds(ns: seq<Node>, keys: bool, vals: bool): (r: seq<Id>)
    ensures forall x :: x in r <==> NodesPts(ns, x, keys, vals)
  {
    if ns == [] then []
    else
      assert ns == [ns[0]] + ns[1..];
      var rest := NodeIds(ns[1..], keys, vals);
      var n := ns[0];
      var here := (if n.val != Nil && keys then Ids([n.key]) else []) +
                  (if n.val != Nil && vals then Ids([n.val]) else []);
      assert forall x :: x in here <==> NodePts(n, x, keys, vals);
      assert forall x :: NodesPts(ns, x, keys, vals) <==> NodePts(n, x, keys, vals) || NodesPts(ns[1..], x, keys, vals);
      here + rest
  }

  /** Everything that marking or traversing `o` marks in turn. */
  function Targets(s: State, o: Id): (r: seq<Id>)
    requires o in s.heap
    ensures forall x :: x in r <==> StrongPts(s, o, x)
  {
    match s.heap[o].body
    case Str(_, _) => []
    case Udata(mt, env) => OptIds([mt]) + [env]
    case UpOpen(t, i) => Ids([SlotValue(s.heap, t, i)])
    case UpClosed(v) => Ids([v])
    case Closure(env, parts) => [env] + Ids(parts)
    case Table(mt, arr, nodes) =>
      var (wk, wv) := Mode(s, mt);
      OptIds([mt]) + (if wv then [] else Ids(arr)) + NodeIds(nodes, !wk, !wv)
    case Thread(gt, stack, _) => Ids([gt]) + Ids(stack)
    case Proto(parts) => Ids(parts)
  }
}
