/** Open and closed upvalues of one thread (gfunc.c), and what closures that share a variable read. */
module Upvalues {

  type Val(==, 0)

  /** UpVal: open, it stands for a stack slot; closed, it holds the value itself. `variable` names the variable it
      stands for. */
  datatype UpVal = UpVal(open: bool, level: int, value: Val, variable: int)

  /** A thread: the stack, the list of open upvalues, and all upvalues, which closures name by number. Beside them,
      which variable each slot holds, and the last value written to each variable, through whatever alias. */
  datatype State = State(stack: seq<Val>, open: seq<int>, ups: seq<UpVal>, holds: seq<int>, written: seq<Val>)

  predicate Up(t: State, u: int) { 0 <= u < |t.ups| }

  predicate Slot(t: State, i: int) { 0 <= i < |t.stack| }

  /** What an upvalue reads: through `v`, wherever it points. */
  function Read(t: State, u: int): Val
    requires Up(t, u) && (t.ups[u].open ==> Slot(t, t.ups[u].level))
  {
    if t.ups[u].open then t.stack[t.ups[u].level] else t.ups[u].value
  }

  /** The open list is strictly descending: one upvalue per slot. */
  predicate Descending(t: State) {
    (forall i | 0 <= i < |t.open| :: Up(t, t.open[i]) && t.ups[t.open[i]].open) &&
    forall i, j | 0 <= i < j < |t.open| :: t.ups[t.open[i]].level > t.ups[t.open[j]].level
  }

  /** An open upvalue is in the list and stands for the variable of its slot; a closed one has its variable for
      itself. */
  predicate UpOk(t: State, u: int)
    requires Up(t, u)
  {
    var x := t.ups[u];
    0 <= x.variable < |t.written| &&
    if x.open then Slot(t, x.level) && |t.holds| == |t.stack| && x.variable == t.holds[x.level] && u in t.open
    else x.value == t.written[x.variable] && x.variable !in t.holds
  }

  predicate SlotOk(t: State, i: int)
    requires Slot(t, i) && |t.holds| == |t.stack|
  {
    0 <= t.holds[i] < |t.written| && t.stack[i] == t.written[t.holds[i]]
  }

  predicate Ok(t: State) {
    |t.holds| == |t.stack| && Descending(t) && (forall i | 0 <= i < |t.stack| :: SlotOk(t, i)) &&
    (forall i, j | 0 <= i < j < |t.holds| :: t.holds[i] != t.holds[j]) && (forall u | 0 <= u < |t.ups| :: UpOk(t, u)) &&
    forall u, w | 0 <= u < w < |t.ups| :: t.ups[u].variable != t.ups[w].variable
  }

  /** Every upvalue, open or closed, reads the last value written to its variable. */
  lemma ReadsLast(t: State, u: int)
    requires Ok(t) && Up(t, u)
    ensures UpOk(t, u) && Read(t, u) == t.written[t.ups[u].variable]
  {
    assert UpOk(t, u);
    if t.ups[u].open { assert SlotOk(t, t.ups[u].level); }
  }

  // ---------------------------------------------------------------- capture

  /** How many open upvalues come before `level`. */
  function Above(t: State, level: int, i: nat): (n: nat)
    requires Descending(t) && i <= |t.open|
    ensures i <= n <= |t.open|
    decreases |t.open| - i
  {
    if i < |t.open| && t.ups[t.open[i]].level > level then Above(t, level, i + 1) else i
  }

  /** gafqF_findupval: the upvalue of a slot; a new one takes its place in the list. */
  function Find(t: State, level: int): (State, int)
    requires Ok(t) && Slot(t, level)
  {
    var n := Above(t, level, 0);
    if n < |t.open| && t.ups[t.open[n]].level == level then (t, t.open[n])
    else
      var u := |t.ups|;
      (t.(open := t.open[..n] + [u] + t.open[n..], ups := t.ups + [UpVal(true, level, t.stack[level], t.holds[level])]), u)
  }

  lemma {:induction false} AboveSplits(t: State, level: int, i: nat)
    requires Descending(t) && i <= |t.open| && forall j | 0 <= j < i :: t.ups[t.open[j]].level > level
    ensures var n := Above(t, level, i);
            (forall j | 0 <= j < n :: t.ups[t.open[j]].level > level) &&
            forall j | n <= j < |t.open| :: t.ups[t.open[j]].level <= level
    decreases |t.open| - i
  {
    if i < |t.open| && t.ups[t.open[i]].level > level { AboveSplits(t, level, i + 1); }
  }

  lemma FindOk(t: State, level: int)
    requires Ok(t) && Slot(t, level)
    ensures var (s, u) := Find(t, level);
            Ok(s) && Up(s, u) && s.ups[u].open && s.ups[u].level == level && s.ups[u].variable == t.holds[level] &&
            t.ups <= s.ups &&
            s == t.(open := s.open, ups := s.ups) &&
            (s != t <==> forall w | 0 <= w < |t.ups| && t.ups[w].open :: t.ups[w].level != level)
  {
    var (s, u) := Find(t, level);
    var n := Above(t, level, 0);
    AboveSplits(t, level, 0);
    if n < |t.open| && t.ups[t.open[n]].level == level {
      assert UpOk(t, u);
    } else {
      forall w | 0 <= w < |t.ups| && t.ups[w].open ensures t.ups[w].level != level { NotThere(t, level, n, w); }
      InsertOk(t, level, n, s);
    }
  }

  /** A new upvalue for a slot that has none. */
  lemma InsertOk(t: State, level: int, n: nat, s: State)
    requires Ok(t) && Slot(t, level) && n <= |t.open|
    requires forall w | 0 <= w < |t.ups| && t.ups[w].open :: t.ups[w].level != level
    requires forall j | 0 <= j < n :: t.ups[t.open[j]].level > level
    requires forall j | n <= j < |t.open| :: t.ups[t.open[j]].level <= level
    requires s == t.(open := t.open[..n] + [|t.ups|] + t.open[n..], ups := t.ups + [UpVal(true, level, t.stack[level], t.holds[level])])
    ensures Ok(s)
  {
    var u := |t.ups|;
    InsertDescending(t, level, n, s);
    hide Descending;
    assert SlotOk(t, level);
    forall w | 0 <= w < |s.ups| ensures UpOk(s, w) {
      if w < u { assert UpOk(t, w); if t.ups[w].open { InLonger(t.open, n, u, w); } }
      else { assert s.open[n] == u; }
    }
    forall w, x | 0 <= w < x < |s.ups| ensures s.ups[w].variable != s.ups[x].variable { assert UpOk(t, w); }
    forall i | 0 <= i < |t.stack| ensures SlotOk(s, i) { assert SlotOk(t, i); }
  }

  lemma InsertDescending(t: State, level: int, n: nat, s: State)
    requires Ok(t) && Slot(t, level) && n <= |t.open|
    requires forall w | 0 <= w < |t.ups| && t.ups[w].open :: t.ups[w].level != level
    requires forall j | 0 <= j < n :: t.ups[t.open[j]].level > level
    requires forall j | n <= j < |t.open| :: t.ups[t.open[j]].level <= level
    requires s == t.(open := t.open[..n] + [|t.ups|] + t.open[n..], ups := t.ups + [UpVal(true, level, t.stack[level], t.holds[level])])
    ensures Descending(s)
  {
    hide UpOk, SlotOk;
    assert forall i | 0 <= i < |s.open| :: s.open[i] == if i < n then t.open[i] else if i == n then |t.ups| else t.open[i - 1];
    assert forall j | 0 <= j < |t.open| :: t.ups[t.open[j]].level != level;
  }

  lemma NotThere(t: State, level: int, n: nat, w: int)
    requires Ok(t) && n == Above(t, level, 0) && !(n < |t.open| && t.ups[t.open[n]].level == level) && Up(t, w)
    requires t.ups[w].open
    ensures t.ups[w].level != level
  {
    AboveSplits(t, level, 0);
    assert UpOk(t, w);
    var j :| 0 <= j < |t.open| && t.open[j] == w;
    if j > n { assert t.ups[t.open[n]].level > t.ups[t.open[j]].level; }
  }

  lemma InLonger(s: seq<int>, n: nat, u: int, w: int)
    requires n <= |s| && w in s
    ensures w in s[..n] + [u] + s[n..]
  {
    assert s == s[..n] + s[n..];
  }

  // ---------------------------------------------------------------- writes

  /** A write to a stack slot. */
  function SetSlot(t: State, i: int, v: Val): State
    requires Ok(t) && Slot(t, i)
  {
    assert SlotOk(t, i);
    t.(stack := t.stack[i := v], written := t.written[t.holds[i] := v])
  }

  lemma SetSlotOk(t: State, i: int, v: Val)
    requires Ok(t) && Slot(t, i)
    ensures Ok(SetSlot(t, i, v))
  {
    var s := SetSlot(t, i, v);
    assert SlotOk(t, i);
    forall j | 0 <= j < |s.stack| ensures SlotOk(s, j) { assert SlotOk(t, j); }
    forall u | 0 <= u < |s.ups| ensures UpOk(s, u) { assert UpOk(t, u); }
  }

  /** OP_SETUPVAL: a write through an upvalue. */
  function SetUpval(t: State, u: int, v: Val): State
    requires Ok(t) && Up(t, u)
  {
    assert UpOk(t, u);
    if t.ups[u].open then SetSlot(t, t.ups[u].level, v)
    else t.(ups := t.ups[u := t.ups[u].(value := v)], written := t.written[t.ups[u].variable := v])
  }

  lemma SetUpvalOk(t: State, u: int, v: Val)
    requires Ok(t) && Up(t, u)
    ensures Ok(SetUpval(t, u, v)) && UpOk(t, u) && SetUpval(t, u, v).written == t.written[t.ups[u].variable := v]
  {
    var s := SetUpval(t, u, v);
    assert UpOk(t, u);
    if t.ups[u].open { SetSlotOk(t, t.ups[u].level, v); }
    else {
      forall w | 0 <= w < |s.ups| ensures UpOk(s, w) { assert UpOk(t, w); }
      forall j | 0 <= j < |s.stack| ensures SlotOk(s, j) { assert SlotOk(t, j) && t.holds[j] in t.holds; }
    }
  }

  // ---------------------------------------------------------------- close

  /** The first open upvalue takes its value out of the stack; its slot is free for another variable. */
  function CloseFirst(t: State): State
    requires Ok(t) && t.open != []
  {
    var u := t.open[0];
    assert UpOk(t, u);
    var x := t.ups[u];
    t.(open := t.open[1..], ups := t.ups[u := UpVal(false, x.level, t.stack[x.level], x.variable)],
       holds := t.holds[x.level := |t.written|], written := t.written + [t.stack[x.level]])
  }

  lemma CloseFirstOk(t: State)
    requires Ok(t) && t.open != []
    ensures Ok(CloseFirst(t))
    ensures var s, u := CloseFirst(t), t.open[0];
            |s.ups| == |t.ups| && s.stack == t.stack && t.written <= s.written &&
            (forall w | 0 <= w < |t.ups| && w != u :: s.ups[w] == t.ups[w]) && !s.ups[u].open &&
            s.ups[u].variable == t.ups[u].variable &&
            s.ups[u].level == t.ups[u].level
  {
    var s, u := CloseFirst(t), t.open[0];
    assert UpOk(t, u);
    var x := t.ups[u];
    assert SlotOk(t, x.level);
    forall i | 0 <= i < |s.stack| ensures SlotOk(s, i) { assert SlotOk(t, i); }
    forall i, j | 0 <= i < j < |s.holds| ensures s.holds[i] != s.holds[j] { assert SlotOk(t, i) && SlotOk(t, j); }
    forall w | 0 <= w < |s.ups| ensures UpOk(s, w) {
      assert UpOk(t, w);
      if w != u && t.ups[w].open { StillOpen(t, w); assert t.ups[w].level != x.level; }
    }
    assert x.variable !in s.holds;
    forall i | 0 <= i < |s.open|
      ensures s.open[i] == t.open[i + 1] && s.open[i] != u
    {
      assert t.ups[t.open[0]].level > t.ups[t.open[i + 1]].level;
    }
  }

  lemma StillOpen(t: State, w: int)
    requires Ok(t) && t.open != [] && w in t.open && w != t.open[0]
    ensures w in t.open[1..] && t.ups[w].level < t.ups[t.open[0]].level
  {
    var j :| 0 <= j < |t.open| && t.open[j] == w;
    assert t.open[1..][j - 1] == w;
  }

  /** gafqF_close. */
  function Close(t: State, level: int): State
    requires Ok(t)
    decreases |t.open|
  {
    if t.open != [] && t.ups[t.open[0]].level >= level then
      CloseFirstOk(t);
      Close(CloseFirst(t), level)
    else t
  }

  /** Closing keeps what every upvalue reads, closes exactly the upvalues at or above the level, and takes them off the
      list. */
  lemma {:induction false} CloseOk(t: State, level: int)
    requires Ok(t)
    ensures var s := Close(t, level);
            Ok(s) && |s.ups| == |t.ups| && s.stack == t.stack && t.written <= s.written &&
            (forall u | 0 <= u < |t.ups| ::
               s.ups[u].variable == t.ups[u].variable && s.ups[u].open == (t.ups[u].open && t.ups[u].level < level)) &&
            forall u | 0 <= u < |t.ups| :: UpOk(t, u) && UpOk(s, u) && Read(s, u) == Read(t, u)
    decreases |t.open|
  {
    if t.open != [] && t.ups[t.open[0]].level >= level {
      CloseFirstOk(t);
      CloseOk(CloseFirst(t), level);
    } else {
      forall u | 0 <= u < |t.ups| && t.ups[u].open ensures t.ups[u].level < level {
        assert UpOk(t, u);
        if u != t.open[0] { StillOpen(t, u); }
      }
    }
    var s := Close(t, level);
    forall u | 0 <= u < |t.ups| ensures UpOk(t, u) && UpOk(s, u) && Read(s, u) == Read(t, u) {
      ReadsLast(t, u);
      ReadsLast(s, u);
    }
  }

  // ---------------------------------------------------------------- runs

  /** What a running function may do: create a closure over a slot, write to a slot or through an upvalue, leave a
      block. */
  datatype Op = Capture(level: int) | WriteSlot(i: int, v: Val) | WriteUp(u: int, w: Val) | Leave(from: int)

  predicate Enabled(t: State, op: Op) {
    match op
    case Capture(l) => Slot(t, l)
    case WriteSlot(i, _) => Slot(t, i)
    case WriteUp(u, _) => Up(t, u)
    case Leave(_) => true
  }

  function Apply(t: State, op: Op): State
    requires Ok(t) && Enabled(t, op)
  {
    match op
    case Capture(l) => Find(t, l).0
    case WriteSlot(i, v) => SetSlot(t, i, v)
    case WriteUp(u, v) => SetUpval(t, u, v)
    case Leave(l) => Close(t, l)
  }

  ghost predicate IsRun(states: seq<State>, ops: seq<Op>) {
    |states| == |ops| + 1 && Ok(states[0]) &&
    forall i | 0 <= i < |ops| :: Ok(states[i]) ==> Enabled(states[i], ops[i]) && states[i + 1] == Apply(states[i], ops[i])
  }

  /** In every state of every run, the open list is strictly descending with one upvalue per slot, and every upvalue
      reads the last value that was written to its variable. */
  lemma {:induction false} RunOk(states: seq<State>, ops: seq<Op>, n: nat)
    requires IsRun(states, ops) && n < |states|
    ensures Ok(states[n]) && Descending(states[n])
    ensures forall u | 0 <= u < |states[n].ups| :: UpOk(states[n], u) && Read(states[n], u) == states[n].written[states[n].ups[u].variable]
    decreases n
  {
    if n > 0 {
      RunOk(states, ops, n - 1);
      ApplyOk(states[n - 1], ops[n - 1]);
    }
    forall u | 0 <= u < |states[n].ups| ensures UpOk(states[n], u) && Read(states[n], u) == states[n].written[states[n].ups[u].variable] {
      ReadsLast(states[n], u);
    }
  }

  lemma ApplyOk(t: State, op: Op)
    requires Ok(t) && Enabled(t, op)
    ensures Ok(Apply(t, op))
  {
    match op
    case Capture(l) => FindOk(t, l);
    case WriteSlot(i, v) => SetSlotOk(t, i, v);
    case WriteUp(u, v) => SetUpvalOk(t, u, v);
    case Leave(l) => CloseOk(t, l);
  }

  // ---------------------------------------------------------------- in place

  /** UpVal as the source has it. */
  datatype Cell = Cell(open: bool, level: int, value: Val)

  class Thread {
    var stack: seq<Val>
    var openupval: seq<int>
    var cells: seq<Cell>
    // The upvalues with their variables, which variable each slot holds, and the last value written to each.
    ghost var ups: seq<UpVal>
    ghost var holds: seq<int>
    ghost var written: seq<Val>

    ghost function View(): State
      reads this
    {
      State(stack, openupval, ups, holds, written)
    }

    ghost predicate Valid()
      reads this
    {
      |cells| == |ups| && (forall u | 0 <= u < |ups| :: cells[u] == Cell(ups[u].open, ups[u].level, ups[u].value)) &&
      Ok(View())
    }

    constructor (size: nat, nil: Val)
      ensures Valid() && stack == seq(size, i => nil) && openupval == [] && cells == []
    {
      stack, openupval, cells := seq(size, i => nil), [], [];
      ups, holds, written := [], seq(size, i => i), seq(size, i => nil);
      new;
      forall i | 0 <= i < size ensures SlotOk(View(), i) {}
    }

    method FindUpval(level: int) returns (u: int)
      requires Valid() && Slot(View(), level)
      modifies this
      ensures (View(), u) == Find(old(View()), level) && Valid()
    {
      ghost var t := View();
      FindOk(t, level);
      var i := 0;
      while i < |openupval| && cells[openupval[i]].level >= level
        invariant 0 <= i <= |openupval| && View() == t && Above(t, level, i) == Above(t, level, 0)
      {
        if cells[openupval[i]].level == level { return openupval[i]; }
        i := i + 1;
      }
      u := |cells|;
      openupval := openupval[..i] + [u] + openupval[i..];
      cells := cells + [Cell(true, level, stack[level])];
      ups := ups + [UpVal(true, level, stack[level], holds[level])];
    }

    method WriteSlot(i: int, v: Val)
      requires Valid() && Slot(View(), i)
      modifies this
      ensures View() == SetSlot(old(View()), i, v) && Valid()
    {
      SetSlotOk(View(), i, v);
      assert SlotOk(View(), i);
      written := written[holds[i] := v];
      stack := stack[i := v];
    }

    method WriteUpval(u: int, v: Val)
      requires Valid() && Up(View(), u)
      modifies this
      ensures View() == SetUpval(old(View()), u, v) && Valid()
    {
      SetUpvalOk(View(), u, v);
      assert UpOk(View(), u);
      if cells[u].open { WriteSlot(cells[u].level, v); }
      else {
        written := written[ups[u].variable := v];
        cells, ups := cells[u := cells[u].(value := v)], ups[u := ups[u].(value := v)];
      }
    }

    method CloseUpvals(level: int)
      requires Valid()
      modifies this
      ensures View() == Close(old(View()), level) && Valid()
    {
      while openupval != [] && cells[openupval[0]].level >= level
        invariant Valid() && Close(View(), level) == Close(old(View()), level)
        decreases |openupval|
      {
        CloseFirstOk(View());
        var u := openupval[0];
        assert UpOk(View(), u);
        var x := cells[u];
        openupval := openupval[1..];
        cells := cells[u := Cell(false, x.level, stack[x.level])];
        ups := ups[u := UpVal(false, x.level, stack[x.level], ups[u].variable)];
        holds := holds[x.level := |written|];
        written := written + [stack[x.level]];
      }
    }
  }
}
