/** The code source map: a bytecode that tracks the inlined functions and the token position as the
    PC advances. */
module CodeSourceMap {
  import opened Wire

  const CHANGE_POSITION := 0
  const ADVANCE_PC := 1
  const PUSH_FUNCTION := 2
  const POP_FUNCTION := 3
  const NULL_CHECK := 4
  const NO_POSITION := -1

  datatype MapError = NegativeAdvance | EmptyPop | UnknownOp | Stream(error: ReadError)

  datatype Entry = Entry(pcOffset: nat, tokenPos: int, inlineStack: seq<int>)

  /** The entries decoded, and the error that stopped the decoder, if one did. */
  datatype Outcome = Outcome(entries: seq<Entry>, error: Option<MapError>)

  // ---------- the machine ----------

  /** An operation: three bits of code, 29 bits of signed argument. */
  datatype Op = Op(code: int, arg: int) {
    predicate Valid() {
      0 <= code < 8 && -0x1000_0000 <= arg < 0x1000_0000
    }

    predicate Advances() {
      code == ADVANCE_PC
    }
  }

  /** The machine's state; the stack's innermost function is last. */
  datatype Machine = Machine(pc: nat, tokenPos: int, stack: seq<int>) {
    function Snapshot(): Entry {
      Entry(AsUint32(pc), tokenPos, stack)
    }

    /** What an operation does, or why it cannot. */
    function Apply(op: Op): (Machine, Option<MapError>) {
      if op.code == CHANGE_POSITION then (this.(tokenPos := op.arg), None)
      else if op.code == ADVANCE_PC then
        if op.arg < 0 then (this, Some(NegativeAdvance)) else (this.(pc := pc + op.arg), None)
      else if op.code == PUSH_FUNCTION then (this.(stack := stack + [op.arg]), None)
      else if op.code == POP_FUNCTION then
        if stack == [] then (this, Some(EmptyPop)) else (this.(stack := stack[..|stack| - 1]), None)
      else if op.code == NULL_CHECK then (this, None)
      else (this, Some(UnknownOp))
    }
  }

  const START: Machine := Machine(0, NO_POSITION, [])

  /** Running a list of operations, recording the state after every advance. */
  function RunFrom(ops: seq<Op>, m: Machine, entries: seq<Entry>): Outcome {
    if ops == [] then Outcome(entries, None)
    else
      var (next, error) := m.Apply(ops[0]);
      if error.Some? then Outcome(entries, error)
      else RunFrom(ops[1..], next, if ops[0].Advances() then entries + [next.Snapshot()] else entries)
  }

  function Run(ops: seq<Op>): Outcome {
    RunFrom(ops, START, [])
  }

  // ---------- decoding ----------

  /** The operation packed in a 32-bit word: the shift is arithmetic. */
  function Unpack(raw: int): Op {
    Op(AsInt32(raw) % 8, AsInt32(raw) / 8)
  }

  function DecodeFrom(s: Bytes, m: Machine, entries: seq<Entry>): Outcome
    decreases |s|
  {
    if s == [] then Outcome(entries, None)
    else
      match ReadTagged32(s)
      case Fail(e, _) => Outcome(entries, Some(Stream(e)))
      case Done(raw, t) =>
        var op := Unpack(raw);
        var (next, error) := m.Apply(op);
        if error.Some? then Outcome(entries, error)
        else DecodeFrom(t, next, if op.Advances() then entries + [next.Snapshot()] else entries)
  }

  lemma DecodeUnfolds(s: Bytes, m: Machine, entries: seq<Entry>)
    ensures DecodeFrom(s, m, entries) ==
            if s == [] then Outcome(entries, None)
            else
              match ReadTagged32(s)
              case Fail(e, _) => Outcome(entries, Some(Stream(e)))
              case Done(raw, t) =>
                var op := Unpack(raw);
                var (next, error) := m.Apply(op);
                if error.Some? then Outcome(entries, error)
                else DecodeFrom(t, next, if op.Advances() then entries + [next.Snapshot()] else entries)
  {
  }

  /** The inline stack as the decoder keeps it: a prefix of a block of memory that is overwritten when the
      stack grows again after a pop, and moved when it is full. */
  class InlineStack {
    var memory: array<int>
    var used: nat

    ghost predicate Valid()
      reads this
    {
      used <= memory.Length
    }

    ghost function View(): seq<int>
      reads this, memory
      requires Valid()
    {
      memory[..used]
    }

    constructor ()
      ensures Valid() && fresh(memory) && View() == []
    {
      memory := new int[0];
      used := 0;
    }

    method Push(x: int)
      requires Valid()
      modifies this, memory
      ensures Valid() && (memory == old(memory) || fresh(memory))
      ensures View() == old(View()) + [x]
    {
      if used == memory.Length {
        var bigger := new int[2 * used + 1];
        for i := 0 to used
          invariant used == old(used) && memory == old(memory) && memory[..] == old(memory[..])
          invariant fresh(bigger) && bigger.Length == 2 * used + 1 && bigger[..i] == memory[..i]
        {
          bigger[i] := memory[i];
        }
        memory := bigger;
      }
      memory[used] := x;
      used := used + 1;
    }

    method Pop()
      requires Valid() && used > 0
      modifies this`used
      ensures Valid() && View() == old(View())[..old(used) - 1]
    {
      used := used - 1;
    }

    method Copy() returns (copy: array<int>)
      requires Valid()
      ensures fresh(copy) && copy[..] == View()
    {
      copy := new int[used];
      for i := 0 to used
        invariant copy[..i] == memory[..i]
      {
        copy[i] := memory[i];
      }
    }
  }

  /** An entry with its stack in memory of its own. */
  datatype Recorded = Recorded(pcOffset: nat, tokenPos: int, inlineStack: array<int>)

  /** What the entries hold now. */
  ghost function Seen(rs: seq<Recorded>): (es: seq<Entry>)
    reads set r | r in rs :: r.inlineStack
    ensures |es| == |rs|
  {
    if rs == [] then []
    else
      var last := rs[|rs| - 1];
      Seen(rs[..|rs| - 1]) + [Entry(last.pcOffset, last.tokenPos, last.inlineStack[..])]
  }

  lemma SeenAppend(rs: seq<Recorded>, r: Recorded)
    ensures Seen(rs + [r]) == Seen(rs) + [Entry(r.pcOffset, r.tokenPos, r.inlineStack[..])]
  {
    assert (rs + [r])[..|rs|] == rs;
  }

  /** The decoder's variables. */
  class Decoder {
    var pc: nat
    var tokenPos: int
    const stack: InlineStack
    var entries: seq<Recorded>

    /** No recorded stack shares memory with the stack. */
    ghost predicate Valid()
      reads this, stack
    {
      stack.Valid() && forall r :: r in entries ==> r.inlineStack != stack.memory
    }

    ghost function State(): Machine
      reads this, stack, stack.memory
      requires Valid()
    {
      Machine(pc, tokenPos, stack.View())
    }

    constructor ()
      ensures Valid() && State() == START && entries == []
      ensures fresh(stack) && fresh(stack.memory)
    {
      pc, tokenPos := 0, NO_POSITION;
      stack := new InlineStack();
      entries := [];
    }

    /** The state at the current PC is recorded after every advance. */
    method Record()
      requires Valid()
      modifies this`entries
      ensures Valid() && State() == old(State())
      ensures forall r :: r in entries ==> r in old(entries) || fresh(r.inlineStack)
      ensures Seen(entries) == old(Seen(entries)) + [State().Snapshot()]
    {
      hide Seen, AsUint32;
      var copy := stack.Copy();
      SeenAppend(entries, Recorded(AsUint32(pc), tokenPos, copy));
      entries := entries + [Recorded(AsUint32(pc), tokenPos, copy)];
    }

    /** One operation; what was recorded before stays as it is. */
    method Apply(op: Op) returns (error: Option<MapError>)
      requires Valid()
      modifies this, stack, stack.memory
      ensures Valid() && (stack.memory == old(stack.memory) || fresh(stack.memory))
      ensures forall r :: r in entries ==> r in old(entries) || fresh(r.inlineStack)
      ensures (State(), error) == old(State()).Apply(op)
      ensures Seen(entries) ==
        if error.None? && op.Advances() then old(Seen(entries)) + [State().Snapshot()] else old(Seen(entries))
    {
      hide Seen, AsUint32;
      if op.code == CHANGE_POSITION {
        tokenPos := op.arg;
      } else if op.code == ADVANCE_PC {
        if op.arg < 0 { return Some(NegativeAdvance); }
        pc := pc + op.arg;
        Record();
      } else if op.code == PUSH_FUNCTION {
        stack.Push(op.arg);
      } else if op.code == POP_FUNCTION {
        if stack.used == 0 { return Some(EmptyPop); }
        stack.Pop();
      } else if op.code != NULL_CHECK {
        return Some(UnknownOp);
      }
      error := None;
    }
  }

  /** Reads and does one operation. */
  method NextOp(s: Stream, d: Decoder) returns (error: Option<MapError>)
    requires s.Valid() && s.pos < |s.data| && d.Valid()
    modifies s`pos, d, d.stack, d.stack.memory
    ensures s.Valid() && d.Valid() && (d.stack.memory == old(d.stack.memory) || fresh(d.stack.memory))
    ensures forall r :: r in d.entries ==> r in old(d.entries) || fresh(r.inlineStack)
    ensures error.None? ==> s.pos > old(s.pos)
    ensures DecodeFrom(old(s.Rest()), old(d.State()), old(Seen(d.entries))) ==
      if error.Some? then Outcome(Seen(d.entries), error) else DecodeFrom(s.Rest(), d.State(), Seen(d.entries))
  {
    hide DecodeFrom, ReadTagged32, Unpack, Machine.Apply, Machine.Snapshot, Seen, Decoder.State, Decoder.Valid;
    DecodeUnfolds(s.Rest(), d.State(), Seen(d.entries));
    var raw := s.NextTagged32();
    assert forall r :: r in d.entries ==> unchanged(r.inlineStack);
    if raw.Err? { return Some(Stream(raw.error)); }
    error := d.Apply(Unpack(raw.value));
  }

  /** The recorded stacks live in memory of their own, so what was recorded is still there when the decoder
      is done. */
  method DecodeCodeSourceMap(payload: Bytes) returns (entries: seq<Recorded>, error: Option<MapError>)
    ensures forall r :: r in entries ==> fresh(r.inlineStack)
    ensures Outcome(Seen(entries), error) == DecodeFrom(payload, START, [])
  {
    hide DecodeFrom, Seen, Decoder.State, Decoder.Valid;
    var d := new Decoder();
    NothingSeen();
    var s := new Stream(payload, 0);
    while s.pos < |payload|
      invariant s.Valid() && s.data == payload && fresh(s)
      invariant d.Valid() && fresh(d) && fresh(d.stack) && fresh(d.stack.memory)
      invariant forall r :: r in d.entries ==> fresh(r.inlineStack)
      invariant DecodeFrom(payload, START, []) == DecodeFrom(s.Rest(), d.State(), Seen(d.entries))
      decreases |payload| - s.pos
    {
      error := NextOp(s, d);
      if error.Some? { return d.entries, error; }
    }
    DecodeUnfolds(s.Rest(), d.State(), Seen(d.entries));
    entries, error := d.entries, None;
  }

  lemma NothingSeen()
    ensures Seen([]) == []
  {
  }

  function PutOps(ops: seq<Op>, k: Bytes): Bytes {
    if ops == [] then k else PutTagged(ops[0].arg * 8 + ops[0].code, PutOps(ops[1..], k))
  }

  /** Decoding the bytes of a list of operations is running the list, up to and including the first
      operation that cannot be run. */
  lemma {:induction false} DecodeRunsTheOps(ops: seq<Op>, m: Machine, entries: seq<Entry>)
    requires forall i :: 0 <= i < |ops| ==> ops[i].Valid()
    ensures DecodeFrom(PutOps(ops, []), m, entries) == RunFrom(ops, m, entries)
  {
    hide ReadTagged32, AsInt32, AsUint32, PutTagged;
    if ops != [] {
      var op, t := ops[0], PutOps(ops[1..], []);
      var n := op.arg * 8 + op.code;
      Tagged32RoundTrip(n, t);
      Int32ThroughUint32(n);
      assert n % 8 == op.code && n / 8 == op.arg;
      PutTaggedIsNotEmpty(n, t);
      var (next, error) := m.Apply(op);
      if error.None? {
        DecodeRunsTheOps(ops[1..], next, if op.Advances() then entries + [next.Snapshot()] else entries);
      }
    }
  }

  lemma PutTaggedIsNotEmpty(v: int, k: Bytes)
    ensures PutTagged(v, k) != []
  {
  }

  // ---------- what an entry is ----------

  /** How many operations run before the first that cannot. */
  function ValidPrefix(ops: seq<Op>, m: Machine): (n: nat)
    ensures n <= |ops|
  {
    if ops == [] || m.Apply(ops[0]).1.Some? then 0 else 1 + ValidPrefix(ops[1..], m.Apply(ops[0]).0)
  }

  /** The state after the first n operations. */
  function StateAfter(ops: seq<Op>, m: Machine, n: nat): Machine
    requires n <= |ops|
  {
    if n == 0 then m else StateAfter(ops[1..], m.Apply(ops[0]).0, n - 1)
  }

  /** How many of the first n operations advance the PC. */
  function AdvanceCount(ops: seq<Op>, n: nat): nat
    requires n <= |ops|
  {
    if n == 0 then 0 else (if ops[0].Advances() then 1 else 0) + AdvanceCount(ops[1..], n - 1)
  }

  /** The run records one entry per advance of the valid prefix and errs exactly when that is not
      everything. */
  lemma {:induction false} RunCountsAdvances(ops: seq<Op>, m: Machine, entries: seq<Entry>)
    ensures |RunFrom(ops, m, entries).entries| == |entries| + AdvanceCount(ops, ValidPrefix(ops, m))
    ensures RunFrom(ops, m, entries).error.None? <==> ValidPrefix(ops, m) == |ops|
    ensures entries <= RunFrom(ops, m, entries).entries
  {
    hide Machine.Snapshot;
    if ops != [] {
      var (next, error) := m.Apply(ops[0]);
      if error.None? {
        RunCountsAdvances(ops[1..], next, if ops[0].Advances() then entries + [next.Snapshot()] else entries);
      }
    }
  }

  /** The entry of an advance is the machine's state after the operations up to that advance; no
      later push or pop alters it. */
  lemma {:induction false} EntryIsTheState(ops: seq<Op>, m: Machine, entries: seq<Entry>, n: nat)
    requires n < ValidPrefix(ops, m) && ops[n].Advances()
    ensures var r := RunFrom(ops, m, entries).entries;
            var i := |entries| + AdvanceCount(ops, n);
            i < |r| && r[i] == StateAfter(ops, m, n + 1).Snapshot()
    decreases n
  {
    hide Machine.Snapshot;
    var (next, _) := m.Apply(ops[0]);
    var entries' := if ops[0].Advances() then entries + [next.Snapshot()] else entries;
    if n == 0 {
      RunCountsAdvances(ops[1..], next, entries');
    } else {
      EntryIsTheState(ops[1..], next, entries', n - 1);
    }
  }

  /** An error keeps the entries of the valid prefix and nothing else. */
  lemma {:induction false} ErrorKeepsTheValidPrefix(ops: seq<Op>, m: Machine, entries: seq<Entry>)
    ensures RunFrom(ops[..ValidPrefix(ops, m)], m, entries) == Outcome(RunFrom(ops, m, entries).entries, None)
  {
    hide Machine.Snapshot;
    if ops != [] && m.Apply(ops[0]).1.None? {
      var next := m.Apply(ops[0]).0;
      var v := ValidPrefix(ops, m);
      assert ops[..v][1..] == ops[1..][..v - 1] && ops[..v][0] == ops[0];
      ErrorKeepsTheValidPrefix(ops[1..], next, if ops[0].Advances() then entries + [next.Snapshot()] else entries);
    }
  }

  // ---------- what the operations did ----------

  /** The PC after the first n operations: what operations 1 add. */
  function Advanced(ops: seq<Op>, n: nat): int
    requires n <= |ops|
  {
    if n == 0 then 0 else Advanced(ops, n - 1) + if ops[n - 1].code == 1 then ops[n - 1].arg else 0
  }

  /** The pushes, operations 2, that no pop, operation 3, has taken back. */
  function Open(ops: seq<Op>, n: nat): (open: seq<nat>)
    requires n <= |ops|
    ensures forall i :: 0 <= i < |open| ==> open[i] < n
    ensures forall i, k :: 0 <= i < k < |open| ==> open[i] < open[k]
  {
    if n == 0 then []
    else
      var before := Open(ops, n - 1);
      if ops[n - 1].code == 2 then before + [n - 1]
      else if ops[n - 1].code == 3 && before != [] then before[..|before| - 1]
      else before
  }

  /** Pushes less pops after operation j and before operation n. */
  function Above(ops: seq<Op>, j: nat, n: nat): int
    requires j < n <= |ops|
  {
    if n == j + 1 then 0
    else Above(ops, j, n - 1) + (if ops[n - 1].code == 2 then 1 else if ops[n - 1].code == 3 then -1 else 0)
  }

  /** Operation j pushes, and there are never more pops than pushes after it. */
  ghost predicate Unmatched(ops: seq<Op>, n: nat, j: nat)
    requires n <= |ops|
  {
    j < n && ops[j].code == 2 && forall b :: j < b <= n ==> Above(ops, j, b) >= 0
  }

  lemma UnmatchedStep(ops: seq<Op>, n: nat, j: nat)
    requires j < n < |ops|
    ensures Unmatched(ops, n + 1, j) <==> Unmatched(ops, n, j) && Above(ops, j, n + 1) >= 0
  {
  }

  lemma UnmatchedNew(ops: seq<Op>, n: nat)
    requires n < |ops|
    ensures Unmatched(ops, n + 1, n) <==> ops[n].code == 2
  {
  }

  /** As many pushes are open above one as there are more pushes than pops after it. */
  lemma {:induction false} OpenAbove(ops: seq<Op>, n: nat)
    requires n <= |ops|
    ensures forall i :: 0 <= i < |Open(ops, n)| ==> Above(ops, Open(ops, n)[i], n) == |Open(ops, n)| - 1 - i
  {
    if n > 0 { OpenAbove(ops, n - 1); }
  }

  /** The open pushes are the unmatched ones. */
  lemma {:induction false} OpenIsUnmatched(ops: seq<Op>, n: nat, j: nat)
    requires n <= |ops|
    ensures j in Open(ops, n) <==> Unmatched(ops, n, j)
  {
    hide Unmatched;
    if j >= n {
      NotYet(ops, n, j);
    } else {
      var m := n - 1;
      OpenIsUnmatched(ops, m, j);
      OpenAbove(ops, m);
      if j == m {
        UnmatchedNew(ops, m);
      } else {
        UnmatchedStep(ops, m, j);
        if j in Open(ops, m) { var i :| 0 <= i < |Open(ops, m)| && Open(ops, m)[i] == j; }
      }
    }
  }

  lemma NotYet(ops: seq<Op>, n: nat, j: nat)
    requires n <= |ops| && j >= n
    ensures !Unmatched(ops, n, j)
  {
  }

  /** An operation that cannot run: a PC that would go back, a pop of nothing, an unknown code. */
  predicate CannotRun(ops: seq<Op>, n: nat)
    requires n < |ops|
  {
    || (ops[n].code == 1 && ops[n].arg < 0)
    || (ops[n].code == 3 && Open(ops, n) == [])
    || !(0 <= ops[n].code <= 4)
  }

  /** The last operation 0 among the first n sets the position. */
  ghost predicate LastSet(ops: seq<Op>, n: nat, i: nat): (r: bool)
    requires n <= |ops|
    ensures r ==> i < n
  {
    i < n && ops[i].code == 0 && forall j :: i < j < n ==> ops[j].code != 0
  }

  /** The position and the stack, from the operations alone. */
  ghost predicate LeftBy(tokenPos: int, stack: seq<int>, ops: seq<Op>, n: nat)
    requires n <= |ops|
  {
    && (forall i: nat :: LastSet(ops, n, i) ==> tokenPos == ops[i].arg)
    && ((forall i :: 0 <= i < n ==> ops[i].code != 0) ==> tokenPos == -1)
    && StackOf(stack, ops, n)
  }

  ghost predicate StackOf(stack: seq<int>, ops: seq<Op>, n: nat)
    requires n <= |ops|
  {
    |stack| == |Open(ops, n)| && forall i :: 0 <= i < |stack| ==> stack[i] == ops[Open(ops, n)[i]].arg
  }

  ghost predicate DoneBy(m: Machine, ops: seq<Op>, n: nat)
    requires n <= |ops|
  {
    m.pc == Advanced(ops, n) && LeftBy(m.tokenPos, m.stack, ops, n)
  }

  lemma {:induction false} StateAfterStep(ops: seq<Op>, m: Machine, n: nat)
    requires n < |ops|
    ensures StateAfter(ops, m, n + 1) == StateAfter(ops, m, n).Apply(ops[n]).0
  {
    hide Machine.Apply;
    if n > 0 { StateAfterStep(ops[1..], m.Apply(ops[0]).0, n - 1); }
  }

  lemma {:induction false} PrefixIsValid(ops: seq<Op>, m: Machine, n: nat)
    requires n < |ops|
    ensures n < ValidPrefix(ops, m) ==> StateAfter(ops, m, n).Apply(ops[n]).1.None?
    ensures n == ValidPrefix(ops, m) ==> StateAfter(ops, m, n).Apply(ops[n]).1.Some?
  {
    hide Machine.Apply;
    if n > 0 && m.Apply(ops[0]).1.None? { PrefixIsValid(ops[1..], m.Apply(ops[0]).0, n - 1); }
  }

  lemma DoneByStep(m: Machine, ops: seq<Op>, n: nat)
    requires n < |ops| && DoneBy(m, ops, n)
    ensures m.Apply(ops[n]).1.Some? <==> CannotRun(ops, n)
    ensures m.Apply(ops[n]).1.None? ==> DoneBy(m.Apply(ops[n]).0, ops, n + 1)
  {
    hide LastSet, StackOf, Open;
    SetStep(ops, n);
    StackStep(m, ops, n);
    if forall i :: 0 <= i < n + 1 ==> ops[i].code != 0 { assert ops[n].code != 0; }
  }

  lemma StackStep(m: Machine, ops: seq<Op>, n: nat)
    requires n < |ops| && StackOf(m.stack, ops, n)
    ensures ops[n].code == 3 ==> (m.stack == [] <==> Open(ops, n) == [])
    ensures m.Apply(ops[n]).1.None? ==> StackOf(m.Apply(ops[n]).0.stack, ops, n + 1)
  {
    var m', open, open' := m.Apply(ops[n]).0, Open(ops, n), Open(ops, n + 1);
    if m.Apply(ops[n]).1.None? {
      forall i | 0 <= i < |m'.stack| ensures m'.stack[i] == ops[open'[i]].arg {
        if i < |m.stack| { assert m.stack[i] == ops[open[i]].arg; }
      }
    }
  }

  lemma SetStep(ops: seq<Op>, n: nat)
    requires n < |ops|
    ensures forall i: nat :: LastSet(ops, n + 1, i) <==> if ops[n].code == 0 then i == n else LastSet(ops, n, i)
  {
    forall i: nat ensures LastSet(ops, n + 1, i) <==> if ops[n].code == 0 then i == n else LastSet(ops, n, i) {
      if i < n && LastSet(ops, n, i) && ops[n].code != 0 {
        assert forall j :: i < j < n + 1 ==> ops[j].code != 0;
      }
    }
  }

  /** As long as the operations run, the machine's state is what they add up to. */
  lemma {:induction false} StateIsDone(ops: seq<Op>, n: nat)
    requires n <= ValidPrefix(ops, START)
    ensures DoneBy(StateAfter(ops, START, n), ops, n)
  {
    hide Machine.Apply, DoneBy;
    if n > 0 {
      StateIsDone(ops, n - 1);
      PrefixIsValid(ops, START, n - 1);
      StateAfterStep(ops, START, n - 1);
      DoneByStep(StateAfter(ops, START, n - 1), ops, n - 1);
    } else {
      NothingDone(ops);
    }
  }

  lemma NothingDone(ops: seq<Op>)
    ensures DoneBy(StateAfter(ops, START, 0), ops, 0)
  {
  }

  /** The run stops at the first operation that cannot run. */
  lemma StopsAtTheFirst(ops: seq<Op>, n: nat)
    requires n <= ValidPrefix(ops, START) && n < |ops|
    ensures CannotRun(ops, n) <==> n == ValidPrefix(ops, START)
  {
    hide Machine.Apply, DoneBy, CannotRun;
    StateIsDone(ops, n);
    PrefixIsValid(ops, START, n);
    DoneByStep(StateAfter(ops, START, n), ops, n);
  }

  lemma {:induction false} RunError(ops: seq<Op>, m: Machine, entries: seq<Entry>)
    ensures var v := ValidPrefix(ops, m);
            RunFrom(ops, m, entries).error == if v < |ops| then StateAfter(ops, m, v).Apply(ops[v]).1 else None
  {
    hide Machine.Apply, Machine.Snapshot;
    if ops != [] && m.Apply(ops[0]).1.None? {
      var next := m.Apply(ops[0]).0;
      RunError(ops[1..], next, if ops[0].Advances() then entries + [next.Snapshot()] else entries);
    }
  }

  /** And its error says why. */
  lemma ErrorSaysWhy(ops: seq<Op>)
    ensures var v := ValidPrefix(ops, START);
            Run(ops).error == if v == |ops| then None
                              else if ops[v].code == 1 then Some(NegativeAdvance)
                              else if ops[v].code == 3 then Some(EmptyPop)
                              else Some(UnknownOp)
  {
    hide RunFrom, ValidPrefix, StateAfter, Machine.Apply;
    RunError(ops, START, []);
    var v := ValidPrefix(ops, START);
    if v < |ops| {
      PrefixIsValid(ops, START, v);
      ErrorOf(StateAfter(ops, START, v), ops[v]);
    }
  }

  lemma ErrorOf(m: Machine, op: Op)
    requires m.Apply(op).1.Some?
    ensures m.Apply(op).1.value == if op.code == 1 then NegativeAdvance else if op.code == 3 then EmptyPop else UnknownOp
  {
  }

  /** The entry of an advance holds the PC modulo 2^32, the position last set, and the functions whose
      pushes are unmatched. */
  lemma EntryIsWhatTheOpsDid(ops: seq<Op>, n: nat)
    requires n < ValidPrefix(ops, START) && ops[n].code == 1
    ensures var r, i := Run(ops).entries, AdvanceCount(ops, n);
            && i < |r|
            && r[i].pcOffset == Advanced(ops, n + 1) % 0x1_0000_0000
            && LeftBy(r[i].tokenPos, r[i].inlineStack, ops, n + 1)
  {
    hide RunFrom, ValidPrefix, AdvanceCount, StateAfter, LeftBy;
    StateIsDone(ops, n + 1);
    EntryIsTheState(ops, START, [], n);
  }

  // ---------- looking a PC up ----------

  predicate Sorted(entries: seq<Entry>) {
    forall i, j :: 0 <= i < j < |entries| ==> entries[i].pcOffset <= entries[j].pcOffset
  }

  /** A run whose PC stays below 2^32 records nondecreasing PC offsets. */
  lemma {:induction false} RunIsSorted(ops: seq<Op>, m: Machine, entries: seq<Entry>)
    requires Sorted(entries) && forall i :: 0 <= i < |entries| ==> entries[i].pcOffset <= m.pc
    requires StateAfter(ops, m, ValidPrefix(ops, m)).pc < TWO_32
    ensures Sorted(RunFrom(ops, m, entries).entries)
  {
    if ops != [] && m.Apply(ops[0]).1.None? {
      var next := m.Apply(ops[0]).0;
      PcOnlyGrows(ops[1..], next);
      RunIsSorted(ops[1..], next, if ops[0].Advances() then entries + [next.Snapshot()] else entries);
    }
  }

  lemma {:induction false} PcOnlyGrows(ops: seq<Op>, m: Machine)
    ensures StateAfter(ops, m, ValidPrefix(ops, m)).pc >= m.pc
  {
    if ops != [] && m.Apply(ops[0]).1.None? {
      PcOnlyGrows(ops[1..], m.Apply(ops[0]).0);
    }
  }

  /** The number of entries before the first one past the PC. */
  function Leading(entries: seq<Entry>, pc: nat): (n: nat)
    ensures n <= |entries|
    ensures forall i :: 0 <= i < n ==> entries[i].pcOffset <= pc
    ensures n < |entries| ==> entries[n].pcOffset > pc
  {
    if entries == [] || entries[0].pcOffset > pc then 0 else 1 + Leading(entries[1..], pc)
  }

  /** One more than the index of the last entry at or before the PC; 0 if there is none. */
  function LastAtOrBefore(entries: seq<Entry>, pc: nat): (n: nat)
    ensures n <= |entries|
    ensures n > 0 ==> entries[n - 1].pcOffset <= pc
    ensures forall i :: n <= i < |entries| ==> entries[i].pcOffset > pc
  {
    if entries == [] then 0
    else if entries[|entries| - 1].pcOffset <= pc then |entries|
    else LastAtOrBefore(entries[..|entries| - 1], pc)
  }

  datatype CodeSourceMapInfo = CodeSourceMapInfo(refId: int, entries: seq<Entry>) {
    /** Scans up to the first entry past the PC. */
    method InlineStackAt(pcOffset: nat) returns (stack: seq<int>, tokenPos: int, ok: bool)
      ensures var n := Leading(entries, pcOffset);
              if n == 0 then !ok && stack == [] && tokenPos == NO_POSITION
              else ok && stack == entries[n - 1].inlineStack && tokenPos == entries[n - 1].tokenPos
    {
      var best := -1;
      for i := 0 to |entries|
        invariant best == i - 1
        invariant Leading(entries, pcOffset) >= i
      {
        if entries[i].pcOffset <= pcOffset {
          best := i;
          continue;
        }
        break;
      }
      if best < 0 { return [], NO_POSITION, false; }
      return entries[best].inlineStack, entries[best].tokenPos, true;
    }
  }

  /** The early exit finds the last entry at or before every PC if and only if the offsets never
      decrease. */
  lemma EarlyExitIsExact(entries: seq<Entry>)
    ensures (forall pc: nat :: Leading(entries, pc) == LastAtOrBefore(entries, pc)) <==> Sorted(entries)
  {
    hide Leading, LastAtOrBefore;
    if Sorted(entries) {
      forall pc: nat ensures Leading(entries, pc) == LastAtOrBefore(entries, pc) {
        SortedExit(entries, pc);
      }
    } else {
      var i, j :| 0 <= i < j < |entries| && entries[i].pcOffset > entries[j].pcOffset;
      var pc := entries[j].pcOffset;
      assert Leading(entries, pc) <= i && LastAtOrBefore(entries, pc) > j;
    }
  }

  lemma SortedExit(entries: seq<Entry>, pc: nat)
    requires Sorted(entries)
    ensures Leading(entries, pc) == LastAtOrBefore(entries, pc)
  {
    hide LastAtOrBefore;
    var m := LastAtOrBefore(entries, pc);
    assert forall i :: 0 <= i < m ==> entries[i].pcOffset <= pc;
    LeadingIsUnique(entries, pc, m);
  }

  lemma LeadingIsUnique(entries: seq<Entry>, pc: nat, m: nat)
    requires m <= |entries| && forall i :: 0 <= i < m ==> entries[i].pcOffset <= pc
    requires m < |entries| ==> entries[m].pcOffset > pc
    ensures Leading(entries, pc) == m
  {
  }
}
