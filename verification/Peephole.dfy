/** The annotator that joins an ADD of the pool pointer with a following load, one instruction at a
    time.  It is the only state one function's disassembly could leave behind for the next. */
module Peephole {
  import opened Wire

  /** An instruction, decoded as far as the annotator looks: a 64-bit, 32-bit or unscaled load, the
      registers it writes, and an ADD of an immediate to the pool pointer. */
  datatype Inst = Inst(load: Option<Load>, writes: set<int>, add: Option<PoolAdd>)
  datatype Load = Load(base: int, offset: int)
  datatype PoolAdd = PoolAdd(reg: int, imm: int)

  datatype Note = NoNote | PoolNote(index: int, text: Option<string>)

  /** The object pool, and the index that belongs to a byte offset from the pool pointer. */
  datatype PoolView = PoolView(indexOf: int -> Option<int>, texts: map<int, string>)

  datatype Peep = Peep(valid: bool, reg: int, imm: int) {
    /** Leaves the immediate as it is. */
    function Reset(): Peep {
      this.(valid := false, reg := -1)
    }

    predicate Hits(inst: Inst) {
      valid && reg >= 0 && inst.load.Some? && inst.load.value.base == reg
    }

    /** The pending ADD is gone: used by a load, or its register overwritten. */
    predicate Loses(inst: Inst) {
      Hits(inst) || (valid && reg >= 0 && reg in inst.writes)
    }
  }

  const FRESH := Peep(false, -1, 0)

  datatype Annotated = Annotated(notes: seq<Note>, peep: Peep)

  function NoteFor(view: PoolView, byteOffset: int): Note {
    match view.indexOf(byteOffset)
    case None => NoNote
    case Some(index) => PoolNote(index, if index in view.texts then Some(view.texts[index]) else None)
  }

  function Annotate(view: PoolView, p: Peep, inst: Inst): (r: (Note, Peep)) {
    var note := if p.Hits(inst) then NoteFor(view, p.imm + inst.load.value.offset) else NoNote;
    var p' := if p.Loses(inst) then p.(valid := false) else p;
    (note, if inst.add.Some? then Peep(true, inst.add.value.reg, inst.add.value.imm) else p')
  }

  function AnnotateAll(view: PoolView, p: Peep, insts: seq<Inst>): (r: Annotated)
    ensures |r.notes| == |insts|
    decreases |insts|
  {
    if insts == [] then Annotated([], p)
    else
      var (note, p') := Annotate(view, p, insts[0]);
      var rest := AnnotateAll(view, p', insts[1..]);
      Annotated([note] + rest.notes, rest.peep)
  }

  /** No run of annotations can tell the two states apart. */
  predicate Alike(p: Peep, q: Peep) {
    p == q || (!p.valid && !q.valid)
  }

  lemma {:induction false} AlikeAnnotate(view: PoolView, p: Peep, q: Peep, insts: seq<Inst>)
    requires Alike(p, q)
    ensures AnnotateAll(view, p, insts).notes == AnnotateAll(view, q, insts).notes
    ensures Alike(AnnotateAll(view, p, insts).peep, AnnotateAll(view, q, insts).peep)
    decreases |insts|
  {
    if insts != [] {
      AlikeAnnotate(view, Annotate(view, p, insts[0]).1, Annotate(view, q, insts[0]).1, insts[1..]);
    }
  }

  /** The instruction loads through a register that the ADD can have written. */
  predicate LoadsThrough(inst: Inst, reg: int) {
    reg >= 0 && inst.load.Some? && inst.load.value.base == reg
  }

  /** Index j holds an ADD, and up to instruction k of the function no other ADD of the pool pointer follows,
      no load through its register, and nothing writes that register. */
  ghost predicate Pending(insts: seq<Inst>, j: nat, k: nat)
    requires j < k <= |insts|
  {
    && insts[j].add.Some?
    && forall m :: j < m < k ==>
         && insts[m].add.None?
         && !LoadsThrough(insts[m], insts[j].add.value.reg)
         && (insts[j].add.value.reg >= 0 ==> insts[j].add.value.reg !in insts[m].writes)
  }

  /** The pending ADD, if there is one, is what the state holds. */
  ghost predicate Holds(insts: seq<Inst>, k: nat, q: Peep)
    requires k <= |insts|
  {
    && (q.valid <==> exists j :: 0 <= j < k && Pending(insts, j, k))
    && forall j :: 0 <= j < k && Pending(insts, j, k) ==>
         q.reg == insts[j].add.value.reg && q.imm == insts[j].add.value.imm
  }

  /** What ends a pending ADD. */
  ghost predicate Ends(inst: Inst, reg: int) {
    inst.add.Some? || LoadsThrough(inst, reg) || (reg >= 0 && reg in inst.writes)
  }

  /** An ADD stays pending across an instruction that is no ADD, does not use it and does not overwrite it. */
  lemma PendingStep(insts: seq<Inst>, j: nat, k: nat)
    requires j < k < |insts|
    ensures Pending(insts, j, k + 1) <==>
      Pending(insts, j, k) && !Ends(insts[k], insts[j].add.value.reg)
  {
  }

  lemma NextState(view: PoolView, q: Peep, inst: Inst)
    ensures var q' := Annotate(view, q, inst).1;
            if inst.add.Some? then q' == Peep(true, inst.add.value.reg, inst.add.value.imm)
            else q'.reg == q.reg && q'.imm == q.imm && (q'.valid <==> q.valid && !Ends(inst, q.reg))
  {
  }

  lemma HoldsStep(view: PoolView, insts: seq<Inst>, k: nat, n: nat, q: Peep)
    requires k < n == k + 1 <= |insts| && Holds(insts, k, q)
    ensures Holds(insts, n, Annotate(view, q, insts[k]).1)
  {
    hide Pending, Annotate, Ends;
    var last, q' := insts[k], Annotate(view, q, insts[k]).1;
    NextState(view, q, last);
    forall j | 0 <= j < k
      ensures Pending(insts, j, n) <==> Pending(insts, j, k) && !Ends(last, q.reg)
    {
      PendingIsAdd(insts, j, k);
      PendingStep(insts, j, k);
    }
    NewIsPending(insts, k);
    AddEnds(last, q.reg);
    forall j | 0 <= j < n && Pending(insts, j, n)
      ensures insts[j].add.Some? && q'.valid && q'.reg == insts[j].add.value.reg && q'.imm == insts[j].add.value.imm
    {
      PendingIsAdd(insts, j, n);
    }
    if q'.valid && last.add.None? {
      var j :| 0 <= j < k && Pending(insts, j, k);
      assert Pending(insts, j, n);
    }
  }

  lemma AddEnds(inst: Inst, reg: int)
    ensures inst.add.Some? ==> Ends(inst, reg)
  {
  }

  lemma PendingIsAdd(insts: seq<Inst>, j: nat, k: nat)
    requires j < k <= |insts|
    ensures Pending(insts, j, k) ==> insts[j].add.Some?
  {
  }

  lemma NewIsPending(insts: seq<Inst>, k: nat)
    requires k < |insts|
    ensures Pending(insts, k, k + 1) <==> insts[k].add.Some?
  {
  }

  /** The state before instruction k is the pending ADD, if there is one. */
  lemma {:induction false} StateIsThePendingAdd(view: PoolView, p: Peep, insts: seq<Inst>, k: nat)
    requires !p.valid && k <= |insts|
    ensures Holds(insts, k, AnnotateAll(view, p, insts[..k]).peep)
  {
    hide Pending, Annotate;
    if k > 0 {
      StateIsThePendingAdd(view, p, insts, k - 1);
      AnnotateLast(view, p, insts[..k - 1], insts[k - 1]);
      assert insts[..k] == insts[..k - 1] + [insts[k - 1]];
      HoldsStep(view, insts, k - 1, k, AnnotateAll(view, p, insts[..k - 1]).peep);
    }
  }

  lemma {:induction false} AnnotateLast(view: PoolView, p: Peep, insts: seq<Inst>, last: Inst)
    ensures var before := AnnotateAll(view, p, insts);
            AnnotateAll(view, p, insts + [last]) ==
            Annotated(before.notes + [Annotate(view, before.peep, last).0], Annotate(view, before.peep, last).1)
    decreases |insts|
  {
    if insts == [] {
      assert [last][1..] == [];
    } else {
      AnnotateLast(view, Annotate(view, p, insts[0]).1, insts[1..], last);
      assert (insts + [last])[1..] == insts[1..] + [last];
    }
  }

  /** The note of instruction k comes from the state before it. */
  lemma {:induction false} NoteAt(view: PoolView, p: Peep, insts: seq<Inst>, k: nat)
    requires k < |insts|
    ensures AnnotateAll(view, p, insts).notes[k]
         == Annotate(view, AnnotateAll(view, p, insts[..k]).peep, insts[k]).0
    decreases |insts|
  {
    hide Annotate;
    var n := |insts| - 1;
    assert insts == insts[..n] + [insts[n]];
    AnnotateLast(view, p, insts[..n], insts[n]);
    if k < n {
      NoteAt(view, p, insts[..n], k);
      assert insts[..n][..k] == insts[..k];
    }
  }

  /** Instruction k loads, at an offset that adds up to byteOffset, through the register of the ADD that is
      still pending at j. */
  ghost predicate Paired(insts: seq<Inst>, j: nat, k: nat, byteOffset: int)
    requires j < k < |insts|
  {
    && Pending(insts, j, k)
    && LoadsThrough(insts[k], insts[j].add.value.reg)
    && byteOffset == insts[j].add.value.imm + insts[k].load.value.offset
  }

  /** After a reset, whatever it left behind, instruction k is annotated with an entry of the pool if and only
      if it is the load of a pair whose two immediates add up to the byte offset of that entry; the text is
      the pool's. */
  lemma NoteIsThePairsNote(view: PoolView, p: Peep, insts: seq<Inst>, k: nat, index: int, text: Option<string>)
    requires k < |insts|
    ensures AnnotateAll(view, p.Reset(), insts).notes[k] == PoolNote(index, text) <==>
      && (exists j, byteOffset :: 0 <= j < k && Paired(insts, j, k, byteOffset) && view.indexOf(byteOffset) == Some(index))
      && text == (if index in view.texts then Some(view.texts[index]) else None)
  {
    hide Annotate, Holds, Paired, AnnotateAll;
    var q := AnnotateAll(view, p.Reset(), insts[..k]).peep;
    StateIsThePendingAdd(view, p.Reset(), insts, k);
    NoteAt(view, p.Reset(), insts, k);
    NoteMeans(view, q, insts[k], index, text);
    PairIsTheState(view, insts, k, q, index);
  }

  /** The note that the state and an instruction make. */
  lemma NoteMeans(view: PoolView, q: Peep, inst: Inst, index: int, text: Option<string>)
    ensures Annotate(view, q, inst).0 == PoolNote(index, text) <==>
      && q.valid && LoadsThrough(inst, q.reg) && view.indexOf(q.imm + inst.load.value.offset) == Some(index)
      && text == (if index in view.texts then Some(view.texts[index]) else None)
  {
  }

  lemma PairIsTheState(view: PoolView, insts: seq<Inst>, k: nat, q: Peep, index: int)
    requires k < |insts| && Holds(insts, k, q)
    ensures (exists j, byteOffset :: 0 <= j < k && Paired(insts, j, k, byteOffset) && view.indexOf(byteOffset) == Some(index))
       <==> q.valid && LoadsThrough(insts[k], q.reg) && view.indexOf(q.imm + insts[k].load.value.offset) == Some(index)
  {
    hide Pending;
    if j, byteOffset :| 0 <= j < k && Paired(insts, j, k, byteOffset) && view.indexOf(byteOffset) == Some(index) {
      PendingIsAdd(insts, j, k);
      assert byteOffset == q.imm + insts[k].load.value.offset;
    }
    if q.valid && LoadsThrough(insts[k], q.reg) {
      var j :| 0 <= j < k && Pending(insts, j, k);
      PendingIsAdd(insts, j, k);
      assert Paired(insts, j, k, q.imm + insts[k].load.value.offset);
    }
  }
}
