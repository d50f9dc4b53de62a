/** Naming the runtime entry points of a Thread table: each block is laid out in declaration order, 8
    bytes an entry, from an anchor the header names. */
module RuntimeEntries {
  import opened Wire

  const STRIDE := 8
  const SUFFIX := "_entry_point"
  const EXIT_THROUGH_FFI := "exit_through_ffi"

  /** The declared entries of an SDK version, and whether the leaf block follows the runtime block. */
  datatype Lists = Lists(runtime: seq<string>, leaf: seq<string>, contiguous: bool)

  datatype Conflict = Conflict(offset: int, held: string, predicted: string)

  /** The names by offset turned around; a name at two offsets keeps either, as the iteration order has it. */
  ghost predicate IsReverse(names: map<int, string>, byName: map<string, int>) {
    && (forall off :: off in names ==> names[off] in byName)
    && (forall n :: n in byName ==> byName[n] in names && names[byName[n]] == n)
  }

  /** The anchor of the first block. */
  function RuntimeAnchor(lists: Lists, byName: map<string, int>): Option<int> {
    if lists.runtime != [] && lists.runtime[0] + SUFFIX in byName then Some(byName[lists.runtime[0] + SUFFIX]) else None
  }

  /** The anchor of the second: its own name, or after exit_through_ffi, or after the first block. */
  function LeafAnchor(lists: Lists, byName: map<string, int>): Option<int> {
    if lists.leaf == [] then None
    else if lists.leaf[0] + SUFFIX in byName then Some(byName[lists.leaf[0] + SUFFIX])
    else if EXIT_THROUGH_FFI in byName && !lists.contiguous then Some(byName[EXIT_THROUGH_FFI] + STRIDE)
    else
      match RuntimeAnchor(lists, byName)
      case Some(a) => if a >= 0 && lists.contiguous then Some(a + |lists.runtime| * STRIDE) else None
      case None => None
  }

  /** The first k predictions of a block taken in. */
  function Placed(m: map<int, string>, anchor: int, names: seq<string>, k: nat): map<int, string>
    requires k <= |names|
  {
    if k == 0 then m
    else
      var before, off := Placed(m, anchor, names, k - 1), anchor + (k - 1) * STRIDE;
      if off in before then before else before[off := names[k - 1] + SUFFIX]
  }

  function Block(m: map<int, string>, anchor: Option<int>, names: seq<string>): map<int, string> {
    if anchor.Some? then Placed(m, anchor.value, names, |names|) else m
  }

  /** The predictions among the first k that disagree with what the slot held. */
  function Conflicts(m: map<int, string>, anchor: int, names: seq<string>, k: nat): seq<Conflict>
    requires k <= |names|
  {
    if k == 0 then []
    else
      var off, want := anchor + (k - 1) * STRIDE, names[k - 1] + SUFFIX;
      Conflicts(m, anchor, names, k - 1) + if off in m && m[off] != want then [Conflict(off, m[off], want)] else []
  }

  function BlockConflicts(m: map<int, string>, anchor: Option<int>, names: seq<string>): seq<Conflict> {
    if anchor.Some? then Conflicts(m, anchor.value, names, |names|) else []
  }

  /** Both blocks. */
  function Filled(lists: Lists, m: map<int, string>, byName: map<string, int>): map<int, string> {
    Block(Block(m, RuntimeAnchor(lists, byName), lists.runtime), LeafAnchor(lists, byName), lists.leaf)
  }

  function AllConflicts(lists: Lists, m: map<int, string>, byName: map<string, int>): seq<Conflict> {
    var m1 := Block(m, RuntimeAnchor(lists, byName), lists.runtime);
    BlockConflicts(m, RuntimeAnchor(lists, byName), lists.runtime)
    + BlockConflicts(m1, LeafAnchor(lists, byName), lists.leaf)
  }

  /** The offset belongs to one of the first k entries of a block at the anchor. */
  predicate InBlock(anchor: int, k: nat, off: int) {
    anchor <= off < anchor + k * STRIDE && (off - anchor) % STRIDE == 0
  }

  function Index(anchor: int, off: int): int {
    (off - anchor) / STRIDE
  }

  /** What a block makes of one offset: a name that is there stays, a free slot gets its own entry. */
  lemma {:induction false} PlacedIsExact(m: map<int, string>, anchor: int, names: seq<string>, k: nat, off: int)
    requires k <= |names|
    ensures var r := Placed(m, anchor, names, k);
            && (off in r <==> off in m || InBlock(anchor, k, off))
            && (off in m ==> r[off] == m[off])
            && (off !in m && InBlock(anchor, k, off) ==> r[off] == names[Index(anchor, off)] + SUFFIX)
  {
    if k > 0 { PlacedIsExact(m, anchor, names, k - 1, off); }
  }

  predicate InBlockOf(anchor: Option<int>, names: seq<string>, off: int) {
    anchor.Some? && InBlock(anchor.value, |names|, off)
  }

  /** The table after the fill, offset by offset: the header's names are never overwritten, then come the
      runtime entries, then the leaf entries, and there is nothing else. */
  lemma FillIsExact(lists: Lists, m: map<int, string>, byName: map<string, int>, off: int)
    ensures var r := Filled(lists, m, byName);
            var a, b := RuntimeAnchor(lists, byName), LeafAnchor(lists, byName);
            if off in m then off in r && r[off] == m[off]
            else if InBlockOf(a, lists.runtime, off) then
              off in r && r[off] == lists.runtime[Index(a.value, off)] + SUFFIX
            else if InBlockOf(b, lists.leaf, off) then
              off in r && r[off] == lists.leaf[Index(b.value, off)] + SUFFIX
            else off !in r
  {
    hide Placed, RuntimeAnchor, LeafAnchor, InBlock;
    var a, b := RuntimeAnchor(lists, byName), LeafAnchor(lists, byName);
    var m1 := Block(m, a, lists.runtime);
    if a.Some? { PlacedIsExact(m, a.value, lists.runtime, |lists.runtime|, off); }
    if b.Some? { PlacedIsExact(m1, b.value, lists.leaf, |lists.leaf|, off); }
  }

  /** Every slot of every anchored block ends with a name, and the conflicts are exactly the slots whose
      name is not the predicted one. */
  lemma SlotsAreNamedOrReported(lists: Lists, m: map<int, string>, byName: map<string, int>, i: nat)
    ensures var r := Filled(lists, m, byName);
            var reported := AllConflicts(lists, m, byName);
            var a, b := RuntimeAnchor(lists, byName), LeafAnchor(lists, byName);
            && (a.Some? && i < |lists.runtime| ==> NamedOrReported(r, reported, a.value + i * STRIDE, lists.runtime[i]))
            && (b.Some? && i < |lists.leaf| ==> NamedOrReported(r, reported, b.value + i * STRIDE, lists.leaf[i]))
  {
    hide Placed, RuntimeAnchor, LeafAnchor, Conflicts, Filled, AllConflicts;
    var a, b := RuntimeAnchor(lists, byName), LeafAnchor(lists, byName);
    var m1 := Block(m, a, lists.runtime);
    if a.Some? && i < |lists.runtime| {
      RuntimeSlot(lists, m, byName, i);
    }
    if b.Some? && i < |lists.leaf| {
      LeafSlot(lists, m, byName, i);
    }
  }

  predicate NamedOrReported(r: map<int, string>, reported: seq<Conflict>, off: int, name: string) {
    off in r && (r[off] == name + SUFFIX || Conflict(off, r[off], name + SUFFIX) in reported)
  }

  lemma {:induction false} ConflictsAreExact(m: map<int, string>, anchor: int, names: seq<string>, k: nat, c: Conflict)
    requires k <= |names|
    ensures c in Conflicts(m, anchor, names, k) <==>
      && InBlock(anchor, k, c.offset)
      && c.offset in m && m[c.offset] == c.held
      && c.predicted == names[Index(anchor, c.offset)] + SUFFIX && c.held != c.predicted
  {
    if k > 0 { ConflictsAreExact(m, anchor, names, k - 1, c); }
  }

  lemma SlotInBlock(anchor: int, k: nat, i: nat)
    requires i < k
    ensures InBlock(anchor, k, anchor + i * STRIDE) && Index(anchor, anchor + i * STRIDE) == i
  {
  }

  lemma RuntimeSlot(lists: Lists, m: map<int, string>, byName: map<string, int>, i: nat)
    requires RuntimeAnchor(lists, byName).Some? && i < |lists.runtime|
    ensures NamedOrReported(Filled(lists, m, byName), AllConflicts(lists, m, byName),
                            RuntimeAnchor(lists, byName).value + i * STRIDE, lists.runtime[i])
  {
    hide Placed, RuntimeAnchor, LeafAnchor, Conflicts, Filled, InBlock, Index;
    var a := RuntimeAnchor(lists, byName).value;
    var off, want := a + i * STRIDE, lists.runtime[i] + SUFFIX;
    SlotInBlock(a, |lists.runtime|, i);
    FillIsExact(lists, m, byName, off);
    if off in m {
      ConflictsAreExact(m, a, lists.runtime, |lists.runtime|, Conflict(off, m[off], want));
    }
  }

  lemma LeafSlot(lists: Lists, m: map<int, string>, byName: map<string, int>, i: nat)
    requires LeafAnchor(lists, byName).Some? && i < |lists.leaf|
    ensures NamedOrReported(Filled(lists, m, byName), AllConflicts(lists, m, byName),
                            LeafAnchor(lists, byName).value + i * STRIDE, lists.leaf[i])
  {
    hide Placed, RuntimeAnchor, LeafAnchor, Conflicts, InBlock, Index;
    var b := LeafAnchor(lists, byName).value;
    var m1 := Block(m, RuntimeAnchor(lists, byName), lists.runtime);
    var off, want := b + i * STRIDE, lists.leaf[i] + SUFFIX;
    SlotInBlock(b, |lists.leaf|, i);
    PlacedIsExact(m1, b, lists.leaf, |lists.leaf|, off);
    if off in m1 {
      ConflictsAreExact(m1, b, lists.leaf, |lists.leaf|, Conflict(off, m1[off], want));
    }
  }

  /** By the contiguous rule the leaf block begins where the runtime block ends: no predicted slot of one
      is a slot of the other, so every slot the header leaves free gets its own entry. */
  lemma ContiguousBlocksAreDisjoint(lists: Lists, byName: map<string, int>, off: int)
    requires lists.contiguous && lists.leaf != [] && lists.leaf[0] + SUFFIX !in byName
    requires InBlockOf(RuntimeAnchor(lists, byName), lists.runtime, off)
    ensures !InBlockOf(LeafAnchor(lists, byName), lists.leaf, off)
  {
  }

  /** The runtime anchor carries the first entry's own name, so the first slot is never a conflict. */
  lemma AnchorsAgree(lists: Lists, m: map<int, string>, byName: map<string, int>)
    requires IsReverse(m, byName) && RuntimeAnchor(lists, byName).Some?
    ensures var a := RuntimeAnchor(lists, byName).value;
            var r := Filled(lists, m, byName);
            && a in r && r[a] == lists.runtime[0] + SUFFIX
            && forall c :: c in BlockConflicts(m, Some(a), lists.runtime) ==> c.offset != a
  {
    hide Placed, Conflicts, Filled;
    var a := RuntimeAnchor(lists, byName).value;
    FillIsExact(lists, m, byName, a);
    forall c | c in BlockConflicts(m, Some(a), lists.runtime) ensures c.offset != a {
      ConflictsAreExact(m, a, lists.runtime, |lists.runtime|, c);
    }
  }

  // ---------- names and bytes ----------

  /** off is the slot of runtime entry i: eight bytes an entry from the first one's own name. */
  ghost predicate RuntimeSlotIs(lists: Lists, byName: map<string, int>, i: int, off: int) {
    && 0 <= i < |lists.runtime|
    && lists.runtime[0] + "_entry_point" in byName
    && off == byName[lists.runtime[0] + "_entry_point"] + 8 * i
  }

  /** off is the slot of leaf entry i: from the first one's own name; without that name, from behind
      exit_through_ffi where the blocks are apart, and from behind the runtime block, if it has a place that is
      not negative, where they are not. */
  ghost predicate LeafSlotIs(lists: Lists, byName: map<string, int>, i: int, off: int) {
    && 0 <= i < |lists.leaf|
    && (if lists.leaf[0] + "_entry_point" in byName then off == byName[lists.leaf[0] + "_entry_point"] + 8 * i
        else if !lists.contiguous then "exit_through_ffi" in byName && off == byName["exit_through_ffi"] + 8 + 8 * i
        else
          && lists.runtime != [] && lists.runtime[0] + "_entry_point" in byName
          && byName[lists.runtime[0] + "_entry_point"] >= 0
          && off == byName[lists.runtime[0] + "_entry_point"] + 8 * |lists.runtime| + 8 * i)
  }

  lemma SlotsOfBlocks(lists: Lists, byName: map<string, int>, off: int)
    ensures InBlockOf(RuntimeAnchor(lists, byName), lists.runtime, off) <==> exists i :: RuntimeSlotIs(lists, byName, i, off)
    ensures InBlockOf(LeafAnchor(lists, byName), lists.leaf, off) <==> exists i :: LeafSlotIs(lists, byName, i, off)
    ensures forall i :: RuntimeSlotIs(lists, byName, i, off) ==>
              RuntimeAnchor(lists, byName).Some? && Index(RuntimeAnchor(lists, byName).value, off) == i
    ensures forall i :: LeafSlotIs(lists, byName, i, off) ==>
              LeafAnchor(lists, byName).Some? && Index(LeafAnchor(lists, byName).value, off) == i
  {
    RuntimeSlots(lists, byName, off);
    LeafSlots(lists, byName, off);
  }

  lemma RuntimeSlots(lists: Lists, byName: map<string, int>, off: int)
    ensures InBlockOf(RuntimeAnchor(lists, byName), lists.runtime, off) <==> exists i :: RuntimeSlotIs(lists, byName, i, off)
    ensures forall i :: RuntimeSlotIs(lists, byName, i, off) ==>
              RuntimeAnchor(lists, byName).Some? && Index(RuntimeAnchor(lists, byName).value, off) == i
  {
    var a := RuntimeAnchor(lists, byName);
    if InBlockOf(a, lists.runtime, off) { assert RuntimeSlotIs(lists, byName, Index(a.value, off), off); }
  }

  lemma LeafSlots(lists: Lists, byName: map<string, int>, off: int)
    ensures InBlockOf(LeafAnchor(lists, byName), lists.leaf, off) <==> exists i :: LeafSlotIs(lists, byName, i, off)
    ensures forall i :: LeafSlotIs(lists, byName, i, off) ==>
              LeafAnchor(lists, byName).Some? && Index(LeafAnchor(lists, byName).value, off) == i
  {
    var b := LeafAnchor(lists, byName);
    if InBlockOf(b, lists.leaf, off) { assert LeafSlotIs(lists, byName, Index(b.value, off), off); }
  }

  /** A slot's name after the runtime block. */
  ghost predicate HeldFirst(lists: Lists, m: map<int, string>, byName: map<string, int>, off: int, name: string) {
    if off in m then name == m[off]
    else exists i :: RuntimeSlotIs(lists, byName, i, off) && name == lists.runtime[i] + "_entry_point"
  }

  /** The filled table: what the header names stays, then come the runtime entries, then the leaf entries, and
      nothing else is named. */
  lemma TableIsExact(lists: Lists, m: map<int, string>, byName: map<string, int>, off: int, name: string)
    ensures var r := Filled(lists, m, byName);
            off in r && r[off] == name <==>
              || HeldFirst(lists, m, byName, off, name)
              || (off !in m && (forall i :: !RuntimeSlotIs(lists, byName, i, off))
                  && exists i :: LeafSlotIs(lists, byName, i, off) && name == lists.leaf[i] + "_entry_point")
  {
    hide Filled, RuntimeAnchor, LeafAnchor, InBlockOf, Index, RuntimeSlotIs, LeafSlotIs;
    FillIsExact(lists, m, byName, off);
    SlotsOfBlocks(lists, byName, off);
    SlotsAreInRange(lists, byName, off);
  }

  lemma SlotsAreInRange(lists: Lists, byName: map<string, int>, off: int)
    ensures forall i :: RuntimeSlotIs(lists, byName, i, off) ==> 0 <= i < |lists.runtime|
    ensures forall i :: LeafSlotIs(lists, byName, i, off) ==> 0 <= i < |lists.leaf|
  {
  }

  /** The reports: exactly the slots that hold another name than the one predicted when their block comes. */
  lemma ReportsAreExact(lists: Lists, m: map<int, string>, byName: map<string, int>, c: Conflict)
    ensures c in AllConflicts(lists, m, byName) <==>
      && c.held != c.predicted
      && (|| (c.offset in m && c.held == m[c.offset]
              && exists i :: RuntimeSlotIs(lists, byName, i, c.offset) && c.predicted == lists.runtime[i] + "_entry_point")
          || (HeldFirst(lists, m, byName, c.offset, c.held)
              && exists i :: LeafSlotIs(lists, byName, i, c.offset) && c.predicted == lists.leaf[i] + "_entry_point"))
  {
    hide Placed, Conflicts, RuntimeAnchor, LeafAnchor, Index, RuntimeSlotIs, LeafSlotIs;
    var a, b := RuntimeAnchor(lists, byName), LeafAnchor(lists, byName);
    SlotsOfBlocks(lists, byName, c.offset);
    SlotsAreInRange(lists, byName, c.offset);
    if a.Some? {
      PlacedIsExact(m, a.value, lists.runtime, |lists.runtime|, c.offset);
      ConflictsAreExact(m, a.value, lists.runtime, |lists.runtime|, c);
    }
    if b.Some? {
      ConflictsAreExact(Block(m, a, lists.runtime), b.value, lists.leaf, |lists.leaf|, c);
    }
  }

  // ---------- the loops ----------

  /** A Thread table, filled in place. */
  class ThreadTable {
    var names: map<int, string>

    constructor (names: map<int, string>)
      ensures this.names == names
    {
      this.names := names;
    }

    /** Turns the names around, in whatever order the map is iterated. */
    method ByName() returns (byName: map<string, int>)
      ensures IsReverse(names, byName)
    {
      byName := map[];
      var left := names.Keys;
      while exists off :: off in left
        invariant left <= names.Keys
        invariant forall off :: off in names && off !in left ==> names[off] in byName
        invariant forall n :: n in byName ==> byName[n] in names && names[byName[n]] == n
        decreases left
      {
        var off :| off in left;
        byName := byName[names[off] := off];
        left := left - {off};
      }
    }

    /** One block. */
    method Place(anchor: int, block: seq<string>) returns (conflicts: seq<Conflict>)
      modifies this
      ensures names == Placed(old(names), anchor, block, |block|)
      ensures conflicts == Conflicts(old(names), anchor, block, |block|)
    {
      hide Placed, Conflicts;
      conflicts := [];
      NothingPlaced(names, anchor, block);
      for i := 0 to |block|
        invariant names == Placed(old(names), anchor, block, i)
        invariant conflicts == Conflicts(old(names), anchor, block, i)
      {
        var off, want := anchor + i * STRIDE, block[i] + SUFFIX;
        OneMorePlaced(old(names), anchor, block, i);
        if off !in names {
          names := names[off := want];
        } else if names[off] != want {
          conflicts := conflicts + [Conflict(off, names[off], want)];
        }
      }
    }

    /** The reverse map depends on the iteration order; everything else is determined by it. */
    method FillRuntimeEntries(lists: Lists) returns (conflicts: seq<Conflict>, ghost byName: map<string, int>)
      modifies this
      ensures IsReverse(old(names), byName)
      ensures names == Filled(lists, old(names), byName)
      ensures conflicts == AllConflicts(lists, old(names), byName)
    {
      hide Placed, Conflicts;
      var reverse := ByName();
      byName := reverse;
      conflicts := [];
      var runtimeAnchor := -1;
      if lists.runtime != [] && lists.runtime[0] + SUFFIX in reverse {
        runtimeAnchor := reverse[lists.runtime[0] + SUFFIX];
        conflicts := Place(runtimeAnchor, lists.runtime);
      }
      if lists.leaf == [] { return; }
      var anchor;
      if lists.leaf[0] + SUFFIX in reverse {
        anchor := reverse[lists.leaf[0] + SUFFIX];
      } else if EXIT_THROUGH_FFI in reverse && !lists.contiguous {
        anchor := reverse[EXIT_THROUGH_FFI] + STRIDE;
      } else if runtimeAnchor >= 0 && lists.contiguous {
        anchor := runtimeAnchor + |lists.runtime| * STRIDE;
      } else {
        return;
      }
      var more := Place(anchor, lists.leaf);
      conflicts := conflicts + more;
    }
  }

  lemma NothingPlaced(m: map<int, string>, anchor: int, names: seq<string>)
    ensures Placed(m, anchor, names, 0) == m && Conflicts(m, anchor, names, 0) == []
  {
  }

  lemma OneMorePlaced(m: map<int, string>, anchor: int, names: seq<string>, i: nat)
    requires i < |names|
    ensures var r, off, want := Placed(m, anchor, names, i), anchor + i * STRIDE, names[i] + SUFFIX;
            && Placed(m, anchor, names, i + 1) == (if off in r then r else r[off := want])
            && (off in r <==> off in m) && (off in m ==> r[off] == m[off])
            && Conflicts(m, anchor, names, i + 1) == Conflicts(m, anchor, names, i)
               + if off in m && m[off] != want then [Conflict(off, m[off], want)] else []
  {
    PlacedIsExact(m, anchor, names, i, anchor + i * STRIDE);
  }
}
