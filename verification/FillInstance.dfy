/** The fill data of an Instance cluster: field slots that are references or raw words, told apart by
    the unboxed-fields bitmap. */
module FillInstance {
  import opened Wire

  /** `carriesBitmap` from 2.12 on; before, the bitmap comes from the Class cluster. */
  datatype Layout = Layout(refUnsigned: bool, compressed: bool, canonicalByte: bool, carriesBitmap: bool) {
    function HeaderWords(): nat { if compressed then 2 else 1 }

    function WordSize(): nat { if compressed then 4 else 8 }

    function NumFields(nextFieldOffset: int): nat {
      if nextFieldOffset > HeaderWords() then nextFieldOffset - HeaderWords() else 0
    }
  }

  datatype Cluster = Cluster(cid: int, startRef: int, count: int, nextFieldOffset: int)

  datatype Field = Field(byteOffset: int, ref: int)

  datatype Instance = Instance(refId: int, cid: int, headerWords: int, numFieldSlots: int, fields: seq<Field>)

  /** Whether a word of the object is raw; words past 63 never are. */
  predicate Unboxed(bitmap: nat, word: nat) {
    word < 64 && BitOf(bitmap, word)
  }

  function FieldAt(layout: Layout, slot: nat, ref: int): Field {
    Field(AsInt32((layout.HeaderWords() + slot) * layout.WordSize()), ref)
  }

  // ---------- reading ----------

  function SkipRawWord(s: Bytes): Parsed<int> {
    var (_, t) :- ReadTagged32(s);
    ReadTagged32(t)
  }

  /** Slots j.. of an object. */
  function SlotsFrom(s: Bytes, layout: Layout, bitmap: nat, j: nat, numFields: nat, fields: seq<Field>): Parsed<seq<Field>>
    decreases numFields - j
  {
    if j >= numFields then Done(fields, s)
    else if Unboxed(bitmap, layout.HeaderWords() + j) then
      var (_, t) :- SkipRawWord(s);
      SlotsFrom(t, layout, bitmap, j + 1, numFields, fields)
    else
      var (ref, t) :- ReadRef(s, layout.refUnsigned);
      SlotsFrom(t, layout, bitmap, j + 1, numFields, fields + [FieldAt(layout, j, ref)])
  }

  function SkipCanonicalByte(s: Bytes, layout: Layout): Parsed<int> {
    if layout.canonicalByte then
      var (_, t) :- ReadByte(s);
      Done(0, t)
    else Done(0, s)
  }

  function ReadInstance(s: Bytes, layout: Layout, cm: Cluster, bitmap: nat, i: nat): Parsed<Instance> {
    var n := layout.NumFields(cm.nextFieldOffset);
    var (_, t) :- SkipCanonicalByte(s, layout);
    var (fields, u) :- SlotsFrom(t, layout, bitmap, 0, n, []);
    Done(Instance(cm.startRef + i, cm.cid, layout.HeaderWords(), n, fields), u)
  }

  function InstancesFrom(s: Bytes, layout: Layout, cm: Cluster, bitmap: nat, i: nat, acc: seq<Instance>): Parsed<seq<Instance>>
    decreases cm.count - i
  {
    if i >= cm.count then Done(acc, s)
    else
      var (inst, t) :- ReadInstance(s, layout, cm, bitmap, i);
      InstancesFrom(t, layout, cm, bitmap, i + 1, acc + [inst])
  }

  function ReadBitmap(s: Bytes, layout: Layout, classBitmap: nat): Parsed<nat> {
    if !layout.carriesBitmap then Done(classBitmap, s)
    else
      var (v, t) :- ReadUnsigned(s);
      Done(AsUint64(v), t)
  }

  /** A cluster with no layout has no records, and nothing of its objects is read. */
  function ReadInstances(s: Bytes, layout: Layout, cm: Cluster, classBitmap: nat): Parsed<seq<Instance>> {
    var (bitmap, t) :- ReadBitmap(s, layout, classBitmap);
    if cm.nextFieldOffset <= 0 then Done([], t) else InstancesFrom(t, layout, cm, bitmap, 0, [])
  }

  method NextSlots(s: Stream, layout: Layout, bitmap: nat, numFields: nat) returns (r: Result<seq<Field>>)
    requires s.Valid()
    modifies s`pos
    ensures s.Reads(SlotsFrom(old(s.Rest()), layout, bitmap, 0, numFields, []), r)
  {
    hide ReadRef, ReadTagged32, Unboxed, FieldAt;
    var fields := [];
    for j := 0 to numFields
      invariant s.Valid()
      invariant SlotsFrom(old(s.Rest()), layout, bitmap, 0, numFields, [])
             == SlotsFrom(s.Rest(), layout, bitmap, j, numFields, fields)
    {
      if Unboxed(bitmap, layout.HeaderWords() + j) {
        var _ :- s.NextTagged32();
        var _ :- s.NextTagged32();
        continue;
      }
      var ref :- s.NextRef(layout.refUnsigned);
      fields := fields + [FieldAt(layout, j, ref)];
    }
    r := Ok(fields);
  }

  method NextInstance(s: Stream, layout: Layout, cm: Cluster, bitmap: nat, i: nat) returns (r: Result<Instance>)
    requires s.Valid()
    modifies s`pos
    ensures s.Reads(ReadInstance(old(s.Rest()), layout, cm, bitmap, i), r)
  {
    hide SlotsFrom;
    if layout.canonicalByte {
      var _ :- s.NextByte();
    }
    var n := layout.NumFields(cm.nextFieldOffset);
    var fields :- NextSlots(s, layout, bitmap, n);
    r := Ok(Instance(cm.startRef + i, cm.cid, layout.HeaderWords(), n, fields));
  }

  lemma InstancesUnfold(s: Bytes, layout: Layout, cm: Cluster, bitmap: nat, i: nat, acc: seq<Instance>)
    ensures InstancesFrom(s, layout, cm, bitmap, i, acc) ==
      if i >= cm.count then Done(acc, s)
      else
        match ReadInstance(s, layout, cm, bitmap, i)
        case Fail(e, t) => Fail(e, t)
        case Done(inst, t) => InstancesFrom(t, layout, cm, bitmap, i + 1, acc + [inst])
  {
    hide ReadInstance;
  }

  /** `classBitmaps` indexes the Class cluster's bitmaps by class id. */
  method ReadFillInstance(s: Stream, layout: Layout, cm: Cluster, classBitmaps: map<int, nat>) returns (r: Result<seq<Instance>>)
    requires s.Valid()
    modifies s`pos
    ensures s.Reads(ReadInstances(old(s.Rest()), layout, cm, BitmapFor(classBitmaps, cm.cid)), r)
  {
    hide ReadUnsigned, ReadInstance, InstancesFrom, AsUint64;
    var bitmap: nat := 0;
    if layout.carriesBitmap {
      var v :- s.NextUnsigned();
      bitmap := AsUint64(v);
    } else {
      bitmap := BitmapFor(classBitmaps, cm.cid);
    }
    if cm.nextFieldOffset <= 0 { return Ok([]); }
    var result := [];
    var i := 0;
    while i < cm.count
      invariant s.Valid() && i >= 0
      invariant ReadInstances(old(s.Rest()), layout, cm, BitmapFor(classBitmaps, cm.cid))
             == InstancesFrom(s.Rest(), layout, cm, bitmap, i, result)
      decreases cm.count - i
    {
      InstancesUnfold(s.Rest(), layout, cm, bitmap, i, result);
      var inst :- NextInstance(s, layout, cm, bitmap, i);
      result := result + [inst];
      i := i + 1;
    }
    InstancesUnfold(s.Rest(), layout, cm, bitmap, i, result);
    r := Ok(result);
  }

  function BitmapFor(classBitmaps: map<int, nat>, cid: int): nat {
    if AsInt32(cid) in classBitmaps then classBitmaps[AsInt32(cid)] else 0
  }

  // ---------- writing ----------

  datatype Slot = Boxed(ref: nat) | Raw(lo: int, hi: int)

  /** The words before the fields, and the bytes of a word, with and without compressed pointers. */
  function Before(layout: Layout): nat { if layout.compressed then 2 else 1 }
  function WordBytes(layout: Layout): nat { if layout.compressed then 4 else 8 }

  /** An object's fields. */
  function FieldCount(layout: Layout, cm: Cluster): nat {
    if cm.nextFieldOffset <= Before(layout) then 0 else cm.nextFieldOffset - Before(layout)
  }

  /** The slots of an object agree with the first 64 bits of the bitmap, one a word of the object. */
  predicate Fits(layout: Layout, bitmap: nat, slots: seq<Slot>) {
    forall j :: 0 <= j < |slots| ==>
      && (slots[j].Raw? <==> Before(layout) + j < 64 && BitOf(bitmap, Before(layout) + j))
      && (match slots[j]
          case Boxed(ref) => FitsRef(ref)
          case Raw(lo, hi) => -0x8000_0000 <= lo < TWO_32 && -0x8000_0000 <= hi < TWO_32)
  }

  function PutSlots(layout: Layout, slots: seq<Slot>, j: nat, k: Bytes): Bytes
    requires j <= |slots|
    decreases |slots| - j
  {
    if j == |slots| then k
    else
      match slots[j]
      case Boxed(ref) => if FitsRef(ref) then PutRef(ref, layout.refUnsigned, PutSlots(layout, slots, j + 1, k)) else k
      case Raw(lo, hi) => PutTagged(lo, PutTagged(hi, PutSlots(layout, slots, j + 1, k)))
  }

  predicate AllFit(layout: Layout, cm: Cluster, bitmap: nat, objects: seq<seq<Slot>>) {
    forall i :: 0 <= i < |objects| ==>
      |objects[i]| == FieldCount(layout, cm) && Fits(layout, bitmap, objects[i])
  }

  function PutObjects(layout: Layout, objects: seq<seq<Slot>>, i: nat, k: Bytes): Bytes
    requires i <= |objects|
    decreases |objects| - i
  {
    if i == |objects| then k
    else
      var slots := PutSlots(layout, objects[i], 0, PutObjects(layout, objects, i + 1, k));
      if layout.canonicalByte then [0] + slots else slots
  }

  function PutInstances(layout: Layout, bitmap: nat, objects: seq<seq<Slot>>, k: Bytes): Bytes {
    var t := PutObjects(layout, objects, 0, k);
    if layout.carriesBitmap then PutUnsigned(bitmap, t) else t
  }

  // ---------- what must come back ----------

  /** The boxed ones of the first n slots, at their own offsets. */
  function BoxedFields(layout: Layout, slots: seq<Slot>, n: nat): seq<Field>
    requires n <= |slots|
  {
    if n == 0 then []
    else
      BoxedFields(layout, slots, n - 1) +
        match slots[n - 1] { case Boxed(ref) => [Field(AsInt32((Before(layout) + n - 1) * WordBytes(layout)), ref)] case Raw(_, _) => [] }
  }

  function RawCount(slots: seq<Slot>, n: nat): nat
    requires n <= |slots|
  {
    if n == 0 then 0 else RawCount(slots, n - 1) + if slots[n - 1].Raw? then 1 else 0
  }

  function Expected(layout: Layout, cm: Cluster, objects: seq<seq<Slot>>, n: nat): (r: seq<Instance>)
    requires n <= |objects|
    ensures |r| == n
  {
    seq(n, i requires 0 <= i < n =>
      Instance(cm.startRef + i, cm.cid, Before(layout), FieldCount(layout, cm),
               BoxedFields(layout, objects[i], |objects[i]|)))
  }

  /** The fields are exactly the boxed slots, in order, at strictly increasing offsets that count every
      slot before them, and boxed and raw slots make up the object. */
  lemma {:induction false} FieldsAreTheBoxedSlots(layout: Layout, slots: seq<Slot>, n: nat)
    requires n <= |slots| && Before(layout) + |slots| <= 0x1000_0000
    ensures |BoxedFields(layout, slots, n)| + RawCount(slots, n) == n
    ensures forall f :: f in BoxedFields(layout, slots, n) <==>
              exists j :: 0 <= j < n && slots[j].Boxed?
                && f == Field((Before(layout) + j) * WordBytes(layout), slots[j].ref)
    ensures forall a, b :: 0 <= a < b < |BoxedFields(layout, slots, n)| ==>
              BoxedFields(layout, slots, n)[a].byteOffset < BoxedFields(layout, slots, n)[b].byteOffset
    ensures forall a :: 0 <= a < |BoxedFields(layout, slots, n)| ==>
              BoxedFields(layout, slots, n)[a].byteOffset < (Before(layout) + n) * WordBytes(layout)
  {
    hide AsInt32, BoxedFields, RawCount;
    BoxedAndRaw(layout, slots, n);
    forall f ensures f in BoxedFields(layout, slots, n) <==>
      exists j :: 0 <= j < n && slots[j].Boxed? && f == Field((Before(layout) + j) * WordBytes(layout), slots[j].ref)
    {
      FieldIsBoxed(layout, slots, n, f);
    }
    FieldsIncrease(layout, slots, n);
  }

  lemma {:induction false} BoxedAndRaw(layout: Layout, slots: seq<Slot>, n: nat)
    requires n <= |slots|
    ensures |BoxedFields(layout, slots, n)| + RawCount(slots, n) == n
  {
    hide AsInt32;
    if n > 0 { BoxedAndRaw(layout, slots, n - 1); }
  }

  lemma {:induction false} FieldIsBoxed(layout: Layout, slots: seq<Slot>, n: nat, f: Field)
    requires n <= |slots| && Before(layout) + |slots| <= 0x1000_0000
    ensures f in BoxedFields(layout, slots, n) <==>
      exists j :: 0 <= j < n && slots[j].Boxed? && f == Field((Before(layout) + j) * WordBytes(layout), slots[j].ref)
  {
    hide AsInt32, WordBytes, Before;
    if n > 0 {
      FieldIsBoxed(layout, slots, n - 1, f);
      OffsetFits(layout, n - 1);
    }
  }

  lemma {:induction false} FieldsIncrease(layout: Layout, slots: seq<Slot>, n: nat)
    requires n <= |slots| && Before(layout) + |slots| <= 0x1000_0000
    ensures forall a, b :: 0 <= a < b < |BoxedFields(layout, slots, n)| ==>
              BoxedFields(layout, slots, n)[a].byteOffset < BoxedFields(layout, slots, n)[b].byteOffset
    ensures forall a :: 0 <= a < |BoxedFields(layout, slots, n)| ==>
              BoxedFields(layout, slots, n)[a].byteOffset < (Before(layout) + n) * WordBytes(layout)
  {
    hide AsInt32;
    if n > 0 {
      FieldsIncrease(layout, slots, n - 1);
      OffsetFits(layout, n - 1);
    }
  }

  lemma OffsetFits(layout: Layout, j: nat)
    requires Before(layout) + j < 0x1000_0000
    ensures AsInt32((Before(layout) + j) * WordBytes(layout)) == (Before(layout) + j) * WordBytes(layout)
  {
  }

  // ---------- the reader inverts the writer ----------

  lemma {:induction false} SlotsRoundTrip(layout: Layout, bitmap: nat, slots: seq<Slot>, j: nat, k: Bytes)
    requires j <= |slots| && Fits(layout, bitmap, slots)
    ensures SlotsFrom(PutSlots(layout, slots, j, k), layout, bitmap, j, |slots|, BoxedFields(layout, slots, j))
         == Done(BoxedFields(layout, slots, |slots|), k)
    decreases |slots| - j
  {
    hide ReadRef, ReadTagged32, PutRef, PutTagged, AsInt32, BitOf;
    if j < |slots| {
      var t := PutSlots(layout, slots, j + 1, k);
      SlotsRoundTrip(layout, bitmap, slots, j + 1, k);
      match slots[j]
      case Boxed(ref) =>
        RefRoundTrip(ref, layout.refUnsigned, t);
      case Raw(lo, hi) =>
        Tagged32RoundTrip(lo, PutTagged(hi, t));
        Tagged32RoundTrip(hi, t);
        assert BoxedFields(layout, slots, j + 1) == BoxedFields(layout, slots, j);
    }
  }

  lemma {:induction false} ObjectsRoundTrip(layout: Layout, cm: Cluster, bitmap: nat, objects: seq<seq<Slot>>, i: nat, k: Bytes)
    requires i <= |objects| == cm.count && AllFit(layout, cm, bitmap, objects)
    ensures InstancesFrom(PutObjects(layout, objects, i, k), layout, cm, bitmap, i, Expected(layout, cm, objects, i))
         == Done(Expected(layout, cm, objects, |objects|), k)
    decreases |objects| - i
  {
    hide SlotsFrom, PutSlots, BoxedFields, Fits;
    if i < |objects| {
      var t := PutObjects(layout, objects, i + 1, k);
      var u := PutSlots(layout, objects[i], 0, t);
      NoFieldsYet(layout, objects[i]);
      SlotsRoundTrip(layout, bitmap, objects[i], 0, t);
      assert ([0] + u)[1..] == u;
      assert Expected(layout, cm, objects, i + 1) == Expected(layout, cm, objects, i) + [Expected(layout, cm, objects, i + 1)[i]];
      ObjectsRoundTrip(layout, cm, bitmap, objects, i + 1, k);
    }
  }

  lemma NoFieldsYet(layout: Layout, slots: seq<Slot>)
    ensures BoxedFields(layout, slots, 0) == []
  {
  }

  /** For every 64-bit bitmap, wherever it comes from, and every number of slots, the reader captures
      each object's boxed slots and consumes exactly what was written. */
  lemma InstancesRoundTrip(layout: Layout, cm: Cluster, bitmap: nat, objects: seq<seq<Slot>>, classBitmap: nat, k: Bytes)
    requires |objects| == cm.count && cm.nextFieldOffset > 0 && bitmap < TWO_64
    requires AllFit(layout, cm, bitmap, objects) && (!layout.carriesBitmap ==> classBitmap == bitmap)
    ensures ReadInstances(PutInstances(layout, bitmap, objects, k), layout, cm, classBitmap)
         == Done(Expected(layout, cm, objects, |objects|), k)
  {
    hide ReadUnsigned, PutUnsigned, InstancesFrom, PutObjects, AsUint64, Wrap64;
    var t := PutObjects(layout, objects, 0, k);
    UnsignedRoundTrip(bitmap, t);
    Uint64ThroughInt64(bitmap);
    ObjectsRoundTrip(layout, cm, bitmap, objects, 0, k);
    assert Expected(layout, cm, objects, 0) == [];
  }
}
