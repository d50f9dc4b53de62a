/** Compressed stack maps: byte-level LEB128, packed bitmaps, and bodies shared through a global
    table. */
module StackMaps {
  import opened Wire

  // ---------- unsigned LEB128 ----------

  /** A value and the bytes after it.  There is no error: an unterminated or over-long value is 0. */
  datatype Leb = Leb(value: nat, rest: Bytes)

  function LebFrom(s: Bytes, r: nat, shift: nat, weight: nat): (l: Leb)
    ensures |l.rest| <= |s|
    ensures s != [] ==> |l.rest| < |s|
    ensures r < TWO_64 ==> l.value < TWO_64
    decreases |s|
  {
    if s == [] then Leb(0, s)
    else
      // the shifted bits lie above `r`, and those beyond 64 are dropped
      var acc := AsUint64(r + (s[0] % 128) * weight);
      if s[0] < 128 then Leb(acc, s[1..])
      else if shift + 7 >= 64 then Leb(0, s[1..])
      else LebFrom(s[1..], acc, shift + 7, 128 * weight)
  }

  function ReadLeb(s: Bytes): (l: Leb)
    ensures |l.rest| <= |s|
    ensures s != [] ==> |l.rest| < |s|
    ensures l.value < TWO_64
  {
    LebFrom(s, 0, 0, 1)
  }

  method ReadLEB128(data: Bytes, start: nat) returns (value: nat, pos: nat)
    requires start <= |data|
    ensures start <= pos <= |data| && Leb(value, data[pos..]) == ReadLeb(data[start..])
  {
    var result: nat, shift: nat, weight: nat := 0, 0, 1;
    pos := start;
    while pos < |data|
      invariant start <= pos <= |data| && shift <= 63
      invariant ReadLeb(data[start..]) == LebFrom(data[pos..], result, shift, weight)
      decreases |data| - pos
    {
      var b := data[pos];
      pos := pos + 1;
      result := AsUint64(result + (b % 128) * weight);
      if b < 128 { return result, pos; }
      shift, weight := shift + 7, 128 * weight;
      if shift >= 64 { return 0, pos; }
    }
    value := 0;
  }

  /** Section 7.6 of DWARF Version 5. */
  function PutLeb(v: nat, k: Bytes): Bytes {
    if v < 128 then [v] + k else [v % 128 + 128] + PutLeb(v / 128, k)
  }

  /** Reading a digit: what it adds stays within 64 bits. */
  lemma LebStep(d: nat, k: Bytes, r: nat, shift: nat, weight: nat)
    requires d < 128 && r + d * weight < TWO_64
    ensures LebFrom([d] + k, r, shift, weight) == Leb(r + d * weight, k)
    ensures shift < 57 ==>
            LebFrom([d + 128] + k, r, shift, weight) == LebFrom(k, r + d * weight, shift + 7, 128 * weight)
  {
    assert d % 128 == d && (d + 128) % 128 == d;
    assert ([d] + k)[1..] == k && ([d + 128] + k)[1..] == k;
  }

  /** v fits above a weight when the digits of the result do. */
  lemma {:induction false} LebRoundTripFrom(v: nat, k: Bytes, r: nat, shift: nat, weight: nat)
    requires shift % 7 == 0 && shift <= 63 && v < Pow2(64 - shift)
    requires weight > 0 && r + v * weight < TWO_64
    ensures LebFrom(PutLeb(v, k), r, shift, weight) == Leb(r + v * weight, k)
    decreases v
  {
    hide LebFrom, AsUint64, Pow2;
    if v < 128 {
      LebStep(v, k, r, shift, weight);
    } else {
      var acc := LowDigit(v, r, weight);
      NextDigitFits(v, shift);
      LebStep(v % 128, PutLeb(v / 128, k), r, shift, weight);
      LebRoundTripFrom(v / 128, k, acc, shift + 7, 128 * weight);
    }
  }

  lemma NextDigitFits(v: nat, shift: nat)
    requires shift % 7 == 0 && shift <= 63 && 128 <= v < Pow2(64 - shift)
    ensures shift < 57 && v / 128 < Pow2(57 - shift)
  {
    hide Pow2;
    SmallPowers();
    Pow2Seven(57 - shift);
  }

  /** What the lowest digit adds, and what is left for the others. */
  lemma LowDigit(v: nat, r: nat, weight: nat) returns (acc: nat)
    requires r + v * weight < TWO_64
    ensures acc == r + (v % 128) * weight && acc < TWO_64
    ensures acc + (v / 128) * (128 * weight) == r + v * weight
  {
    DigitStep(v, r, weight);
    var q: nat, d: nat := v / 128, v % 128;
    assert q * (128 * weight) >= 0 && d * weight >= 0;
    acc := r + d * weight;
  }

  /** Every 64-bit value comes back. */
  lemma LebRoundTrip(v: nat, k: Bytes)
    requires v < TWO_64
    ensures ReadLeb(PutLeb(v, k)) == Leb(v, k)
  {
    hide LebFrom, Pow2;
    Powers();
    SmallPowers();
    Pow2Add(64, 6);
    LebRoundTripFrom(v, k, 0, 0, 1);
  }

  ghost predicate Unterminated(s: Bytes) {
    forall i :: 0 <= i < |s| ==> s[i] >= 128
  }

  /** Bytes that never end a value read as zero. */
  lemma {:induction false} UnterminatedReadsZero(s: Bytes, r: nat, shift: nat, weight: nat)
    requires Unterminated(s)
    ensures var l := LebFrom(s, r, shift, weight); l.value == 0 && Unterminated(l.rest)
    decreases |s|
  {
    if s != [] && shift + 7 < 64 {
      UnterminatedReadsZero(s[1..], AsUint64(r + (s[0] % 128) * weight), shift + 7, 128 * weight);
    }
  }

  // ---------- entries ----------

  function ByteCount(bitCount: nat): nat {
    (bitCount + 7) / 8
  }

  const MAX_BITS: nat := 0x10_0000
  const FIRST_LOCAL_SLOT: int := -3

  /** One safepoint: a single packed bit array, the spill slots' bits before the saved slots'. */
  datatype Entry = Entry(pcOffset: nat, spill: nat, saved: nat, bits: Bytes) {
    function Length(): nat { spill + saved }

    predicate IsObject(i: int) {
      && 0 <= i < Length() && i / 8 < |bits|
      && BitOf(bits[i / 8], i % 8)
    }

    predicate IsSpillObject(i: int) {
      0 <= i < spill && IsObject(i)
    }

    /** Saved slots are counted from the end of the bitmap. */
    predicate SavedSlotIsObject(slotsFromSP: int) {
      0 <= slotsFromSP < saved && IsObject(Length() - 1 - slotsFromSP)
    }

    predicate WellFormed() {
      spill <= 0x10_0000 && saved <= 0x10_0000 && |bits| == (spill + saved + 7) / 8
    }

    /** The frame offsets of the spill slots that hold objects, from the first slot down. */
    method ObjectSpillSlotOffsets(wordSize: int) returns (out: seq<int>)
      requires wordSize > 0
      ensures forall o :: o in out <==> exists i :: IsSpillObject(i) && o == (-3 - i) * wordSize
      ensures forall a, b :: 0 <= a < b < |out| ==> out[a] > out[b]
    {
      out := [];
      for i := 0 to spill
        invariant forall o :: o in out <==> exists j :: 0 <= j < i && IsSpillObject(j) && o == (FIRST_LOCAL_SLOT - j) * wordSize
        invariant forall a :: 0 <= a < |out| ==> out[a] > (FIRST_LOCAL_SLOT - i) * wordSize
        invariant forall a, b :: 0 <= a < b < |out| ==> out[a] > out[b]
      {
        var o := (FIRST_LOCAL_SLOT - i) * wordSize;
        assert o > (FIRST_LOCAL_SLOT - (i + 1)) * wordSize;
        if IsSpillObject(i) {
          out := out + [o];
        }
      }
    }
  }

  /** The accessors cover every bit exactly once: a bit is a spill slot's or a saved slot's, and the
      saved slots run through theirs from the last bit down. */
  lemma AccessorsCoverEveryBit(e: Entry, i: nat)
    requires i < e.Length()
    ensures i < e.spill ==> (e.IsSpillObject(i) <==> e.IsObject(i))
    ensures i >= e.spill ==> 0 <= e.Length() - 1 - i < e.saved
                             && (e.SavedSlotIsObject(e.Length() - 1 - i) <==> e.IsObject(i))
  {
  }

  /** The two counts and the bitmap, if both counts are sane and the bitmap is all there. */
  function ReadBody(s: Bytes): (r: Option<(Entry, Bytes)>)
    ensures r.Some? ==> r.value.0.WellFormed() && |r.value.1| <= |s|
  {
    var spill := ReadLeb(s);
    var saved := ReadLeb(spill.rest);
    if spill.value > MAX_BITS || saved.value > MAX_BITS then None
    else
      var total := ByteCount(spill.value + saved.value);
      if total > |saved.rest| then None
      else Some((Entry(0, spill.value, saved.value, saved.rest[..total]), saved.rest[total..]))
  }

  /** The same in positions: p and q are where the two counts end. */
  lemma BodyAt(data: Bytes, start: nat, spill: nat, p: nat, saved: nat, q: nat)
    requires start <= p <= q <= |data|
    requires ReadLeb(data[start..]) == Leb(spill, data[p..]) && ReadLeb(data[p..]) == Leb(saved, data[q..])
    ensures var end := q + ByteCount(spill + saved);
            ReadBody(data[start..]) ==
            if spill > MAX_BITS || saved > MAX_BITS || end > |data| then None
            else Some((Entry(0, spill, saved, data[q..end]), data[end..]))
  {
    hide ReadLeb, ByteCount;
    SliceAt(data, q, ByteCount(spill + saved));
  }

  lemma SliceAt(data: Bytes, q: nat, n: nat)
    requires q <= |data|
    ensures |data[q..]| == |data| - q
    ensures q + n <= |data| ==> data[q..][..n] == data[q..q + n] && data[q..][n..] == data[q + n..]
  {
  }

  method ReadCSMBitmapBody(data: Bytes, start: nat) returns (e: Entry, pos: nat, ok: bool)
    requires start <= |data|
    ensures start <= pos <= |data|
    ensures match ReadBody(data[start..])
            case None => !ok && e == Entry(0, 0, 0, [])
            case Some((x, rest)) => ok && e == x && data[pos..] == rest
  {
    hide ReadLeb, ReadBody, ByteCount;
    var spill, p := ReadLEB128(data, start);
    var saved, q := ReadLEB128(data, p);
    BodyAt(data, start, spill, p, saved, q);
    if spill > MAX_BITS || saved > MAX_BITS { return Entry(0, 0, 0, []), q, false; }
    var total := ByteCount(spill + saved);
    if q + total > |data| { return Entry(0, 0, 0, []), q, false; }
    e, pos, ok := Entry(0, spill, saved, data[q..q + total]), q + total, true;
  }

  function PutBody(e: Entry, k: Bytes): Bytes {
    PutLeb(e.spill, PutLeb(e.saved, e.bits + k))
  }

  lemma BodyRoundTrip(e: Entry, k: Bytes)
    requires e.WellFormed()
    ensures ReadBody(PutBody(e, k)) == Some((e.(pcOffset := 0), k))
  {
    LebRoundTrip(e.spill, PutLeb(e.saved, e.bits + k));
    LebRoundTrip(e.saved, e.bits + k);
  }

  /** A body is refused exactly when a count is above 2^20 or the bitmap is not all there. */
  lemma RefusedIff(spill: nat, saved: nat, bits: Bytes)
    requires spill < TWO_64 && saved < TWO_64
    ensures ReadBody(PutLeb(spill, PutLeb(saved, bits))) == None
       <==> spill > 0x10_0000 || saved > 0x10_0000 || |bits| < (spill + saved + 7) / 8
  {
    hide ReadLeb, PutLeb;
    LebRoundTrip(spill, PutLeb(saved, bits));
    LebRoundTrip(saved, bits);
  }

  // ---------- payloads ----------

  /** The entries, or Go's panic on a table offset that is negative as an int. */
  datatype Decoded = Entries(entries: seq<Entry>) | Crash

  function Header(p: Bytes): nat
    requires |p| >= 4
  {
    (p[0] as int) + (p[1] as int) * 0x100 + (p[2] as int) * 0x1_0000 + (p[3] as int) * 0x100_0000
  }

  /** The bytes a header announces, if they are all there. */
  function Body(p: Bytes): Option<Bytes> {
    if |p| < 4 || Header(p) / 4 + 4 > |p| then None else Some(p[4..4 + Header(p) / 4])
  }

  function StandaloneFrom(s: Bytes, pc: nat, acc: seq<Entry>): seq<Entry>
    decreases |s|
  {
    if s == [] then acc
    else
      var delta := ReadLeb(s);
      match ReadBody(delta.rest)
      case None => acc
      case Some((e, t)) =>
        var pc' := AsUint32(pc + delta.value);
        StandaloneFrom(t, pc', acc + [e.(pcOffset := pc')])
  }

  /** The body a table offset names; an offset outside the table, or a bad body, is an empty entry. */
  function Shared(table: Bytes, offset: nat): (e: Entry)
    ensures e.WellFormed()
  {
    if offset >= |table| then Entry(0, 0, 0, [])
    else match ReadBody(table[offset..]) { case None => Entry(0, 0, 0, []) case Some((e, _)) => e }
  }

  function TableFrom(s: Bytes, table: Bytes, pc: nat, acc: seq<Entry>): Decoded
    decreases |s|
  {
    if s == [] then Entries(acc)
    else
      var delta := ReadLeb(s);
      var offset := ReadLeb(delta.rest);
      if table != [] && offset.value >= TWO_63 then Crash
      else
        var pc' := AsUint32(pc + delta.value);
        TableFrom(offset.rest, table, pc', acc + [Shared(table, offset.value).(pcOffset := pc')])
  }

  function Decode(payload: Bytes, globalTable: Bytes): Decoded {
    match Body(payload)
    case None => Entries([])
    case Some(data) =>
      if Header(payload) % 2 == 1 then
        match ReadBody(data) { case None => Entries([]) case Some((e, _)) => Entries([e]) }
      else if Header(payload) / 2 % 2 == 1 then
        TableFrom(data, match Body(globalTable) { case None => [] case Some(t) => t }, 0, [])
      else Entries(StandaloneFrom(data, 0, []))
  }

  method DecodeStandalone(data: Bytes) returns (entries: seq<Entry>)
    ensures entries == StandaloneFrom(data, 0, [])
  {
    hide ReadBody, ReadLeb, AsUint32;
    var pos, currentPC := 0, 0;
    entries := [];
    while pos < |data|
      invariant 0 <= pos <= |data| && 0 <= currentPC
      invariant StandaloneFrom(data, 0, []) == StandaloneFrom(data[pos..], currentPC, entries)
      decreases |data| - pos
    {
      var delta, next := ReadLEB128(data, pos);
      var e, after, ok := ReadCSMBitmapBody(data, next);
      if !ok { return; }
      pos := after;
      currentPC := AsUint32(currentPC + delta);
      entries := entries + [e.(pcOffset := currentPC)];
    }
  }

  method DecodeTable(data: Bytes, table: Bytes) returns (r: Decoded)
    ensures r == TableFrom(data, table, 0, [])
  {
    hide ReadBody, ReadLeb, AsUint32;
    var pos, currentPC := 0, 0;
    var entries := [];
    while pos < |data|
      invariant 0 <= pos <= |data| && 0 <= currentPC
      invariant TableFrom(data, table, 0, []) == TableFrom(data[pos..], table, currentPC, entries)
      decreases |data| - pos
    {
      var delta, next := ReadLEB128(data, pos);
      var offset, next2 := ReadLEB128(data, next);
      pos := next2;
      currentPC := AsUint32(currentPC + delta);
      var e := Entry(0, 0, 0, []);
      if |table| > 0 && Wrap64(offset) < |table| {
        if Wrap64(offset) < 0 { return Crash; }
        var shared, _, _ := ReadCSMBitmapBody(table, Wrap64(offset));
        e := shared;
      }
      entries := entries + [e.(pcOffset := currentPC)];
    }
    r := Entries(entries);
  }

  method DecodeCompressedStackMaps(payload: Bytes, globalTable: Bytes) returns (r: Decoded)
    ensures r == Decode(payload, globalTable)
  {
    hide ReadBody, StandaloneFrom, TableFrom;
    if |payload| < 4 { return Entries([]); }
    var flagsAndSize := Header(payload);
    var length := flagsAndSize / 4;
    if length + 4 > |payload| { return Entries([]); }
    var data := payload[4..4 + length];
    if flagsAndSize % 2 == 1 {
      var e, _, ok := ReadCSMBitmapBody(data, 0);
      return Entries(if ok then [e] else []);
    }
    if flagsAndSize / 2 % 2 == 1 {
      var table: Bytes := [];
      if |globalTable| >= 4 && Header(globalTable) / 4 + 4 <= |globalTable| {
        table := globalTable[4..4 + Header(globalTable) / 4];
      }
      r := DecodeTable(data, table);
    } else {
      var entries := DecodeStandalone(data);
      r := Entries(entries);
    }
  }

  // ---------- packed bits ----------

  /** Up to eight bits, the first the least significant. */
  function PackByte(bits: seq<bool>): (b: nat)
    ensures b < Pow2(|bits|)
  {
    if bits == [] then 0 else (if bits[0] then 1 else 0) + 2 * PackByte(bits[1..])
  }

  function Pack(bits: seq<bool>): Bytes {
    if bits == [] then []
    else if |bits| <= 8 then PackedBounds(bits); [PackByte(bits)]
    else PackedBounds(bits[..8]); [PackByte(bits[..8])] + Pack(bits[8..])
  }

  lemma PackedBounds(bits: seq<bool>)
    requires |bits| <= 8
    ensures PackByte(bits) < 256
  {
    assert Pow2(8) == 256 by { assert Pow2(4) == 16; Pow2Add(4, 4); }
    Pow2Grows(|bits|, 8);
  }

  lemma {:induction false} Pow2Grows(a: nat, b: nat)
    requires a <= b
    ensures Pow2(a) <= Pow2(b)
    decreases b
  {
    if a < b { Pow2Grows(a, b - 1); }
  }

  lemma {:induction false} PackByteBit(bits: seq<bool>, i: nat)
    requires i < |bits|
    ensures BitOf(PackByte(bits), i) <==> bits[i]
  {
    assert PackByte(bits) / 2 == PackByte(bits[1..]);
    if i > 0 {
      PackByteBit(bits[1..], i - 1);
    }
  }

  /** The packed array has one byte per eight bits and gives every bit back. */
  lemma {:induction false} PackRoundTrip(bits: seq<bool>, i: nat)
    ensures |Pack(bits)| == ByteCount(|bits|)
    ensures i < |bits| ==> (BitOf(Pack(bits)[i / 8], i % 8) <==> bits[i])
    decreases |bits|
  {
    hide PackByte, BitOf;
    if |bits| > 8 {
      PackRoundTrip(bits[8..], if i < 8 then 0 else i - 8);
      if i < 8 {
        PackByteBit(bits[..8], i);
      } else if i < |bits| {
        assert i / 8 == 1 + (i - 8) / 8 && i % 8 == (i - 8) % 8;
      }
    } else if i < |bits| {
      PackByteBit(bits, i);
    }
  }

  // ---------- the decoder inverts the writer ----------

  /** A safepoint as the compiler describes it. */
  datatype Record = Record(delta: nat, spill: seq<bool>, saved: seq<bool>) {
    predicate Valid() {
      delta < TWO_64 && |spill| <= MAX_BITS && |saved| <= MAX_BITS
    }

    function Shape(): Entry {
      Entry(0, |spill|, |saved|, Pack(spill + saved))
    }
  }

  lemma ShapeIsWellFormed(r: Record)
    requires r.Valid()
    ensures r.Shape().WellFormed()
  {
    PackRoundTrip(r.spill + r.saved, 0);
  }

  /** The accessors give the recorded slots back, the saved ones counted from the end. */
  lemma SlotsRoundTrip(r: Record, pc: nat, i: nat)
    ensures r.Shape().(pcOffset := pc).IsSpillObject(i) <==> i < |r.spill| && r.spill[i]
    ensures r.Shape().(pcOffset := pc).SavedSlotIsObject(i) <==> i < |r.saved| && r.saved[|r.saved| - 1 - i]
  {
    hide Pack, BitOf;
    var bits := r.spill + r.saved;
    if i < |r.spill| {
      ObjectBit(r, pc, i);
      assert bits[i] == r.spill[i];
    }
    if i < |r.saved| {
      ObjectBit(r, pc, |bits| - 1 - i);
      assert bits[|bits| - 1 - i] == r.saved[|r.saved| - 1 - i];
    }
  }

  lemma ObjectBit(r: Record, pc: nat, i: nat)
    requires i < |r.spill + r.saved|
    ensures r.Shape().(pcOffset := pc).IsObject(i) <==> (r.spill + r.saved)[i]
  {
    hide Pack, BitOf;
    PackRoundTrip(r.spill + r.saved, i);
  }

  /** A body written after its PC delta. */
  datatype Delta = Delta(delta: nat, body: Entry) {
    predicate Valid() {
      delta < TWO_64 && body.WellFormed() && body.pcOffset == 0
    }
  }

  ghost predicate AllValid(ds: seq<Delta>) {
    forall i :: 0 <= i < |ds| ==> ds[i].Valid()
  }

  function PutStandalone(ds: seq<Delta>, k: Bytes): Bytes {
    if ds == [] then k else PutLeb(ds[0].delta, PutBody(ds[0].body, PutStandalone(ds[1..], k)))
  }

  /** The bodies at their accumulated PC offsets. */
  function Placed(ds: seq<Delta>, pc: nat): (es: seq<Entry>)
    ensures |es| == |ds|
  {
    if ds == [] then []
    else
      var pc' := AsUint32(pc + ds[0].delta);
      [ds[0].body.(pcOffset := pc')] + Placed(ds[1..], pc')
  }

  function Total(ds: seq<Delta>): nat {
    if ds == [] then 0 else ds[0].delta + Total(ds[1..])
  }

  /** While the deltas add up to less than 2^32, PC offsets are their prefix sums, never decreasing. */
  lemma {:induction false} PlacedAtPrefixSums(ds: seq<Delta>, pc: nat, i: nat)
    requires i < |ds| && pc + Total(ds) < TWO_32
    ensures Placed(ds, pc)[i].pcOffset == pc + Total(ds[..i + 1]) >= pc
    ensures i > 0 ==> Placed(ds, pc)[i - 1].pcOffset <= Placed(ds, pc)[i].pcOffset
  {
    assert ds[..i + 1][1..] == ds[1..][..i];
    if i > 0 {
      PlacedAtPrefixSums(ds[1..], pc + ds[0].delta, i - 1);
    }
  }

  lemma StandaloneStep(d: Delta, k: Bytes, pc: nat, acc: seq<Entry>)
    requires d.Valid()
    ensures StandaloneFrom(PutLeb(d.delta, PutBody(d.body, k)), pc, acc)
         == StandaloneFrom(k, AsUint32(pc + d.delta), acc + [d.body.(pcOffset := AsUint32(pc + d.delta))])
  {
    hide ReadBody, ReadLeb, AsUint32, PutLeb, PutBody;
    LebRoundTrip(d.delta, PutBody(d.body, k));
    LebIsNotEmpty(d.delta, PutBody(d.body, k));
    BodyRoundTrip(d.body, k);
  }

  /** The PC after a list. */
  function EndPC(ds: seq<Delta>, pc: nat): nat {
    if ds == [] then pc else EndPC(ds[1..], AsUint32(pc + ds[0].delta))
  }

  /** What the standalone decoder makes of a written list followed by other bytes. */
  lemma {:induction false} StandalonePrefix(ds: seq<Delta>, k: Bytes, pc: nat, acc: seq<Entry>) returns (last: nat)
    requires AllValid(ds)
    ensures last == EndPC(ds, pc)
    ensures StandaloneFrom(PutStandalone(ds, k), pc, acc) == StandaloneFrom(k, last, acc + Placed(ds, pc))
  {
    hide StandaloneFrom, AsUint32, PutLeb, PutBody, ByteCount;
    if ds == [] {
      assert acc + Placed(ds, pc) == acc;
      last := pc;
    } else {
      var d, t := ds[0], PutStandalone(ds[1..], k);
      var pc' := AsUint32(pc + d.delta);
      StandaloneStep(d, t, pc, acc);
      last := StandalonePrefix(ds[1..], k, pc', acc + [d.body.(pcOffset := pc')]);
      AppendOne(acc, d.body.(pcOffset := pc'), Placed(ds[1..], pc'));
    }
  }

  lemma LebIsNotEmpty(v: nat, k: Bytes)
    ensures PutLeb(v, k) != []
  {
  }

  // ---------- whole payloads ----------

  /** A payload: the length and the two type bits, then the data. */
  function Payload(data: Bytes, typeBits: nat): (p: Bytes)
    requires |data| < 0x4000_0000 && typeBits < 4
  {
    var h := |data| * 4 + typeBits;
    var h1 := h / 0x100;
    var h2 := h1 / 0x100;
    [h % 0x100, h1 % 0x100, h2 % 0x100, h2 / 0x100] + data
  }

  lemma PayloadRoundTrip(data: Bytes, typeBits: nat)
    requires |data| < 0x4000_0000 && typeBits < 4
    ensures Body(Payload(data, typeBits)) == Some(data)
    ensures Header(Payload(data, typeBits)) == |data| * 4 + typeBits
  {
    var p := Payload(data, typeBits);
    assert p[4..4 + |data|] == data;
  }

  /** The type bits choose the decoder. */
  lemma DecodeOfPayload(data: Bytes, typeBits: nat, globalTable: Bytes)
    requires |data| < 0x4000_0000 && typeBits in {0, 2}
    ensures Decode(Payload(data, typeBits), globalTable)
         == if typeBits == 0 then Entries(StandaloneFrom(data, 0, []))
            else TableFrom(data, match Body(globalTable) { case None => [] case Some(t) => t }, 0, [])
  {
    hide StandaloneFrom, TableFrom, ReadBody, Payload, Header, Body;
    PayloadRoundTrip(data, typeBits);
    var n := |data|;
    assert (n * 4 + typeBits) % 2 == 0 && (n * 4 + typeBits) / 2 == n * 2 + typeBits / 2;
    assert (n * 2 + typeBits / 2) % 2 == typeBits / 2;
  }

  /** Every written list of safepoints decodes to itself, PC offsets accumulated. */
  lemma StandaloneRoundTrip(ds: seq<Delta>, table: Bytes)
    requires AllValid(ds) && |PutStandalone(ds, [])| < 0x4000_0000
    ensures Decode(Payload(PutStandalone(ds, []), 0), table) == Entries(Placed(ds, 0))
  {
    hide StandaloneFrom, Payload, Decode, PutStandalone, Placed;
    DecodeOfPayload(PutStandalone(ds, []), 0, table);
    var pc := StandalonePrefix(ds, [], 0, []);
    assert [] + Placed(ds, 0) == Placed(ds, 0);
    StandaloneOfNothing(pc, Placed(ds, 0));
  }

  lemma StandaloneOfNothing(pc: nat, acc: seq<Entry>)
    ensures StandaloneFrom([], pc, acc) == acc
  {
  }

  /** The first type bit says that the payload is one body. */
  lemma SingleRoundTrip(e: Entry, table: Bytes)
    requires e.WellFormed() && |PutBody(e, [])| < 0x4000_0000
    ensures Decode(Payload(PutBody(e, []), 1), table) == Entries([e.(pcOffset := 0)])
  {
    hide Payload, Header, Body, PutBody, ReadBody, Entry.WellFormed, StandaloneFrom, TableFrom;
    PayloadRoundTrip(PutBody(e, []), 1);
    OneMoreIsOdd(|PutBody(e, [])| * 2);
    BodyRoundTrip(e, []);
  }

  lemma OneMoreIsOdd(n: nat)
    ensures (n * 2 + 1) % 2 == 1
  {
  }

  function Deltas(rs: seq<Record>): seq<Delta> {
    if rs == [] then [] else [Delta(rs[0].delta, rs[0].Shape())] + Deltas(rs[1..])
  }

  lemma {:induction false} DeltasAreValid(rs: seq<Record>)
    requires forall i :: 0 <= i < |rs| ==> rs[i].Valid()
    ensures AllValid(Deltas(rs)) && |Deltas(rs)| == |rs|
  {
    hide Pack;
    if rs != [] {
      ShapeIsWellFormed(rs[0]);
      DeltasAreValid(rs[1..]);
    }
  }

  lemma {:induction false} DeltaAt(rs: seq<Record>, pc: nat, i: nat) returns (p: nat)
    requires i < |rs| && |Placed(Deltas(rs), pc)| == |rs|
    ensures Placed(Deltas(rs), pc)[i] == rs[i].Shape().(pcOffset := p)
  {
    hide AsUint32, Pack;
    var pc' := AsUint32(pc + rs[0].delta);
    if i == 0 {
      p := pc';
    } else {
      p := DeltaAt(rs[1..], pc', i - 1);
    }
  }

  /** From the compiler's slots to the accessors: decoding the payload written for a list of
      safepoints answers, at every safepoint and for every slot, what the safepoint recorded. */
  lemma SafepointsRoundTrip(rs: seq<Record>, table: Bytes, i: nat, slot: nat)
    requires i < |rs| && forall j :: 0 <= j < |rs| ==> rs[j].Valid()
    requires |PutStandalone(Deltas(rs), [])| < 0x4000_0000
    ensures var d := Decode(Payload(PutStandalone(Deltas(rs), []), 0), table);
            && d.Entries? && |d.entries| == |rs|
            && (d.entries[i].IsSpillObject(slot) <==> slot < |rs[i].spill| && rs[i].spill[slot])
            && (d.entries[i].SavedSlotIsObject(slot) <==>
                slot < |rs[i].saved| && rs[i].saved[|rs[i].saved| - 1 - slot])
  {
    hide Decode, Payload, PutStandalone, Pack;
    DeltasAreValid(rs);
    StandaloneRoundTrip(Deltas(rs), table);
    var p := DeltaAt(rs, 0, i);
    SlotsRoundTrip(rs[i], p, slot);
  }

  /** A truncated tail is not refused: bytes that end no value still add an entry, so the decoder
      returns exactly the written safepoints if and only if no such byte follows them. */
  lemma UnterminatedTailAddsEntries(ds: seq<Delta>, tail: Bytes)
    requires AllValid(ds) && Unterminated(tail)
    ensures StandaloneFrom(PutStandalone(ds, tail), 0, []) == Placed(ds, 0) <==> tail == []
  {
    hide ReadBody, StandaloneFrom, ReadLeb, PutLeb, PutBody, Unterminated;
    var pc := StandalonePrefix(ds, tail, 0, []);
    assert [] + Placed(ds, 0) == Placed(ds, 0);
    if tail == [] { StandaloneOfNothing(pc, Placed(ds, 0)); }
    if tail != [] {
      TailAddsEntry(tail, pc, Placed(ds, 0));
    }
  }

  lemma UnterminatedLeb(s: Bytes)
    requires Unterminated(s)
    ensures ReadLeb(s).value == 0 && Unterminated(ReadLeb(s).rest)
  {
    hide LebFrom;
    UnterminatedReadsZero(s, 0, 0, 1);
  }

  /** Two counts of zero and no bitmap. */
  lemma UnterminatedBody(s: Bytes)
    requires Unterminated(s)
    ensures ReadBody(s).Some? && ReadBody(s).value.0 == Entry(0, 0, 0, [])
  {
    hide ReadLeb;
    UnterminatedLeb(s);
    UnterminatedLeb(ReadLeb(s).rest);
    assert ByteCount(0) == 0;
  }

  lemma TailAddsEntry(tail: Bytes, pc: nat, acc: seq<Entry>)
    requires tail != [] && Unterminated(tail)
    ensures |StandaloneFrom(tail, pc, acc)| > |acc|
  {
    hide ReadLeb, ReadBody, Unterminated;
    UnterminatedLeb(tail);
    UnterminatedBody(ReadLeb(tail).rest);
    var (e, rest) := ReadBody(ReadLeb(tail).rest).value;
    StandaloneGrows(rest, AsUint32(pc), acc + [e.(pcOffset := AsUint32(pc))]);
  }

  lemma {:induction false} StandaloneGrows(s: Bytes, pc: nat, acc: seq<Entry>)
    ensures |StandaloneFrom(s, pc, acc)| >= |acc|
    decreases |s|
  {
    hide ReadBody, ReadLeb, AsUint32;
    if s != [] {
      var delta := ReadLeb(s);
      match ReadBody(delta.rest)
      case None =>
      case Some((e, t)) =>
        StandaloneGrows(t, AsUint32(pc + delta.value), acc + [e.(pcOffset := AsUint32(pc + delta.value))]);
    }
  }

  // ---------- bodies shared through the global table ----------

  /** A PC delta and an offset into the global table. */
  datatype TableRef = TableRef(delta: nat, offset: nat) {
    predicate Valid() {
      delta < TWO_64 && offset < TWO_63
    }
  }

  ghost predicate AllRefsValid(refs: seq<TableRef>) {
    forall i :: 0 <= i < |refs| ==> refs[i].Valid()
  }

  function PutTableRefs(refs: seq<TableRef>): Bytes {
    if refs == [] then [] else PutLeb(refs[0].delta, PutLeb(refs[0].offset, PutTableRefs(refs[1..])))
  }

  /** The same safepoints with every referenced body written out. */
  function Inlined(refs: seq<TableRef>, table: Bytes): seq<Delta> {
    hide Shared;
    if refs == [] then []
    else [Delta(refs[0].delta, Shared(table, refs[0].offset))] + Inlined(refs[1..], table)
  }

  lemma {:induction false} InlinedIsValid(refs: seq<TableRef>, table: Bytes)
    requires AllRefsValid(refs)
    ensures AllValid(Inlined(refs, table))
  {
    if refs != [] {
      InlinedIsValid(refs[1..], table);
    }
  }

  lemma {:induction false} TableDecodesToInlined(refs: seq<TableRef>, table: Bytes, pc: nat, acc: seq<Entry>)
    requires AllRefsValid(refs)
    ensures TableFrom(PutTableRefs(refs), table, pc, acc) == Entries(acc + Placed(Inlined(refs, table), pc))
  {
    hide ReadLeb, AsUint32, PutLeb, Shared;
    if refs == [] {
      assert acc + Placed(Inlined(refs, table), pc) == acc;
    } else {
      var r, t := refs[0], PutTableRefs(refs[1..]);
      var pc' := AsUint32(pc + r.delta);
      var e := Shared(table, r.offset).(pcOffset := pc');
      LebRoundTrip(r.delta, PutLeb(r.offset, t));
      LebIsNotEmpty(r.delta, PutLeb(r.offset, t));
      LebRoundTrip(r.offset, t);
      TableDecodesToInlined(refs[1..], table, pc', acc + [e]);
      AppendOne(acc, e, Placed(Inlined(refs[1..], table), pc'));
    }
  }

  /** A stack map that refers to a global table decodes to what the standalone map with every
      referenced body inlined decodes to, whatever the table's bytes are. */
  lemma TableEqualsInlined(refs: seq<TableRef>, table: Bytes, globalTable: Bytes, other: Bytes)
    requires AllRefsValid(refs) && Body(globalTable) == Some(table)
    requires |PutTableRefs(refs)| < 0x4000_0000 && |PutStandalone(Inlined(refs, table), [])| < 0x4000_0000
    ensures Decode(Payload(PutTableRefs(refs), 2), globalTable)
         == Decode(Payload(PutStandalone(Inlined(refs, table), []), 0), other)
  {
    hide StandaloneFrom, TableFrom, Payload, Decode, PutStandalone, PutTableRefs, Placed, Inlined;
    InlinedIsValid(refs, table);
    StandaloneRoundTrip(Inlined(refs, table), other);
    DecodeOfPayload(PutTableRefs(refs), 2, globalTable);
    TableDecodesToInlined(refs, table, 0, []);
    assert [] + Placed(Inlined(refs, table), 0) == Placed(Inlined(refs, table), 0);
  }

  /** The reference names a body that is written in the table, or nothing behind its end. */
  ghost predicate Names(r: TableRef, table: Bytes, body: Entry) {
    && body.WellFormed() && body.pcOffset == 0
    && (if r.offset >= |table| then body == Entry(0, 0, 0, [])
        else exists k :: table[r.offset..] == PutBody(body, k))
  }

  lemma NamedIsShared(r: TableRef, table: Bytes, body: Entry)
    requires Names(r, table, body)
    ensures Shared(table, r.offset) == body
  {
    hide PutBody, ReadBody, Entry.WellFormed;
    if r.offset < |table| {
      var k :| table[r.offset..] == PutBody(body, k);
      BodyRoundTrip(body, k);
    }
  }

  /** References decode to the bodies they name, at the accumulated PC offsets. */
  lemma TableNamesBodies(refs: seq<TableRef>, bodies: seq<Entry>, table: Bytes, globalTable: Bytes)
    requires AllRefsValid(refs) && Body(globalTable) == Some(table) && |PutTableRefs(refs)| < 0x4000_0000
    requires |bodies| == |refs| && forall i :: 0 <= i < |refs| ==> Names(refs[i], table, bodies[i])
    ensures Decode(Payload(PutTableRefs(refs), 2), globalTable)
         == Entries(Placed(seq(|refs|, i requires 0 <= i < |refs| => Delta(refs[i].delta, bodies[i])), 0))
  {
    hide TableFrom, Payload, Decode, PutTableRefs, Placed, Inlined, Names;
    DecodeOfPayload(PutTableRefs(refs), 2, globalTable);
    TableDecodesToInlined(refs, table, 0, []);
    InlinedIsNamed(refs, bodies, table);
    assert [] + Placed(Inlined(refs, table), 0) == Placed(Inlined(refs, table), 0);
  }

  lemma {:induction false} InlinedIsNamed(refs: seq<TableRef>, bodies: seq<Entry>, table: Bytes)
    requires |bodies| == |refs| && forall i :: 0 <= i < |refs| ==> Names(refs[i], table, bodies[i])
    ensures Inlined(refs, table) == seq(|refs|, i requires 0 <= i < |refs| => Delta(refs[i].delta, bodies[i]))
  {
    hide Shared, Names;
    if refs != [] {
      NamedIsShared(refs[0], table, bodies[0]);
      InlinedIsNamed(refs[1..], bodies[1..], table);
    }
  }
}
