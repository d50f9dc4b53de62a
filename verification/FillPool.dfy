/** The object pool's fill data, in its three entry encodings. */
module FillPool {
  import opened Wire

  /** Up to 3.2 the entry byte is a 7-bit type (3.2 swapping the first two types), later a 4-bit type
      under a snapshot behaviour. */
  datatype Format = Format(oldFormat: bool, swapped: bool, refUnsigned: bool)

  datatype PoolKind = PoolTagged | PoolImmediate | PoolNative | PoolEmpty

  datatype PoolEntry = PoolEntry(index: int, kind: PoolKind, refId: int, imm: int)

  // ---------- reading ----------

  function ReadTaggedEntry(s: Bytes, f: Format, index: int): Parsed<PoolEntry> {
    var (ref, t) :- ReadRef(s, f.refUnsigned);
    Done(PoolEntry(index, PoolTagged, ref, 0), t)
  }

  function ReadImmediateEntry(s: Bytes, index: int): Parsed<PoolEntry> {
    var (imm, t) :- ReadTagged64(s);
    Done(PoolEntry(index, PoolImmediate, 0, imm), t)
  }

  /** The entry's type in the ordering before 3.2. */
  function OldType(f: Format, bits: Byte): int {
    var t := bits % 128;
    if f.swapped && t <= 1 then 1 - t else t
  }

  function ReadEntryBody(s: Bytes, f: Format, bits: Byte, index: int): Parsed<PoolEntry> {
    if f.oldFormat then
      var t := OldType(f, bits);
      if t == 0 || t == 4 then ReadTaggedEntry(s, f, index)
      else if t == 1 then ReadImmediateEntry(s, index)
      else if t == 2 || t == 3 then Done(PoolEntry(index, PoolNative, 0, 0), s)
      else Fail(BadValue, s)
    else
      var behaviour, t := bits / 32, bits % 16;
      if behaviour == 0 then
        if t == 0 then ReadImmediateEntry(s, index)
        else if t == 1 then ReadTaggedEntry(s, f, index)
        else if t == 2 then Done(PoolEntry(index, PoolNative, 0, 0), s)
        else Fail(BadValue, s)
      else if behaviour <= 4 then Done(PoolEntry(index, PoolEmpty, 0, 0), s)
      else Fail(BadValue, s)
  }

  function ReadEntry(s: Bytes, f: Format, index: int): Parsed<PoolEntry> {
    var (bits, t) :- ReadByte(s);
    ReadEntryBody(t, f, bits, index)
  }

  /** n more entries; the index runs on across pools. */
  function EntriesFrom(s: Bytes, f: Format, n: int, entries: seq<PoolEntry>): Parsed<seq<PoolEntry>>
    decreases n
  {
    if n <= 0 then Done(entries, s)
    else
      var (e, t) :- ReadEntry(s, f, |entries|);
      EntriesFrom(t, f, n - 1, entries + [e])
  }

  function PoolsFrom(s: Bytes, f: Format, count: int, entries: seq<PoolEntry>): Parsed<seq<PoolEntry>>
    decreases count
  {
    if count <= 0 then Done(entries, s)
    else
      var (length, t) :- ReadUnsigned(s);
      var (entries', u) :- EntriesFrom(t, f, length, entries);
      PoolsFrom(u, f, count - 1, entries')
  }

  method NextEntryBody(s: Stream, f: Format, bits: Byte, index: int) returns (r: Result<PoolEntry>)
    requires s.Valid()
    modifies s`pos
    ensures s.Reads(ReadEntryBody(old(s.Rest()), f, bits, index), r)
  {
    hide ReadRef, ReadTagged64;
    var entry := PoolEntry(index, PoolEmpty, 0, 0);
    if f.oldFormat {
      var typeBits := bits % 128;
      if f.swapped && typeBits <= 1 { typeBits := 1 - typeBits; }
      if typeBits == 0 || typeBits == 4 {
        var ref :- s.NextRef(f.refUnsigned);
        entry := entry.(kind := PoolTagged, refId := ref);
      } else if typeBits == 1 {
        var imm :- s.NextTagged64();
        entry := entry.(kind := PoolImmediate, imm := imm);
      } else if typeBits == 2 || typeBits == 3 {
        entry := entry.(kind := PoolNative);
      } else {
        return Err(BadValue);
      }
    } else {
      var behaviour, typeBits := bits / 32, bits % 16;
      if behaviour == 0 {
        if typeBits == 0 {
          var imm :- s.NextTagged64();
          entry := entry.(kind := PoolImmediate, imm := imm);
        } else if typeBits == 1 {
          var ref :- s.NextRef(f.refUnsigned);
          entry := entry.(kind := PoolTagged, refId := ref);
        } else if typeBits == 2 {
          entry := entry.(kind := PoolNative);
        } else {
          return Err(BadValue);
        }
      } else if behaviour > 4 {
        return Err(BadValue);
      }
    }
    r := Ok(entry);
  }

  method ReadFillObjectPool(s: Stream, f: Format, count: int) returns (r: Result<seq<PoolEntry>>)
    requires s.Valid()
    modifies s`pos
    ensures s.Reads(PoolsFrom(old(s.Rest()), f, count, []), r)
  {
    hide ReadUnsigned, ReadEntryBody;
    var entries := [];
    var idx, i := 0, 0;
    while i < count
      invariant s.Valid() && idx == |entries|
      invariant PoolsFrom(old(s.Rest()), f, count, []) == PoolsFrom(s.Rest(), f, count - i, entries)
      decreases count - i
    {
      ghost var before, entriesBefore := s.Rest(), entries;
      var length :- s.NextUnsigned();
      ghost var pool := s.Rest();
      var j := 0;
      while j < length
        invariant s.Valid() && idx == |entries|
        invariant EntriesFrom(pool, f, length, entriesBefore) == EntriesFrom(s.Rest(), f, length - j, entries)
        decreases length - j
      {
        var bits :- s.NextByte();
        var entry :- NextEntryBody(s, f, bits, idx);
        idx := idx + 1;
        entries := entries + [entry];
        j := j + 1;
      }
      assert EntriesFrom(pool, f, length, entriesBefore) == Done(entries, s.Rest());
      i := i + 1;
    }
    r := Ok(entries);
  }

  // ---------- writing ----------

  /** An entry as the serializer sees it. */
  datatype EntryIn =
    | TaggedIn(ref: nat)
    | ImmediateIn(imm: int)
    | NativeIn
    | NativeWrapperIn
    | NativeDataIn(ref: nat)
    | ResetIn(behaviour: nat, typeBits: nat)

  /** What each format can express; the patchable bit is free. */
  predicate Expressible(f: Format, e: EntryIn) {
    match e
    case TaggedIn(ref) => FitsRef(ref)
    case ImmediateIn(imm) => -TWO_63 <= imm < TWO_63
    case NativeIn => true
    case NativeWrapperIn => f.oldFormat
    case NativeDataIn(ref) => f.oldFormat && FitsRef(ref)
    case ResetIn(behaviour, typeBits) => !f.oldFormat && 1 <= behaviour <= 4 && typeBits < 16
  }

  function TypeOf(f: Format, e: EntryIn): nat {
    match e
    case TaggedIn(_) => if f.oldFormat && !f.swapped then 0 else 1
    case ImmediateIn(_) => if f.oldFormat && !f.swapped then 1 else 0
    case NativeIn => 2
    case NativeWrapperIn => 3
    case NativeDataIn(_) => 4
    case ResetIn(_, typeBits) => typeBits
  }

  function EntryByte(f: Format, e: EntryIn, patchable: bool): Byte
    requires Expressible(f, e)
  {
    var t := TypeOf(f, e);
    var patch := if patchable then 1 else 0;
    if f.oldFormat then t + 128 * patch
    else t + 16 * patch + 32 * (if e.ResetIn? then e.behaviour else 0)
  }

  function PutEntry(f: Format, e: EntryIn, patchable: bool, k: Bytes): Bytes
    requires Expressible(f, e)
  {
    [EntryByte(f, e, patchable)] +
      match e {
        case TaggedIn(ref) => PutRef(ref, f.refUnsigned, k)
        case NativeDataIn(ref) => PutRef(ref, f.refUnsigned, k)
        case ImmediateIn(imm) => PutTagged(imm, k)
        case _ => k
      }
  }

  /** What an entry must come back as. */
  function EntryFor(e: EntryIn, index: int): PoolEntry {
    match e
    case TaggedIn(ref) => PoolEntry(index, PoolTagged, ref, 0)
    case NativeDataIn(ref) => PoolEntry(index, PoolTagged, ref, 0)
    case ImmediateIn(imm) => PoolEntry(index, PoolImmediate, 0, imm)
    case NativeIn => PoolEntry(index, PoolNative, 0, 0)
    case NativeWrapperIn => PoolEntry(index, PoolNative, 0, 0)
    case ResetIn(_, _) => PoolEntry(index, PoolEmpty, 0, 0)
  }

  /** A pool: its entries and their patchable bits. */
  type Pool = seq<(EntryIn, bool)>

  predicate AllExpressible(f: Format, pool: Pool) {
    forall i :: 0 <= i < |pool| ==> Expressible(f, pool[i].0)
  }

  predicate PoolsExpressible(f: Format, pools: seq<Pool>) {
    forall i :: 0 <= i < |pools| ==> AllExpressible(f, pools[i]) && |pools[i]| < TWO_63
  }

  function PutEntries(f: Format, pool: Pool, k: Bytes): Bytes
    requires AllExpressible(f, pool)
  {
    if pool == [] then k else PutEntry(f, pool[0].0, pool[0].1, PutEntries(f, pool[1..], k))
  }

  function PutPools(f: Format, pools: seq<Pool>, k: Bytes): Bytes
    requires PoolsExpressible(f, pools)
  {
    if pools == [] then k
    else PutUnsigned(|pools[0]|, PutEntries(f, pools[0], PutPools(f, pools[1..], k)))
  }

  /** The entries of all pools, one after the other. */
  function Flatten(pools: seq<Pool>): Pool {
    if pools == [] then [] else pools[0] + Flatten(pools[1..])
  }

  /** Entries numbered from `first` on. */
  function Numbered(pool: Pool, first: int): (es: seq<PoolEntry>)
    ensures |es| == |pool|
  {
    seq(|pool|, i requires 0 <= i < |pool| => EntryFor(pool[i].0, first + i))
  }

  // ---------- the reader inverts the writer ----------

  lemma EntryRoundTrip(f: Format, e: EntryIn, patchable: bool, index: int, k: Bytes)
    requires Expressible(f, e)
    ensures ReadEntry(PutEntry(f, e, patchable, k), f, index) == Done(EntryFor(e, index), k)
  {
    hide ReadRef, ReadTagged64, PutRef, PutTagged;
    var s := PutEntry(f, e, patchable, k);
    match e
    case TaggedIn(ref) => RefRoundTrip(ref, f.refUnsigned, k); assert s[1..] == PutRef(ref, f.refUnsigned, k);
    case NativeDataIn(ref) => RefRoundTrip(ref, f.refUnsigned, k); assert s[1..] == PutRef(ref, f.refUnsigned, k);
    case ImmediateIn(imm) => Tagged64RoundTrip(imm, k); assert s[1..] == PutTagged(imm, k);
    case _ => assert s[1..] == k;
  }

  lemma {:induction false} EntriesRoundTrip(f: Format, pool: Pool, k: Bytes, entries: seq<PoolEntry>)
    requires AllExpressible(f, pool)
    ensures EntriesFrom(PutEntries(f, pool, k), f, |pool|, entries) == Done(entries + Numbered(pool, |entries|), k)
  {
    hide ReadEntry, PutEntry, EntryFor, Expressible;
    if pool == [] {
      assert entries + Numbered(pool, |entries|) == entries;
    } else {
      var e := EntryFor(pool[0].0, |entries|);
      EntryRoundTrip(f, pool[0].0, pool[0].1, |entries|, PutEntries(f, pool[1..], k));
      EntriesRoundTrip(f, pool[1..], k, entries + [e]);
      assert Numbered(pool, |entries|) == [e] + Numbered(pool[1..], |entries| + 1);
      AppendOne(entries, e, Numbered(pool[1..], |entries| + 1));
    }
  }

  lemma NumberedSplit(a: Pool, b: Pool, first: int)
    ensures Numbered(a + b, first) == Numbered(a, first) + Numbered(b, first + |a|)
  {
  }

  lemma {:induction false} PoolsRoundTripFrom(f: Format, pools: seq<Pool>, k: Bytes, entries: seq<PoolEntry>)
    requires PoolsExpressible(f, pools)
    ensures PoolsFrom(PutPools(f, pools, k), f, |pools|, entries) == Done(entries + Numbered(Flatten(pools), |entries|), k)
  {
    hide EntriesFrom, PutEntries, ReadUnsigned, PutUnsigned, Numbered, AllExpressible;
    if pools == [] {
      assert entries + Numbered(Flatten(pools), |entries|) == entries;
    } else {
      var t := PutPools(f, pools[1..], k);
      var entries' := entries + Numbered(pools[0], |entries|);
      UnsignedRoundTrip(|pools[0]|, PutEntries(f, pools[0], t));
      EntriesRoundTrip(f, pools[0], t, entries);
      PoolsRoundTripFrom(f, pools[1..], k, entries');
      NumberedSplit(pools[0], Flatten(pools[1..]), |entries|);
      assert entries' + Numbered(Flatten(pools[1..]), |entries'|)
          == entries + (Numbered(pools[0], |entries|) + Numbered(Flatten(pools[1..]), |entries'|));
    }
  }

  /** In every format, reading written pools returns all their entries, each numbered by its position
      across the pools, and nothing of what follows. */
  lemma PoolsRoundTrip(f: Format, pools: seq<Pool>, k: Bytes)
    requires PoolsExpressible(f, pools)
    ensures PoolsFrom(PutPools(f, pools, k), f, |pools|, []) == Done(Numbered(Flatten(pools), 0), k)
  {
    hide PoolsFrom, PutPools;
    PoolsRoundTripFrom(f, pools, k, []);
    assert [] + Numbered(Flatten(pools), 0) == Numbered(Flatten(pools), 0);
  }

  /** Swapping the two types on both sides changes nothing. */
  lemma SwappedReadersAgree(refUnsigned: bool, pools: seq<Pool>, k: Bytes)
    requires PoolsExpressible(Format(true, false, refUnsigned), pools)
    ensures PoolsExpressible(Format(true, true, refUnsigned), pools)
    ensures var plain, swapped := Format(true, false, refUnsigned), Format(true, true, refUnsigned);
            PoolsFrom(PutPools(plain, pools, k), plain, |pools|, []) == PoolsFrom(PutPools(swapped, pools, k), swapped, |pools|, [])
  {
    hide PoolsFrom, PutPools;
    forall i | 0 <= i < |pools| ensures AllExpressible(Format(true, true, refUnsigned), pools[i]) {
      assert AllExpressible(Format(true, false, refUnsigned), pools[i]);
    }
    PoolsRoundTrip(Format(true, false, refUnsigned), pools, k);
    PoolsRoundTrip(Format(true, true, refUnsigned), pools, k);
  }
}
