/** The alloc phase of one cluster: how much of the stream its kind and version use, and what is
    kept of it. */
module ClusterAlloc {
  import opened Wire

  datatype AllocKind =
    | AllocSimple | AllocCanonicalSet | AllocString | AllocMint | AllocArray | AllocWeakArray
    | AllocTypeArguments | AllocClass | AllocCode | AllocObjectPool | AllocROData
    | AllocExceptionHandlers | AllocContext | AllocContextScope | AllocRecord | AllocTypedData
    | AllocInstance | AllocEmpty | AllocUnknown

  datatype TagStyle = CidShift1 | ObjectHeader | CidInt32

  /** The profile fields the alloc phase depends on; `classify` is the version's CID table. */
  datatype Profile = Profile(
    tags: TagStyle,
    headerFields: int,
    fillRefUnsigned: bool,
    splitCanonical: bool,
    preCanonicalSplit: bool,
    noCanonicalSetData: bool,
    compressedPointers: bool,
    closureAllocHasLength: bool,
    classAllocFixedSize: bool,
    stringCid: int,
    typeCid: int,
    closureCid: int,
    numPredefinedCids: int,
    classify: int -> AllocKind)

  // ---------- the shapes ----------

  /** What a cluster's alloc data looks like.
      Counted: a count, then (`items`) one unsigned per object, kept (`record`) or not, then, if the
      cluster is in a canonical set, the set's layout, with or without `first_element`. */
  datatype Shape =
    | Counted(items: bool, record: bool, canonicalSet: Option<bool>)
    | DualCount
    | Mint(canonicalByte: bool)
    | Class(fixedSize: bool)
    | Code(stateBits: bool)
    | Instance
    | Empty
    | Unknown

  function SetLayout(inStream: bool, readFirstElement: bool): Option<bool> {
    if inStream then Some(readFirstElement) else None
  }

  function ShapeOf(p: Profile, cid: int, isCanonical: bool, isVM: bool): Shape {
    var inStream := isCanonical && !p.noCanonicalSetData;
    var lengths := Counted(true, true, None);
    var simple := Counted(false, false, None);
    match p.classify(cid)
    case AllocMint => Mint(p.preCanonicalSplit)
    case kind =>
      if p.closureAllocHasLength && p.closureCid != 0 && cid == p.closureCid then lengths
      else
        match kind
        case AllocSimple => simple
        case AllocCanonicalSet =>
          if p.preCanonicalSplit then DualCount
          else Counted(false, false, SetLayout(inStream, !p.splitCanonical || cid == p.typeCid))
        case AllocString =>
          if p.splitCanonical || !p.compressedPointers
          then Counted(true, true, SetLayout(inStream && cid == p.stringCid, !p.splitCanonical))
          else Counted(true, false, SetLayout(isCanonical && !isVM, true))
        case AllocTypeArguments => Counted(true, true, SetLayout(inStream, !p.splitCanonical))
        case AllocROData => Counted(true, true, SetLayout(inStream, !p.splitCanonical))
        case AllocClass => Class(p.classAllocFixedSize)
        case AllocCode => Code(p.tags != CidInt32)
        case AllocInstance => Instance
        case AllocEmpty => if p.preCanonicalSplit then simple else Empty
        case AllocUnknown => Unknown
        case _ => lengths
  }

  /** What the alloc phase keeps of a cluster, besides its count. */
  datatype Info = Info(
    lengths: seq<int>, mainCount: int, discarded: set<int>, predefCids: seq<int>,
    nextFieldOffset: int, mints: seq<int>)

  const NOTHING: Info := Info([], 0, {}, [], 0, [])

  /** A finished or failed alloc: either way a count, what was kept, and where the stream stands. */
  datatype Alloc = Alloc(count: int, info: Info, error: Option<ReadError>, rest: Bytes)

  // ---------- items ----------

  datatype Item = Unsigned | Tagged32 | MintValue(canonicalByte: bool)

  function ReadItem(s: Bytes, item: Item): (p: Parsed<int>)
    ensures |p.rest| <= |s|
  {
    match item
    case Unsigned => ReadUnsigned(s)
    case Tagged32 => ReadTagged32(s)
    case MintValue(false) => ReadTagged64(s)
    case MintValue(true) =>
      var (_, t) :- ReadByte(s);
      ReadTagged64(t)
  }

  /** The items read up to the end or the first error. */
  datatype Many = Many(values: seq<int>, error: Option<ReadError>, rest: Bytes)

  function ManyFrom(s: Bytes, n: nat, item: Item, acc: seq<int>): (m: Many)
    ensures |m.rest| <= |s|
    decreases n
  {
    if n == 0 then Many(acc, None, s)
    else
      match ReadItem(s, item)
      case Fail(e, t) => Many(acc, Some(e), t)
      case Done(v, t) => ManyFrom(t, n - 1, item, acc + [v])
  }

  /** Go's zeroed slice of length n with its first elements set. */
  function Padded(values: seq<int>, n: nat): seq<int> {
    values + seq(if |values| <= n then n - |values| else 0, _ => 0)
  }

  /** A count within the step limit. */
  function ReadCount(s: Bytes, maxSteps: nat): (p: Parsed<int>)
    ensures p.Done? ==> 0 <= p.value <= maxSteps
    ensures |p.rest| <= |s|
  {
    var (n, t) :- ReadUnsigned(s);
    if n < 0 || n > maxSteps then Fail(OutOfRange, t) else Done(n, t)
  }

  predicate Bit3(stateBits: int) {
    stateBits / 8 % 2 == 1
  }

  // ---------- reading ----------

  /** The hash table layout of a canonical set, dropped; the error, if any, and the unread bytes. */
  function SkipCanonicalSet(s: Bytes, count: nat, readFirstElement: bool, maxSteps: nat): (r: (Option<ReadError>, Bytes))
    ensures |r.1| <= |s|
  {
    match ReadUnsigned(s)
    case Fail(e, t) => (Some(e), t)
    case Done(tableLength, t) =>
      if tableLength < 0 || tableLength > maxSteps * 16 then (Some(OutOfRange), t)
      else if !readFirstElement then SkipGaps(t, count)
      else
        match ReadUnsigned(t)
        case Fail(e, u) => (Some(e), u)
        case Done(first, u) =>
          if first < 0 || first > count then (Some(OutOfRange), u) else SkipGaps(u, count - first)
  }

  function SkipGaps(s: Bytes, n: nat): (r: (Option<ReadError>, Bytes))
    ensures |r.1| <= |s|
  {
    var gaps := ManyFrom(s, n, Unsigned, []);
    (gaps.error, gaps.rest)
  }

  function ReadCounted(s: Bytes, shape: Shape, maxSteps: nat): (a: Alloc)
    requires shape.Counted?
    ensures |a.rest| <= |s|
  {
    match ReadCount(s, maxSteps)
    case Fail(e, t) => Alloc(0, NOTHING, Some(e), t)
    case Done(count, t) =>
      var many := if shape.items then ManyFrom(t, count, Unsigned, []) else Many([], None, t);
      var info := if shape.items && shape.record then NOTHING.(lengths := Padded(many.values, count)) else NOTHING;
      if many.error.Some? || shape.canonicalSet.None? then Alloc(count, info, many.error, many.rest)
      else
        var (error, rest) := SkipCanonicalSet(many.rest, count, shape.canonicalSet.value, maxSteps);
        Alloc(count, info, error, rest)
  }

  function ReadDualCount(s: Bytes, maxSteps: nat): (a: Alloc)
    ensures |a.rest| <= |s|
  {
    match ReadCount(s, maxSteps)
    case Fail(e, t) => Alloc(0, NOTHING, Some(e), t)
    case Done(canonical, t) =>
      match ReadCount(t, maxSteps)
      case Fail(e, u) => Alloc(canonical, NOTHING, Some(e), u)
      case Done(other, u) => Alloc(canonical + other, NOTHING, None, u)
  }

  function ReadMints(s: Bytes, canonicalByte: bool, maxSteps: nat): (a: Alloc)
    ensures |a.rest| <= |s|
  {
    match ReadCount(s, maxSteps)
    case Fail(e, t) => Alloc(0, NOTHING, Some(e), t)
    case Done(count, t) =>
      var many := ManyFrom(t, count, MintValue(canonicalByte), []);
      Alloc(count, NOTHING.(mints := Padded(many.values, count)), many.error, many.rest)
  }

  /** Some builds write the total class count first: a first value above the number of predefined
      classes is taken for that, and the next value is read instead. */
  function ReadPredefinedCount(s: Bytes, numPredefined: int, maxSteps: nat): (p: Parsed<int>)
    ensures p.Done? ==> p.value >= 0
    ensures |p.rest| <= |s|
  {
    var (first, t) :- ReadUnsigned(s);
    if first > numPredefined then ReadCount(t, maxSteps)
    else if first < 0 || first > maxSteps then Fail(OutOfRange, t)
    else Done(first, t)
  }

  function ReadClass(s: Bytes, fixedSize: bool, numPredefined: int, maxSteps: nat): (a: Alloc)
    ensures |a.rest| <= |s|
  {
    if fixedSize then ReadCounted(s, Counted(false, false, None), maxSteps)
    else
      match ReadPredefinedCount(s, numPredefined, maxSteps)
      case Fail(e, t) => Alloc(0, NOTHING, Some(e), t)
      case Done(predefined, t) =>
        var many := ManyFrom(t, predefined, Tagged32, []);
        var info := NOTHING.(predefCids := Padded(many.values, predefined));
        if many.error.Some? then Alloc(0, info, many.error, many.rest)
        else
          match ReadCount(many.rest, maxSteps)
          case Fail(e, u) => Alloc(predefined, info, Some(e), u)
          case Done(added, u) => Alloc(predefined + added, info.(mainCount := predefined), None, u)
  }

  /** The positions, from `base` on, of the state bits that say discarded. */
  function DiscardedIn(stateBits: seq<int>, base: int): set<int> {
    set i | 0 <= i < |stateBits| && Bit3(stateBits[i]) :: base + i
  }

  /** n state bits, when the version keeps them in the alloc data. */
  function ReadStateBits(s: Bytes, n: nat, inAlloc: bool): (m: Many)
    ensures |m.rest| <= |s|
  {
    if inAlloc then ManyFrom(s, n, Tagged32, []) else Many([], None, s)
  }

  function ReadCode(s: Bytes, stateBits: bool, maxSteps: nat): (a: Alloc)
    ensures |a.rest| <= |s|
  {
    match ReadCount(s, maxSteps)
    case Fail(e, t) => Alloc(0, NOTHING, Some(e), t)
    case Done(count, t) =>
      var main := ReadStateBits(t, count, stateBits);
      var info := NOTHING.(discarded := DiscardedIn(main.values, 0));
      if main.error.Some? then Alloc(count, info, main.error, main.rest)
      else
        var info' := info.(mainCount := count);
        match ReadCount(main.rest, maxSteps)
        case Fail(e, u) => Alloc(count, info', Some(e), u)
        case Done(deferredCount, u) =>
          var deferred := ReadStateBits(u, deferredCount, stateBits);
          Alloc(count + deferredCount,
                info'.(discarded := info.discarded + DiscardedIn(deferred.values, count)),
                deferred.error, deferred.rest)
  }

  function ReadInstance(s: Bytes, maxSteps: nat): (a: Alloc)
    ensures |a.rest| <= |s|
  {
    match ReadCount(s, maxSteps)
    case Fail(e, t) => Alloc(0, NOTHING, Some(e), t)
    case Done(count, t) =>
      match ReadTagged32(t)
      case Fail(e, u) => Alloc(count, NOTHING, Some(e), u)
      case Done(nextFieldOffset, u) =>
        var info := NOTHING.(nextFieldOffset := AsInt32(nextFieldOffset));
        match ReadTagged32(u)
        case Fail(e, w) => Alloc(count, info, Some(e), w)
        case Done(_, w) => Alloc(count, info, None, w)
  }

  function ReadAlloc(s: Bytes, shape: Shape, numPredefined: int, maxSteps: nat): (a: Alloc)
    ensures |a.rest| <= |s|
  {
    match shape
    case Counted(_, _, _) => ReadCounted(s, shape, maxSteps)
    case DualCount => ReadDualCount(s, maxSteps)
    case Mint(canonicalByte) => ReadMints(s, canonicalByte, maxSteps)
    case Class(fixedSize) => ReadClass(s, fixedSize, numPredefined, maxSteps)
    case Code(stateBits) => ReadCode(s, stateBits, maxSteps)
    case Instance => ReadInstance(s, maxSteps)
    case Empty => Alloc(0, NOTHING, None, s)
    case Unknown => Alloc(0, NOTHING, Some(BadValue), s)
  }

  /** Whatever the stream holds, the count is not negative, a Mint cluster keeps as many values, and the
      main codes of a Code cluster that was read without error are counted in it. */
  lemma CountIsNatural(s: Bytes, shape: Shape, numPredefined: int, maxSteps: nat)
    ensures ReadAlloc(s, shape, numPredefined, maxSteps).count >= 0
    ensures shape.Mint? ==>
            |ReadAlloc(s, shape, numPredefined, maxSteps).info.mints| == ReadAlloc(s, shape, numPredefined, maxSteps).count
    ensures !shape.Mint? ==> ReadAlloc(s, shape, numPredefined, maxSteps).info.mints == []
    ensures var a := ReadAlloc(s, shape, numPredefined, maxSteps);
            shape.Code? && a.error.None? ==> 0 <= a.info.mainCount <= a.count
  {
    hide ReadUnsigned, ReadTagged32, SkipCanonicalSet, ManyFrom, ReadCount, DiscardedIn;
    match ReadCount(s, maxSteps)
    case Fail(_, _) =>
    case Done(count, t) =>
      if shape.Mint? { ManyIsBounded(t, count, MintValue(shape.canonicalByte), []); }
  }

  lemma {:induction false} ManyIsBounded(s: Bytes, n: nat, item: Item, acc: seq<int>)
    ensures |ManyFrom(s, n, item, acc).values| <= |acc| + n
    decreases n
  {
    hide ReadItem;
    if n > 0 {
      match ReadItem(s, item)
      case Fail(_, _) =>
      case Done(v, t) => ManyIsBounded(t, n - 1, item, acc + [v]);
    }
  }

  // ---------- the readers as loops over the stream ----------

  /** What an alloc reader returns and where it leaves the stream. */
  ghost predicate Leaves(s: Stream, a: Alloc, count: int, info: Info, error: Option<ReadError>)
    reads s
  {
    s.Valid() && a == Alloc(count, info, error, s.Rest())
  }

  method NextCount(s: Stream, maxSteps: nat) returns (r: Result<int>)
    requires s.Valid()
    modifies s`pos
    ensures s.Reads(ReadCount(old(s.Rest()), maxSteps), r)
  {
    var n :- s.NextUnsigned();
    if n < 0 || n > maxSteps { return Err(OutOfRange); }
    r := Ok(n);
  }

  method NextMany(s: Stream, n: nat, item: Item) returns (values: seq<int>, error: Option<ReadError>)
    requires s.Valid()
    modifies s`pos
    ensures s.Valid() && Many(values, error, s.Rest()) == ManyFrom(old(s.Rest()), n, item, [])
  {
    hide ReadUnsigned, ReadTagged32, ReadTagged64;
    values := [];
    for i := 0 to n
      invariant s.Valid()
      invariant ManyFrom(old(s.Rest()), n, item, []) == ManyFrom(s.Rest(), n - i, item, values)
    {
      var v := NextItem(s, item);
      if v.Err? { return values, Some(v.error); }
      values := values + [v.value];
    }
    error := None;
  }

  method NextItem(s: Stream, item: Item) returns (r: Result<int>)
    requires s.Valid()
    modifies s`pos
    ensures s.Reads(ReadItem(old(s.Rest()), item), r)
  {
    hide ReadUnsigned, ReadTagged32, ReadTagged64;
    match item {
      case Unsigned => r := s.NextUnsigned();
      case Tagged32 => r := s.NextTagged32();
      case MintValue(canonicalByte) =>
        if canonicalByte { var _ :- s.NextByte(); }
        r := s.NextTagged64();
    }
  }

  method SkipCanonicalSetFrom(s: Stream, count: nat, readFirstElement: bool, maxSteps: nat) returns (error: Option<ReadError>)
    requires s.Valid()
    modifies s`pos
    ensures s.Valid() && (error, s.Rest()) == SkipCanonicalSet(old(s.Rest()), count, readFirstElement, maxSteps)
  {
    hide ReadUnsigned, ManyFrom;
    var tableLength := s.NextUnsigned();
    if tableLength.Err? { return Some(tableLength.error); }
    if tableLength.value < 0 || tableLength.value > maxSteps * 16 { return Some(OutOfRange); }
    var firstElement := 0;
    if readFirstElement {
      var first := s.NextUnsigned();
      if first.Err? { return Some(first.error); }
      firstElement := first.value;
      if firstElement < 0 || firstElement > count { return Some(OutOfRange); }
    }
    var _, gapError := NextMany(s, count - firstElement, Unsigned);
    error := gapError;
  }

  method SkipCounted(s: Stream, shape: Shape, maxSteps: nat) returns (count: int, info: Info, error: Option<ReadError>)
    requires s.Valid() && shape.Counted?
    modifies s`pos
    ensures Leaves(s, ReadCounted(old(s.Rest()), shape, maxSteps), count, info, error)
  {
    hide ReadCount, ManyFrom, SkipCanonicalSet, Padded;
    var n := NextCount(s, maxSteps);
    if n.Err? { return 0, NOTHING, Some(n.error); }
    count, info, error := n.value, NOTHING, None;
    if shape.items {
      var values, itemError := NextMany(s, count, Unsigned);
      if shape.record { info := info.(lengths := Padded(values, count)); }
      if itemError.Some? { return count, info, itemError; }
    }
    if shape.canonicalSet.Some? {
      error := SkipCanonicalSetFrom(s, count, shape.canonicalSet.value, maxSteps);
    }
  }

  method SkipDualCount(s: Stream, maxSteps: nat) returns (count: int, info: Info, error: Option<ReadError>)
    requires s.Valid()
    modifies s`pos
    ensures Leaves(s, ReadDualCount(old(s.Rest()), maxSteps), count, info, error)
  {
    hide ReadCount;
    var canonical := NextCount(s, maxSteps);
    if canonical.Err? { return 0, NOTHING, Some(canonical.error); }
    var other := NextCount(s, maxSteps);
    if other.Err? { return canonical.value, NOTHING, Some(other.error); }
    return canonical.value + other.value, NOTHING, None;
  }

  method ReadMintAlloc(s: Stream, canonicalByte: bool, maxSteps: nat) returns (count: int, info: Info, error: Option<ReadError>)
    requires s.Valid()
    modifies s`pos
    ensures Leaves(s, ReadMints(old(s.Rest()), canonicalByte, maxSteps), count, info, error)
  {
    hide ReadCount, ManyFrom, Padded;
    var n := NextCount(s, maxSteps);
    if n.Err? { return 0, NOTHING, Some(n.error); }
    var values, itemError := NextMany(s, n.value, MintValue(canonicalByte));
    return n.value, NOTHING.(mints := Padded(values, n.value)), itemError;
  }

  method NextPredefinedCount(s: Stream, numPredefined: int, maxSteps: nat) returns (r: Result<int>)
    requires s.Valid()
    modifies s`pos
    ensures s.Reads(ReadPredefinedCount(old(s.Rest()), numPredefined, maxSteps), r)
  {
    hide ReadUnsigned;
    var predefined :- s.NextUnsigned();
    if predefined > numPredefined { predefined :- s.NextUnsigned(); }
    if predefined < 0 || predefined > maxSteps { return Err(OutOfRange); }
    r := Ok(predefined);
  }

  method SkipClassAlloc(s: Stream, fixedSize: bool, numPredefined: int, maxSteps: nat)
    returns (count: int, info: Info, error: Option<ReadError>)
    requires s.Valid()
    modifies s`pos
    ensures Leaves(s, ReadClass(old(s.Rest()), fixedSize, numPredefined, maxSteps), count, info, error)
  {
    hide ReadCount, ManyFrom, Padded, ReadPredefinedCount;
    if fixedSize {
      count, info, error := SkipCounted(s, Counted(false, false, None), maxSteps);
      return;
    }
    var predefined := NextPredefinedCount(s, numPredefined, maxSteps);
    if predefined.Err? { return 0, NOTHING, Some(predefined.error); }
    var cids, cidError := NextMany(s, predefined.value, Tagged32);
    info := NOTHING.(predefCids := Padded(cids, predefined.value));
    if cidError.Some? { return 0, info, cidError; }
    var added := NextCount(s, maxSteps);
    if added.Err? { return predefined.value, info, Some(added.error); }
    return predefined.value + added.value, info.(mainCount := predefined.value), None;
  }

  /** n state bits, if the version has them here; the discarded positions join the set. */
  method NextStateBits(s: Stream, n: nat, inAlloc: bool, base: int, before: set<int>)
    returns (discarded: set<int>, error: Option<ReadError>)
    requires s.Valid()
    modifies s`pos
    ensures s.Valid()
    ensures var many := ReadStateBits(old(s.Rest()), n, inAlloc);
            discarded == before + DiscardedIn(many.values, base) && error == many.error && s.Rest() == many.rest
  {
    hide ReadTagged32;
    discarded := before;
    if !inAlloc { return discarded, None; }
    ghost var values := [];
    for i := 0 to n
      invariant s.Valid() && |values| == i
      invariant ManyFrom(old(s.Rest()), n, Tagged32, []) == ManyFrom(s.Rest(), n - i, Tagged32, values)
      invariant discarded == before + DiscardedIn(values, base)
    {
      var stateBits := s.NextTagged32();
      if stateBits.Err? { return discarded, Some(stateBits.error); }
      OneMoreStateBit(values, stateBits.value, base);
      if Bit3(stateBits.value) { discarded := discarded + {base + i}; }
      values := values + [stateBits.value];
    }
    error := None;
  }

  lemma OneMoreStateBit(values: seq<int>, v: int, base: int)
    ensures DiscardedIn(values + [v], base) == DiscardedIn(values, base) + if Bit3(v) then {base + |values|} else {}
  {
    var all := values + [v];
    forall x ensures x in DiscardedIn(all, base) <==> x in DiscardedIn(values, base) + if Bit3(v) then {base + |values|} else {} {
      if x in DiscardedIn(values, base) {
        assert all[x - base] == values[x - base];
      }
    }
  }

  method SkipCodeAlloc(s: Stream, stateBits: bool, maxSteps: nat) returns (count: int, info: Info, error: Option<ReadError>)
    requires s.Valid()
    modifies s`pos
    ensures Leaves(s, ReadCode(old(s.Rest()), stateBits, maxSteps), count, info, error)
  {
    hide ReadCount, ReadStateBits, DiscardedIn;
    var n := NextCount(s, maxSteps);
    if n.Err? { return 0, NOTHING, Some(n.error); }
    count := n.value;
    var discarded, bitsError := NextStateBits(s, count, stateBits, 0, {});
    info := NOTHING.(discarded := discarded);
    if bitsError.Some? { return count, info, bitsError; }
    info := info.(mainCount := count);
    var deferred := NextCount(s, maxSteps);
    if deferred.Err? { return count, info, Some(deferred.error); }
    discarded, error := NextStateBits(s, deferred.value, stateBits, count, discarded);
    return count + deferred.value, info.(discarded := discarded), error;
  }

  method SkipInstanceAlloc(s: Stream, maxSteps: nat) returns (count: int, info: Info, error: Option<ReadError>)
    requires s.Valid()
    modifies s`pos
    ensures Leaves(s, ReadInstance(old(s.Rest()), maxSteps), count, info, error)
  {
    hide ReadCount, ReadTagged32, AsInt32;
    var n := NextCount(s, maxSteps);
    if n.Err? { return 0, NOTHING, Some(n.error); }
    var nextFieldOffset := s.NextTagged32();
    if nextFieldOffset.Err? { return n.value, NOTHING, Some(nextFieldOffset.error); }
    info := NOTHING.(nextFieldOffset := AsInt32(nextFieldOffset.value));
    var size := s.NextTagged32();
    if size.Err? { return n.value, info, Some(size.error); }
    return n.value, info, None;
  }

  method SkipAlloc(s: Stream, shape: Shape, numPredefined: int, maxSteps: nat)
    returns (count: int, info: Info, error: Option<ReadError>)
    requires s.Valid()
    modifies s`pos
    ensures Leaves(s, ReadAlloc(old(s.Rest()), shape, numPredefined, maxSteps), count, info, error)
  {
    hide ReadCounted, ReadDualCount, ReadMints, ReadClass, ReadCode, ReadInstance;
    match shape {
      case Counted(_, _, _) => count, info, error := SkipCounted(s, shape, maxSteps);
      case DualCount => count, info, error := SkipDualCount(s, maxSteps);
      case Mint(canonicalByte) => count, info, error := ReadMintAlloc(s, canonicalByte, maxSteps);
      case Class(fixedSize) => count, info, error := SkipClassAlloc(s, fixedSize, numPredefined, maxSteps);
      case Code(stateBits) => count, info, error := SkipCodeAlloc(s, stateBits, maxSteps);
      case Instance => count, info, error := SkipInstanceAlloc(s, maxSteps);
      case Empty => count, info, error := 0, NOTHING, None;
      case Unknown => count, info, error := 0, NOTHING, Some(BadValue);
    }
  }

  // ---------- writing ----------

  function PutItem(v: int, item: Item, k: Bytes): Bytes {
    match item
    case Unsigned => if v >= 0 then PutUnsigned(v, k) else k
    case Tagged32 => PutTagged(v, k)
    case MintValue(false) => PutTagged(v, k)
    case MintValue(true) => [1] + PutTagged(v, k)
  }

  /** The values an item can carry. */
  predicate ItemFits(v: int, item: Item) {
    match item
    case Unsigned => 0 <= v < TWO_63
    case Tagged32 => 0 <= v < TWO_32
    case MintValue(_) => -TWO_63 <= v < TWO_63
  }

  predicate AllFit(vs: seq<int>, item: Item) {
    forall i :: 0 <= i < |vs| ==> ItemFits(vs[i], item)
  }

  function PutMany(vs: seq<int>, item: Item, k: Bytes): Bytes {
    if vs == [] then k else PutItem(vs[0], item, PutMany(vs[1..], item, k))
  }

  lemma {:induction false} ManyRoundTripFrom(vs: seq<int>, item: Item, k: Bytes, acc: seq<int>)
    requires AllFit(vs, item)
    ensures ManyFrom(PutMany(vs, item, k), |vs|, item, acc) == Many(acc + vs, None, k)
  {
    hide ReadItem, PutItem, ItemFits;
    if vs == [] {
      assert acc + vs == acc;
    } else {
      ItemRoundTrip(vs[0], item, PutMany(vs[1..], item, k));
      ManyRoundTripFrom(vs[1..], item, k, acc + [vs[0]]);
      AppendOne(acc, vs[0], vs[1..]);
    }
  }

  lemma ItemRoundTrip(v: int, item: Item, k: Bytes)
    requires ItemFits(v, item)
    ensures ReadItem(PutItem(v, item, k), item) == Done(v, k)
  {
    hide ReadUnsigned, ReadTagged32, ReadTagged64;
    match item
    case Unsigned => UnsignedRoundTrip(v, k);
    case Tagged32 => Tagged32RoundTrip(v, k);
    case MintValue(_) => Tagged64RoundTrip(v, k);
  }

  lemma ManyRoundTrip(vs: seq<int>, item: Item, k: Bytes)
    requires AllFit(vs, item)
    ensures ManyFrom(PutMany(vs, item, k), |vs|, item, []) == Many(vs, None, k)
  {
    hide ManyFrom, PutMany;
    ManyRoundTripFrom(vs, item, k, []);
    assert [] + vs == vs;
  }

  lemma CountRoundTrip(n: nat, maxSteps: nat, k: Bytes)
    requires n <= maxSteps && n < TWO_63
    ensures ReadCount(PutUnsigned(n, k), maxSteps) == Done(n, k)
  {
    UnsignedRoundTrip(n, k);
  }

  /** The canonical hash set: the first `first` objects precede any gap. */
  datatype SetIn = SetIn(tableLength: nat, first: nat, gaps: seq<int>)

  /** The contents of a cluster's alloc data, by shape. */
  datatype AllocIn =
    | CountedIn(count: nat, items: seq<int>, canonical: SetIn)
    | DualIn(canonicalCount: nat, otherCount: nat)
    | MintIn(values: seq<int>)
    | ClassIn(total: Option<nat>, cids: seq<int>, added: nat)
    | CodeIn(mainCount: nat, mainBits: seq<int>, deferredCount: nat, deferredBits: seq<int>)
    | InstanceIn(count: nat, nextFieldOffset: int, size: int)
    | EmptyIn

  predicate CountFits(n: nat, maxSteps: nat) {
    n <= maxSteps && n < TWO_63
  }

  predicate SetFits(set_: SetIn, count: nat, readFirstElement: bool, maxSteps: nat) {
    && set_.tableLength <= maxSteps * 16 && set_.tableLength < TWO_63
    && set_.first <= count && set_.first < TWO_63 && (!readFirstElement ==> set_.first == 0)
    && |set_.gaps| == count - set_.first && AllFit(set_.gaps, Unsigned)
  }

  /** Contents the shape can hold.  A class count written first must exceed the predefined ones, and a
      predefined count written without it must not. */
  predicate Holds(shape: Shape, c: AllocIn, numPredefined: int, maxSteps: nat) {
    match (shape, c)
    case (Counted(items, _, canonicalSet), CountedIn(count, values, set_)) =>
      && CountFits(count, maxSteps)
      && (items ==> |values| == count && AllFit(values, Unsigned))
      && (canonicalSet.Some? ==> SetFits(set_, count, canonicalSet.value, maxSteps))
    case (DualCount, DualIn(a, b)) => CountFits(a, maxSteps) && CountFits(b, maxSteps)
    case (Mint(canonicalByte), MintIn(values)) =>
      CountFits(|values|, maxSteps) && AllFit(values, MintValue(canonicalByte))
    case (Class(false), ClassIn(total, cids, added)) =>
      && CountFits(|cids|, maxSteps) && CountFits(added, maxSteps) && AllFit(cids, Tagged32)
      && (match total case None => |cids| <= numPredefined case Some(n) => numPredefined < n < TWO_63)
    case (Class(true), ClassIn(_, cids, added)) => cids == [] && CountFits(added, maxSteps)
    case (Code(stateBits), CodeIn(main, mainBits, deferred, deferredBits)) =>
      && CountFits(main, maxSteps) && CountFits(deferred, maxSteps)
      && |mainBits| == (if stateBits then main else 0) && AllFit(mainBits, Tagged32)
      && |deferredBits| == (if stateBits then deferred else 0) && AllFit(deferredBits, Tagged32)
    case (Instance, InstanceIn(count, offset, size)) =>
      && CountFits(count, maxSteps)
      && -0x8000_0000 <= offset < 0x8000_0000 && -0x8000_0000 <= size < 0x8000_0000
    case (Empty, EmptyIn) => true
    case _ => false
  }

  function PutSet(set_: SetIn, readFirstElement: bool, k: Bytes): Bytes {
    var gaps := PutMany(set_.gaps, Unsigned, k);
    PutUnsigned(set_.tableLength, if readFirstElement then PutUnsigned(set_.first, gaps) else gaps)
  }

  function PutCounted(shape: Shape, c: AllocIn, k: Bytes): Bytes
    requires shape.Counted? && c.CountedIn?
  {
    var t := if shape.canonicalSet.Some? then PutSet(c.canonical, shape.canonicalSet.value, k) else k;
    PutUnsigned(c.count, if shape.items then PutMany(c.items, Unsigned, t) else t)
  }

  function PutClass(c: AllocIn, fixedSize: bool, k: Bytes): Bytes
    requires c.ClassIn?
  {
    if fixedSize then PutUnsigned(c.added, k)
    else
      var t := PutUnsigned(|c.cids|, PutMany(c.cids, Tagged32, PutUnsigned(c.added, k)));
      match c.total case None => t case Some(n) => PutUnsigned(n, t)
  }

  function PutCode(c: AllocIn, k: Bytes): Bytes
    requires c.CodeIn?
  {
    PutUnsigned(c.mainCount, PutMany(c.mainBits, Tagged32,
      PutUnsigned(c.deferredCount, PutMany(c.deferredBits, Tagged32, k))))
  }

  function PutAlloc(shape: Shape, c: AllocIn, k: Bytes): Bytes {
    match (shape, c)
    case (Counted(_, _, _), CountedIn(_, _, _)) => PutCounted(shape, c, k)
    case (DualCount, DualIn(a, b)) => PutUnsigned(a, PutUnsigned(b, k))
    case (Mint(canonicalByte), MintIn(values)) => PutUnsigned(|values|, PutMany(values, MintValue(canonicalByte), k))
    case (Class(fixedSize), ClassIn(_, _, _)) => PutClass(c, fixedSize, k)
    case (Code(_), CodeIn(_, _, _, _)) => PutCode(c, k)
    case (Instance, InstanceIn(count, offset, size)) => PutUnsigned(count, PutTagged(offset, PutTagged(size, k)))
    case _ => k
  }

  function CountOf(c: AllocIn): nat {
    match c
    case CountedIn(count, _, _) => count
    case DualIn(a, b) => a + b
    case MintIn(values) => |values|
    case ClassIn(_, cids, added) => |cids| + added
    case CodeIn(main, _, deferred, _) => main + deferred
    case InstanceIn(count, _, _) => count
    case EmptyIn => 0
  }

  /** What the alloc phase must keep. */
  function InfoOf(shape: Shape, c: AllocIn): Info {
    match c
    case CountedIn(_, items, _) =>
      if shape.Counted? && shape.items && shape.record then NOTHING.(lengths := items) else NOTHING
    case MintIn(values) => NOTHING.(mints := values)
    case ClassIn(_, cids, _) => NOTHING.(predefCids := cids, mainCount := |cids|)
    case CodeIn(main, mainBits, _, deferredBits) =>
      NOTHING.(mainCount := main, discarded := DiscardedIn(mainBits + deferredBits, 0))
    case InstanceIn(_, offset, _) => NOTHING.(nextFieldOffset := offset)
    case _ => NOTHING
  }

  // ---------- the alloc skip inverts the alloc writer ----------

  lemma SetRoundTrip(set_: SetIn, count: nat, readFirstElement: bool, maxSteps: nat, k: Bytes)
    requires SetFits(set_, count, readFirstElement, maxSteps)
    ensures SkipCanonicalSet(PutSet(set_, readFirstElement, k), count, readFirstElement, maxSteps) == (None, k)
  {
    hide ReadUnsigned, ManyFrom, PutMany, PutUnsigned;
    var gaps := PutMany(set_.gaps, Unsigned, k);
    UnsignedRoundTrip(set_.tableLength, if readFirstElement then PutUnsigned(set_.first, gaps) else gaps);
    UnsignedRoundTrip(set_.first, gaps);
    ManyRoundTrip(set_.gaps, Unsigned, k);
  }

  /** Values that were not read are zero. */
  lemma UnreadIsZero(vs: seq<int>, n: nat, i: nat)
    requires |vs| <= n && i < n
    ensures |Padded(vs, n)| == n && Padded(vs, n)[i] == if i < |vs| then vs[i] else 0
  {
  }

  lemma PaddedWhole(vs: seq<int>)
    ensures Padded(vs, |vs|) == vs
  {
  }

  lemma CountedRoundTrip(shape: Shape, c: AllocIn, numPredefined: int, maxSteps: nat, k: Bytes)
    requires shape.Counted? && c.CountedIn? && Holds(shape, c, numPredefined, maxSteps)
    ensures ReadCounted(PutCounted(shape, c, k), shape, maxSteps) == Alloc(c.count, InfoOf(shape, c), None, k)
  {
    hide ReadCount, ManyFrom, PutMany, PutUnsigned, SkipCanonicalSet, PutSet, Padded;
    var t := if shape.canonicalSet.Some? then PutSet(c.canonical, shape.canonicalSet.value, k) else k;
    CountRoundTrip(c.count, maxSteps, if shape.items then PutMany(c.items, Unsigned, t) else t);
    if shape.items {
      ManyRoundTrip(c.items, Unsigned, t);
      PaddedWhole(c.items);
    }
    if shape.canonicalSet.Some? {
      SetRoundTrip(c.canonical, c.count, shape.canonicalSet.value, maxSteps, k);
    }
  }

  lemma ClassRoundTrip(fixedSize: bool, c: AllocIn, numPredefined: int, maxSteps: nat, k: Bytes)
    requires c.ClassIn? && Holds(Class(fixedSize), c, numPredefined, maxSteps)
    ensures ReadClass(PutClass(c, fixedSize, k), fixedSize, numPredefined, maxSteps)
         == Alloc(|c.cids| + c.added, InfoOf(Class(fixedSize), c), None, k)
  {
    hide ReadUnsigned, ManyFrom, PutMany, PutUnsigned, Padded;
    CountRoundTrip(c.added, maxSteps, k);
    if !fixedSize {
      var u := PutMany(c.cids, Tagged32, PutUnsigned(c.added, k));
      CountRoundTrip(|c.cids|, maxSteps, u);
      UnsignedRoundTrip(|c.cids|, u);
      if c.total.Some? { UnsignedRoundTrip(c.total.value, PutUnsigned(|c.cids|, u)); }
      ManyRoundTrip(c.cids, Tagged32, PutUnsigned(c.added, k));
      PaddedWhole(c.cids);
    }
  }

  lemma DiscardedSplit(main: seq<int>, deferred: seq<int>)
    ensures DiscardedIn(main + deferred, 0) == DiscardedIn(main, 0) + DiscardedIn(deferred, |main|)
  {
    var all := main + deferred;
    forall x ensures x in DiscardedIn(all, 0) <==> x in DiscardedIn(main, 0) + DiscardedIn(deferred, |main|) {
      if 0 <= x < |main| {
        assert all[x] == main[x];
      } else if |main| <= x < |all| {
        assert all[x] == deferred[x - |main|];
        assert x in DiscardedIn(deferred, |main|) <==> Bit3(deferred[x - |main|]);
      }
    }
  }

  lemma StateBitsRoundTrip(bits: seq<int>, n: nat, inAlloc: bool, k: Bytes)
    requires |bits| == (if inAlloc then n else 0) && AllFit(bits, Tagged32)
    ensures ReadStateBits(PutMany(bits, Tagged32, k), n, inAlloc) == Many(bits, None, k)
  {
    if inAlloc { ManyRoundTrip(bits, Tagged32, k); }
  }

  lemma CodeRoundTrip(stateBits: bool, c: AllocIn, numPredefined: int, maxSteps: nat, k: Bytes)
    requires c.CodeIn? && Holds(Code(stateBits), c, numPredefined, maxSteps)
    ensures ReadCode(PutCode(c, k), stateBits, maxSteps)
         == Alloc(c.mainCount + c.deferredCount, InfoOf(Code(stateBits), c), None, k)
  {
    hide ReadCount, ReadStateBits, PutMany, PutUnsigned, DiscardedIn;
    var t := PutMany(c.deferredBits, Tagged32, k);
    var u := PutUnsigned(c.deferredCount, t);
    CountRoundTrip(c.mainCount, maxSteps, PutMany(c.mainBits, Tagged32, u));
    StateBitsRoundTrip(c.mainBits, c.mainCount, stateBits, u);
    CountRoundTrip(c.deferredCount, maxSteps, t);
    StateBitsRoundTrip(c.deferredBits, c.deferredCount, stateBits, k);
    DiscardedSplit(c.mainBits, c.deferredBits);
    if !stateBits { NothingDiscarded(); }
  }

  lemma NothingDiscarded()
    ensures forall base :: DiscardedIn([], base) == {}
  {
  }

  lemma InstanceRoundTrip(count: nat, offset: int, size: int, maxSteps: nat, k: Bytes)
    requires Holds(Instance, InstanceIn(count, offset, size), 0, maxSteps)
    ensures ReadInstance(PutUnsigned(count, PutTagged(offset, PutTagged(size, k))), maxSteps)
         == Alloc(count, NOTHING.(nextFieldOffset := offset), None, k)
  {
    hide ReadCount, ReadTagged32, PutUnsigned, PutTagged, AsInt32, AsUint32;
    CountRoundTrip(count, maxSteps, PutTagged(offset, PutTagged(size, k)));
    Tagged32RoundTrip(offset, PutTagged(size, k));
    Tagged32RoundTrip(size, k);
    Int32ThroughUint32(offset);
  }

  /** For every shape, the alloc skip stops exactly at the end of what the writer wrote and returns
      the count, lengths, predefined class ids, discarded codes, layout and mints written. */
  lemma AllocRoundTrip(shape: Shape, c: AllocIn, numPredefined: int, maxSteps: nat, k: Bytes)
    requires Holds(shape, c, numPredefined, maxSteps)
    ensures ReadAlloc(PutAlloc(shape, c, k), shape, numPredefined, maxSteps)
         == Alloc(CountOf(c), InfoOf(shape, c), None, k)
  {
    hide ReadCounted, PutCounted, ReadClass, PutClass, ReadCode, PutCode, ReadInstance, ReadCount, ManyFrom,
      PutMany, PutUnsigned, PutTagged, DiscardedIn, Padded;
    match (shape, c)
    case (Counted(_, _, _), _) => CountedRoundTrip(shape, c, numPredefined, maxSteps, k);
    case (DualCount, DualIn(a, b)) =>
      CountRoundTrip(a, maxSteps, PutUnsigned(b, k));
      CountRoundTrip(b, maxSteps, k);
    case (Mint(canonicalByte), MintIn(values)) =>
      CountRoundTrip(|values|, maxSteps, PutMany(values, MintValue(canonicalByte), k));
      ManyRoundTrip(values, MintValue(canonicalByte), k);
      PaddedWhole(values);
    case (Class(fixedSize), _) => ClassRoundTrip(fixedSize, c, numPredefined, maxSteps, k);
    case (Code(stateBits), _) => CodeRoundTrip(stateBits, c, numPredefined, maxSteps, k);
    case (Instance, InstanceIn(count, offset, size)) => InstanceRoundTrip(count, offset, size, maxSteps, k);
    case (Empty, EmptyIn) =>
  }
}
