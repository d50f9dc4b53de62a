/** What the serializer writes for a cluster, kind by kind and version by version, and what has to be kept
    of it.  It is written down without the shapes that the alloc skip picks. */
module AllocFormats {
  import opened Wire
  import opened ClusterAlloc

  /** From 3.13 on closures have lengths, whatever their kind is otherwise. */
  predicate IsLongClosure(p: Profile, cid: int) {
    p.closureAllocHasLength && p.closureCid != 0 && cid == p.closureCid && p.classify(cid) != AllocMint
  }

  predicate IsCode(p: Profile, cid: int) {
    p.classify(cid) == AllocCode && !IsLongClosure(p, cid)
  }

  /** Kinds of a count and one length an object, in every version. */
  predicate HasLengths(kind: AllocKind) {
    kind in {AllocArray, AllocWeakArray, AllocObjectPool, AllocExceptionHandlers, AllocContext,
             AllocContextScope, AllocRecord, AllocTypedData}
  }

  /** Strings in read-only data: a count and one offset an object. */
  predicate StringsInImage(p: Profile) {
    p.splitCanonical || !p.compressedPointers
  }

  /** The cluster's canonical set follows, with its first element in front or without: None if there is
      none.  Up to 2.12 sets are not written at all; 2.13 writes the first element for types only. */
  function SetFollows(p: Profile, cid: int, canonical: bool, isVM: bool): Option<bool> {
    match p.classify(cid)
    case AllocCanonicalSet =>
      if canonical && !p.noCanonicalSetData && !p.preCanonicalSplit
      then Some(if p.splitCanonical then cid == p.typeCid else true) else None
    case AllocString =>
      if StringsInImage(p)
      then if canonical && !p.noCanonicalSetData && cid == p.stringCid then Some(!p.splitCanonical) else None
      else if canonical && !isVM then Some(true) else None
    case AllocTypeArguments => if canonical && !p.noCanonicalSetData then Some(!p.splitCanonical) else None
    case AllocROData => if canonical && !p.noCanonicalSetData then Some(!p.splitCanonical) else None
    case _ => None
  }

  /** State bits are with the alloc data from 2.14 on, where the tags are no longer plain class ids. */
  predicate BitsInAlloc(p: Profile) {
    p.tags == CidShift1 || p.tags == ObjectHeader
  }

  /** What a cluster can be written with. */
  predicate Carries(p: Profile, cid: int, canonical: bool, isVM: bool, c: AllocIn, maxSteps: nat) {
    var kind := p.classify(cid);
    match c
    case MintIn(values) =>
      kind == AllocMint && CountFits(|values|, maxSteps) && forall i :: 0 <= i < |values| ==> -TWO_63 <= values[i] < TWO_63
    case CountedIn(count, items, set_) =>
      && CountFits(count, maxSteps)
      && (if IsLongClosure(p, cid) then LengthsFit(items, count)
          else if kind == AllocSimple || (kind == AllocEmpty && p.preCanonicalSplit) then true
          else if kind == AllocCanonicalSet then !p.preCanonicalSplit
          else (HasLengths(kind) || kind in {AllocString, AllocTypeArguments, AllocROData}) && LengthsFit(items, count))
      && (!IsLongClosure(p, cid) && SetFollows(p, cid, canonical, isVM).Some? ==>
            SetFits(set_, count, SetFollows(p, cid, canonical, isVM).value, maxSteps))
    case DualIn(a, b) =>
      kind == AllocCanonicalSet && p.preCanonicalSplit && !IsLongClosure(p, cid) && CountFits(a, maxSteps) && CountFits(b, maxSteps)
    case ClassIn(total, cids, added) =>
      && kind == AllocClass && !IsLongClosure(p, cid) && CountFits(added, maxSteps)
      && (if p.classAllocFixedSize then cids == []
          else
            && CountFits(|cids|, maxSteps) && (forall i :: 0 <= i < |cids| ==> 0 <= cids[i] < TWO_32)
            && (total.None? ==> |cids| <= p.numPredefinedCids)
            && (total.Some? ==> p.numPredefinedCids < total.value < TWO_63))
    case CodeIn(main, mainBits, deferred, deferredBits) =>
      && IsCode(p, cid) && CountFits(main, maxSteps) && CountFits(deferred, maxSteps)
      && (if BitsInAlloc(p) then |mainBits| == main && |deferredBits| == deferred else mainBits == deferredBits == [])
      && forall i :: 0 <= i < |mainBits + deferredBits| ==> 0 <= (mainBits + deferredBits)[i] < TWO_32
    case InstanceIn(count, offset, size) =>
      && kind == AllocInstance && !IsLongClosure(p, cid) && CountFits(count, maxSteps)
      && -0x8000_0000 <= offset < 0x8000_0000 && -0x8000_0000 <= size < 0x8000_0000
    case EmptyIn => kind == AllocEmpty && !p.preCanonicalSplit && !IsLongClosure(p, cid)
  }

  predicate LengthsFit(items: seq<int>, count: nat) {
    |items| == count && forall i :: 0 <= i < |items| ==> 0 <= items[i] < TWO_63
  }

  /** The bytes of a cluster, by kind and version. */
  function PutKind(p: Profile, cid: int, canonical: bool, isVM: bool, c: AllocIn, k: Bytes): Bytes {
    match c
    case MintIn(values) => PutUnsigned(|values|, PutMany(values, MintValue(p.preCanonicalSplit), k))
    case CountedIn(count, items, set_) =>
      if IsLongClosure(p, cid) then PutUnsigned(count, PutMany(items, Unsigned, k))
      else
        var follows := match SetFollows(p, cid, canonical, isVM) { case None => k case Some(first) => PutSet(set_, first, k) };
        PutUnsigned(count, if p.classify(cid) in {AllocSimple, AllocCanonicalSet, AllocEmpty} then follows
                           else PutMany(items, Unsigned, follows))
    case DualIn(a, b) => PutUnsigned(a, PutUnsigned(b, k))
    case ClassIn(total, cids, added) =>
      var all := if p.classAllocFixedSize then PutUnsigned(added, k)
                 else PutUnsigned(|cids|, PutMany(cids, Tagged32, PutUnsigned(added, k)));
      if p.classAllocFixedSize || total.None? then all else PutUnsigned(total.value, all)
    case CodeIn(main, mainBits, deferred, deferredBits) =>
      PutUnsigned(main, PutMany(mainBits, Tagged32, PutUnsigned(deferred, PutMany(deferredBits, Tagged32, k))))
    case InstanceIn(count, offset, size) => PutUnsigned(count, PutTagged(offset, PutTagged(size, k)))
    case EmptyIn => k
  }

  /** What has to be kept: lengths and offsets, but not of strings outside the image; the classes that are
      predefined; which codes are discarded, by the fourth of their state bits; the layout; the mints. */
  function KeptOf(p: Profile, cid: int, c: AllocIn): Info {
    match c
    case MintIn(values) => Info([], 0, {}, [], 0, values)
    case CountedIn(_, items, _) =>
      var kind := p.classify(cid);
      if IsLongClosure(p, cid) || HasLengths(kind) || kind in {AllocTypeArguments, AllocROData}
         || (kind == AllocString && StringsInImage(p))
      then Info(items, 0, {}, [], 0, []) else Info([], 0, {}, [], 0, [])
    case ClassIn(_, cids, _) => Info([], |cids|, {}, cids, 0, [])
    case CodeIn(main, mainBits, _, deferredBits) =>
      var bits := mainBits + deferredBits;
      Info([], main, set i | 0 <= i < |bits| && bits[i] / 8 % 2 == 1, [], 0, [])
    case InstanceIn(_, offset, _) => Info([], 0, {}, [], offset, [])
    case _ => Info([], 0, {}, [], 0, [])
  }

  // ---------- the shapes fit ----------

  /** The shape picked for a cluster is the one its kind and version are written in. */
  lemma ShapeIsTheKinds(p: Profile, cid: int, canonical: bool, isVM: bool, c: AllocIn, maxSteps: nat, k: Bytes)
    requires Carries(p, cid, canonical, isVM, c, maxSteps)
    ensures var shape := ShapeOf(p, cid, canonical, isVM);
            && Holds(shape, c, p.numPredefinedCids, maxSteps)
            && PutAlloc(shape, c, k) == PutKind(p, cid, canonical, isVM, c, k)
            && InfoOf(shape, c) == KeptOf(p, cid, c)
  {
    hide PutUnsigned, PutMany, PutSet, PutTagged, DiscardedIn, SetFits;
    if c.CountedIn? {
      CountedShape(p, cid, canonical, isVM, c, maxSteps, k);
    } else if c.CodeIn? {
      CodeShape(p, cid, canonical, isVM, c, maxSteps, k);
    }
  }

  lemma CountedShape(p: Profile, cid: int, canonical: bool, isVM: bool, c: AllocIn, maxSteps: nat, k: Bytes)
    requires c.CountedIn? && Carries(p, cid, canonical, isVM, c, maxSteps)
    ensures var shape := ShapeOf(p, cid, canonical, isVM);
            && Holds(shape, c, p.numPredefinedCids, maxSteps)
            && PutAlloc(shape, c, k) == PutKind(p, cid, canonical, isVM, c, k)
            && InfoOf(shape, c) == KeptOf(p, cid, c)
  {
    hide PutUnsigned, PutMany, PutSet, SetFits, Holds, Carries, InfoOf, KeptOf, PutAlloc, PutKind, ShapeOf;
    CountedFits(p, cid, canonical, isVM, c, maxSteps);
    CountedBytes(p, cid, canonical, isVM, c, maxSteps, k);
  }

  lemma CountedFits(p: Profile, cid: int, canonical: bool, isVM: bool, c: AllocIn, maxSteps: nat)
    requires c.CountedIn? && Carries(p, cid, canonical, isVM, c, maxSteps)
    ensures var shape := ShapeOf(p, cid, canonical, isVM);
            Holds(shape, c, p.numPredefinedCids, maxSteps) && InfoOf(shape, c) == KeptOf(p, cid, c)
  {
    hide SetFits;
  }

  lemma CountedBytes(p: Profile, cid: int, canonical: bool, isVM: bool, c: AllocIn, maxSteps: nat, k: Bytes)
    requires c.CountedIn? && Carries(p, cid, canonical, isVM, c, maxSteps)
    ensures PutAlloc(ShapeOf(p, cid, canonical, isVM), c, k) == PutKind(p, cid, canonical, isVM, c, k)
  {
    hide PutUnsigned, PutMany, PutSet, SetFits;
  }

  lemma CodeShape(p: Profile, cid: int, canonical: bool, isVM: bool, c: AllocIn, maxSteps: nat, k: Bytes)
    requires c.CodeIn? && Carries(p, cid, canonical, isVM, c, maxSteps)
    ensures var shape := ShapeOf(p, cid, canonical, isVM);
            && Holds(shape, c, p.numPredefinedCids, maxSteps)
            && PutAlloc(shape, c, k) == PutKind(p, cid, canonical, isVM, c, k)
            && InfoOf(shape, c) == KeptOf(p, cid, c)
  {
    hide PutUnsigned, PutMany, DiscardedIn, Holds, Carries;
    CodeFits(p, cid, canonical, isVM, c, maxSteps);
    BitsAreDiscarded(c.mainBits + c.deferredBits);
    assert ShapeOf(p, cid, canonical, isVM).Code? by { CarriesCode(p, cid, canonical, isVM, c, maxSteps); }
  }

  lemma CarriesCode(p: Profile, cid: int, canonical: bool, isVM: bool, c: AllocIn, maxSteps: nat)
    requires c.CodeIn? && Carries(p, cid, canonical, isVM, c, maxSteps)
    ensures ShapeOf(p, cid, canonical, isVM) == Code(BitsInAlloc(p))
  {
  }

  lemma CodeFits(p: Profile, cid: int, canonical: bool, isVM: bool, c: AllocIn, maxSteps: nat)
    requires c.CodeIn? && Carries(p, cid, canonical, isVM, c, maxSteps)
    ensures Holds(ShapeOf(p, cid, canonical, isVM), c, p.numPredefinedCids, maxSteps)
  {
    hide ShapeOf, AllFit;
    CarriesCode(p, cid, canonical, isVM, c, maxSteps);
    BitsFit(c.mainBits, c.deferredBits);
    if !BitsInAlloc(p) { assert |c.mainBits| == |c.deferredBits| == 0; }
  }

  lemma BitsFit(a: seq<int>, b: seq<int>)
    requires forall i :: 0 <= i < |a + b| ==> 0 <= (a + b)[i] < TWO_32
    ensures AllFit(a, Tagged32) && AllFit(b, Tagged32)
  {
    forall i | 0 <= i < |a| ensures 0 <= a[i] < TWO_32 { assert (a + b)[i] == a[i]; }
    forall i | 0 <= i < |b| ensures 0 <= b[i] < TWO_32 { assert (a + b)[|a| + i] == b[i]; }
  }

  lemma BitsAreDiscarded(bits: seq<int>)
    ensures DiscardedIn(bits, 0) == set i | 0 <= i < |bits| && bits[i] / 8 % 2 == 1
  {
    forall i ensures i in DiscardedIn(bits, 0) <==> 0 <= i < |bits| && bits[i] / 8 % 2 == 1 {
    }
  }

  /** Mints and codes are told apart alike. */
  lemma ShapeOfMintAndCode(p: Profile, cid: int, canonical: bool, isVM: bool)
    ensures ShapeOf(p, cid, canonical, isVM).Mint? <==> p.classify(cid) == AllocMint
    ensures ShapeOf(p, cid, canonical, isVM).Code? <==> IsCode(p, cid)
  {
  }

  /** For every kind and version the alloc skip stops at the end of what the serializer wrote, with the
      number of objects and what has to be kept. */
  lemma KindRoundTrip(p: Profile, cid: int, canonical: bool, isVM: bool, c: AllocIn, maxSteps: nat, k: Bytes)
    requires Carries(p, cid, canonical, isVM, c, maxSteps)
    ensures ReadAlloc(PutKind(p, cid, canonical, isVM, c, k), ShapeOf(p, cid, canonical, isVM), p.numPredefinedCids, maxSteps)
         == Alloc(CountOf(c), KeptOf(p, cid, c), None, k)
  {
    hide ReadAlloc, ShapeOf, Carries, PutKind, KeptOf, Holds, PutAlloc, InfoOf;
    ShapeIsTheKinds(p, cid, canonical, isVM, c, maxSteps, k);
    AllocRoundTrip(ShapeOf(p, cid, canonical, isVM), c, p.numPredefinedCids, maxSteps, k);
  }
}
