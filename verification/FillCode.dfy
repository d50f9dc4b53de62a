/** The fill data of a Code cluster, under every version's layout. */
module FillCode {
  import opened Wire

  /** Where a version puts what: `codeNumRefs` is 0 for the default of six references, and
      `stateBitsAfterRef` is 0 when the state bits are not between the references. */
  datatype Layout = Layout(
    refUnsigned: bool,
    codeNumRefs: nat,
    textOffsetDelta: bool,
    stateBitsAfterRef: nat,
    stateBitsAtEnd: bool,
    hasIndexRefs: bool)
  {
    function NumRefs(): nat {
      if codeNumRefs == 0 then 6 else codeNumRefs
    }

    predicate Interleaved() {
      stateBitsAfterRef > 0
    }

    /** References after the interleaved state bits. */
    function RemainingRefs(): nat {
      if NumRefs() > stateBitsAfterRef then NumRefs() - stateBitsAfterRef else 0
    }
  }

  /** What the alloc phase recorded about the cluster. */
  datatype Cluster = Cluster(startRef: int, count: int, mainCount: int, discarded: set<int>)

  datatype CodeEntry = CodeEntry(
    refId: int, clusterIndex: int, payloadInfo: int, textOffset: int, refs: CodeRefs)

  /** The references of a Code object that are kept; -1 when not captured, 0 for no owner. */
  datatype CodeRefs = CodeRefs(
    owner: int, exceptionHandlers: int, pcDescriptors: int,
    inlinedFuncs: int, codeSourceMap: int, compressedStackMaps: int)

  const NO_REFS: CodeRefs := CodeRefs(0, -1, -1, -1, -1, -1)

  predicate DiscardedBit(stateBits: int) {
    stateBits / 8 % 2 == 1
  }

  function At(refs: seq<int>, j: nat, absent: int): int {
    if j < |refs| then refs[j] else absent
  }

  // ---------- reading ----------

  /** The instructions part: payload info and the running text offset. */
  datatype Instructions = Instructions(payloadInfo: int, textOffset: int, running: int)

  function ReadTextOffset(s: Bytes, layout: Layout, running: int): Parsed<int> {
    if !layout.textOffsetDelta then Done(running, s)
    else
      var (delta, t) :- ReadUnsigned(s);
      Done(Wrap64(running + delta), t)
  }

  /** Only main codes have an instructions part; a code discarded at alloc ends it with a reference. */
  function ReadInstructions(s: Bytes, layout: Layout, main: bool, discarded: bool, running: int): Parsed<Instructions> {
    if !main then Done(Instructions(0, 0, running), s)
    else
      var (offset, t) :- ReadTextOffset(s, layout, running);
      var (info, u) :- ReadUnsigned(t);
      var result := Instructions(info, if layout.textOffsetDelta then offset else 0, offset);
      if discarded && !layout.Interleaved() then
        var (_, w) :- ReadRef(u, layout.refUnsigned);
        Done(result, w)
      else Done(result, u)
  }

  function ReadStateBitsAtEnd(s: Bytes, layout: Layout, refs: CodeRefs): Parsed<CodeRefs> {
    if !layout.stateBitsAtEnd then Done(refs, s)
    else
      var (_, t) :- ReadTagged32(s);
      Done(refs, t)
  }

  /** 2.13: references, state bits, and, unless they say discarded, the other references. */
  function ReadInterleaved(s: Bytes, layout: Layout): Parsed<CodeRefs> {
    var (before, t) :- ReadRefs(s, layout.stateBitsAfterRef, layout.refUnsigned);
    var kept := NO_REFS.(compressedStackMaps := if layout.NumRefs() == 7 then At(before, 0, -1) else -1);
    var (stateBits, u) :- ReadTagged32(t);
    if DiscardedBit(stateBits) then Done(kept, u)
    else
      var (after, w) :- ReadRefs(u, layout.RemainingRefs(), layout.refUnsigned);
      ReadStateBitsAtEnd(w, layout, InterleavedRefs(layout, kept, after))
  }

  function InterleavedRefs(layout: Layout, kept: CodeRefs, after: seq<int>): CodeRefs {
    kept.(owner := At(after, 0, 0),
          exceptionHandlers := At(after, 1, -1),
          pcDescriptors := At(after, 2, -1),
          inlinedFuncs := if layout.NumRefs() == 7 then At(after, 4, -1) else -1,
          codeSourceMap := if layout.NumRefs() == 7 then At(after, 5, -1) else -1)
  }

  /** All the other versions: the references in order, unless the alloc phase said discarded. */
  function ReadInOrder(s: Bytes, layout: Layout, discarded: bool): Parsed<CodeRefs> {
    if discarded then ReadStateBitsAtEnd(s, layout, NO_REFS)
    else
      var (refs, t) :- ReadRefs(s, layout.NumRefs(), layout.refUnsigned);
      ReadStateBitsAtEnd(t, layout, InOrderRefs(layout, refs))
  }

  function InOrderRefs(layout: Layout, refs: seq<int>): CodeRefs {
    var seven := layout.NumRefs() == 7;
    CodeRefs(At(refs, 0, 0), At(refs, 1, -1), At(refs, 2, -1),
             At(refs, if seven then 5 else 4, -1), At(refs, if seven then 6 else 5, -1),
             if seven then At(refs, 4, -1) else -1)
  }

  function ReadCodeRefs(s: Bytes, layout: Layout, discarded: bool): Parsed<CodeRefs> {
    if layout.Interleaved() then ReadInterleaved(s, layout) else ReadInOrder(s, layout, discarded)
  }

  function EntryOf(cm: Cluster, i: nat, instrIdx: int, instr: Instructions, refs: CodeRefs): CodeEntry {
    CodeEntry(cm.startRef + i, if i < cm.mainCount then instrIdx else -1, instr.payloadInfo, instr.textOffset, refs)
  }

  /** Codes i.. of the cluster, appended to those read before. */
  function CodesFrom(s: Bytes, layout: Layout, cm: Cluster, i: nat, instrIdx: int, running: int, codes: seq<CodeEntry>)
    : Parsed<seq<CodeEntry>>
    decreases cm.count - i
  {
    if i >= cm.count then Done(codes, s)
    else
      var (instr, t) :- ReadInstructions(s, layout, i < cm.mainCount, i in cm.discarded, running);
      var (refs, u) :- ReadCodeRefs(t, layout, i in cm.discarded);
      CodesFrom(u, layout, cm, i + 1, if i < cm.mainCount then instrIdx + 1 else instrIdx, instr.running,
                codes + [EntryOf(cm, i, instrIdx, instr, refs)])
  }

  /** Codes at the positions in gone have neither an owner nor any other reference. */
  ghost predicate NoRefsAt(codes: seq<CodeEntry>, gone: set<int>) {
    forall i :: 0 <= i < |codes| && i in gone ==> codes[i].refs == CodeRefs(0, -1, -1, -1, -1, -1)
  }

  /** On any bytes, a code that the alloc phase found discarded comes without references, unless the version
      has its state bits among them. */
  lemma {:induction false} DiscardedHasNoRefs(
    s: Bytes, layout: Layout, cm: Cluster, i: nat, instrIdx: int, running: int, codes: seq<CodeEntry>)
    requires layout.stateBitsAfterRef == 0 && |codes| == i && NoRefsAt(codes, cm.discarded)
    ensures var r := CodesFrom(s, layout, cm, i, instrIdx, running, codes); r.Done? ==> NoRefsAt(r.value, cm.discarded)
    decreases cm.count - i
  {
    hide ReadInstructions, ReadRefs, ReadTagged32;
    if i < cm.count {
      var a := ReadInstructions(s, layout, i < cm.mainCount, i in cm.discarded, running);
      if a.Done? {
        var b := ReadCodeRefs(a.rest, layout, i in cm.discarded);
        if b.Done? {
          DiscardedHasNoRefs(b.rest, layout, cm, i + 1, if i < cm.mainCount then instrIdx + 1 else instrIdx,
                             a.value.running, codes + [EntryOf(cm, i, instrIdx, a.value, b.value)]);
        }
      }
    }
  }

  /** The two cluster-level index references of 3.13. */
  function ReadIndexRefs(s: Bytes, layout: Layout): Parsed<int> {
    if !layout.hasIndexRefs then Done(0, s)
    else
      var (_, t) :- ReadRefId(s);
      ReadRefId(t)
  }

  function ReadCodes(s: Bytes, layout: Layout, cm: Cluster, instrIdxBase: int): Parsed<seq<CodeEntry>> {
    var (_, t) :- ReadIndexRefs(s, layout);
    CodesFrom(t, layout, cm, 0, instrIdxBase, 0, [])
  }

  method NextInstructions(s: Stream, layout: Layout, main: bool, discarded: bool, running: int) returns (r: Result<Instructions>)
    requires s.Valid()
    modifies s`pos
    ensures s.Reads(ReadInstructions(old(s.Rest()), layout, main, discarded, running), r)
  {
    hide ReadUnsigned, ReadRef, Wrap64;
    if !main { return Ok(Instructions(0, 0, running)); }
    var runningTextOffset, textOffset := running, 0;
    if layout.textOffsetDelta {
      var delta :- s.NextUnsigned();
      runningTextOffset := Wrap64(runningTextOffset + delta);
      textOffset := runningTextOffset;
    }
    var payloadInfo :- s.NextUnsigned();
    if discarded && layout.stateBitsAfterRef == 0 {
      var _ :- s.NextRef(layout.refUnsigned);
    }
    r := Ok(Instructions(payloadInfo, textOffset, runningTextOffset));
  }

  method NextCodeRefs(s: Stream, layout: Layout, discarded: bool) returns (r: Result<CodeRefs>)
    requires s.Valid()
    modifies s`pos
    ensures s.Reads(ReadCodeRefs(old(s.Rest()), layout, discarded), r)
  {
    hide ReadRefs, ReadTagged32, At;
    var kept := NO_REFS;
    if layout.stateBitsAfterRef > 0 {
      var before :- s.NextRefs(layout.stateBitsAfterRef, layout.refUnsigned);
      if layout.NumRefs() == 7 { kept := kept.(compressedStackMaps := At(before, 0, -1)); }
      var stateBits :- s.NextTagged32();
      if DiscardedBit(stateBits) { return Ok(kept); }
      var after :- s.NextRefs(layout.RemainingRefs(), layout.refUnsigned);
      kept := InterleavedRefs(layout, kept, after);
    } else if !discarded {
      var refs :- s.NextRefs(layout.NumRefs(), layout.refUnsigned);
      kept := InOrderRefs(layout, refs);
    }
    if layout.stateBitsAtEnd {
      var _ :- s.NextTagged32();
    }
    r := Ok(kept);
  }

  method ReadFillCode(s: Stream, layout: Layout, cm: Cluster, instrIdxBase: int) returns (r: Result<seq<CodeEntry>>)
    requires s.Valid()
    modifies s`pos
    ensures s.Reads(ReadCodes(old(s.Rest()), layout, cm, instrIdxBase), r)
  {
    hide ReadRefId, ReadInstructions, ReadCodeRefs;
    if layout.hasIndexRefs {
      var _ :- s.NextRefId();
      var _ :- s.NextRefId();
    }
    var codes := [];
    var instrIdx, runningTextOffset, i := instrIdxBase, 0, 0;
    while i < cm.count
      invariant s.Valid() && i >= 0
      invariant ReadCodes(old(s.Rest()), layout, cm, instrIdxBase)
             == CodesFrom(s.Rest(), layout, cm, i, instrIdx, runningTextOffset, codes)
      decreases cm.count - i
    {
      var instr :- NextInstructions(s, layout, i < cm.mainCount, i in cm.discarded, runningTextOffset);
      var refs :- NextCodeRefs(s, layout, i in cm.discarded);
      codes := codes + [EntryOf(cm, i, instrIdx, instr, refs)];
      runningTextOffset := instr.running;
      if i < cm.mainCount { instrIdx := instrIdx + 1; }
      i := i + 1;
    }
    r := Ok(codes);
  }

  // ---------- writing ----------

  /** The references the version writes: six unless it says otherwise, and all that come before the state
      bits where these are among them. */
  function AllRefs(layout: Layout): nat {
    var n := if layout.codeNumRefs == 0 then 6 else layout.codeNumRefs;
    if layout.stateBitsAfterRef > n then layout.stateBitsAfterRef else n
  }

  /** The fourth of the state bits. */
  predicate SaysDiscarded(stateBits: int) {
    stateBits / 8 % 2 == 1
  }

  /** A Code object as the serializer sees it: every reference its version writes, in stream order. */
  datatype CodeIn = CodeIn(
    textDelta: nat, payloadInfo: nat, refs: seq<nat>, stateBits: int, discardedStackMaps: nat)
  {
    predicate Valid(layout: Layout) {
      && textDelta < TWO_63 && payloadInfo < TWO_63
      && |refs| == AllRefs(layout)
      && FitRefs(refs) && FitsRef(discardedStackMaps)
      && -0x8000_0000 <= stateBits < TWO_32
    }
  }

  function PutInstructions(layout: Layout, main: bool, discarded: bool, c: CodeIn, k: Bytes): Bytes {
    if !main then k
    else
      var info := PutUnsigned(c.payloadInfo,
        if discarded && layout.stateBitsAfterRef == 0 then PutRef(c.discardedStackMaps, layout.refUnsigned, k) else k);
      if layout.textOffsetDelta then PutUnsigned(c.textDelta, info) else info
  }

  function PutAtEnd(layout: Layout, c: CodeIn, k: Bytes): Bytes {
    if layout.stateBitsAtEnd then PutTagged(c.stateBits, k) else k
  }

  function PutCodeRefs(layout: Layout, discarded: bool, c: CodeIn, k: Bytes): Bytes
    requires c.Valid(layout)
  {
    if layout.stateBitsAfterRef > 0 then
      var n := layout.stateBitsAfterRef;
      PutRefs(c.refs[..n], layout.refUnsigned,
        PutTagged(c.stateBits,
          if SaysDiscarded(c.stateBits) then k
          else PutRefs(c.refs[n..], layout.refUnsigned, PutAtEnd(layout, c, k))))
    else if discarded then PutAtEnd(layout, c, k)
    else PutRefs(c.refs, layout.refUnsigned, PutAtEnd(layout, c, k))
  }

  predicate AllValid(layout: Layout, cs: seq<CodeIn>) {
    forall i :: 0 <= i < |cs| ==> cs[i].Valid(layout)
  }

  function PutCodesFrom(layout: Layout, cm: Cluster, cs: seq<CodeIn>, i: nat, k: Bytes): Bytes
    requires i <= |cs| && AllValid(layout, cs)
    decreases |cs| - i
  {
    if i == |cs| then k
    else
      PutInstructions(layout, i < cm.mainCount, i in cm.discarded, cs[i],
        PutCodeRefs(layout, i in cm.discarded, cs[i], PutCodesFrom(layout, cm, cs, i + 1, k)))
  }

  function PutCodes(layout: Layout, cm: Cluster, indexRefs: (nat, nat), cs: seq<CodeIn>, k: Bytes): Bytes
    requires AllValid(layout, cs)
  {
    var codes := PutCodesFrom(layout, cm, cs, 0, k);
    if layout.hasIndexRefs then PutRefId(indexRefs.0, PutRefId(indexRefs.1, codes)) else codes
  }

  // ---------- what must come back ----------

  /** The position of each kept reference among all the references of a code, in stream order. */
  datatype Role = Owner | ExceptionHandlers | PcDescriptors | InlinedFuncs | SourceMap | StackMaps

  /** 2.13 moves the stack maps to the front; 2.10 to 2.15 have them fifth; six references have none. */
  function Position(layout: Layout, role: Role): Option<nat> {
    var seven := layout.codeNumRefs == 7;
    var first := layout.stateBitsAfterRef;
    match role
    case Owner => Some(first)
    case ExceptionHandlers => Some(first + 1)
    case PcDescriptors => Some(first + 2)
    case InlinedFuncs =>
      if layout.stateBitsAfterRef > 0 then (if seven then Some(first + 4) else None) else Some(if seven then 5 else 4)
    case SourceMap =>
      if layout.stateBitsAfterRef > 0 then (if seven then Some(first + 5) else None) else Some(if seven then 6 else 5)
    case StackMaps =>
      if !seven then None else Some(if layout.stateBitsAfterRef > 0 then 0 else 4)
  }

  /** How many of a code's references are in the stream. */
  function Written(layout: Layout, discarded: bool, c: CodeIn): nat {
    if layout.stateBitsAfterRef > 0 then
      (if SaysDiscarded(c.stateBits) then layout.stateBitsAfterRef else |c.refs|)
    else if discarded then 0
    else |c.refs|
  }

  function RefFor(layout: Layout, discarded: bool, c: CodeIn, role: Role): int {
    match Position(layout, role)
    case Some(p) =>
      if p < Written(layout, discarded, c) && p < |c.refs| then c.refs[p] else if role == Owner then 0 else -1
    case None => -1
  }

  function ExpectedRefs(layout: Layout, discarded: bool, c: CodeIn): CodeRefs {
    CodeRefs(RefFor(layout, discarded, c, Owner), RefFor(layout, discarded, c, ExceptionHandlers),
             RefFor(layout, discarded, c, PcDescriptors), RefFor(layout, discarded, c, InlinedFuncs),
             RefFor(layout, discarded, c, SourceMap), RefFor(layout, discarded, c, StackMaps))
  }

  /** The text offset of a main code is the sum of the deltas up to its own. */
  function DeltaSum(cs: seq<CodeIn>, n: nat): nat
    requires n <= |cs|
  {
    if n == 0 then 0 else DeltaSum(cs, n - 1) + cs[n - 1].textDelta
  }

  function Expected(layout: Layout, cm: Cluster, instrIdxBase: int, cs: seq<CodeIn>, i: nat): CodeEntry
    requires i < |cs|
  {
    var main := i < cm.mainCount;
    CodeEntry(cm.startRef + i,
              if main then instrIdxBase + i else -1,
              if main then cs[i].payloadInfo else 0,
              if main && layout.textOffsetDelta then DeltaSum(cs, i + 1) else 0,
              ExpectedRefs(layout, i in cm.discarded, cs[i]))
  }

  function AllExpected(layout: Layout, cm: Cluster, instrIdxBase: int, cs: seq<CodeIn>, n: nat): (es: seq<CodeEntry>)
    requires n <= |cs|
    ensures |es| == n
  {
    seq(n, i requires 0 <= i < n => Expected(layout, cm, instrIdxBase, cs, i))
  }

  // ---------- the reader inverts the writer ----------

  lemma InstructionsRoundTrip(layout: Layout, main: bool, discarded: bool, c: CodeIn, running: nat, k: Bytes)
    requires c.Valid(layout) && running + c.textDelta < TWO_63
    ensures ReadInstructions(PutInstructions(layout, main, discarded, c, k), layout, main, discarded, running)
         == Done(if !main then Instructions(0, 0, running)
                 else if layout.textOffsetDelta
                 then Instructions(c.payloadInfo, running + c.textDelta, running + c.textDelta)
                 else Instructions(c.payloadInfo, 0, running), k)
  {
    hide ReadUnsigned, ReadRef, PutUnsigned, PutRef;
    var t := if discarded && !layout.Interleaved() then PutRef(c.discardedStackMaps, layout.refUnsigned, k) else k;
    RefRoundTrip(c.discardedStackMaps, layout.refUnsigned, k);
    UnsignedRoundTrip(c.payloadInfo, t);
    UnsignedRoundTrip(c.textDelta, PutUnsigned(c.payloadInfo, t));
  }

  lemma AtEndRoundTrip(layout: Layout, c: CodeIn, refs: CodeRefs, k: Bytes)
    requires c.Valid(layout)
    ensures ReadStateBitsAtEnd(PutAtEnd(layout, c, k), layout, refs) == Done(refs, k)
  {
    if layout.stateBitsAtEnd { Tagged32RoundTrip(c.stateBits, k); }
  }

  lemma SameBit(stateBits: int)
    requires -0x8000_0000 <= stateBits < TWO_32
    ensures DiscardedBit(AsUint32(stateBits)) <==> SaysDiscarded(stateBits)
  {
    if stateBits < 0 {
      assert AsUint32(stateBits) == stateBits + TWO_32;
      assert (stateBits + TWO_32) / 8 == stateBits / 8 + 0x2000_0000;
    }
  }

  lemma CodeRefsRoundTrip(layout: Layout, discarded: bool, c: CodeIn, k: Bytes)
    requires c.Valid(layout)
    ensures ReadCodeRefs(PutCodeRefs(layout, discarded, c, k), layout, discarded)
         == Done(ExpectedRefs(layout, discarded, c), k)
  {
    hide ReadInterleaved, ReadInOrder, ExpectedRefs;
    if layout.stateBitsAfterRef > 0 {
      InterleavedRoundTrip(layout, discarded, c, k);
    } else {
      InOrderRoundTrip(layout, discarded, c, k);
    }
  }

  lemma InOrderRoundTrip(layout: Layout, discarded: bool, c: CodeIn, k: Bytes)
    requires c.Valid(layout) && layout.stateBitsAfterRef == 0
    ensures ReadInOrder(PutCodeRefs(layout, discarded, c, k), layout, discarded)
         == Done(ExpectedRefs(layout, discarded, c), k)
  {
    hide ReadRefs, PutRefs, ReadStateBitsAtEnd, PutAtEnd;
    AtEndRoundTrip(layout, c, ExpectedRefs(layout, discarded, c), k);
    if !discarded { RefsRoundTrip(c.refs, layout.refUnsigned, PutAtEnd(layout, c, k)); }
  }

  lemma InterleavedRoundTrip(layout: Layout, discarded: bool, c: CodeIn, k: Bytes)
    requires c.Valid(layout) && layout.stateBitsAfterRef > 0
    ensures ReadInterleaved(PutCodeRefs(layout, discarded, c, k), layout) == Done(ExpectedRefs(layout, discarded, c), k)
  {
    hide ReadRefs, ReadTagged32, PutRefs, PutTagged, ReadStateBitsAtEnd, PutAtEnd, AsUint32, SaysDiscarded, DiscardedBit;
    SameBit(c.stateBits);
    var end, n := PutAtEnd(layout, c, k), layout.stateBitsAfterRef;
    AtEndRoundTrip(layout, c, ExpectedRefs(layout, discarded, c), k);
    var t := if SaysDiscarded(c.stateBits) then k else PutRefs(c.refs[n..], layout.refUnsigned, end);
    RefsRoundTrip(c.refs[..n], layout.refUnsigned, PutTagged(c.stateBits, t));
    Tagged32RoundTrip(c.stateBits, t);
    RefsRoundTrip(c.refs[n..], layout.refUnsigned, end);
  }

  lemma {:induction false} CodesRoundTripFrom(layout: Layout, cm: Cluster, instrIdxBase: int, cs: seq<CodeIn>, i: nat, k: Bytes)
    requires i <= |cs| == cm.count && AllValid(layout, cs) && DeltaSum(cs, |cs|) < TWO_63
    ensures CodesFrom(PutCodesFrom(layout, cm, cs, i, k), layout, cm, i,
                      InstrIdxAt(cm, instrIdxBase, i), RunningAt(layout, cm, cs, i), AllExpected(layout, cm, instrIdxBase, cs, i))
         == Done(AllExpected(layout, cm, instrIdxBase, cs, |cs|), k)
    decreases |cs| - i
  {
    hide ReadInstructions, PutInstructions, ReadCodeRefs, PutCodeRefs, ExpectedRefs, CodeIn.Valid;
    if i < |cs| {
      var t := PutCodesFrom(layout, cm, cs, i + 1, k);
      DeltaSumGrows(cs, i + 1, |cs|);
      if 0 < cm.mainCount < i { DeltaSumGrows(cs, cm.mainCount, i); }
      InstructionsRoundTrip(layout, i < cm.mainCount, i in cm.discarded, cs[i], RunningAt(layout, cm, cs, i),
                            PutCodeRefs(layout, i in cm.discarded, cs[i], t));
      CodeRefsRoundTrip(layout, i in cm.discarded, cs[i], t);
      assert AllExpected(layout, cm, instrIdxBase, cs, i + 1)
          == AllExpected(layout, cm, instrIdxBase, cs, i) + [Expected(layout, cm, instrIdxBase, cs, i)];
      CodesRoundTripFrom(layout, cm, instrIdxBase, cs, i + 1, k);
    }
  }

  /** The instruction index before code i. */
  function InstrIdxAt(cm: Cluster, base: int, i: nat): int {
    if i <= cm.mainCount then base + i else if cm.mainCount < 0 then base else base + cm.mainCount
  }

  /** The running text offset before code i. */
  function RunningAt(layout: Layout, cm: Cluster, cs: seq<CodeIn>, i: nat): nat
    requires i <= |cs|
  {
    if !layout.textOffsetDelta || cm.mainCount <= 0 then 0
    else DeltaSum(cs, if i <= cm.mainCount then i else cm.mainCount)
  }

  lemma {:induction false} DeltaSumGrows(cs: seq<CodeIn>, m: nat, n: nat)
    requires m <= n <= |cs|
    ensures DeltaSum(cs, m) <= DeltaSum(cs, n)
    decreases n - m
  {
    if m < n { DeltaSumGrows(cs, m, n - 1); }
  }

  /** Under every layout and for every mix of main, deferred and discarded codes, the reader consumes
      exactly what the writer emits and recovers every code's references, cluster index and text
      offset. */
  lemma CodesRoundTrip(layout: Layout, cm: Cluster, instrIdxBase: int, indexRefs: (nat, nat), cs: seq<CodeIn>, k: Bytes)
    requires |cs| == cm.count && AllValid(layout, cs) && DeltaSum(cs, |cs|) < TWO_63
    requires FitsRef(indexRefs.0) && FitsRef(indexRefs.1)
    ensures ReadCodes(PutCodes(layout, cm, indexRefs, cs, k), layout, cm, instrIdxBase)
         == Done(AllExpected(layout, cm, instrIdxBase, cs, |cs|), k)
  {
    hide ReadRefId, PutRefId, CodesFrom, PutCodesFrom;
    var t := PutCodesFrom(layout, cm, cs, 0, k);
    RefIdRoundTrip(indexRefs.0, PutRefId(indexRefs.1, t));
    RefIdRoundTrip(indexRefs.1, t);
    assert AllExpected(layout, cm, instrIdxBase, cs, 0) == [];
    CodesRoundTripFrom(layout, cm, instrIdxBase, cs, 0, k);
  }
}
