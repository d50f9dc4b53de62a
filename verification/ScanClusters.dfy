/** The alloc section: the header, then one tag and one alloc per cluster, handing out references. */
module ScanClusters {
  import opened Wire
  import opened ClusterAlloc
  import opened AllocFormats

  datatype Header = Header(
    numBaseObjects: int, numObjects: int, numCanonicalClusters: int, numClusters: int,
    initialFieldTableLen: int, instructionsTableLen: int, instructionTableDataOffset: int)

  /** One cluster: references startRef up to, not including, stopRef; bytes startOffset to endOffset. */
  datatype Cluster = Cluster(
    index: int, tag: Tag, count: int,
    startRef: int, stopRef: int, startOffset: int, endOffset: int, info: Info)

  datatype Tag = Tag(cid: int, canonical: bool, immutable: bool)

  datatype Diagnostic = TagUnread(offset: int) | AllocFailed(offset: int)

  /** Everything the scan has produced so far. */
  datatype Scanned = Scanned(clusters: seq<Cluster>, mints: map<int, int>, diags: seq<Diagnostic>)

  /** The result, an error that yields none, or Go's panic on a negative capacity. */
  datatype Outcome =
    | Result(header: Header, scanned: Scanned, fillStart: int)
    | Failed
    | Panicked

  /** The tag when none could be read. */
  const NO_TAG: Tag := Tag(0, false, false)

  // ---------- the header ----------

  function OptionalUnsigned(s: Bytes, present: bool): Parsed<int> {
    if present then ReadUnsigned(s) else Done(0, s)
  }

  predicate HasDataOffset(p: Profile) {
    (p.headerFields >= 6 || !p.fillRefUnsigned) && !p.splitCanonical && !p.preCanonicalSplit
  }

  function ReadHeader(s: Bytes, p: Profile): Parsed<Header> {
    var (base, s1) :- ReadUnsigned(s);
    var (objects, s2) :- ReadUnsigned(s1);
    var (canonical, s3) :- OptionalUnsigned(s2, p.splitCanonical);
    var (clusters, s4) :- ReadUnsigned(s3);
    var (fieldTable, s5) :- OptionalUnsigned(s4, p.fillRefUnsigned);
    var (instrTable, s6) :- OptionalUnsigned(s5, p.headerFields >= 5 && !p.splitCanonical);
    var (dataOffset, s7) :- OptionalUnsigned(s6, HasDataOffset(p));
    Done(Header(base, objects, canonical, clusters, fieldTable, instrTable, dataOffset), s7)
  }

  // ---------- tags ----------

  /** Tag decoding; in the split format the first `numCanonical` clusters are the canonical ones. */
  function ReadTag(s: Bytes, p: Profile, i: nat, numCanonical: int): (r: Parsed<Tag>)
    ensures |r.rest| <= |s| && (s != [] ==> |r.rest| < |s|)
    ensures r.Done? ==> s != []
  {
    match p.tags
    case CidShift1 =>
      var (v, t) :- ReadTagged64(s);
      Done(Tag(AsUint32(v / 2), v % 2 == 1, false), t)
    case ObjectHeader =>
      var (v, t) :- ReadTagged32(s);
      Done(Tag(v / 0x1000 % 0x10_0000, v / 2 % 2 == 1, v / 64 % 2 == 1), t)
    case CidInt32 =>
      var (v, t) :- ReadTagged64(s);
      Done(Tag(v, p.splitCanonical && i < numCanonical, false), t)
  }

  // ---------- the loop ----------

  /** What is fixed during the scan. */
  datatype Config = Config(p: Profile, isVM: bool, maxSteps: nat, numCanonical: int, dataLength: nat) {
    function Offset(s: Bytes): int {
      dataLength - |s|
    }

    function Shape(tag: Tag): Shape {
      ShapeOf(p, tag.cid, tag.canonical, isVM)
    }

    function AllocOf(s: Bytes, tag: Tag): Alloc {
      ReadAlloc(s, Shape(tag), p.numPredefinedCids, maxSteps)
    }

    function ClusterOf(s: Bytes, i: nat, nextRef: int, tag: Tag, a: Alloc): Cluster {
      Cluster(i, tag, if a.error.None? then a.count else 0, nextRef, nextRef + a.count, Offset(s), Offset(a.rest), a.info)
    }
  }

  /** Mint values under the references they were handed. */
  function MintsFrom(values: seq<int>, startRef: int): map<int, int> {
    map ref | startRef <= ref < startRef + |values| :: MintAt(values, startRef, ref)
  }

  function MintAt(values: seq<int>, startRef: int, ref: int): int
    requires startRef <= ref < startRef + |values|
  {
    values[ref - startRef]
  }

  /** Adds a cluster, its mints, and a diagnostic when its alloc failed. */
  function Add(r: Scanned, c: Cluster, a: Alloc): Scanned {
    Scanned(r.clusters + [c], r.mints + MintsFrom(a.info.mints, c.startRef),
            if a.error.Some? then r.diags + [AllocFailed(c.endOffset)] else r.diags)
  }

  /** The tag at s, the bytes after it, and the scan so far: a tag that cannot be read is noted. */
  function TagAt(g: Config, s: Bytes, i: nat, r: Scanned): (tag: (Tag, Bytes, Scanned))
    ensures |tag.1| <= |s| && (tag.1 == s <==> s == [])
    ensures tag.2.clusters == r.clusters && tag.2.mints == r.mints
  {
    match ReadTag(s, g.p, i, g.numCanonical)
    case Fail(_, t) => (NO_TAG, t, r.(diags := r.diags + [TagUnread(g.Offset(s))]))
    case Done(tag, t) => (tag, t, r)
  }

  /** Clusters i.. of nc.  The scan stops at a tag only when the tag consumed nothing: one that fails
      after consuming bytes goes on with class id 0. */
  function ScanFrom(g: Config, s: Bytes, i: nat, nc: int, nextRef: int, r: Scanned): (Scanned, Bytes)
    decreases nc - i
  {
    if i >= nc then (r, s)
    else
      var (tag, t, noted) := TagAt(g, s, i, r);
      if t == s then (noted, s)
      else
        var a := g.AllocOf(t, tag);
        var c := g.ClusterOf(s, i, nextRef, tag, a);
        if a.error.Some? then (Add(noted, c, a), a.rest)
        else ScanFrom(g, a.rest, i + 1, nc, c.stopRef, Add(noted, c, a))
  }

  function Scan(data: Bytes, clusterStart: nat, p: Profile, isVM: bool, maxSteps: nat): Outcome {
    if clusterStart >= |data| then Failed
    else
      match ReadHeader(data[clusterStart..], p)
      case Fail(_, _) => Failed
      case Done(h, s) =>
        var nc := Wrap64(h.numCanonicalClusters + h.numClusters);
        if nc > maxSteps then Failed
        else if nc < 0 then Panicked
        else
          var g := Config(p, isVM, maxSteps, h.numCanonicalClusters, |data|);
          var (r, rest) := ScanFrom(g, s, 0, nc, h.numBaseObjects + 1, Scanned([], map[], []));
          Result(h, r, g.Offset(rest))
  }

  method NextOptional(s: Stream, present: bool) returns (r: Wire.Result<int>)
    requires s.Valid()
    modifies s`pos
    ensures s.Reads(OptionalUnsigned(old(s.Rest()), present), r)
  {
    if !present { return Ok(0); }
    r := s.NextUnsigned();
  }

  method NextHeader(s: Stream, p: Profile) returns (r: Wire.Result<Header>)
    requires s.Valid()
    modifies s`pos
    ensures s.Reads(ReadHeader(old(s.Rest()), p), r)
  {
    hide ReadUnsigned, OptionalUnsigned, HasDataOffset, Stream.Rest, Stream.Valid;
    var base :- s.NextUnsigned();
    var objects :- s.NextUnsigned();
    var canonical :- NextOptional(s, p.splitCanonical);
    var clusters :- s.NextUnsigned();
    var fieldTable :- NextOptional(s, p.fillRefUnsigned);
    var instrTable :- NextOptional(s, p.headerFields >= 5 && !p.splitCanonical);
    var dataOffset :- NextOptional(s, HasDataOffset(p));
    r := Ok(Header(base, objects, canonical, clusters, fieldTable, instrTable, dataOffset));
  }

  method NextTag(s: Stream, p: Profile, i: nat, numCanonical: int) returns (r: Wire.Result<Tag>)
    requires s.Valid()
    modifies s`pos
    ensures s.Reads(ReadTag(old(s.Rest()), p, i, numCanonical), r)
  {
    hide ReadTagged64, ReadTagged32, AsUint32;
    match p.tags {
      case CidShift1 =>
        var v :- s.NextTagged64();
        r := Ok(Tag(AsUint32(v / 2), v % 2 == 1, false));
      case ObjectHeader =>
        var v :- s.NextTagged32();
        r := Ok(Tag(v / 0x1000 % 0x10_0000, v / 2 % 2 == 1, v / 64 % 2 == 1));
      case CidInt32 =>
        var v :- s.NextTagged64();
        r := Ok(Tag(v, p.splitCanonical && i < numCanonical, false));
    }
  }

  method ScanLoop(s: Stream, g: Config, nc: int, firstRef: int) returns (r: Scanned)
    requires s.Valid() && g.dataLength == |s.data|
    modifies s`pos
    ensures s.Valid() && (r, s.Rest()) == ScanFrom(g, old(s.Rest()), 0, nc, firstRef, Scanned([], map[], []))
  {
    hide ReadTag, ReadAlloc, ShapeOf, MintsFrom;
    r := Scanned([], map[], []);
    var nextRef := firstRef;
    var i := 0;
    while i < nc
      invariant s.Valid() && i >= 0
      invariant ScanFrom(g, old(s.Rest()), 0, nc, firstRef, Scanned([], map[], []))
             == ScanFrom(g, s.Rest(), i, nc, nextRef, r)
      decreases nc - i
    {
      var tagPos := s.pos;
      var tag := NO_TAG;
      var read := NextTag(s, g.p, i, g.numCanonical);
      if read.Ok? { tag := read.value; } else { r := r.(diags := r.diags + [TagUnread(tagPos)]); }
      if s.pos == tagPos { return; }
      var count, info, error := SkipAlloc(s, g.Shape(tag), g.p.numPredefinedCids, g.maxSteps);
      var c := Cluster(i, tag, if error.None? then count else 0, nextRef, nextRef + count, tagPos, s.pos, info);
      var mints := r.mints + MintsFrom(info.mints, nextRef);
      if error.Some? {
        r := Scanned(r.clusters + [c], mints, r.diags + [AllocFailed(s.pos)]);
        return;
      }
      r := Scanned(r.clusters + [c], mints, r.diags);
      nextRef := c.stopRef;
      i := i + 1;
    }
  }

  /** The bytes a scan leaves. */
  ghost function Unread(data: Bytes, clusterStart: nat, p: Profile, isVM: bool, maxSteps: nat): Bytes
    requires Scan(data, clusterStart, p, isVM, maxSteps).Result?
  {
    var header := ReadHeader(data[clusterStart..], p);
    var h := header.value;
    ScanFrom(Config(p, isVM, maxSteps, h.numCanonicalClusters, |data|), header.rest, 0,
             Wrap64(h.numCanonicalClusters + h.numClusters), h.numBaseObjects + 1, Scanned([], map[], [])).1
  }

  method ScanAllClusters(data: Bytes, clusterStart: nat, p: Profile, isVM: bool, maxSteps: nat) returns (r: Outcome)
    ensures r == Scan(data, clusterStart, p, isVM, maxSteps)
    ensures r.Result? ==> 0 <= r.fillStart <= |data| && data[r.fillStart..] == Unread(data, clusterStart, p, isVM, maxSteps)
  {
    hide ReadHeader, ScanFrom, Wrap64;
    if clusterStart >= |data| { return Failed; }
    var s := new Stream(data, clusterStart);
    var header := NextHeader(s, p);
    if header.Err? { return Failed; }
    var h := header.value;
    var nc := Wrap64(h.numCanonicalClusters + h.numClusters);
    if nc > maxSteps { return Failed; }
    if nc < 0 { return Panicked; }
    var scanned := ScanLoop(s, Config(p, isVM, maxSteps, h.numCanonicalClusters, |data|), nc, h.numBaseObjects + 1);
    r := Result(h, scanned, s.pos);
  }

  /** No scan: a start behind the data, a header that cannot be read, or more clusters than steps.  A count
      below zero, in 64 bits, is Go's panic. */
  lemma NoScanIff(data: Bytes, clusterStart: nat, p: Profile, isVM: bool, maxSteps: nat)
    ensures var r := Scan(data, clusterStart, p, isVM, maxSteps);
            if clusterStart >= |data| || ReadHeader(data[clusterStart..], p).Fail? then r == Failed
            else
              var h := ReadHeader(data[clusterStart..], p).value;
              var sum := h.numCanonicalClusters + h.numClusters;
              (-0x8000_0000_0000_0000 <= sum < 0x8000_0000_0000_0000 ==>
                 && (r == Failed <==> sum > maxSteps)
                 && (r == Panicked <==> sum < 0)
                 && (r.Result? ==> r.header == h))
  {
    hide ScanFrom, ReadHeader;
  }

  // ---------- the clusters tile the references and the bytes ----------

  /** The reference after the last cluster. */
  function NextRef(cs: seq<Cluster>, firstRef: int): int {
    if cs == [] then firstRef else cs[|cs| - 1].stopRef
  }

  function NextOffset(cs: seq<Cluster>, firstOffset: int): int {
    if cs == [] then firstOffset else cs[|cs| - 1].endOffset
  }

  /** Every cluster starts where the one before it stops, the first at `firstRef` and `firstOffset`. */
  ghost predicate Tiled(cs: seq<Cluster>, firstRef: int, firstOffset: int) {
    forall i :: 0 <= i < |cs| ==>
      && cs[i].startRef == NextRef(cs[..i], firstRef) <= cs[i].stopRef
      && cs[i].startOffset == NextOffset(cs[..i], firstOffset) <= cs[i].endOffset
  }

  /** The references handed to Mint clusters. */
  ghost predicate IsMintRef(g: Config, cs: seq<Cluster>, ref: int) {
    exists i :: 0 <= i < |cs| && g.p.classify(cs[i].tag.cid) == AllocMint && cs[i].startRef <= ref < cs[i].stopRef
  }

  /** What holds of the scan between clusters. */
  ghost predicate Consistent(g: Config, r: Scanned, firstRef: int, firstOffset: int) {
    && Tiled(r.clusters, firstRef, firstOffset)
    && forall ref :: ref in r.mints <==> IsMintRef(g, r.clusters, ref)
  }

  lemma AddKeepsTiled(cs: seq<Cluster>, c: Cluster, firstRef: int, firstOffset: int)
    requires Tiled(cs, firstRef, firstOffset)
    requires c.startRef == NextRef(cs, firstRef) <= c.stopRef
    requires c.startOffset == NextOffset(cs, firstOffset) <= c.endOffset
    ensures Tiled(cs + [c], firstRef, firstOffset)
  {
    var all := cs + [c];
    forall i | 0 <= i < |all|
      ensures all[i].startRef == NextRef(all[..i], firstRef) <= all[i].stopRef
      ensures all[i].startOffset == NextOffset(all[..i], firstOffset) <= all[i].endOffset
    {
      if i < |cs| {
        assert all[..i] == cs[..i];
      } else {
        assert all[..i] == cs;
      }
    }
  }

  lemma AddKeepsMints(g: Config, r: Scanned, c: Cluster, a: Alloc)
    requires forall ref :: ref in r.mints <==> IsMintRef(g, r.clusters, ref)
    requires c.stopRef == c.startRef + a.count && |a.info.mints| == (if g.p.classify(c.tag.cid) == AllocMint then a.count else 0)
    ensures forall ref :: ref in Add(r, c, a).mints <==> IsMintRef(g, Add(r, c, a).clusters, ref)
  {
    var all := r.clusters + [c];
    forall ref ensures ref in Add(r, c, a).mints <==> IsMintRef(g, all, ref) {
      if IsMintRef(g, r.clusters, ref) {
        var i :| 0 <= i < |r.clusters| && g.p.classify(r.clusters[i].tag.cid) == AllocMint && r.clusters[i].startRef <= ref < r.clusters[i].stopRef;
        assert all[i] == r.clusters[i];
      }
      assert all[|r.clusters|] == c;
    }
  }

  lemma AllocStep(g: Config, s: Bytes, t: Bytes, tag: Tag, i: nat, nextRef: int, r: Scanned, firstRef: int, firstOffset: int)
    requires Consistent(g, r, firstRef, firstOffset) && |t| <= |s|
    requires nextRef == NextRef(r.clusters, firstRef) && g.Offset(s) == NextOffset(r.clusters, firstOffset)
    ensures var a := g.AllocOf(t, tag);
            var c := g.ClusterOf(s, i, nextRef, tag, a);
            var r' := Add(r, c, a);
            && Consistent(g, r', firstRef, firstOffset)
            && c.stopRef == NextRef(r'.clusters, firstRef) && g.Offset(a.rest) == NextOffset(r'.clusters, firstOffset)
            && |a.rest| <= |t|
  {
    hide ReadAlloc, ShapeOf, IsMintRef, Tiled;
    ShapeOfMintAndCode(g.p, tag.cid, tag.canonical, g.isVM);
    var a := g.AllocOf(t, tag);
    var c := g.ClusterOf(s, i, nextRef, tag, a);
    CountIsNatural(t, g.Shape(tag), g.p.numPredefinedCids, g.maxSteps);
    AddKeepsTiled(r.clusters, c, firstRef, firstOffset);
    AddKeepsMints(g, r, c, a);
  }

  /** Whatever the bytes are, even when the scan stops early, the clusters hand out the references
      from the first on with no gap and no overlap, cover the bytes up to the end of the scan, and
      the mints are keyed by exactly the references of the Mint clusters. */
  lemma {:induction false} ScanIsConsistent(g: Config, s: Bytes, i: nat, nc: int, nextRef: int, r: Scanned, firstRef: int, firstOffset: int)
    requires Consistent(g, r, firstRef, firstOffset)
    requires nextRef == NextRef(r.clusters, firstRef) && g.Offset(s) == NextOffset(r.clusters, firstOffset)
    ensures var (result, rest) := ScanFrom(g, s, i, nc, nextRef, r);
            Consistent(g, result, firstRef, firstOffset) && g.Offset(rest) == NextOffset(result.clusters, firstOffset)
    decreases nc - i
  {
    hide TagAt, Consistent, Add, Config.AllocOf, Config.ClusterOf, NextRef, NextOffset;
    if i < nc {
      var (tag, t, noted) := TagAt(g, s, i, r);
      DiagsDoNotMatter(g, r, noted, firstRef, firstOffset);
      AllocStep(g, s, t, tag, i, nextRef, noted, firstRef, firstOffset);
      var a := g.AllocOf(t, tag);
      var c := g.ClusterOf(s, i, nextRef, tag, a);
      if t != s && a.error.None? {
        ScanIsConsistent(g, a.rest, i + 1, nc, c.stopRef, Add(noted, c, a), firstRef, firstOffset);
      }
    }
  }

  lemma DiagsDoNotMatter(g: Config, r: Scanned, r': Scanned, firstRef: int, firstOffset: int)
    requires Consistent(g, r, firstRef, firstOffset) && r'.clusters == r.clusters && r'.mints == r.mints
    ensures Consistent(g, r', firstRef, firstOffset)
  {
    hide Tiled, IsMintRef;
  }

  lemma ClustersTile(data: Bytes, clusterStart: nat, p: Profile, isVM: bool, maxSteps: nat, header: Header, scanned: Scanned, fillStart: int)
    returns (headerEnd: int)
    requires Scan(data, clusterStart, p, isVM, maxSteps) == Result(header, scanned, fillStart)
    ensures Consistent(Config(p, isVM, maxSteps, header.numCanonicalClusters, |data|), scanned, header.numBaseObjects + 1, headerEnd)
    ensures clusterStart <= |data| && headerEnd == |data| - |ReadHeader(data[clusterStart..], p).rest|
    ensures fillStart == NextOffset(scanned.clusters, headerEnd)
    ensures scanned.diags == [] ==> CountsFit(Config(p, isVM, maxSteps, header.numCanonicalClusters, |data|), scanned.clusters)
  {
    hide ScanFrom, Consistent, ReadHeader, Wrap64;
    var s := ReadHeader(data[clusterStart..], p).rest;
    var g := Config(p, isVM, maxSteps, header.numCanonicalClusters, |data|);
    headerEnd := g.Offset(s);
    NothingIsConsistent(g, header.numBaseObjects + 1, headerEnd);
    ScanIsConsistent(g, s, 0, Wrap64(header.numCanonicalClusters + header.numClusters),
                     header.numBaseObjects + 1, Scanned([], map[], []), header.numBaseObjects + 1, headerEnd);
    ScannedCounts(g, s, 0, Wrap64(header.numCanonicalClusters + header.numClusters),
                  header.numBaseObjects + 1, Scanned([], map[], []));
  }

  lemma NothingIsConsistent(g: Config, firstRef: int, firstOffset: int)
    ensures Consistent(g, Scanned([], map[], []), firstRef, firstOffset)
  {
  }

  /** Every cluster was handed as many references as it has objects, main codes among them. */
  predicate CountsFit(g: Config, cs: seq<Cluster>) {
    forall i :: 0 <= i < |cs| ==>
      && cs[i].stopRef == cs[i].startRef + cs[i].count
      && (IsCode(g.p, cs[i].tag.cid) ==> 0 <= cs[i].info.mainCount <= cs[i].count)
  }

  /** A scan that reports nothing has whole clusters only. */
  lemma {:induction false} ScannedCounts(g: Config, s: Bytes, i: nat, nc: int, nextRef: int, r: Scanned)
    requires CountsFit(g, r.clusters)
    ensures var result := ScanFrom(g, s, i, nc, nextRef, r).0;
            r.diags <= result.diags && (result.diags == r.diags ==> CountsFit(g, result.clusters))
    decreases nc - i
  {
    hide ReadTag, ReadAlloc, ShapeOf, IsCode, MintsFrom;
    if i < nc {
      var (tag, t, noted) := TagAt(g, s, i, r);
      ShapeOfMintAndCode(g.p, tag.cid, tag.canonical, g.isVM);
      var a := g.AllocOf(t, tag);
      var c := g.ClusterOf(s, i, nextRef, tag, a);
      CountIsNatural(t, g.Shape(tag), g.p.numPredefinedCids, g.maxSteps);
      if a.error.None? {
        assert CountsFit(g, Add(noted, c, a).clusters);
        ScannedCounts(g, a.rest, i + 1, nc, c.stopRef, Add(noted, c, a));
      }
    }
  }

  /** An alloc that fails ends the scan with a cluster that counts no object and yet keeps the references of
      those that were announced. */
  lemma FailedAllocCountsNothing(g: Config, s: Bytes, i: nat, nc: int, nextRef: int, r: Scanned)
    requires i < nc && s != [] && var (tag, t, noted) := TagAt(g, s, i, r); g.AllocOf(t, tag).error.Some?
    ensures var (tag, t, noted) := TagAt(g, s, i, r);
            var a, result := g.AllocOf(t, tag), ScanFrom(g, s, i, nc, nextRef, r).0;
            && |result.clusters| == |r.clusters| + 1 && r.clusters == result.clusters[..|r.clusters|]
            && var c := result.clusters[|r.clusters|];
               c.count == 0 && c.startRef == nextRef && c.stopRef == nextRef + a.count
               && c.startOffset == g.dataLength - |s| && c.endOffset == g.dataLength - |a.rest|
               && result.diags == noted.diags + [AllocFailed(g.dataLength - |a.rest|)]
  {
    hide TagAt, Config.AllocOf;
  }

  // ---------- a tag that cannot be read ----------

  /** A failed tag ends the scan without a cluster only at the very end of the data; a tag cut off in
      the middle, or too long, still adds a cluster, with class id 0. */
  lemma FailedTagAddsACluster(g: Config, s: Bytes, i: nat, nc: int, nextRef: int, r: Scanned)
    requires i < nc && ReadTag(s, g.p, i, g.numCanonical).Fail?
    ensures var result := ScanFrom(g, s, i, nc, nextRef, r).0;
            if s == [] then result.clusters == r.clusters
            else |result.clusters| > |r.clusters| && result.clusters[|r.clusters|].tag == Tag(0, false, false)
  {
    hide ReadTag, Config.AllocOf;
    var (tag, t, noted) := TagAt(g, s, i, r);
    var a := g.AllocOf(t, tag);
    var c := g.ClusterOf(s, i, nextRef, tag, a);
    ScanKeepsClusters(g, a.rest, i + 1, nc, c.stopRef, Add(noted, c, a));
  }

  /** Such a tag is a single byte that ends no value, in every tag encoding. */
  lemma CutTagAddsACluster(g: Config, i: nat, nc: int, nextRef: int, r: Scanned)
    requires i < nc
    ensures ReadTag([0], g.p, i, g.numCanonical).Fail?
    ensures |ScanFrom(g, [0], i, nc, nextRef, r).0.clusters| > |r.clusters|
  {
    hide ScanFrom;
    CutTag(g.p, i, g.numCanonical);
    FailedTagAddsACluster(g, [0], i, nc, nextRef, r);
  }

  lemma {:induction false} CutTag(p: Profile, i: nat, numCanonical: int)
    ensures ReadTag([0], p, i, numCanonical).Fail?
  {
    var s: Bytes := [0];
    assert s[1..] == [];
  }

  lemma {:induction false} ScanKeepsClusters(g: Config, s: Bytes, i: nat, nc: int, nextRef: int, r: Scanned)
    ensures r.clusters <= ScanFrom(g, s, i, nc, nextRef, r).0.clusters
    decreases nc - i
  {
    hide TagAt, Config.AllocOf, Config.ClusterOf;
    if i < nc {
      var (tag, t, noted) := TagAt(g, s, i, r);
      var a := g.AllocOf(t, tag);
      var c := g.ClusterOf(s, i, nextRef, tag, a);
      if a.error.None? {
        ScanKeepsClusters(g, a.rest, i + 1, nc, c.stopRef, Add(noted, c, a));
      }
    }
  }

  // ---------- the scan inverts the writer ----------

  /** A cluster being written. */
  datatype ClusterIn = ClusterIn(tag: Tag, alloc: AllocIn)

  /** Tags the style can carry; up to 2.13 canonicity is the cluster's position. */
  predicate TagFits(p: Profile, tag: Tag, i: nat, numCanonical: int) {
    match p.tags
    case CidShift1 => 0 <= tag.cid < TWO_32 && !tag.immutable
    case ObjectHeader => 0 <= tag.cid < 0x10_0000
    case CidInt32 =>
      && -0x8000_0000 <= tag.cid < 0x8000_0000 && !tag.immutable
      && tag.canonical == (p.splitCanonical && i < numCanonical)
  }

  function PutTag(p: Profile, tag: Tag, k: Bytes): Bytes {
    var canonical := if tag.canonical then 1 else 0;
    match p.tags
    case CidShift1 => PutTagged(tag.cid * 2 + canonical, k)
    case ObjectHeader => PutTagged(tag.cid * 0x1000 + (if tag.immutable then 1 else 0) * 64 + canonical * 2, k)
    case CidInt32 => PutTagged(tag.cid, k)
  }

  lemma TagRoundTrip(p: Profile, tag: Tag, i: nat, numCanonical: int, k: Bytes)
    requires TagFits(p, tag, i, numCanonical)
    ensures ReadTag(PutTag(p, tag, k), p, i, numCanonical) == Done(tag, k)
  {
    hide ReadTagged32, ReadTagged64, PutTagged;
    var canonical := if tag.canonical then 1 else 0;
    match p.tags
    case CidShift1 =>
      var v := tag.cid * 2 + canonical;
      Tagged64RoundTrip(v, k);
      assert v / 2 == tag.cid && v % 2 == canonical;
    case ObjectHeader =>
      var immutable := if tag.immutable then 1 else 0;
      HeaderBits(tag.cid, immutable, canonical);
      Tagged32RoundTrip(tag.cid * 0x1000 + immutable * 64 + canonical * 2, k);
    case CidInt32 => Tagged64RoundTrip(tag.cid, k);
  }

  lemma HeaderBits(cid: nat, immutable: nat, canonical: nat)
    requires cid < 0x10_0000 && immutable < 2 && canonical < 2
    ensures var v := cid * 0x1000 + immutable * 64 + canonical * 2;
            v / 0x1000 % 0x10_0000 == cid && v / 64 % 2 == immutable && v / 2 % 2 == canonical
  {
    var low := immutable * 64 + canonical * 2;
    Quotient4096(cid, low);
    Quotient64(cid * 64 + immutable, canonical * 2);
    Quotient2(cid * 2048 + immutable * 32 + canonical, 0);
    Quotient2(cid * 32, immutable);
    Quotient2(cid * 1024 + immutable * 16, canonical);
  }

  lemma Quotient4096(q: nat, r: nat)
    requires r < 4096
    ensures (q * 4096 + r) / 4096 == q
  {
  }

  lemma Quotient64(q: nat, r: nat)
    requires r < 64
    ensures (q * 64 + r) / 64 == q
  {
  }

  lemma Quotient2(q: nat, r: nat)
    requires r < 2
    ensures (q * 2 + r) / 2 == q && (q * 2 + r) % 2 == r
  {
  }

  ghost predicate Writable(g: Config, cs: seq<ClusterIn>) {
    forall i :: 0 <= i < |cs| ==>
      && TagFits(g.p, cs[i].tag, i, g.numCanonical)
      && Carries(g.p, cs[i].tag.cid, cs[i].tag.canonical, g.isVM, cs[i].alloc, g.maxSteps)
  }

  function PutContent(g: Config, c: ClusterIn, k: Bytes): Bytes {
    PutKind(g.p, c.tag.cid, c.tag.canonical, g.isVM, c.alloc, k)
  }

  /** Clusters i.. of the alloc section. */
  function PutClusters(g: Config, cs: seq<ClusterIn>, i: nat, k: Bytes): Bytes
    requires i <= |cs|
    decreases |cs| - i
  {
    if i == |cs| then k
    else PutTag(g.p, cs[i].tag, PutContent(g, cs[i], PutClusters(g, cs, i + 1, k)))
  }

  /** The first reference of cluster i: one per object before it. */
  function RefBefore(cs: seq<ClusterIn>, firstRef: int, i: nat): int
    requires i <= |cs|
  {
    if i == 0 then firstRef else RefBefore(cs, firstRef, i - 1) + CountOf(cs[i - 1].alloc)
  }

  /** What cluster i must come back as. */
  function Expected(g: Config, cs: seq<ClusterIn>, firstRef: int, i: nat, k: Bytes): Cluster
    requires i < |cs|
  {
    Cluster(i, cs[i].tag, CountOf(cs[i].alloc), RefBefore(cs, firstRef, i), RefBefore(cs, firstRef, i + 1),
            g.dataLength - |PutClusters(g, cs, i, k)|, g.dataLength - |PutClusters(g, cs, i + 1, k)|,
            KeptOf(g.p, cs[i].tag.cid, cs[i].alloc))
  }

  function AllExpected(g: Config, cs: seq<ClusterIn>, firstRef: int, n: nat, k: Bytes): (r: seq<Cluster>)
    requires n <= |cs|
    ensures |r| == n
  {
    seq(n, i requires 0 <= i < n => Expected(g, cs, firstRef, i, k))
  }

  function ExpectedMints(g: Config, cs: seq<ClusterIn>, firstRef: int, n: nat): map<int, int>
    requires n <= |cs|
  {
    if n == 0 then map[]
    else
      match cs[n - 1].alloc
      case MintIn(values) =>
        ExpectedMints(g, cs, firstRef, n - 1) + NumberedMints(values, RefBefore(cs, firstRef, n - 1))
      case _ => ExpectedMints(g, cs, firstRef, n - 1)
  }

  /** The values under consecutive references. */
  function NumberedMints(values: seq<int>, first: int): map<int, int> {
    if values == [] then map[]
    else
      var n := |values| - 1;
      NumberedMints(values[..n], first)[first + n := values[n]]
  }

  lemma {:induction false} MintsAreNumbered(values: seq<int>, first: int)
    ensures MintsFrom(values, first) == NumberedMints(values, first)
  {
    if values != [] {
      var n := |values| - 1;
      MintsAreNumbered(values[..n], first);
      var a, b := MintsFrom(values, first), MintsFrom(values[..n], first);
      forall ref | ref in a ensures a[ref] == if ref == first + n then values[n] else b[ref] {
        if ref < first + n { assert values[..n][ref - first] == values[ref - first]; }
      }
      assert a == b[first + n := values[n]];
    }
  }

  /** The scan so far, after n clusters. */
  function After(g: Config, cs: seq<ClusterIn>, firstRef: int, n: nat, k: Bytes): Scanned
    requires n <= |cs|
  {
    Scanned(AllExpected(g, cs, firstRef, n, k), ExpectedMints(g, cs, firstRef, n), [])
  }

  lemma ScanOneCluster(g: Config, s: Bytes, i: nat, nc: int, nextRef: int, r: Scanned, t: Bytes, tag: Tag)
    requires i < nc && ReadTag(s, g.p, i, g.numCanonical) == Done(tag, t) && g.AllocOf(t, tag).error.None?
    ensures var a := g.AllocOf(t, tag);
            var c := g.ClusterOf(s, i, nextRef, tag, a);
            ScanFrom(g, s, i, nc, nextRef, r) == ScanFrom(g, a.rest, i + 1, nc, c.stopRef, Add(r, c, a))
  {
    hide ReadTag, Config.AllocOf;
  }

  lemma NoMoreClusters(g: Config, s: Bytes, nc: nat, nextRef: int, r: Scanned)
    ensures ScanFrom(g, s, nc, nc, nextRef, r) == (r, s)
  {
  }

  lemma ClusterRoundTrip(g: Config, cs: seq<ClusterIn>, firstRef: int, i: nat, k: Bytes)
    requires i < |cs| && Writable(g, cs)
    ensures ScanFrom(g, PutClusters(g, cs, i, k), i, |cs|, RefBefore(cs, firstRef, i), After(g, cs, firstRef, i, k))
         == ScanFrom(g, PutClusters(g, cs, i + 1, k), i + 1, |cs|, RefBefore(cs, firstRef, i + 1), After(g, cs, firstRef, i + 1, k))
  {
    hide ScanFrom, ReadTag, PutTag, ReadAlloc, PutKind, Carries, MintsFrom, TagFits, ShapeOf, KeptOf, CountOf;
    var s := PutClusters(g, cs, i, k);
    var rest := PutClusters(g, cs, i + 1, k);
    var t := PutContent(g, cs[i], rest);
    var nextRef := RefBefore(cs, firstRef, i);
    var r := After(g, cs, firstRef, i, k);
    var tag, c := cs[i].tag, cs[i].alloc;
    TagRoundTrip(g.p, tag, i, g.numCanonical, t);
    KindRoundTrip(g.p, tag.cid, tag.canonical, g.isVM, c, g.maxSteps, rest);
    ScanOneCluster(g, s, i, |cs|, nextRef, r, t, tag);
    var a := g.AllocOf(t, tag);
    var found := g.ClusterOf(s, i, nextRef, tag, a);
    assert found == Expected(g, cs, firstRef, i, k);
    assert AllExpected(g, cs, firstRef, i + 1, k) == AllExpected(g, cs, firstRef, i, k) + [found];
    MintsCome(g, cs, firstRef, i);
    assert Add(r, found, a) == After(g, cs, firstRef, i + 1, k);
  }

  lemma MintsCome(g: Config, cs: seq<ClusterIn>, firstRef: int, i: nat)
    requires i < |cs|
    ensures ExpectedMints(g, cs, firstRef, i + 1)
         == ExpectedMints(g, cs, firstRef, i) + MintsFrom(KeptOf(g.p, cs[i].tag.cid, cs[i].alloc).mints, RefBefore(cs, firstRef, i))
  {
    hide MintsFrom;
    match cs[i].alloc
    case MintIn(values) => MintsAreNumbered(values, RefBefore(cs, firstRef, i));
    case _ => NoMints(RefBefore(cs, firstRef, i));
  }

  lemma NoMints(first: int)
    ensures MintsFrom([], first) == map[]
  {
  }

  /** A written alloc section scans to the clusters written, each with the references and bytes that
      are its own, and to the mints written; nothing is reported and nothing more is consumed. */
  lemma {:induction false} ClustersRoundTrip(g: Config, cs: seq<ClusterIn>, firstRef: int, i: nat, k: Bytes)
    requires i <= |cs| && Writable(g, cs)
    ensures ScanFrom(g, PutClusters(g, cs, i, k), i, |cs|, RefBefore(cs, firstRef, i), After(g, cs, firstRef, i, k))
         == (After(g, cs, firstRef, |cs|, k), k)
    decreases |cs| - i
  {
    hide After, RefBefore, ScanFrom, Writable;
    if i < |cs| {
      ClusterRoundTrip(g, cs, firstRef, i, k);
      ClustersRoundTrip(g, cs, firstRef, i + 1, k);
    } else {
      NoMoreClusters(g, k, |cs|, RefBefore(cs, firstRef, i), After(g, cs, firstRef, i, k));
    }
  }

  function PutOptional(v: int, present: bool, k: Bytes): Bytes {
    if present && v >= 0 then PutUnsigned(v, k) else k
  }

  /** The data offset is written with six fields, or where fill references are ids; never up to 2.13. */
  predicate WritesDataOffset(p: Profile) {
    !p.splitCanonical && !p.preCanonicalSplit && (p.fillRefUnsigned ==> p.headerFields >= 6)
  }

  function PutHeader(p: Profile, h: Header, k: Bytes): Bytes {
    PutOptional(h.numBaseObjects, true,
      PutOptional(h.numObjects, true,
        PutOptional(h.numCanonicalClusters, p.splitCanonical,
          PutOptional(h.numClusters, true,
            PutOptional(h.initialFieldTableLen, p.fillRefUnsigned,
              PutOptional(h.instructionsTableLen, p.headerFields >= 5 && !p.splitCanonical,
                PutOptional(h.instructionTableDataOffset, WritesDataOffset(p), k)))))))
  }

  /** A present field has a value, an absent one is zero. */
  predicate OptionalFits(v: int, present: bool) {
    if present then 0 <= v < TWO_63 else v == 0
  }

  predicate HeaderFits(p: Profile, h: Header) {
    && OptionalFits(h.numBaseObjects, true) && OptionalFits(h.numObjects, true)
    && OptionalFits(h.numCanonicalClusters, p.splitCanonical) && OptionalFits(h.numClusters, true)
    && OptionalFits(h.initialFieldTableLen, p.fillRefUnsigned)
    && OptionalFits(h.instructionsTableLen, p.headerFields >= 5 && !p.splitCanonical)
    && OptionalFits(h.instructionTableDataOffset, WritesDataOffset(p))
  }

  lemma OptionalRoundTrip(v: int, present: bool, k: Bytes)
    requires OptionalFits(v, present)
    ensures OptionalUnsigned(PutOptional(v, present, k), present) == Done(v, k)
  {
    if present { UnsignedRoundTrip(v, k); }
  }

  lemma HeaderRoundTrip(p: Profile, h: Header, k: Bytes)
    requires HeaderFits(p, h)
    ensures ReadHeader(PutHeader(p, h, k), p) == Done(h, k)
  {
    assert HasDataOffset(p) == WritesDataOffset(p);
    hide OptionalUnsigned, PutOptional, OptionalFits, HasDataOffset, WritesDataOffset;
    var s7 := PutOptional(h.instructionTableDataOffset, WritesDataOffset(p), k);
    var s6 := PutOptional(h.instructionsTableLen, p.headerFields >= 5 && !p.splitCanonical, s7);
    var s5 := PutOptional(h.initialFieldTableLen, p.fillRefUnsigned, s6);
    var s4 := PutOptional(h.numClusters, true, s5);
    var s3 := PutOptional(h.numCanonicalClusters, p.splitCanonical, s4);
    var s2 := PutOptional(h.numObjects, true, s3);
    OptionalRoundTrip(h.instructionTableDataOffset, WritesDataOffset(p), k);
    OptionalRoundTrip(h.instructionsTableLen, p.headerFields >= 5 && !p.splitCanonical, s7);
    OptionalRoundTrip(h.initialFieldTableLen, p.fillRefUnsigned, s6);
    OptionalRoundTrip(h.numClusters, true, s5);
    OptionalRoundTrip(h.numCanonicalClusters, p.splitCanonical, s4);
    OptionalRoundTrip(h.numObjects, true, s3);
    OptionalRoundTrip(h.numBaseObjects, true, s2);
    AlwaysPresent(PutHeader(p, h, k));
    AlwaysPresent(s2);
    AlwaysPresent(s4);
  }

  lemma AlwaysPresent(s: Bytes)
    ensures OptionalUnsigned(s, true) == ReadUnsigned(s)
  {
  }

  lemma BeforeAll(g: Config, cs: seq<ClusterIn>, firstRef: int, k: Bytes)
    ensures After(g, cs, firstRef, 0, k) == Scanned([], map[], []) && RefBefore(cs, firstRef, 0) == firstRef
  {
  }

  lemma ScanAfterHeader(data: Bytes, clusterStart: nat, g: Config, h: Header, s: Bytes, result: Scanned, k: Bytes)
    requires clusterStart < |data| == g.dataLength && ReadHeader(data[clusterStart..], g.p) == Done(h, s)
    requires h.numCanonicalClusters == g.numCanonical
    requires 0 <= h.numCanonicalClusters + h.numClusters <= g.maxSteps && h.numCanonicalClusters + h.numClusters < TWO_63
    requires ScanFrom(g, s, 0, h.numCanonicalClusters + h.numClusters, h.numBaseObjects + 1, Scanned([], map[], []))
          == (result, k)
    ensures Scan(data, clusterStart, g.p, g.isVM, g.maxSteps) == Result(h, result, |data| - |k|)
    ensures Unread(data, clusterStart, g.p, g.isVM, g.maxSteps) == k
  {
    hide ReadHeader, ScanFrom;
    var nc := h.numCanonicalClusters + h.numClusters;
    assert Wrap64(nc) == nc;
    assert g == Config(g.p, g.isVM, g.maxSteps, h.numCanonicalClusters, |data|);
  }

  /** A snapshot's whole alloc section, header and clusters, scans back to what was written. */
  lemma AllocSectionRoundTrip(data: Bytes, clusterStart: nat, g: Config, h: Header, cs: seq<ClusterIn>, k: Bytes)
    requires clusterStart < |data| == g.dataLength && data[clusterStart..] == PutHeader(g.p, h, PutClusters(g, cs, 0, k))
    requires HeaderFits(g.p, h) && h.numCanonicalClusters == g.numCanonical
    requires h.numCanonicalClusters + h.numClusters == |cs| <= g.maxSteps && |cs| < TWO_63
    requires Writable(g, cs)
    ensures Scan(data, clusterStart, g.p, g.isVM, g.maxSteps)
         == Result(h, After(g, cs, h.numBaseObjects + 1, |cs|, k), |data| - |k|)
    ensures Unread(data, clusterStart, g.p, g.isVM, g.maxSteps) == k
  {
    hide Scan, Unread, ReadHeader, PutHeader, ScanFrom, PutClusters, Writable, HeaderFits, Wrap64, After, RefBefore;
    HeaderRoundTrip(g.p, h, PutClusters(g, cs, 0, k));
    BeforeAll(g, cs, h.numBaseObjects + 1, k);
    ClustersRoundTrip(g, cs, h.numBaseObjects + 1, 0, k);
    ScanAfterHeader(data, clusterStart, g, h, PutClusters(g, cs, 0, k), After(g, cs, h.numBaseObjects + 1, |cs|, k), k);
  }
}
