/** A whole snapshot: alloc section, fill section and roots, parsed one after the other. */
module Snapshots {
  import opened Wire
  import Alloc = ClusterAlloc
  import Formats = AllocFormats
  import Scan = ScanClusters
  import Fill
  import Class = FillClass
  import Code = FillCode
  import Instance = FillInstance
  import Pool = FillPool
  import Roots
  import Table = DispatchTable

  // ---------- the fill section ----------

  /** What is written for a cluster, by kind; the bytes of a kind without a reader are its own. */
  datatype Content =
    | Classes(classes: seq<Class.ClassIn>)
    | Codes(indexRefs: (nat, nat), codes: seq<Code.CodeIn>)
    | Objects(bitmap: nat, objects: seq<seq<Instance.Slot>>)
    | Pools(pools: seq<Pool.Pool>)
    | Raw(bytes: Bytes)

  ghost predicate Fits(p: Fill.Profile, c: Scan.Cluster, content: Content) {
    match content
    case Classes(cs) => p.Kind(c).ClassFill? && |cs| == c.count && Class.AllValid(p.classLayout, cs)
    case Codes(refs, cs) =>
      && p.Kind(c).CodeFill? && |cs| == c.count && Code.AllValid(p.codeLayout, cs)
      && Code.DeltaSum(cs, |cs|) < TWO_63 && FitsRef(refs.0) && FitsRef(refs.1)
    case Objects(bitmap, objects) =>
      && p.Kind(c).InstanceFill? && bitmap < TWO_64
      && (if c.info.nextFieldOffset > 0
          then |objects| == c.count && Instance.AllFit(p.instanceLayout, Instance.Cluster(c.tag.cid, c.startRef, c.count, c.info.nextFieldOffset), bitmap, objects)
          else objects == [])
    case Pools(pools) => p.Kind(c).PoolFill? && |pools| == c.count && Pool.PoolsExpressible(p.poolFormat, pools)
    case Raw(bytes) => p.Kind(c).OtherFill? && forall k: Bytes :: p.other(c, bytes + k) == Some(|bytes|)
  }

  ghost function Put(p: Fill.Profile, c: Scan.Cluster, content: Content, k: Bytes): Bytes
    requires Fits(p, c, content)
  {
    match content
    case Classes(cs) => Class.PutClasses(p.classLayout, Class.Cluster(c.startRef, c.count, c.info.mainCount), cs, 0, k)
    case Codes(refs, cs) => Code.PutCodes(p.codeLayout, Code.Cluster(c.startRef, c.count, c.info.mainCount, c.info.discarded), refs, cs, k)
    case Objects(bitmap, objects) => Instance.PutInstances(p.instanceLayout, bitmap, objects, k)
    case Pools(pools) => Pool.PutPools(p.poolFormat, pools, k)
    case Raw(bytes) => bytes + k
  }

  /** What must have been collected after a cluster. */
  ghost function Next(p: Fill.Profile, c: Scan.Cluster, content: Content, st: Fill.State): Fill.State
    requires Fits(p, c, content)
  {
    match content
    case Classes(cs) =>
      st.(classes := st.classes + Class.AllExpected(p.classLayout, Class.Cluster(c.startRef, c.count, c.info.mainCount), cs, |cs|))
    case Codes(_, cs) =>
      st.(codes := st.codes + Code.AllExpected(p.codeLayout, Code.Cluster(c.startRef, c.count, c.info.mainCount, c.info.discarded), st.instrIdx, cs, |cs|),
          instrIdx := st.instrIdx + c.info.mainCount)
    case Objects(_, objects) =>
      st.(instances := st.instances + Instance.Expected(p.instanceLayout, Instance.Cluster(c.tag.cid, c.startRef, c.count, c.info.nextFieldOffset), objects, |objects|),
          memo := Some(Fill.Bitmaps(st, true)))
    case Pools(pools) => st.(pool := st.pool + Pool.Numbered(Pool.Flatten(pools), 0))
    case Raw(_) => st
  }

  /** Where the version has no bitmap in the stream, the objects agree with the one of their class. */
  ghost predicate Agrees(p: Fill.Profile, c: Scan.Cluster, content: Content, st: Fill.State) {
    content.Objects? && !p.instanceLayout.carriesBitmap ==>
      content.bitmap == Instance.BitmapFor(Fill.Bitmaps(st, true), c.tag.cid)
  }

  /** One cluster's fill comes back, and nothing behind it is touched. */
  lemma StepInverts(p: Fill.Profile, c: Scan.Cluster, content: Content, st: Fill.State, k: Bytes)
    requires Fits(p, c, content) && Agrees(p, c, content, st)
    ensures Fill.Step(p, c, st, Put(p, c, content, k), true) == Fill.Filled(Next(p, c, content, st), None, k)
  {
    hide Class.ClassesFrom, Code.ReadCodes, Instance.ReadInstances, Pool.PoolsFrom;
    hide Class.PutClasses, Code.PutCodes, Instance.PutInstances, Pool.PutPools, Fill.Bitmaps, Instance.BitmapFor;
    hide Class.AllExpected, Code.AllExpected, Instance.Expected, Pool.Numbered;
    match content
    case Classes(cs) => ClassesCome(p, c, cs, k);
    case Codes(refs, cs) => Code.CodesRoundTrip(p.codeLayout, Code.Cluster(c.startRef, c.count, c.info.mainCount, c.info.discarded), st.instrIdx, refs, cs, k);
    case Objects(bitmap, objects) =>
      var own := Instance.BitmapFor(Fill.Bitmaps(st, true), c.tag.cid);
      if c.info.nextFieldOffset > 0 {
        Instance.InstancesRoundTrip(p.instanceLayout, Instance.Cluster(c.tag.cid, c.startRef, c.count, c.info.nextFieldOffset), bitmap, objects, own, k);
      } else {
        NoObjects(p.instanceLayout, Instance.Cluster(c.tag.cid, c.startRef, c.count, c.info.nextFieldOffset), bitmap, own, k);
      }
    case Pools(pools) => Pool.PoolsRoundTrip(p.poolFormat, pools, k);
    case Raw(bytes) => assert (bytes + k)[|bytes|..] == k;
  }

  lemma ClassesCome(p: Fill.Profile, c: Scan.Cluster, cs: seq<Class.ClassIn>, k: Bytes)
    requires |cs| == c.count && Class.AllValid(p.classLayout, cs)
    ensures var cm := Class.Cluster(c.startRef, c.count, c.info.mainCount);
            Class.ClassesFrom(Class.PutClasses(p.classLayout, cm, cs, 0, k), p.classLayout, cm, 0, [])
            == Done(Class.AllExpected(p.classLayout, cm, cs, |cs|), k)
  {
    hide Class.ClassesFrom, Class.PutClasses;
    var cm := Class.Cluster(c.startRef, c.count, c.info.mainCount);
    assert Class.AllExpected(p.classLayout, cm, cs, 0) == [];
    Class.ClassesRoundTrip(p.classLayout, cm, cs, 0, k);
  }

  lemma NoObjects(layout: Instance.Layout, cm: Instance.Cluster, bitmap: nat, own: nat, k: Bytes)
    requires bitmap < TWO_64 && cm.nextFieldOffset <= 0
    ensures Instance.ReadInstances(Instance.PutInstances(layout, bitmap, [], k), layout, cm, own) == Done([], k)
    ensures Instance.Expected(layout, cm, [], 0) == []
  {
    hide ReadUnsigned, PutUnsigned, Instance.InstancesFrom;
    UnsignedRoundTrip(bitmap, k);
  }

  ghost predicate AllFit(p: Fill.Profile, clusters: seq<Scan.Cluster>, contents: seq<Content>) {
    |contents| == |clusters| && forall i :: 0 <= i < |clusters| ==> Fits(p, clusters[i], contents[i])
  }

  /** The fill of clusters i.. */
  ghost function PutFill(p: Fill.Profile, clusters: seq<Scan.Cluster>, contents: seq<Content>, i: nat, k: Bytes): Bytes
    requires i <= |clusters| && AllFit(p, clusters, contents)
    decreases |clusters| - i
  {
    if i == |clusters| then k else Put(p, clusters[i], contents[i], PutFill(p, clusters, contents, i + 1, k))
  }

  /** What must have been collected before cluster n. */
  ghost function StateAt(p: Fill.Profile, clusters: seq<Scan.Cluster>, contents: seq<Content>, n: nat): Fill.State
    requires n <= |clusters| && AllFit(p, clusters, contents)
  {
    if n == 0 then Fill.EMPTY
    else Next(p, clusters[n - 1], contents[n - 1], StateAt(p, clusters, contents, n - 1))
  }

  ghost predicate AllAgree(p: Fill.Profile, clusters: seq<Scan.Cluster>, contents: seq<Content>)
    requires AllFit(p, clusters, contents)
  {
    forall i :: 0 <= i < |clusters| ==> Agrees(p, clusters[i], contents[i], StateAt(p, clusters, contents, i))
  }

  /** Clusters of all kinds, in any order: the fill section comes back and nothing behind it is touched. */
  lemma {:induction false} FillInverts(
    p: Fill.Profile, clusters: seq<Scan.Cluster>, contents: seq<Content>, i: nat, k: Bytes)
    requires i <= |clusters| && AllFit(p, clusters, contents) && AllAgree(p, clusters, contents)
    ensures Fill.FillFrom(p, clusters, i, StateAt(p, clusters, contents, i), PutFill(p, clusters, contents, i, k), true)
         == Fill.Filled(StateAt(p, clusters, contents, |clusters|), None, k)
    decreases |clusters| - i
  {
    hide Fits, Agrees, Put, Next, Fill.Step;
    if i < |clusters| {
      StepInverts(p, clusters[i], contents[i], StateAt(p, clusters, contents, i), PutFill(p, clusters, contents, i + 1, k));
      FillInverts(p, clusters, contents, i + 1, k);
    }
  }

  // ---------- the three sections ----------

  /** The versions' and the snapshot's parameters, and what is written into the three sections. */
  datatype Written = Written(
    g: Scan.Config, h: Scan.Header, clusters: seq<Scan.ClusterIn>,
    fill: Fill.Profile, contents: seq<Content>,
    rootsProfile: Roots.Profile, roots: Table.RootsSection, tail: Bytes)
  {
    function RootsBytes(): Bytes
      requires Table.Writable(rootsProfile, roots)
    {
      Table.PutRoots(rootsProfile, roots, tail)
    }

    function FirstRef(): int { h.numBaseObjects + 1 }

    /** scanned are the clusters as the scan must return them when fillBytes follow the alloc section. */
    ghost predicate Fits(scanned: seq<Scan.Cluster>, fillBytes: Bytes) {
      && Scan.HeaderFits(g.p, h) && h.numCanonicalClusters == g.numCanonical
      && h.numCanonicalClusters + h.numClusters == |clusters| <= g.maxSteps && |clusters| < TWO_63
      && Scan.Writable(g, clusters)
      && scanned == Scan.After(g, clusters, FirstRef(), |clusters|, fillBytes).clusters
      && AllFit(fill, scanned, contents) && AllAgree(fill, scanned, contents)
      && Table.Writable(rootsProfile, roots)
      && fillBytes == PutFill(fill, scanned, contents, 0, RootsBytes())
    }
  }

  /** The Code objects the dispatch table refers to. */
  function CodeRefsOf(codes: seq<Code.CodeEntry>): (refs: seq<Roots.CodeRef>)
    ensures |refs| == |codes|
    ensures forall i :: 0 <= i < |codes| ==> refs[i].refId == codes[i].refId && refs[i].ownerRef == codes[i].refs.owner
  {
    seq(|codes|, i requires 0 <= i < |codes| => Roots.CodeRef(codes[i].refId, codes[i].refs.owner))
  }

  /** Scan, fill, object store and dispatch table, as the loader runs them: a snapshot that was written comes
      back section by section, each section beginning exactly where the one before it ended. */
  method LoadWritten(data: Bytes, clusterStart: nat, w: Written, table: Option<nat>,
                     ghost clusters: seq<Scan.Cluster>, ghost fillBytes: Bytes)
    returns (scanned: Scan.Outcome, result: Fill.Result, slots: Table.Outcome, fields: Option<seq<int>>)
    requires w.Fits(clusters, fillBytes) && w.g.dataLength == |data| && |data| * 8 < TWO_63
    requires clusterStart < |data|
    requires data[clusterStart..] == Scan.PutHeader(w.g.p, w.h, Scan.PutClusters(w.g, w.clusters, 0, fillBytes))
    requires 0 < |data| - |fillBytes| && |w.RootsBytes()| < |data| && fillBytes != []
    requires table.Some? || StateAt(w.fill, clusters, w.contents, |clusters|).codes != []
    ensures scanned.Result? && scanned.header == w.h && scanned.scanned.clusters == clusters
    ensures scanned.fillStart == |data| - |fillBytes| && scanned.scanned.diags == []
    ensures var st := StateAt(w.fill, clusters, w.contents, |clusters|);
            && result.Collected(st.instrIdx) == st
            && result.fillEnd == |data| - |w.RootsBytes()|
            && fields == Some(w.roots.fields)
            && slots == if |w.roots.slots| <= |data| * 8
                        then Table.Table(Table.Entries(
                               Table.NumberingOf(w.rootsProfile, table, w.roots.firstCodeId, CodeRefsOf(st.codes)),
                               w.roots.slots, |w.roots.slots|))
                        else Table.Failed([], Table.TooLong)
  {
    hide Scan.Scan, Scan.Unread, Scan.PutHeader, Scan.PutClusters, Scan.After, Scan.HeaderFits, Scan.Writable;
    hide Fill.FillFrom, PutFill, AllFit, AllAgree, Table.PutRoots, Table.ParseSpec, Table.Writable, Table.NumberingOf;
    ghost var st := StateAt(w.fill, clusters, w.contents, |clusters|);
    Scan.AllocSectionRoundTrip(data, clusterStart, w.g, w.h, w.clusters, fillBytes);
    NothingReported(w.g, w.clusters, w.FirstRef(), fillBytes);
    scanned := Scan.ScanAllClusters(data, clusterStart, w.g.p, w.g.isVM, w.g.maxSteps);
    result := new Fill.Result(scanned.scanned.clusters, scanned.fillStart);
    FillInverts(w.fill, clusters, w.contents, 0, w.RootsBytes());
    var error := result.ReadFill(data, w.fill);
    var snapshot := new Roots.Snapshot(result.fillEnd, CodeRefsOf(result.codes));
    Table.RootsRoundTrip(data, result.fillEnd, CodeRefsOf(result.codes), w.rootsProfile, table, w.roots, w.tail);
    slots := Table.ParseDispatchTable(data, snapshot, w.rootsProfile, table);
    fields := snapshot.objectStoreRefs;
  }

  lemma NothingReported(g: Scan.Config, cs: seq<Scan.ClusterIn>, firstRef: int, k: Bytes)
    ensures Scan.After(g, cs, firstRef, |cs|, k).diags == []
  {
  }

  // ---------- any snapshot ----------

  /** Scan and fill of any bytes: when neither reports anything, every record carries the references of its
      cluster, and the clusters tile the references. */
  lemma ScannedFillIsAligned(
    data: Bytes, clusterStart: nat, p: Alloc.Profile, isVM: bool, maxSteps: nat,
    header: Scan.Header, scanned: Scan.Scanned, fillStart: int, fill: Fill.Profile, s: Bytes)
    requires Scan.Scan(data, clusterStart, p, isVM, maxSteps) == Scan.Result(header, scanned, fillStart)
    requires scanned.diags == []
    requires var g := Scan.Config(p, isVM, maxSteps, header.numCanonicalClusters, |data|);
             forall i :: 0 <= i < |scanned.clusters| && fill.Kind(scanned.clusters[i]).CodeFill? ==>
               Formats.IsCode(p, scanned.clusters[i].tag.cid)
    ensures var f := Fill.FillFrom(fill, scanned.clusters, 0, Fill.EMPTY, s, true);
            f.error.None? ==> Fill.Aligned(fill, scanned.clusters, |scanned.clusters|, f.st)
    ensures forall i :: 0 <= i < |scanned.clusters| ==>
              var c := scanned.clusters[i];
              Fill.Range(c.startRef, c.count) == Fill.Range(c.startRef, c.stopRef - c.startRef)
  {
    hide Scan.Scan, Fill.FillFrom, Fill.Aligned, Scan.Consistent, Scan.NextOffset, Fill.Range;
    var headerEnd := Scan.ClustersTile(data, clusterStart, p, isVM, maxSteps, header, scanned, fillStart);
    Fill.FillIsAligned(fill, scanned.clusters, s);
  }
}
