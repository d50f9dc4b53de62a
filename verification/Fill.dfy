/** The fill section: every cluster's data in alloc order, with the bookkeeping that runs across
    clusters. */
module Fill {
  import opened Wire
  import ClusterAlloc
  import opened Scan = ScanClusters
  import Class = FillClass
  import Code = FillCode
  import Instance = FillInstance
  import Pool = FillPool

  datatype FillKind = ClassFill | CodeFill | InstanceFill | PoolFill | OtherFill

  /** A version's layouts; `other` gives how many bytes the fill of any other cluster takes. */
  datatype Profile = Profile(
    classLayout: Class.Layout,
    codeLayout: Code.Layout,
    instanceLayout: Instance.Layout,
    poolFormat: Pool.Format,
    kindOf: int -> FillKind,
    other: (Cluster, Bytes) -> Option<nat>)
  {
    function Kind(c: Cluster): FillKind {
      kindOf(c.tag.cid)
    }
  }

  function ClassCluster(c: Cluster): Class.Cluster {
    Class.Cluster(c.startRef, c.count, c.info.mainCount)
  }

  function CodeCluster(c: Cluster): Code.Cluster {
    Code.Cluster(c.startRef, c.count, c.info.mainCount, c.info.discarded)
  }

  function InstanceCluster(c: Cluster): Instance.Cluster {
    Instance.Cluster(c.tag.cid, c.startRef, c.count, c.info.nextFieldOffset)
  }

  // ---------- specification ----------

  /** What the fill phase has collected, the memoised bitmap index, and the next instruction index. */
  datatype State = State(
    classes: seq<Class.ClassInfo>,
    codes: seq<Code.CodeEntry>,
    instances: seq<Instance.Instance>,
    pool: seq<Pool.PoolEntry>,
    memo: Option<map<int, nat>>,
    instrIdx: int)

  const EMPTY: State := State([], [], [], [], None, 0)

  datatype Filled = Filled(st: State, error: Option<ReadError>, rest: Bytes)

  /** The nonzero bitmaps of the first n classes by class id. */
  function BitmapIndex(classes: seq<Class.ClassInfo>, n: nat): map<int, nat>
    requires n <= |classes|
  {
    if n == 0 then map[]
    else
      var c := classes[n - 1];
      if c.unboxedBitmap != 0 then BitmapIndex(classes, n - 1)[c.classId := c.unboxedBitmap]
      else BitmapIndex(classes, n - 1)
  }

  /** The index an Instance cluster uses: the memo if there is one, and always a fresh one without
      memoising. */
  function Bitmaps(st: State, memoise: bool): map<int, nat> {
    if memoise && st.memo.Some? then st.memo.value else BitmapIndex(st.classes, |st.classes|)
  }

  function SkipOther(p: Profile, c: Cluster, s: Bytes): Parsed<int> {
    match p.other(c, s)
    case None => Fail(BadValue, s)
    case Some(n) => if n > |s| then Fail(EndOfData, s) else Done(0, s[n..])
  }

  function Step(p: Profile, c: Cluster, st: State, s: Bytes, memoise: bool): Filled {
    match p.Kind(c)
    case ClassFill => (
      match Class.ClassesFrom(s, p.classLayout, ClassCluster(c), 0, [])
      case Fail(e, t) => Filled(st, Some(e), t)
      case Done(v, t) => Filled(st.(classes := st.classes + v), None, t))
    case CodeFill => (
      match Code.ReadCodes(s, p.codeLayout, CodeCluster(c), st.instrIdx)
      case Fail(e, t) => Filled(st, Some(e), t)
      case Done(v, t) => Filled(st.(codes := st.codes + v, instrIdx := st.instrIdx + c.info.mainCount), None, t))
    case InstanceFill => (
      var bitmaps := Bitmaps(st, memoise);
      var st' := if memoise then st.(memo := Some(bitmaps)) else st;
      match Instance.ReadInstances(s, p.instanceLayout, InstanceCluster(c), Instance.BitmapFor(bitmaps, c.tag.cid))
      case Fail(e, t) => Filled(st', Some(e), t)
      case Done(v, t) => Filled(st'.(instances := st'.instances + v), None, t))
    case PoolFill => (
      match Pool.PoolsFrom(s, p.poolFormat, c.count, [])
      case Fail(e, t) => Filled(st, Some(e), t)
      case Done(v, t) => Filled(st.(pool := st.pool + v), None, t))
    case OtherFill =>
      match SkipOther(p, c, s)
      case Fail(e, t) => Filled(st, Some(e), t)
      case Done(_, t) => Filled(st, None, t)
  }

  /** Clusters i.. in order, up to the first error. */
  function FillFrom(p: Profile, clusters: seq<Cluster>, i: nat, st: State, s: Bytes, memoise: bool): Filled
    requires i <= |clusters|
    decreases |clusters| - i
  {
    if i == |clusters| then Filled(st, None, s)
    else
      var f := Step(p, clusters[i], st, s, memoise);
      if f.error.Some? then f else FillFrom(p, clusters, i + 1, f.st, f.rest, memoise)
  }

  // ---------- the parsed snapshot, filled in place ----------

  class Result {
    const clusters: seq<Cluster>
    const fillStart: int
    var classes: seq<Class.ClassInfo>
    var codes: seq<Code.CodeEntry>
    var instances: seq<Instance.Instance>
    var pool: seq<Pool.PoolEntry>
    var unboxedByClassId: Option<map<int, nat>>
    var fillEnd: int

    constructor (clusters: seq<Cluster>, fillStart: int)
      ensures this.clusters == clusters && this.fillStart == fillStart
      ensures Collected(0) == EMPTY && fillEnd == 0
    {
      this.clusters, this.fillStart := clusters, fillStart;
      classes, codes, instances, pool := [], [], [], [];
      unboxedByClassId := None;
      fillEnd := 0;
    }

    ghost function Collected(instrIdx: int): State
      reads this
    {
      State(classes, codes, instances, pool, unboxedByClassId, instrIdx)
    }

    /** The bitmap index, computed at the first call and kept. */
    method ClassUnboxedBitmaps() returns (m: map<int, nat>)
      modifies this`unboxedByClassId
      ensures m == Bitmaps(old(Collected(0)), true) && unboxedByClassId == Some(m)
    {
      if unboxedByClassId.Some? { return unboxedByClassId.value; }
      m := map[];
      for i := 0 to |classes|
        invariant unboxedByClassId == None && m == BitmapIndex(classes, i)
      {
        if classes[i].unboxedBitmap != 0 {
          m := m[classes[i].classId := classes[i].unboxedBitmap];
        }
      }
      unboxedByClassId := Some(m);
    }

    /** One cluster's fill data, read into this result. */
    method FillCluster(s: Stream, p: Profile, c: Cluster, instrIdx: int) returns (next: int, error: Option<ReadError>)
      requires s.Valid()
      modifies this`classes, this`codes, this`instances, this`pool, this`unboxedByClassId, s`pos
      ensures s.Valid()
      ensures Filled(Collected(next), error, s.Rest())
           == Step(p, c, old(Collected(instrIdx)), old(s.Rest()), true)
    {
      hide Class.ClassesFrom, Code.ReadCodes, Instance.ReadInstances, Pool.PoolsFrom;
      next := instrIdx;
      match p.Kind(c) {
        case ClassFill =>
          var r := Class.ReadFillClass(s, p.classLayout, ClassCluster(c));
          if r.Err? { return next, Some(r.error); }
          classes := classes + r.value;
        case CodeFill =>
          var r := Code.ReadFillCode(s, p.codeLayout, CodeCluster(c), instrIdx);
          if r.Err? { return next, Some(r.error); }
          codes := codes + r.value;
          next := instrIdx + c.info.mainCount;
        case InstanceFill =>
          var bitmaps := ClassUnboxedBitmaps();
          var r := Instance.ReadFillInstance(s, p.instanceLayout, InstanceCluster(c), bitmaps);
          if r.Err? { return next, Some(r.error); }
          instances := instances + r.value;
        case PoolFill =>
          var r := Pool.ReadFillObjectPool(s, p.poolFormat, c.count);
          if r.Err? { return next, Some(r.error); }
          pool := pool + r.value;
        case OtherFill =>
          var n := p.other(c, s.data[s.pos..]);
          if n.None? { return next, Some(BadValue); }
          if s.pos + n.value > |s.data| { return next, Some(EndOfData); }
          s.pos := s.pos + n.value;
      }
      error := None;
    }

    /** An invalid fill start is refused; otherwise the clusters are filled in order, and the position
        after the last one is kept when there was no error. */
    method ReadFill(data: Bytes, p: Profile) returns (error: Option<ReadError>)
      modifies this
      ensures fillStart <= 0 || fillStart >= |data| ==>
              error == Some(OutOfRange) && Collected(0) == old(Collected(0)) && fillEnd == old(fillEnd)
      ensures 0 < fillStart < |data| ==>
              var f := FillFrom(p, clusters, 0, old(Collected(0)), data[fillStart..], true);
              && error == f.error && Collected(f.st.instrIdx) == f.st
              && fillEnd == (if error.None? then |data| - |f.rest| else old(fillEnd))
              && (error.None? ==> 0 <= fillEnd <= |data| && data[fillEnd..] == f.rest)
    {
      hide Step;
      if fillStart <= 0 || fillStart >= |data| { return Some(OutOfRange); }
      var s := new Stream(data, fillStart);
      var instrIdx := 0;
      for i := 0 to |clusters|
        invariant s.Valid() && s.data == data && fillEnd == old(fillEnd)
        invariant FillFrom(p, clusters, 0, old(Collected(0)), data[fillStart..], true)
               == FillFrom(p, clusters, i, Collected(instrIdx), s.Rest(), true)
      {
        var next, failure := FillCluster(s, p, clusters[i], instrIdx);
        instrIdx := next;
        if failure.Some? { return failure; }
      }
      fillEnd := s.pos;
      error := None;
    }
  }

  // ---------- references and instruction indexes ----------

  /** n consecutive numbers. */
  function Range(first: int, n: int): (r: seq<int>)
    ensures |r| == if n < 0 then 0 else n
  {
    seq(if n < 0 then 0 else n, j => first + j)
  }

  /** The references of the clusters of a kind among the first n; an Instance cluster without a layout
      has no records. */
  function RefsOf(p: Profile, kind: FillKind, clusters: seq<Cluster>, n: nat): seq<int>
    requires n <= |clusters|
  {
    if n == 0 then []
    else
      var c := clusters[n - 1];
      var kept := p.Kind(c) == kind && (kind.InstanceFill? ==> c.info.nextFieldOffset > 0);
      RefsOf(p, kind, clusters, n - 1) + if kept then Range(c.startRef, c.count) else []
  }

  function MainTotal(p: Profile, clusters: seq<Cluster>, n: nat): int
    requires n <= |clusters|
  {
    if n == 0 then 0
    else MainTotal(p, clusters, n - 1) + if p.Kind(clusters[n - 1]).CodeFill? then clusters[n - 1].info.mainCount else 0
  }

  function RefIds<T>(records: seq<T>, refOf: T -> int): (r: seq<int>)
    ensures |r| == |records|
  {
    seq(|records|, i requires 0 <= i < |records| => refOf(records[i]))
  }

  function ClassRefs(cs: seq<Class.ClassInfo>): seq<int> { RefIds(cs, (c: Class.ClassInfo) => c.refId) }
  function CodeRefs(cs: seq<Code.CodeEntry>): seq<int> { RefIds(cs, (c: Code.CodeEntry) => c.refId) }
  function InstanceRefs(cs: seq<Instance.Instance>): seq<int> { RefIds(cs, (c: Instance.Instance) => c.refId) }

  /** The instruction indexes of the main codes, in order; deferred codes have -1. */
  function MainIndexes(codes: seq<Code.CodeEntry>): seq<int> {
    if codes == [] then []
    else
      var last := codes[|codes| - 1];
      MainIndexes(codes[..|codes| - 1]) + if last.clusterIndex >= 0 then [last.clusterIndex] else []
  }

  lemma {:induction false} ClassesHaveTheirRefs(s: Bytes, layout: Class.Layout, cm: Class.Cluster, i: nat, acc: seq<Class.ClassInfo>)
    requires i <= |Range(cm.startRef, cm.count)| && ClassRefs(acc) == Range(cm.startRef, i)
    ensures var r := Class.ClassesFrom(s, layout, cm, i, acc); r.Done? ==> ClassRefs(r.value) == Range(cm.startRef, cm.count)
    decreases cm.count - i
  {
    hide Class.ReadClass;
    if i < cm.count {
      var r := Class.ReadClass(s, layout, cm.startRef + i, i < cm.mainCount);
      if r.Done? {
        ClassHasItsRef(s, layout, cm.startRef + i, i < cm.mainCount);
        assert ClassRefs(acc + [r.value]) == ClassRefs(acc) + [cm.startRef + i] == Range(cm.startRef, i + 1);
        ClassesHaveTheirRefs(r.rest, layout, cm, i + 1, acc + [r.value]);
      }
    }
  }

  lemma ClassHasItsRef(s: Bytes, layout: Class.Layout, refId: int, predefined: bool)
    ensures var r := Class.ReadClass(s, layout, refId, predefined); r.Done? ==> r.value.refId == refId
  {
    hide ReadRefs, Class.ReadWords, ReadUnsigned;
  }

  /** What a Code cluster's records are numbered: references in order, and instruction indexes from
      `base` on for the main codes. */
  predicate Numbered(cm: Code.Cluster, base: int, codes: seq<Code.CodeEntry>) {
    forall j :: 0 <= j < |codes| ==>
      && codes[j].refId == cm.startRef + j
      && codes[j].clusterIndex == if j < cm.mainCount then base + j else -1
  }

  lemma {:induction false} CodesAreNumbered(s: Bytes, layout: Code.Layout, cm: Code.Cluster, base: int, i: nat,
                                             instrIdx: int, running: int, acc: seq<Code.CodeEntry>)
    requires |acc| == i && Numbered(cm, base, acc) && (i <= cm.mainCount ==> instrIdx == base + i)
    ensures var r := Code.CodesFrom(s, layout, cm, i, instrIdx, running, acc);
            r.Done? ==> Numbered(cm, base, r.value) && |r.value| == if cm.count > i then cm.count else i
    decreases cm.count - i
  {
    hide Code.ReadInstructions, Code.ReadCodeRefs;
    if i < cm.count {
      var a := Code.ReadInstructions(s, layout, i < cm.mainCount, i in cm.discarded, running);
      if a.Done? {
        var b := Code.ReadCodeRefs(a.rest, layout, i in cm.discarded);
        if b.Done? {
          CodesAreNumbered(b.rest, layout, cm, base, i + 1, if i < cm.mainCount then instrIdx + 1 else instrIdx,
                           a.value.running, acc + [Code.EntryOf(cm, i, instrIdx, a.value, b.value)]);
        }
      }
    }
  }

  lemma {:induction false} MainIndexesOf(cm: Code.Cluster, base: nat, codes: seq<Code.CodeEntry>)
    requires Numbered(cm, base, codes) && cm.mainCount >= 0
    ensures MainIndexes(codes) == Range(base, if |codes| <= cm.mainCount then |codes| else cm.mainCount)
    decreases |codes|
  {
    if codes != [] {
      MainIndexesOf(cm, base, codes[..|codes| - 1]);
    }
  }

  lemma {:induction false} MainIndexesAppend(a: seq<Code.CodeEntry>, b: seq<Code.CodeEntry>)
    ensures MainIndexes(a + b) == MainIndexes(a) + MainIndexes(b)
    decreases |b|
  {
    if b == [] {
      assert a + b == a;
    } else {
      var b' := b[..|b| - 1];
      assert (a + b)[..|a + b| - 1] == a + b';
      MainIndexesAppend(a, b');
    }
  }

  lemma {:induction false} InstancesHaveTheirRefs(s: Bytes, layout: Instance.Layout, cm: Instance.Cluster, bitmap: nat, i: nat,
                                                   acc: seq<Instance.Instance>)
    requires i <= |Range(cm.startRef, cm.count)| && InstanceRefs(acc) == Range(cm.startRef, i)
    ensures var r := Instance.InstancesFrom(s, layout, cm, bitmap, i, acc);
            r.Done? ==> InstanceRefs(r.value) == Range(cm.startRef, cm.count)
    decreases cm.count - i
  {
    hide Instance.SlotsFrom, Instance.SkipCanonicalByte;
    if i < cm.count {
      var r := Instance.ReadInstance(s, layout, cm, bitmap, i);
      if r.Done? {
        assert InstanceRefs(acc + [r.value]) == InstanceRefs(acc) + [cm.startRef + i] == Range(cm.startRef, i + 1);
        InstancesHaveTheirRefs(r.rest, layout, cm, bitmap, i + 1, acc + [r.value]);
      }
    }
  }

  /** The bookkeeping after n clusters. */
  ghost predicate Aligned(p: Profile, clusters: seq<Cluster>, n: nat, st: State)
    requires n <= |clusters|
  {
    && ClassRefs(st.classes) == RefsOf(p, ClassFill, clusters, n)
    && CodeRefs(st.codes) == RefsOf(p, CodeFill, clusters, n)
    && InstanceRefs(st.instances) == RefsOf(p, InstanceFill, clusters, n)
    && st.instrIdx == MainTotal(p, clusters, n) >= 0
    && MainIndexes(st.codes) == Range(0, st.instrIdx)
  }

  /** Main codes come before deferred ones and are counted with them: what an alloc without error
      guarantees. */
  predicate CodeCountsFit(p: Profile, c: Cluster) {
    p.Kind(c).CodeFill? ==> 0 <= c.info.mainCount <= c.count
  }

  lemma RangeSplit(first: int, a: nat, b: nat)
    ensures Range(first, a) + Range(first + a, b) == Range(first, a + b)
  {
  }

  lemma CodeStep(p: Profile, c: Cluster, st: State, s: Bytes)
    requires p.Kind(c).CodeFill? && CodeCountsFit(p, c) && st.instrIdx >= 0
    ensures var r := Code.ReadCodes(s, p.codeLayout, CodeCluster(c), st.instrIdx);
            r.Done? ==> CodeRefs(r.value) == Range(c.startRef, c.count)
                        && MainIndexes(r.value) == Range(st.instrIdx, c.info.mainCount)
  {
    hide Code.CodesFrom, MainIndexes;
    var cm := CodeCluster(c);
    var t := Code.ReadIndexRefs(s, p.codeLayout);
    if t.Done? {
      CodesAreNumbered(t.rest, p.codeLayout, cm, st.instrIdx, 0, st.instrIdx, 0, []);
      var r := Code.CodesFrom(t.rest, p.codeLayout, cm, 0, st.instrIdx, 0, []);
      if r.Done? {
        MainIndexesOf(cm, st.instrIdx, r.value);
      }
    }
  }

  /** The codes of a cluster that its scan found discarded are recorded without references. */
  lemma DiscardedStep(p: Profile, c: Cluster, st: State, s: Bytes, memoise: bool)
    requires p.Kind(c).CodeFill? && p.codeLayout.stateBitsAfterRef == 0
    ensures var f := Step(p, c, st, s, memoise);
            f.error.None? ==> st.codes <= f.st.codes && Code.NoRefsAt(f.st.codes[|st.codes|..], c.info.discarded)
  {
    hide Code.CodesFrom, Code.NoRefsAt;
    var t := Code.ReadIndexRefs(s, p.codeLayout);
    if t.Done? {
      NothingGone(c.info.discarded);
      Code.DiscardedHasNoRefs(t.rest, p.codeLayout, CodeCluster(c), 0, st.instrIdx, 0, []);
      var r := Code.CodesFrom(t.rest, p.codeLayout, CodeCluster(c), 0, st.instrIdx, 0, []);
      if r.Done? { assert (st.codes + r.value)[|st.codes|..] == r.value; }
    }
  }

  lemma NothingGone(gone: set<int>)
    ensures Code.NoRefsAt([], gone)
  {
  }

  lemma InstanceStep(p: Profile, c: Cluster, s: Bytes, bitmap: nat)
    ensures var r := Instance.ReadInstances(s, p.instanceLayout, InstanceCluster(c), bitmap);
            r.Done? ==> InstanceRefs(r.value) == if c.info.nextFieldOffset > 0 then Range(c.startRef, c.count) else []
  {
    hide Instance.InstancesFrom;
    var t := Instance.ReadBitmap(s, p.instanceLayout, bitmap);
    if t.Done? {
      InstancesHaveTheirRefs(t.rest, p.instanceLayout, InstanceCluster(c), t.value, 0, []);
    }
  }

  lemma StepKeepsAligned(p: Profile, clusters: seq<Cluster>, n: nat, st: State, s: Bytes, memoise: bool)
    requires n < |clusters| && Aligned(p, clusters, n, st) && CodeCountsFit(p, clusters[n])
    ensures var f := Step(p, clusters[n], st, s, memoise); f.error.None? ==> Aligned(p, clusters, n + 1, f.st)
  {
    hide Class.ClassesFrom, Code.ReadCodes, Instance.ReadInstances, Pool.PoolsFrom, MainIndexes, Range, BitmapIndex;
    var c := clusters[n];
    match p.Kind(c)
    case ClassFill =>
      var r := Class.ClassesFrom(s, p.classLayout, ClassCluster(c), 0, []);
      assert ClassRefs([]) == Range(c.startRef, 0);
      ClassesHaveTheirRefs(s, p.classLayout, ClassCluster(c), 0, []);
      if r.Done? { assert ClassRefs(st.classes + r.value) == ClassRefs(st.classes) + ClassRefs(r.value); }
    case CodeFill =>
      var r := Code.ReadCodes(s, p.codeLayout, CodeCluster(c), st.instrIdx);
      CodeStep(p, c, st, s);
      if r.Done? {
        assert CodeRefs(st.codes + r.value) == CodeRefs(st.codes) + CodeRefs(r.value);
        MainIndexesAppend(st.codes, r.value);
        RangeSplit(0, st.instrIdx, c.info.mainCount);
      }
    case InstanceFill =>
      var bitmap := Instance.BitmapFor(Bitmaps(st, memoise), c.tag.cid);
      var r := Instance.ReadInstances(s, p.instanceLayout, InstanceCluster(c), bitmap);
      InstanceStep(p, c, s, bitmap);
      if r.Done? { assert InstanceRefs(st.instances + r.value) == InstanceRefs(st.instances) + InstanceRefs(r.value); }
    case PoolFill =>
    case OtherFill =>
  }

  lemma {:induction false} FillIsAlignedFrom(p: Profile, clusters: seq<Cluster>, n: nat, st: State, s: Bytes, memoise: bool)
    requires n <= |clusters| && Aligned(p, clusters, n, st)
    requires forall i :: 0 <= i < |clusters| ==> CodeCountsFit(p, clusters[i])
    ensures var f := FillFrom(p, clusters, n, st, s, memoise);
            f.error.None? ==> Aligned(p, clusters, |clusters|, f.st)
    decreases |clusters| - n
  {
    hide Step, Aligned, CodeCountsFit;
    if n < |clusters| {
      StepKeepsAligned(p, clusters, n, st, s, memoise);
      var f := Step(p, clusters[n], st, s, memoise);
      if f.error.None? {
        FillIsAlignedFrom(p, clusters, n + 1, f.st, f.rest, memoise);
      }
    }
  }

  /** A fill without error, on any bytes: Class, Code and Instance records carry exactly the references
      their clusters were handed, in order, and the main codes of all Code clusters are numbered
      0, 1, 2, ... without a gap or a repeat. */
  lemma FillIsAligned(p: Profile, clusters: seq<Cluster>, s: Bytes)
    requires forall i :: 0 <= i < |clusters| ==> CodeCountsFit(p, clusters[i])
    ensures var f := FillFrom(p, clusters, 0, EMPTY, s, true);
            f.error.None? ==> Aligned(p, clusters, |clusters|, f.st)
  {
    hide FillFrom, CodeCountsFit;
    assert Aligned(p, clusters, 0, EMPTY);
    FillIsAlignedFrom(p, clusters, 0, EMPTY, s, true);
  }

  // ---------- the memo ----------

  /** No Class cluster comes after an Instance cluster. */
  predicate ClassesFirst(p: Profile, clusters: seq<Cluster>) {
    forall i, j :: 0 <= i < j < |clusters| && p.Kind(clusters[i]).InstanceFill? ==> !p.Kind(clusters[j]).ClassFill?
  }

  /** A memo, once made, is the index of all classes, and no more classes come. */
  ghost predicate MemoIsFinal(p: Profile, clusters: seq<Cluster>, n: nat, st: State)
    requires n <= |clusters|
  {
    st.memo.Some? ==>
      && st.memo.value == BitmapIndex(st.classes, |st.classes|)
      && forall j :: n <= j < |clusters| ==> !p.Kind(clusters[j]).ClassFill?
  }

  function Forget(f: Filled): Filled {
    f.(st := f.st.(memo := None))
  }

  lemma {:induction false} MemoLosesNothingFrom(p: Profile, clusters: seq<Cluster>, n: nat, st: State, s: Bytes)
    requires n <= |clusters| && ClassesFirst(p, clusters) && MemoIsFinal(p, clusters, n, st)
    ensures Forget(FillFrom(p, clusters, n, st, s, true)) == Forget(FillFrom(p, clusters, n, st.(memo := None), s, false))
    decreases |clusters| - n
  {
    hide Class.ClassesFrom, Code.ReadCodes, Instance.ReadInstances, Pool.PoolsFrom, BitmapIndex, SkipOther, Instance.BitmapFor;
    if n < |clusters| {
      var f := Step(p, clusters[n], st, s, true);
      assert Forget(f) == Forget(Step(p, clusters[n], st.(memo := None), s, false));
      assert Step(p, clusters[n], st.(memo := None), s, false).st.memo.None?;
      if f.error.None? {
        MemoLosesNothingFrom(p, clusters, n + 1, f.st, f.rest);
      }
    }
  }

  /** When every Class cluster precedes every Instance cluster, memoising the bitmap index gives what
      recomputing it for every Instance cluster gives. */
  lemma MemoLosesNothing(p: Profile, clusters: seq<Cluster>, s: Bytes)
    requires ClassesFirst(p, clusters)
    ensures Forget(FillFrom(p, clusters, 0, EMPTY, s, true)) == Forget(FillFrom(p, clusters, 0, EMPTY, s, false))
  {
    hide FillFrom;
    MemoLosesNothingFrom(p, clusters, 0, EMPTY, s);
  }

  // ---------- exactly when the memo serves ----------

  /** The last nonzero bitmap of a class id among the classes from n up to m. */
  function LateBitmapOf(classes: seq<Class.ClassInfo>, n: nat, m: nat, cid: int): Option<nat>
    requires n <= m <= |classes|
  {
    if m == n then None
    else
      var c := classes[m - 1];
      if c.unboxedBitmap != 0 && c.classId == AsInt32(cid) then Some(c.unboxedBitmap)
      else LateBitmapOf(classes, n, m - 1, cid)
  }

  /** Nothing that came after the first n classes says otherwise than they do. */
  predicate MemoIsRight(classes: seq<Class.ClassInfo>, n: nat, cid: int)
    requires n <= |classes|
  {
    match LateBitmapOf(classes, n, |classes|, cid)
    case None => true
    case Some(bitmap) => bitmap == Instance.BitmapFor(BitmapIndex(classes, n), cid)
  }

  lemma {:induction false} BitmapAfter(classes: seq<Class.ClassInfo>, n: nat, m: nat, cid: int)
    requires n <= m <= |classes|
    ensures Instance.BitmapFor(BitmapIndex(classes, m), cid) ==
      match LateBitmapOf(classes, n, m, cid)
      case None => Instance.BitmapFor(BitmapIndex(classes, n), cid)
      case Some(bitmap) => bitmap
  {
    if m > n { BitmapAfter(classes, n, m - 1, cid); }
  }

  /** For a memo made after n classes: it gives a class's bitmap if and only if the last nonzero one recorded
      later, if any, is the one it has. */
  lemma MemoIsRightIff(classes: seq<Class.ClassInfo>, n: nat, cid: int)
    requires n <= |classes|
    ensures Instance.BitmapFor(BitmapIndex(classes, n), cid) == Instance.BitmapFor(BitmapIndex(classes, |classes|), cid)
       <==> MemoIsRight(classes, n, cid)
  {
    BitmapAfter(classes, n, |classes|, cid);
  }

  /** The bitmaps the Instance clusters are read with. */
  function Handed(p: Profile, clusters: seq<Cluster>, i: nat, st: State, s: Bytes, memoise: bool): seq<nat>
    requires i <= |clusters|
    decreases |clusters| - i
  {
    if i == |clusters| then []
    else
      var c, f := clusters[i], Step(p, clusters[i], st, s, memoise);
      (if p.Kind(c).InstanceFill? then [Instance.BitmapFor(Bitmaps(st, memoise), c.tag.cid)] else [])
      + if f.error.Some? then [] else Handed(p, clusters, i + 1, f.st, f.rest, memoise)
  }

  /** At every Instance cluster the memo, made after `made` classes, is right about its class. */
  predicate MemoServes(p: Profile, clusters: seq<Cluster>, i: nat, st: State, s: Bytes, made: Option<nat>)
    requires i <= |clusters| && (made.Some? ==> made.value <= |st.classes|)
    decreases |clusters| - i
  {
    i == |clusters| ||
    var c, f := clusters[i], Step(p, clusters[i], st, s, false);
    var made' := MadeAt(p, c, st, made);
    (p.Kind(c).InstanceFill? ==> MemoIsRight(st.classes, made'.value, c.tag.cid))
    && (f.error.None? ==> MemoServes(p, clusters, i + 1, f.st, f.rest, made'))
  }

  function MadeAt(p: Profile, c: Cluster, st: State, made: Option<nat>): (r: Option<nat>)
    ensures p.Kind(c).InstanceFill? ==> r.Some?
    ensures made.Some? ==> r == made
    ensures r.Some? && made.None? ==> r.value == |st.classes|
  {
    if p.Kind(c).InstanceFill? && made.None? then Some(|st.classes|) else made
  }

  /** The memoising run's state beside the recomputing one's. */
  ghost predicate SameButMemo(memo: State, plain: State, made: Option<nat>) {
    && plain.memo.None? && memo.(memo := None) == plain
    && (made.Some? ==> made.value <= |plain.classes|)
    && memo.memo == match made { case None => None case Some(n) => Some(BitmapIndex(plain.classes, n)) }
  }

  lemma {:induction false} IndexOfPrefix(classes: seq<Class.ClassInfo>, more: seq<Class.ClassInfo>, n: nat)
    requires n <= |classes|
    ensures BitmapIndex(classes + more, n) == BitmapIndex(classes, n)
  {
    if n > 0 { IndexOfPrefix(classes, more, n - 1); }
  }

  lemma StepSameButMemo(p: Profile, c: Cluster, memo: State, plain: State, s: Bytes, made: Option<nat>)
    requires SameButMemo(memo, plain, made)
    requires p.Kind(c).InstanceFill? ==>
      Instance.BitmapFor(Bitmaps(memo, true), c.tag.cid) == Instance.BitmapFor(Bitmaps(plain, false), c.tag.cid)
    ensures var f, g := Step(p, c, memo, s, true), Step(p, c, plain, s, false);
            f.error == g.error && f.rest == g.rest && SameButMemo(f.st, g.st, MadeAt(p, c, plain, made))
  {
    hide Class.ClassesFrom, Code.ReadCodes, Instance.ReadInstances, Pool.PoolsFrom, BitmapIndex, SkipOther, Instance.BitmapFor;
    if p.Kind(c).ClassFill? && made.Some? {
      var r := Class.ClassesFrom(s, p.classLayout, ClassCluster(c), 0, []);
      if r.Done? { IndexOfPrefix(plain.classes, r.value, made.value); }
    }
  }

  /** The Instance clusters are read with the same bitmaps if and only if the memo serves them all, and then
      nothing else differs either. */
  lemma {:induction false} MemoServesIffFrom(
    p: Profile, clusters: seq<Cluster>, i: nat, memo: State, plain: State, s: Bytes, made: Option<nat>)
    requires i <= |clusters| && SameButMemo(memo, plain, made)
    ensures Handed(p, clusters, i, memo, s, true) == Handed(p, clusters, i, plain, s, false)
       <==> MemoServes(p, clusters, i, plain, s, made)
    ensures MemoServes(p, clusters, i, plain, s, made) ==>
      Forget(FillFrom(p, clusters, i, memo, s, true)) == Forget(FillFrom(p, clusters, i, plain, s, false))
    decreases |clusters| - i
  {
    hide Step, BitmapIndex, Instance.BitmapFor, MemoIsRight;
    if i < |clusters| {
      var c, made' := clusters[i], MadeAt(p, clusters[i], plain, made);
      if p.Kind(c).InstanceFill? { MemoIsRightIff(plain.classes, made'.value, c.tag.cid); }
      var x := Instance.BitmapFor(Bitmaps(memo, true), c.tag.cid);
      var y := Instance.BitmapFor(Bitmaps(plain, false), c.tag.cid);
      if !p.Kind(c).InstanceFill? || x == y {
        StepSameButMemo(p, c, memo, plain, s, made);
        var f, g := Step(p, c, memo, s, true), Step(p, c, plain, s, false);
        if g.error.None? {
          MemoServesIffFrom(p, clusters, i + 1, f.st, g.st, f.rest, made');
          SameRest(x, Handed(p, clusters, i + 1, f.st, f.rest, true), Handed(p, clusters, i + 1, g.st, g.rest, false));
        }
      } else {
        assert Handed(p, clusters, i, memo, s, true)[0] == x && Handed(p, clusters, i, plain, s, false)[0] == y;
      }
    }
  }

  lemma SameRest(x: nat, a: seq<nat>, b: seq<nat>)
    ensures [x] + a == [x] + b <==> a == b
    ensures [] + a == [] + b <==> a == b
  {
    assert ([x] + a)[1..] == a && ([x] + b)[1..] == b && [] + a == a && [] + b == b;
  }

  lemma MemoServesIff(p: Profile, clusters: seq<Cluster>, s: Bytes)
    ensures Handed(p, clusters, 0, EMPTY, s, true) == Handed(p, clusters, 0, EMPTY, s, false)
       <==> MemoServes(p, clusters, 0, EMPTY, s, None)
    ensures MemoServes(p, clusters, 0, EMPTY, s, None) ==>
      Forget(FillFrom(p, clusters, 0, EMPTY, s, true)) == Forget(FillFrom(p, clusters, 0, EMPTY, s, false))
  {
    hide Handed, MemoServes, FillFrom;
    MemoServesIffFrom(p, clusters, 0, EMPTY, EMPTY, s, None);
  }

  /** An Instance cluster, then a Class cluster with one class whose first field is raw, then an
      instance of that class. */
  const LATE_PROFILE: Profile := Profile(
    Class.Layout(true, 0, -1, false, false), Code.Layout(true, 0, false, 0, false, false),
    Instance.Layout(true, false, false, false), Pool.Format(false, false, true),
    cid => if cid == 5 then ClassFill else InstanceFill, (_, _) => None)

  const LATE_CLASS: Class.ClassIn := Class.ClassIn([], [70, 0, 0, 0, 0, 0, 0], 2)

  function LateCluster(cid: int, count: int, nextFieldOffset: int): Cluster {
    Cluster(0, Tag(cid, false, false), count, 0, count, 0, 0, ClusterAlloc.Info([], 0, {}, [], nextFieldOffset, []))
  }

  const LATE_CLUSTERS: seq<Cluster> := [LateCluster(69, 0, 0), LateCluster(5, 1, 0), LateCluster(70, 1, 2)]

  /** The instances of these clusters. */
  function LateFill(s: Bytes, memoise: bool): seq<Instance.Instance> {
    FillFrom(LATE_PROFILE, LATE_CLUSTERS, 0, EMPTY, s, memoise).st.instances
  }

  /** The Class cluster comes too late: the memo is made before the class is
      read, and the raw field of the last instance is taken for a reference. */
  lemma LateClassIsMissed()
    ensures !ClassesFirst(LATE_PROFILE, LATE_CLUSTERS)
    ensures exists s: Bytes :: LateFill(s, true) != LateFill(s, false)
  {
    var p, cs := LATE_PROFILE, LATE_CLUSTERS;
    assert p.Kind(cs[0]).InstanceFill? && p.Kind(cs[1]).ClassFill?;
    var tail: Bytes := [192, 192];
    var s, read := LateClassReads(tail);
    LateRun(s, tail, read, true);
    LateRun(s, tail, read, false);
    LateInstance(tail, read);
    assert LateFill(s, true) != LateFill(s, false);
  }

  /** The bitmap the last cluster uses: none when it comes from the memo. */
  function LateBitmap(read: seq<Class.ClassInfo>, memoise: bool): nat {
    Instance.BitmapFor(if memoise then map[] else BitmapIndex(read, |read|), 70)
  }

  lemma {:induction false} LateRun(s: Bytes, tail: Bytes, read: seq<Class.ClassInfo>, memoise: bool)
    requires Class.ClassesFrom(s, LATE_PROFILE.classLayout, ClassCluster(LATE_CLUSTERS[1]), 0, []) == Done(read, tail)
    ensures var r := Instance.ReadInstances(tail, LATE_PROFILE.instanceLayout, InstanceCluster(LATE_CLUSTERS[2]), LateBitmap(read, memoise));
            r.Done? ==> LateFill(s, memoise) == r.value
  {
    hide FillFrom, Class.ClassesFrom, Instance.ReadInstances, Instance.BitmapFor, BitmapIndex;
    var p, cs := LATE_PROFILE, LATE_CLUSTERS;
    var first := EMPTY.(memo := if memoise then Some(map[]) else None);
    var second := first.(classes := read);
    NoInstances(p, cs[0], s);
    NoClassesNoBitmaps();
    FillStep(p, cs, 0, EMPTY, s, memoise);
    assert Step(p, cs[0], EMPTY, s, memoise) == Filled(first, None, s);
    FillStep(p, cs, 1, first, s, memoise);
    assert [] + read == read;
    assert Step(p, cs[1], first, s, memoise) == Filled(second, None, tail);
    FillStep(p, cs, 2, second, tail, memoise);
    var r := Instance.ReadInstances(tail, p.instanceLayout, InstanceCluster(cs[2]), LateBitmap(read, memoise));
    if r.Done? {
      assert [] + r.value == r.value;
      FillEnds(p, cs, second.(instances := r.value), r.rest, memoise);
    }
  }

  lemma NoClassesNoBitmaps()
    ensures BitmapIndex([], 0) == map[]
  {
  }

  lemma NoInstances(p: Profile, c: Cluster, s: Bytes)
    requires !p.instanceLayout.carriesBitmap && c.info.nextFieldOffset <= 0
    ensures forall bitmap: nat :: Instance.ReadInstances(s, p.instanceLayout, InstanceCluster(c), bitmap) == Done([], s)
  {
    hide Instance.InstancesFrom;
  }

  lemma FillStep(p: Profile, clusters: seq<Cluster>, i: nat, st: State, s: Bytes, memoise: bool)
    requires i < |clusters|
    ensures var f := Step(p, clusters[i], st, s, memoise);
            FillFrom(p, clusters, i, st, s, memoise) ==
            if f.error.Some? then f else FillFrom(p, clusters, i + 1, f.st, f.rest, memoise)
  {
    hide Step;
  }

  lemma FillEnds(p: Profile, clusters: seq<Cluster>, st: State, s: Bytes, memoise: bool)
    ensures FillFrom(p, clusters, |clusters|, st, s, memoise) == Filled(st, None, s)
  {
  }

  /** The bytes of the Class cluster in front of `tail`, and the class read from them. */
  lemma LateClassReads(tail: Bytes) returns (s: Bytes, read: seq<Class.ClassInfo>)
    ensures Class.ClassesFrom(s, LATE_PROFILE.classLayout, ClassCluster(LATE_CLUSTERS[1]), 0, []) == Done(read, tail)
    ensures |read| == 1 && read[0].classId == 70 && read[0].unboxedBitmap == 2
  {
    hide Class.ClassesFrom, Class.PutClasses;
    var layout, cm, cs := LATE_PROFILE.classLayout, ClassCluster(LATE_CLUSTERS[1]), [LATE_CLASS];
    s := Class.PutClasses(layout, cm, cs, 0, tail);
    read := Class.AllExpected(layout, cm, cs, 1);
    assert Class.AllExpected(layout, cm, cs, 0) == [];
    Class.ClassesRoundTrip(layout, cm, cs, 0, tail);
  }

  /** The last cluster read without the class's bitmap and with it. */
  lemma {:induction false} LateInstance(s: Bytes, classes: seq<Class.ClassInfo>)
    requires s == [192, 192] && |classes| == 1 && classes[0].classId == 70 && classes[0].unboxedBitmap == 2
    ensures var cm, layout := InstanceCluster(LATE_CLUSTERS[2]), LATE_PROFILE.instanceLayout;
            var without := Instance.ReadInstances(s, layout, cm, Instance.BitmapFor(map[], 70));
            var with_ := Instance.ReadInstances(s, layout, cm, Instance.BitmapFor(BitmapIndex(classes, 1), 70));
            without.Done? && with_.Done? && without.value != with_.value
  {
    hide Instance.SlotsFrom, Instance.ReadInstances;
    var cm, layout := InstanceCluster(LATE_CLUSTERS[2]), LATE_PROFILE.instanceLayout;
    assert BitmapIndex(classes, 1) == BitmapIndex(classes, 0)[70 := 2];
    LateSlots(s, layout, 0);
    LateSlots(s, layout, 2);
    OneInstance(s, layout, cm, 0);
    OneInstance(s, layout, cm, 2);
  }

  lemma {:induction false} OneByteEach(s: Bytes)
    requires s == [192, 192]
    ensures ReadRef(s, true) == Done(64, [192])
    ensures ReadTagged32(s) == Done(0, [192]) && ReadTagged32([192]) == Done(0, [])
  {
    assert s[1..] == [192];
    assert AsUint32(0) == 0;
  }

  lemma {:induction false} LateSlots(s: Bytes, layout: Instance.Layout, bitmap: nat)
    requires s == [192, 192] && layout == LATE_PROFILE.instanceLayout && bitmap in {0, 2}
    ensures Instance.SlotsFrom(s, layout, bitmap, 0, 1, [])
         == if bitmap == 0 then Done([Instance.FieldAt(layout, 0, 64)], [192]) else Done([], [])
  {
    hide ReadRef, ReadTagged32, Instance.FieldAt;
    OneByteEach(s);
    assert BitOf(2, 1) && !BitOf(0, 1) by { assert BitOf(1, 0) && !BitOf(0, 0); }
    var f := Instance.FieldAt(layout, 0, 64);
    assert [] + [f] == [f];
    assert Instance.SlotsFrom([192], layout, bitmap, 1, 1, [f]) == Done([f], [192]);
    assert Instance.SlotsFrom([], layout, bitmap, 1, 1, []) == Done([], []);
  }

  lemma {:induction false} OneInstance(s: Bytes, layout: Instance.Layout, cm: Instance.Cluster, bitmap: nat)
    requires layout == LATE_PROFILE.instanceLayout && cm == InstanceCluster(LATE_CLUSTERS[2])
    ensures var slots := Instance.SlotsFrom(s, layout, bitmap, 0, 1, []);
            slots.Done? ==> Instance.ReadInstances(s, layout, cm, bitmap)
                            == Done([Instance.Instance(0, 70, 1, 1, slots.value)], slots.rest)
  {
    hide Instance.SlotsFrom;
    var slots := Instance.SlotsFrom(s, layout, bitmap, 0, 1, []);
    if slots.Done? {
      var one := Instance.Instance(0, 70, 1, 1, slots.value);
      assert Instance.InstancesFrom(slots.rest, layout, cm, bitmap, 1, [one]) == Done([one], slots.rest);
      assert [] + [one] == [one];
    }
  }
}
