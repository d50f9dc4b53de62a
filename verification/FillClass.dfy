/** The fill data of a Class cluster, whose unboxed-fields bitmap is there only for some classes. */
module FillClass {
  import opened Wire

  /** `numRefs` and `nameIdx` come from the version's fill specification. */
  datatype Layout = Layout(
    refUnsigned: bool, numRefs: nat, nameIdx: int, topLevelCid16: bool, hasTokenPos: bool)
  {
    function TopLevelOffset(): int {
      if topLevelCid16 then 0x1_0000 else 0x10_0000
    }
  }

  /** `mainCount` classes are predefined. */
  datatype Cluster = Cluster(startRef: int, count: int, mainCount: int)

  datatype ClassInfo = ClassInfo(
    refId: int, nameRef: int, classId: int, instanceSize: int, nextFieldOffset: int, typeArgsOffset: int,
    superTypeRef: int, libraryRef: int, unboxedBitmap: nat)

  function At(refs: seq<int>, j: int): int {
    if 0 <= j < |refs| then refs[j] else -1
  }

  /** Where the super type and the library are among 13, 15 or 16 references. */
  function SuperTypeIdx(layout: Layout): int {
    if layout.numRefs == 13 then 9 else if layout.numRefs in {15, 16} then 10 else -1
  }

  function LibraryIdx(layout: Layout): int {
    if layout.numRefs == 13 then 7 else if layout.numRefs in {15, 16} then 8 else -1
  }

  /** Predefined classes always have a bitmap, the others unless they are top level. */
  predicate HasBitmap(layout: Layout, predefined: bool, classId: int) {
    predefined || classId < layout.TopLevelOffset()
  }

  // ---------- reading ----------

  /** n 32-bit values in a row. */
  function ReadWords(s: Bytes, n: nat, acc: seq<int>): (p: Parsed<seq<int>>)
    ensures p.Done? ==> |p.value| == |acc| + n
    decreases n
  {
    if n == 0 then Done(acc, s)
    else
      var (v, t) :- ReadTagged32(s);
      ReadWords(t, n - 1, acc + [v])
  }

  /** Class id, sizes and offsets, counts, token positions where the version has them, state bits. */
  function WordCount(layout: Layout): nat {
    if layout.hasTokenPos then 9 else 7
  }

  function ReadBitmap(s: Bytes, present: bool): Parsed<int> {
    if present then ReadUnsigned(s) else Done(0, s)
  }

  function InfoOf(layout: Layout, refId: int, refs: seq<int>, words: seq<int>, predefined: bool, bitmap: int): ClassInfo
    requires |words| >= 4
  {
    ClassInfo(refId, At(refs, layout.nameIdx), AsInt32(words[0]), AsInt32(words[1]), AsInt32(words[2]), AsInt32(words[3]),
              At(refs, SuperTypeIdx(layout)), At(refs, LibraryIdx(layout)),
              if predefined then 0 else AsUint64(bitmap))
  }

  function ReadClass(s: Bytes, layout: Layout, refId: int, predefined: bool): Parsed<ClassInfo> {
    var (refs, t) :- ReadRefs(s, layout.numRefs, layout.refUnsigned);
    var (words, u) :- ReadWords(t, WordCount(layout), []);
    var (bitmap, w) :- ReadBitmap(u, HasBitmap(layout, predefined, AsInt32(words[0])));
    Done(InfoOf(layout, refId, refs, words, predefined, bitmap), w)
  }

  function ClassesFrom(s: Bytes, layout: Layout, cm: Cluster, i: nat, acc: seq<ClassInfo>): Parsed<seq<ClassInfo>>
    decreases cm.count - i
  {
    if i >= cm.count then Done(acc, s)
    else
      var (c, t) :- ReadClass(s, layout, cm.startRef + i, i < cm.mainCount);
      ClassesFrom(t, layout, cm, i + 1, acc + [c])
  }

  method NextWords(s: Stream, n: nat) returns (r: Result<seq<int>>)
    requires s.Valid()
    modifies s`pos
    ensures s.Reads(ReadWords(old(s.Rest()), n, []), r)
    ensures r.Ok? ==> |r.value| == n
  {
    hide ReadTagged32;
    var words := [];
    for i := 0 to n
      invariant s.Valid() && |words| == i
      invariant ReadWords(old(s.Rest()), n, []) == ReadWords(s.Rest(), n - i, words)
    {
      var v :- s.NextTagged32();
      words := words + [v];
    }
    r := Ok(words);
  }

  method ReadFillClass(s: Stream, layout: Layout, cm: Cluster) returns (r: Result<seq<ClassInfo>>)
    requires s.Valid()
    modifies s`pos
    ensures s.Reads(ClassesFrom(old(s.Rest()), layout, cm, 0, []), r)
  {
    hide ReadRefs, ReadWords, ReadUnsigned, InfoOf, HasBitmap, AsInt32, Stream.Rest, Stream.Valid;
    var classes := [];
    var i := 0;
    while i < cm.count
      invariant s.Valid() && i >= 0
      invariant ClassesFrom(old(s.Rest()), layout, cm, 0, []) == ClassesFrom(s.Rest(), layout, cm, i, classes)
      decreases cm.count - i
    {
      var refs :- s.NextRefs(layout.numRefs, layout.refUnsigned);
      var words :- NextWords(s, WordCount(layout));
      var isPredefined := i < cm.mainCount;
      var bitmap := 0;
      if HasBitmap(layout, isPredefined, AsInt32(words[0])) {
        bitmap :- s.NextUnsigned();
      }
      classes := classes + [InfoOf(layout, cm.startRef + i, refs, words, isPredefined, bitmap)];
      i := i + 1;
    }
    r := Ok(classes);
  }

  // ---------- writing ----------

  /** A class as the serializer sees it: its references, its words from the class id on, its bitmap. */
  datatype ClassIn = ClassIn(refs: seq<nat>, words: seq<int>, bitmap: nat) {
    predicate Valid(layout: Layout) {
      && |refs| == layout.numRefs && FitRefs(refs)
      && |words| == (if layout.hasTokenPos then 9 else 7) && bitmap < TWO_64
      && forall j :: 0 <= j < |words| ==> -0x8000_0000 <= words[j] < 0x8000_0000
    }
  }

  /** Class ids of top level classes, which have no fields. */
  predicate IsTopLevel(layout: Layout, classId: int) {
    classId >= if layout.topLevelCid16 then 0x1_0000 else 0x10_0000
  }

  function PutWords(words: seq<int>, k: Bytes): Bytes {
    if words == [] then k else PutTagged(words[0], PutWords(words[1..], k))
  }

  function PutClass(layout: Layout, predefined: bool, c: ClassIn, k: Bytes): Bytes
    requires c.Valid(layout)
  {
    PutRefs(c.refs, layout.refUnsigned,
      PutWords(c.words, if predefined || !IsTopLevel(layout, c.words[0]) then PutUnsigned(c.bitmap, k) else k))
  }

  predicate AllValid(layout: Layout, cs: seq<ClassIn>) {
    forall i :: 0 <= i < |cs| ==> cs[i].Valid(layout)
  }

  function PutClasses(layout: Layout, cm: Cluster, cs: seq<ClassIn>, i: nat, k: Bytes): Bytes
    requires i <= |cs| && AllValid(layout, cs)
    decreases |cs| - i
  {
    if i == |cs| then k else PutClass(layout, i < cm.mainCount, cs[i], PutClasses(layout, cm, cs, i + 1, k))
  }

  /** What a class must come back as: a bitmap is kept for the classes that are neither predefined nor
      top level.  The super type and the library have a place among 13, 15 and 16 references. */
  function Expected(layout: Layout, cm: Cluster, cs: seq<ClassIn>, i: nat): ClassInfo
    requires i < |cs| && AllValid(layout, cs)
  {
    var c := cs[i];
    var name: int := if 0 <= layout.nameIdx < |c.refs| then c.refs[layout.nameIdx] else -1;
    var bitmap := if i >= cm.mainCount && !IsTopLevel(layout, c.words[0]) then c.bitmap else 0;
    var words := c.words;
    match |c.refs|
    case 13 => ClassInfo(cm.startRef + i, name, words[0], words[1], words[2], words[3], c.refs[9], c.refs[7], bitmap)
    case 15 => ClassInfo(cm.startRef + i, name, words[0], words[1], words[2], words[3], c.refs[10], c.refs[8], bitmap)
    case 16 => ClassInfo(cm.startRef + i, name, words[0], words[1], words[2], words[3], c.refs[10], c.refs[8], bitmap)
    case _ => ClassInfo(cm.startRef + i, name, words[0], words[1], words[2], words[3], -1, -1, bitmap)
  }

  function AllExpected(layout: Layout, cm: Cluster, cs: seq<ClassIn>, n: nat): (r: seq<ClassInfo>)
    requires n <= |cs| && AllValid(layout, cs)
    ensures |r| == n
  {
    seq(n, i requires 0 <= i < n => Expected(layout, cm, cs, i))
  }

  // ---------- the reader inverts the writer ----------

  /** The words as they are read, before the signed reinterpretation. */
  function Raw(words: seq<int>): (r: seq<int>)
    ensures |r| == |words|
  {
    seq(|words|, j requires 0 <= j < |words| => AsUint32(words[j]))
  }

  lemma {:induction false} WordsRoundTrip(words: seq<int>, k: Bytes, acc: seq<int>)
    requires forall j :: 0 <= j < |words| ==> -0x8000_0000 <= words[j] < 0x8000_0000
    ensures ReadWords(PutWords(words, k), |words|, acc) == Done(acc + Raw(words), k)
  {
    hide ReadTagged32, PutTagged, AsUint32;
    if words == [] {
      assert acc + Raw(words) == acc;
    } else {
      Tagged32RoundTrip(words[0], PutWords(words[1..], k));
      WordsRoundTrip(words[1..], k, acc + [AsUint32(words[0])]);
      assert Raw(words) == [AsUint32(words[0])] + Raw(words[1..]);
      AppendOne(acc, AsUint32(words[0]), Raw(words[1..]));
    }
  }

  lemma RawFirst(words: seq<int>, j: nat)
    requires j < |words| && -0x8000_0000 <= words[j] < 0x8000_0000
    ensures AsInt32(Raw(words)[j]) == words[j]
  {
    Int32ThroughUint32(words[j]);
  }

  lemma BitmapWhere(layout: Layout, predefined: bool, classId: int)
    ensures HasBitmap(layout, predefined, classId) <==> predefined || !IsTopLevel(layout, classId)
  {
  }

  /** The stream side of the round trip. */
  lemma ClassReads(layout: Layout, c: ClassIn, refId: int, predefined: bool, k: Bytes)
    requires c.Valid(layout)
    ensures ReadClass(PutClass(layout, predefined, c, k), layout, refId, predefined)
         == Done(InfoOf(layout, refId, c.refs, Raw(c.words), predefined,
                        if HasBitmap(layout, predefined, c.words[0]) then Wrap64(c.bitmap) else 0), k)
  {
    BitmapWhere(layout, predefined, c.words[0]);
    hide ReadRefs, PutRefs, ReadWords, PutWords, ReadUnsigned, PutUnsigned, AsInt32, Wrap64, Raw, InfoOf, HasBitmap;
    hide IsTopLevel;
    var t := if HasBitmap(layout, predefined, c.words[0]) then PutUnsigned(c.bitmap, k) else k;
    RefsRoundTrip(c.refs, layout.refUnsigned, PutWords(c.words, t));
    WordsRoundTrip(c.words, t, []);
    assert [] + Raw(c.words) == Raw(c.words);
    RawFirst(c.words, 0);
    UnsignedRoundTrip(c.bitmap, k);
  }

  lemma ClassRoundTrip(layout: Layout, cm: Cluster, cs: seq<ClassIn>, i: nat, k: Bytes)
    requires i < |cs| && AllValid(layout, cs)
    ensures ReadClass(PutClass(layout, i < cm.mainCount, cs[i], k), layout, cm.startRef + i, i < cm.mainCount)
         == Done(Expected(layout, cm, cs, i), k)
  {
    hide ReadClass, PutClass, AsInt32, AsUint64, Wrap64, Raw;
    var c := cs[i];
    ClassReads(layout, c, cm.startRef + i, i < cm.mainCount, k);
    RawFirst(c.words, 0);
    RawFirst(c.words, 1);
    RawFirst(c.words, 2);
    RawFirst(c.words, 3);
    Uint64ThroughInt64(c.bitmap);
    assert AsUint64(0) == 0;
  }

  /** Reading a written Class cluster gives every class back and consumes exactly what was written,
      whichever of the classes carry a bitmap. */
  lemma {:induction false} ClassesRoundTrip(layout: Layout, cm: Cluster, cs: seq<ClassIn>, i: nat, k: Bytes)
    requires i <= |cs| == cm.count && AllValid(layout, cs)
    ensures ClassesFrom(PutClasses(layout, cm, cs, i, k), layout, cm, i, AllExpected(layout, cm, cs, i))
         == Done(AllExpected(layout, cm, cs, |cs|), k)
    decreases |cs| - i
  {
    hide ReadClass, PutClass, Expected;
    if i < |cs| {
      ClassRoundTrip(layout, cm, cs, i, PutClasses(layout, cm, cs, i + 1, k));
      assert AllExpected(layout, cm, cs, i + 1) == AllExpected(layout, cm, cs, i) + [Expected(layout, cm, cs, i)];
      ClassesRoundTrip(layout, cm, cs, i + 1, k);
    }
  }
}
