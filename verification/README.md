# AOTopsy decoders and walks, verified

AOTopsy reads Dart AOT snapshots. This project models the parts of it whose correctness cannot be seen
from one function alone, and proves what they promise. `dafny verify dfyconfig.toml` checks all of it.

**Streams.** `Wire` is the snapshot's byte stream: the marker-128 and marker-192 varints of every width,
reference ids, and the `Stream` class the parsers read from. A reader is specified by a function on the
unread bytes; the matching writer puts a value in front of the bytes that follow it, so that a round trip
says both what is read and where reading stops.

**Snapshot parsers.** `ClusterAlloc` and `ScanClusters` are the alloc phase, `AllocFormats` says what is
written in it, kind by kind and version by version; `FillCode`, `FillClass`, `FillInstance` and `FillPool` are
fill readers, `Fill` runs them over the scanned clusters; `Roots` and `DispatchTable` are the two walks over
the roots section and the run-length dispatch table decoder with its ring of the 64 latest code values;
`Snapshots` runs all of them over one snapshot. `StackMaps` and `CodeSourceMap` decode the two per-Code
bytecodes, `StackMapCuts` says what truncated ones decode to. A version is a record of booleans and counts.
For each format there is a writer, and the reader inverts it under every version; writers, and what must come
back, are written down without the functions that the readers decide with. What is stated "on any bytes" does
not assume a writer.

**Walks.** `FromMain` is the breadth-first walk from `main`, `WalkOrder` the order it visits functions in.
`DisasmStage` is the worker pool, as a state machine that advances one worker by one instruction, with
`Peephole`, the annotator state a worker keeps from function to function.

**Text machines.** `ThrExtract` (preprocessor stack, merging of offsets), `RuntimeEntries` (naming entry
blocks), `Splice` (rewriting literals), `SymtabDiff` (folding symbol names) with `Repetitions`, `TearOffs`
and `OwnRendering` on what the fold keeps apart, `SymbolVerdicts` on names and symbols in general, and
`NameComparison`.

Methods follow the source's loops and state; each is proved equal to a function, and the lemmas about that
function carry the promises.

## Where the code and its description differ

- The dispatch table's length check (`internal/cluster/dispatchtable.go:208-214`) allows eight slots per byte of snapshot,
  but one repeat token stands for 63 slots. A correctly written table can be refused:
  `DispatchTable.LongRunRefused` gives one, and `DispatchTable.RootsRoundTrip` is stated with the exact
  condition.
- `readCSMBitmapBody` is documented to refuse a truncated body (`internal/cluster/compressedstackmaps.go:247-249`),
  but `readLEB128` reads zero at the end of the data. A body cut off is refused if and only if the cut is in
  the bitmap, or in the second count when the first promises bits; otherwise it is an empty entry:
  `StackMapCuts.BodyCut`. A list cut off anywhere decodes to the entries before the cut and, unless the entry
  cut into is refused, one empty entry more: `StackMapCuts.ListCut`. Bytes behind a list that end no value
  add entries too: `StackMaps.UnterminatedTailAddsEntries`.
- The end-of-data test in the cluster scan (`internal/cluster/cluster.go:349-352`) only stops a tag that consumed nothing;
  a tag cut off in the middle adds a cluster with class id 0: `ScanClusters.FailedTagAddsACluster`, and
  `ScanClusters.CutTagAddsACluster` for the one byte that does it in every encoding.
- The class bitmap memo (`internal/cluster/fill.go:445-457`) is made at the first Instance cluster and kept.
  It gives a class's bitmap if and only if the last nonzero one recorded later for that class, if any, is the
  one it has: `Fill.MemoIsRightIff`, and over a whole run `Fill.MemoServesIff`. Class clusters before all
  Instance clusters are enough (`Fill.MemoLosesNothing`); `Fill.LateClassIsMissed` is a run where it fails.
- `InlineStackAt` stops at the first entry past the address; that finds the last entry at or before it for
  all addresses if and only if offsets never decrease: `CodeSourceMap.EarlyExitIsExact`.
- An `#elif` is treated as an `#else`: its test is not looked at, and the PRODUCT state of the part before is
  negated (`tools/extract_thr.go:1270-1282`); and every part is read, whether the build has it or not. What is
  meant is what a preprocessor does: a part is not read if its own test fails for the build or a part before it
  was taken; else its own test and the failed tests before it decide, where only a condition that is a PRODUCT
  test and nothing else says anything by failing. The code reads every line as meant if and only if every part
  that is read is the opposite of the part before it, no `#elif` opens a section, and in the parts that are not
  read no section is open and no condition selects one: `ThrExtract.RightIffRegular`.
  `ThrExtract.OneElseIsRegular` are the two layouts the extractor was written for;
  `ThrExtract.SecondElifIsMisread`, `ThrExtract.ElifSectionIsLost`, `ThrExtract.ElseOfBothIsMisread` and
  `ThrExtract.OtherHalfIsRead` are four headers that are misread.
- The ordered drain writes records in input order, but not each as a whole
  (`internal/analysis/disasm_stage.go:330-386`): a write that fails, such as a flow graph's file, leaves what was
  written of its record before. The files are exactly the records below the one the drain stops at if and only
  if a worker's failure or the record's first write stops it: `DisasmStage.ExactIffClean`.
  `DisasmStage.DrainedInOrder` says what is left for every write that can fail;
  `DisasmStage.CfgFailureIsPartial` is the flow graph.
- A name is not always accepted against its own rendering in the oldest dialect. If its identifier begins
  with `Stub_`, it is accepted if and only if all its words are "Stub" and their number is even; if it begins
  with `AllocationStub_`, if and only if it is a `new` name whose owner is that one word, or whose owner is
  that word twice and whose words after `new` are an odd number of it: `OwnRendering.OwnRenderingVerdict`. So
  `Stub.run` is rejected and `Stub.Stub` is accepted: `OwnRendering.MethodsOfClassStub`.
- `collapseSelfDouble` can collapse its own result further: n copies of a word fold to half of them, rounded
  up, so a second fold changes nothing if and only if n is at most 2 (`TearOffs.RepeatedNameIsStable`). For
  the same reason a tear-off does not always fold like its method. `TearOffs.TearOffFoldsToSingle`,
  `TearOffs.OwnedTearOff` and `TearOffs.OwnedDoubledTearOff` say exactly when it does, and
  `TearOffs.PlainTearOff` that it does when no other word ends with the method's last one.
- `PeepholeState.Reset` leaves the immediate of the last ADD behind; no annotation ever sees it:
  `Peephole.AlikeAnnotate`.

## Model

| member | source | states |
|---|---|---|
| Wire.UnsignedRoundTrip | internal/dartfmt/stream.go:135-181 | every 64-bit value written as an unsigned varint is read back, wrapped to int64, and nothing after it is consumed |
| Wire.Tagged64RoundTrip | internal/dartfmt/stream.go:139-200 | every int64 written with the marker-192 varint comes back, with the bytes after it untouched |
| Wire.Tagged32RoundTrip | internal/dartfmt/stream.go:183-194 | the 32-bit reader returns the bit pattern of every int32 and of every uint32 |
| Wire.RefIdRoundTrip | internal/dartfmt/stream.go:211-234 | every reference id that fits comes back from the big-endian digits of ReadRefId, consumed exactly |
| Wire.RefRoundTrip | internal/cluster/fill.go:432-437 | the same under both encodings a version may use for references |
| Wire.RefsRoundTrip | internal/cluster/fill.go:432-437 | a row of references comes back in order and consumes exactly its bytes |
| Wire.Stream.constructor | internal/dartfmt/stream.go:30-36 | a stream opened at an offset has the data from there on unread |
| Wire.Stream.NextVarint | internal/dartfmt/stream.go:139-181 | the byte loop returns the value or the error of the specification and leaves the same bytes unread, also on failure |
| Wire.Stream.NextRefId | internal/dartfmt/stream.go:211-234 | the digit loop does the same for reference ids |
| Roots.Snapshot.ReadObjectStoreRefs | internal/cluster/objectstoreroots.go:25-51 | fills the object store references once, leaves them alone when they are known, when the field count is unverified or when the fill has not run, and reports the error of the walk |
| Roots.PrefixRoundTrip | internal/cluster/dispatchtable.go:115-152 | the prefix of the roots section gives back the object store fields that were written, and ends where it ends |
| DispatchTable.RingUpdate | internal/cluster/dispatchtable.go:236-318 | slot j of the ring is the latest code value with ordinal congruent to j mod 64: a new value replaces one slot and no other |
| DispatchTable.RememberIn | internal/cluster/dispatchtable.go:298-312 | the array with its position keeps representing the history when a code value is written |
| DispatchTable.Decode | internal/cluster/dispatchtable.go:236-318 | the loop with array, position and repeat count computes the decoder on histories, errors included |
| DispatchTable.TableRoundTrip | internal/cluster/dispatchtable.go:236-318 | for every table of null and code slots of any length, decoding the run-length and recent-value stream returns exactly that table |
| DispatchTable.SlotsRecovered | internal/cluster/dispatchtable.go:241-318 | entry i of the decoded table has index i, and its slot can be read back from it |
| DispatchTable.ClassifyIsInjective | internal/cluster/dispatchtable.go:253-297 | the classification into stub and code loses nothing: the code index comes back from the entry; a stub is an absolute slot below the first entry with code |
| DispatchTable.EveryTargetArises | internal/cluster/dispatchtable.go:253-297 | with an instructions table, every stub below the first entry with code and every cluster index is the target of some code index |
| DispatchTable.IndexCodes | internal/cluster/dispatchtable.go:224-234 | the index by reference holds, for every reference, its last code |
| DispatchTable.IndexHoldsTheLast | internal/cluster/dispatchtable.go:224-230 | that index holds every reference and no other, and for each the last code with it |
| DispatchTable.ParseDispatchTable | internal/cluster/dispatchtable.go:89-319 | the parser's outcome and the object store references it leaves are those of the specification, for every input, including its panic and its error cases |
| DispatchTable.RefusedBeforeReading | internal/cluster/dispatchtable.go:91-113 | no fill, an unverified version, and no codes without an instructions table are refused, in this order, exactly then, and nothing is changed |
| DispatchTable.ObjectStoreComes | internal/cluster/objectstoreroots.go:25-51 | the object store of a written roots section comes if it is not known and the fill has run |
| DispatchTable.RootsRoundTrip | internal/cluster/dispatchtable.go:89-319 | a written roots section parses to its table and object store if and only if the table has at most eight slots per byte of snapshot; otherwise it is refused |
| DispatchTable.RootsSay | internal/cluster/dispatchtable.go:232-318 | entry by entry: a hole is null; a code index, counted from zero or one, is a stub below the first entry with code, else code at its place; without an instructions table it carries the references of the last Code object whose reference it adds up to with the first code's in 64 bits, or none |
| DispatchTable.LongRunRefused | internal/cluster/dispatchtable.go:208-214 | a correctly written table is refused as too long |
| DispatchTable.WalksCommute | internal/cluster/objectstoreroots.go:25-51 | running the object store walk and the dispatch table parser in either order leaves the same references and gives the same table |
| StackMaps.ReadLEB128 | internal/cluster/compressedstackmaps.go:224-240 | the loop computes the value and the end position of the specification and never leaves the data |
| StackMaps.LebRoundTrip | internal/cluster/compressedstackmaps.go:224-240 | unsigned LEB128 (section 7.6 of DWARF Version 5) round-trips every 64-bit value |
| StackMaps.UnterminatedReadsZero | internal/cluster/compressedstackmaps.go:224-240 | bytes that never end a value read as zero |
| StackMaps.Entry.ObjectSpillSlotOffsets | internal/cluster/compressedstackmaps.go:120-128 | lists exactly the frame offsets of the spill slots that hold objects, each once, from the first slot down |
| StackMaps.AccessorsCoverEveryBit | internal/cluster/compressedstackmaps.go:72-116 | every bit is one spill slot's or one saved slot's, saved slots counted backwards from the end |
| StackMaps.ReadCSMBitmapBody | internal/cluster/compressedstackmaps.go:250-276 | the reader's counts, bits, end position and refusal are those of the specification, within the data |
| StackMaps.BodyRoundTrip | internal/cluster/compressedstackmaps.go:250-276 | counts and packed bits come back from a written body, consumed exactly |
| StackMaps.RefusedIff | internal/cluster/compressedstackmaps.go:250-276 | a body is refused if and only if a count is above 2^20 or the bitmap is not all there |
| StackMaps.PackRoundTrip | internal/cluster/compressedstackmaps.go:76-86 | a packed bitmap has one byte per eight bits and returns every bit |
| StackMaps.DecodeCompressedStackMaps | internal/cluster/compressedstackmaps.go:141-220 | both decoding loops compute the specification, including the crash on a table offset of 2^63 or more |
| StackMaps.PlacedAtPrefixSums | internal/cluster/compressedstackmaps.go:167-219 | PC offsets are the prefix sums of the deltas and never decrease while the sum stays below 2^32 |
| StackMaps.StandaloneRoundTrip | internal/cluster/compressedstackmaps.go:193-219 | every written list of standalone entries decodes to the same PCs, counts and packed bits |
| StackMaps.SingleRoundTrip | internal/cluster/compressedstackmaps.go:141-166 | a payload marked as a single body decodes to that body at PC 0 |
| StackMaps.SafepointsRoundTrip | internal/cluster/compressedstackmaps.go:72-220 | from the slots recorded at each safepoint, through payload, decoder and accessors, every slot's answer is the one recorded |
| StackMaps.TableEqualsInlined | internal/cluster/compressedstackmaps.go:167-190 | decoding against a global table equals decoding the standalone stream with every referenced body inlined |
| StackMaps.TableNamesBodies | internal/cluster/compressedstackmaps.go:167-190 | references into a table decode to the bodies written at their offsets, and to empty entries behind its end |
| StackMaps.UnterminatedTailAddsEntries | internal/cluster/compressedstackmaps.go:193-219 | followed by bytes that end no value, the decoder returns exactly the written entries if and only if there are no such bytes |
| StackMapCuts.CutLebReadsZero | internal/cluster/compressedstackmaps.go:224-240 | any written value cut off before its last byte reads as zero and leaves nothing |
| StackMapCuts.BodyCut | internal/cluster/compressedstackmaps.go:242-276 | a written body cut off anywhere is refused if and only if the cut is in the bitmap, or in the second count when the first is not zero; otherwise it is an empty entry |
| StackMapCuts.DeltaCut | internal/cluster/compressedstackmaps.go:193-219 | an entry cut off anywhere adds nothing or one empty entry, at the PC reached |
| StackMapCuts.ListCut | internal/cluster/compressedstackmaps.go:193-219 | a written list cut off anywhere decodes to the entries before the cut, and to exactly those if and only if the entry cut into is refused |
| StackMapCuts.CutAfterDelta | internal/cluster/compressedstackmaps.go:242-276 | an entry cut off after its delta is accepted, one cut off after its first count is refused |
| CodeSourceMap.InlineStack.Push | internal/cluster/codesourcemap.go:143-144 | appends one function, writing in place or moving to new memory |
| CodeSourceMap.DecodeCodeSourceMap | internal/cluster/codesourcemap.go:105-162 | the loop computes the specification, and every recorded stack lives in memory of its own, so later pushes and pops do not alter it |
| CodeSourceMap.Decoder.Apply | internal/cluster/codesourcemap.go:133-158 | one operation moves the machine as specified, and what was recorded before stays as it was |
| CodeSourceMap.DecodeRunsTheOps | internal/cluster/codesourcemap.go:105-162 | decoding the bytes of a list of operations is running the list on the abstract machine |
| CodeSourceMap.RunCountsAdvances | internal/cluster/codesourcemap.go:123-162 | there is one entry per advance of the valid prefix, and an error exactly when the prefix is not everything |
| CodeSourceMap.EntryIsTheState | internal/cluster/codesourcemap.go:112-162 | each entry is the machine's state after the operations up to its advance |
| CodeSourceMap.EntryIsWhatTheOpsDid | internal/cluster/codesourcemap.go:112-162 | each entry holds the sum of the advances modulo 2^32, the position last set or -1, and the functions pushed and not popped |
| CodeSourceMap.OpenIsUnmatched | internal/cluster/codesourcemap.go:143-152 | a pushed function is on the stack if and only if no later pops outnumber the pushes behind it |
| CodeSourceMap.StopsAtTheFirst | internal/cluster/codesourcemap.go:123-162 | the run stops at the first negative advance, pop of nothing, or unknown code |
| CodeSourceMap.ErrorSaysWhy | internal/cluster/codesourcemap.go:123-162 | and its error is the one of that operation |
| CodeSourceMap.ErrorKeepsTheValidPrefix | internal/cluster/codesourcemap.go:123-162 | an error returns exactly the entries of the valid prefix |
| CodeSourceMap.RunIsSorted | internal/cluster/codesourcemap.go:123-162 | with PCs below 2^32 the offsets never decrease |
| CodeSourceMap.CodeSourceMapInfo.InlineStackAt | internal/cluster/codesourcemap.go:164-179 | returns the stack and position of the last entry before the first one past the address, or nothing |
| CodeSourceMap.EarlyExitIsExact | internal/cluster/codesourcemap.go:164-179 | for all addresses that is the last entry at or before the address if and only if the offsets never decrease |
| FillCode.ReadFillCode | internal/cluster/fill_code.go:22-286 | the loop with its running reference, instruction index and text offset reads what the specification reads |
| FillCode.InstructionsRoundTrip | internal/cluster/fill_code.go:70-111 | payload info and text offset come back for main, deferred and discarded codes, as absolute or delta offsets |
| FillCode.CodeRefsRoundTrip | internal/cluster/fill_code.go:112-258 | owner, handler, descriptor, stack map, inlined function and source map references come back from 6 or 7 slots, with state bits first, at the end or absent |
| FillCode.CodesRoundTrip | internal/cluster/fill_code.go:22-286 | under every layout and mix of main, deferred and discarded codes exactly the written bytes are consumed, every code's references and cluster index come back, and text offsets are the prefix sums of the deltas |
| FillCode.DiscardedHasNoRefs | internal/cluster/fill_code.go:105-200 | on any bytes, a code the alloc phase found discarded has no owner and no other reference, unless the version keeps state bits among the references |
| ClusterAlloc.SkipAlloc | internal/cluster/cluster_alloc.go:10-120 | the dispatch over alloc kinds reads what the specification of the kind reads and leaves the stream there |
| ClusterAlloc.SkipCanonicalSetFrom | internal/cluster/cluster_alloc.go:188-216 | the gap loop, with or without a first element |
| ClusterAlloc.SkipClassAlloc | internal/cluster/cluster_alloc.go:320-376 | both guesses at the predefined class count, the class ids and the added count |
| ClusterAlloc.SkipCodeAlloc | internal/cluster/cluster_alloc.go:385-440 | main and deferred counts and the set of discarded positions |
| ClusterAlloc.ReadMintAlloc | internal/cluster/cluster_alloc.go:250-280 | the values, as many as were read before an error |
| ClusterAlloc.UnreadIsZero | internal/cluster/cluster_alloc.go:250-280 | values that were not read before an error are zero |
| ClusterAlloc.SetRoundTrip | internal/cluster/cluster_alloc.go:188-216 | the canonical set of a written cluster is skipped exactly |
| ClusterAlloc.ClassRoundTrip | internal/cluster/cluster_alloc.go:320-376 | the predefined class ids and the total count come back |
| ClusterAlloc.CodeRoundTrip | internal/cluster/cluster_alloc.go:385-440 | both counts and exactly the discarded positions come back |
| ClusterAlloc.AllocRoundTrip | internal/cluster/cluster_alloc.go:122-525 | for every shape the alloc skip stops at the end of what was written and returns the same count, lengths, class ids, discarded set, layout and mint values |
| AllocFormats.ShapeIsTheKinds | internal/cluster/cluster_alloc.go:10-120 | the shape picked for a class id and version is the one the serializer's table gives its kind: lengths, canonical sets and their first element, string formats, dual counts, state bits from 2.14 on, closure lengths from 3.13 on |
| AllocFormats.KindRoundTrip | internal/cluster/cluster_alloc.go:10-525 | for every kind and version, what the table writes is skipped exactly and gives the count and what has to be kept |
| ClusterAlloc.CountIsNatural | internal/cluster/cluster_alloc.go:10-525 | on any bytes counts are not negative, a Mint cluster has as many values as its count, and a Code cluster's main codes are counted in it |
| ScanClusters.ScanAllClusters | internal/cluster/cluster.go:226-424 | header, loop and final position are those of the specification for every input |
| ScanClusters.NoScanIff | internal/cluster/cluster.go:226-296 | there is no scan exactly with a start behind the data, a header that cannot be read, or more clusters than steps; a count below zero panics |
| ScanClusters.FailedAllocCountsNothing | internal/cluster/cluster.go:363-413 | an alloc that fails ends the scan with a cluster of no objects that keeps the announced references |
| ScanClusters.ScanIsConsistent | internal/cluster/cluster.go:306-413 | on any bytes, also after an error, the clusters tile the references and the bytes, and the mints are keyed by exactly the references of the Mint clusters |
| ScanClusters.ClustersTile | internal/cluster/cluster.go:306-413 | a scan's clusters tile the references from NumBaseObjects+1, and the bytes from the end of the header up to FillStart, with no gap or overlap |
| ScanClusters.ScannedCounts | internal/cluster/cluster.go:363-413 | a scan that reports nothing has handed every cluster as many references as it has objects, main codes of Code clusters among them |
| ScanClusters.FailedTagAddsACluster | internal/cluster/cluster.go:340-360 | a tag that fails with bytes left still adds a cluster with class id 0; only at the end of data it does not |
| ScanClusters.CutTagAddsACluster | internal/cluster/cluster.go:340-360 | one byte that ends no value is such a tag in every encoding |
| ScanClusters.TagRoundTrip | internal/cluster/cid.go:121-135 | class id and canonical and immutable bits come back in all three tag encodings |
| ScanClusters.HeaderRoundTrip | internal/cluster/cluster.go:226-300 | the header's counts come back, optional fields included |
| ScanClusters.ClustersRoundTrip | internal/cluster/cluster.go:306-413 | clusters written by kind and version scan to themselves, each with its own references, bytes and contents, mints under their references, and nothing is reported |
| ScanClusters.AllocSectionRoundTrip | internal/cluster/cluster.go:226-424 | a whole written alloc section scans back to its header, clusters and mints |
| Fill.Result.ClassUnboxedBitmaps | internal/cluster/fill.go:445-457 | the memo answers with the index of the classes, computed at the first call and kept |
| Fill.Result.FillCluster | internal/cluster/fill.go:600-804 | one cluster of each kind extends the records, moves the instruction index and leaves the stream as specified, failing without records of the cluster that failed |
| Fill.Result.ReadFill | internal/cluster/fill.go:560-804 | an invalid fill start changes nothing; otherwise the clusters are filled in order and the end is kept only without error |
| Fill.FillIsAligned | internal/cluster/fill.go:706-713 | on any bytes, Class, Code and nonempty-layout Instance records carry exactly the references of their clusters in order, and main-code cluster indexes over all Code clusters are 0, 1, 2, ... |
| Fill.DiscardedStep | internal/cluster/fill.go:706-713 | the codes that the scan of a cluster found discarded are recorded without references, on any bytes |
| Fill.MemoLosesNothing | internal/cluster/fill.go:445-457 | when Class clusters precede Instance clusters, the memoised bitmaps give what recomputing them for every cluster gives |
| Fill.MemoIsRightIff | internal/cluster/fill.go:445-457 | a memo made after n classes gives a class's bitmap if and only if the last nonzero one recorded for it later, if any, is the one it has |
| Fill.MemoServesIff | internal/cluster/fill.go:445-457 | on any clusters and bytes, the Instance clusters are read with the same bitmaps as if recomputed if and only if the memo is right at each of them, and then nothing else differs |
| Fill.LateClassIsMissed | internal/cluster/fill.go:445-457 | clusters and bytes on which a late class is missed and instances come out differently |
| FillClass.ReadFillClass | internal/cluster/fill_class.go:13-171 | the loop over classes reads what the specification reads |
| FillClass.ClassesRoundTrip | internal/cluster/fill_class.go:13-171 | every written class comes back, whichever of them carry a bitmap, and exactly the written bytes are consumed |
| FillInstance.ReadFillInstance | internal/cluster/fill_instance.go:47-154 | both nested loops read what the specification reads |
| FillInstance.FieldsAreTheBoxedSlots | internal/cluster/fill_instance.go:96-150 | captured fields are exactly the boxed slots, at strictly increasing offsets; boxed and unboxed slots add up to the field slots |
| FillInstance.InstancesRoundTrip | internal/cluster/fill_instance.go:47-154 | for every 64-bit bitmap, in the stream or from the class, and every slot count, the objects come back |
| FillPool.ReadFillObjectPool | internal/cluster/fill_pool.go:21-114 | the loops over pools and entries read what the specification reads |
| FillPool.PoolsRoundTrip | internal/cluster/fill_pool.go:21-114 | for every list of pools, in the old, swapped and behaviour-bit encodings, all entries come back, numbered by position across pools |
| FillPool.SwappedReadersAgree | internal/cluster/fill_pool.go:21-114 | the swapped and unswapped readers give the same entries on correspondingly encoded input |
| Snapshots.StepInverts | internal/cluster/fill.go:600-804 | one cluster's written fill, of any kind, is collected with the scan's own references, counts, discarded set and layout, and nothing behind it is touched |
| Snapshots.FillInverts | internal/cluster/fill.go:560-804 | a written fill section over clusters of all kinds in any order comes back, with instruction indexes and class bitmaps carried from cluster to cluster |
| Snapshots.LoadWritten | internal/analysis/snapshot_loader.go:108-118 | scan, fill, object store and dispatch table of a whole written snapshot: every section comes back and begins exactly where the one before it ended |
| Snapshots.ScannedFillIsAligned | internal/analysis/snapshot_loader.go:108-118 | on any bytes, after a scan that reports nothing and a fill without error, records carry exactly the references StartRef up to StopRef-1 of their clusters |
| FromMain.RunFromMain | internal/analysis/decompile_from_main.go:117-225 | the loop computes the walk, and terminates although the queue holds duplicates |
| FromMain.Visit | internal/analysis/decompile_from_main.go:132-212 | one turn of the loop, with its early exits and counters |
| FromMain.TouchClasses | internal/analysis/decompile_from_main.go:189-210 | the loop over pool loads with the class memo |
| FromMain.StepDecreases | internal/analysis/decompile_from_main.go:127-135 | every turn leaves fewer addresses to visit or a shorter queue |
| FromMain.VisitedIsReachability | internal/analysis/decompile_from_main.go:117-212 | when the queue empties, the visited set is the least one that contains main and is closed under call targets and methods of touched non-framework classes, so the memo loses nothing |
| FromMain.UncappedRunFinishes | internal/analysis/decompile_from_main.go:127-131 | without a cap the queue always empties |
| FromMain.EmissionsInOrder | internal/analysis/decompile_from_main.go:127-212 | whatever the cap, exactly the visited functions that are in range, not framework and built are emitted, each once, in nondecreasing distance from main |
| FromMain.CappedRunIsPrefix | internal/analysis/decompile_from_main.go:127-131 | a capped run emits a prefix of the uncapped run, never more than the cap |
| WalkOrder.FirstInFirstOut | internal/analysis/decompile_from_main.go:117-212 | whatever the cap, functions are visited first in, first out: each is the next that main, the call targets of the functions before it and the methods of the app classes they are first to touch offer; those in range, not framework and built are emitted in that order; framework, skipped and unnamed functions and touched app classes are counted exactly |
| WalkOrder.OrderIsUnique | internal/analysis/decompile_from_main.go:117-212 | the program determines that order |
| WalkOrder.CapKeepsTheFirst | internal/analysis/decompile_from_main.go:127-131 | a cap keeps exactly as many of the first functions of the order that are emitted as it says |
| FromMain.CountersAddUp | internal/analysis/decompile_from_main.go:137-212 | emitted, skipped and framework functions add up to the visited ones in range, plus one for each panic after an emission |
| Peephole.AlikeAnnotate | internal/disasm/annotate.go:174-233 | two states without a pending ADD annotate every instruction sequence alike, whatever they still hold |
| Peephole.StateIsThePendingAdd | internal/disasm/annotate.go:184-233 | before each instruction the state is the latest ADD that no later ADD, load through its register or write of its register has ended |
| Peephole.NoteIsThePairsNote | internal/disasm/annotate.go:184-233 | instruction k is annotated with a pool entry if and only if it loads through the register of an ADD that is still pending and the two offsets add up to that entry's; the text is the pool's |
| DisasmStage.WorkKeepsOutcome | internal/analysis/disasm_stage.go:174-300 | no step changes what a worker's current function will come out as, and that is the same after any earlier function |
| DisasmStage.StepIsLocal | internal/analysis/disasm_stage.go:318-327 | a step writes one slot, of its own stride, and one peephole state, its own |
| DisasmStage.StepsCommute | internal/analysis/disasm_stage.go:318-327 | steps of two workers can be exchanged |
| DisasmStage.KeptStep | internal/analysis/disasm_stage.go:318-327 | every step of every worker keeps the invariant of finished, current and untouched slots |
| DisasmStage.StepProgress | internal/analysis/disasm_stage.go:318-327 | every step brings the chunk nearer to its end, whichever worker takes it |
| DisasmStage.EveryInterleaving | internal/analysis/disasm_stage.go:310-328 | for every worker count, every peephole states left behind and every schedule, finished workers leave what one sequential pass computes |
| DisasmStage.Pool.Advance | internal/analysis/disasm_stage.go:174-300 | the step on the shared arrays |
| DisasmStage.Pool.RunChunk | internal/analysis/disasm_stage.go:310-328 | with the scheduler free to choose, the chunk ends as the sequential map over its ranges |
| DisasmStage.Pool.Drain | internal/analysis/disasm_stage.go:330-386 | the drain loop writes the slots in order and stops at the first worker's failure or failing write |
| DisasmStage.Write | internal/analysis/disasm_stage.go:340-385 | one record's entry, row, edges, flow graph, strings and unresolved accesses with their counters, up to the first write that fails |
| DisasmStage.RecordLeaves | internal/analysis/disasm_stage.go:340-385 | a record leaves in each file exactly the lines before the write that fails, and that write's error is reported |
| DisasmStage.RunDisasmStage | internal/analysis/disasm_stage.go:146-387 | for every number of processors and every scheduling, what is drained is what a single pass over the ranges drains |
| DisasmStage.DrainedInOrder | internal/analysis/disasm_stage.go:330-386 | the files are the records below the first slot that stops the drain, column by column in input order, then what is left of that one; its error is reported |
| DisasmStage.ExactIffClean | internal/analysis/disasm_stage.go:330-386 | they are exactly the records below it if and only if a worker's failure or the record's first write stops the drain |
| DisasmStage.CfgFailureIsPartial | internal/analysis/disasm_stage.go:361-367 | when a record's flow graph cannot be written, its entry, row and edges are in the files and nothing else of it |
| DisasmStage.DrainBalanced | internal/analysis/disasm_stage.go:353-385 | wherever the drain stops, the counters agree with the outputs: edges, annotated and unannotated BLRs, strings, unresolved accesses; functions too if and only if nothing is left of the record it stops at |
| DisasmStage.DrainedCounts | internal/analysis/disasm_stage.go:360-385 | whole records are counted as written, and flow graphs that were written as flow graphs |
| DisasmStage.BLRsAreCounted | internal/analysis/disasm_stage.go:351-358 | the BLR counters are the numbers of BLR edges, with a target found and in all |
| DisasmStage.UnreachedFault | internal/analysis/disasm_stage.go:340-385 | a write that does not take place cannot fail |
| DisasmStage.DrainGraph | internal/analysis/disasm_stage.go:360-372 | the call graph's records are the drained functions and edges, or none without the graph option, if and only if the drain does not stop between a record's row and its place in the graph |
| DisasmStage.StageIsSequential | internal/analysis/disasm_stage.go:146-387 | all of these for the whole stage; no error if and only if no worker and no write failed |
| ThrExtract.ExtractTHRFields | tools/extract_thr.go:1213-1374 | the loop over lines, with stack, seen set and result list, computes the merged fields of the lines it reads |
| ThrExtract.Move | tools/extract_thr.go:1222-1290 | a directive's effect on the stack; an #else or #endif without #if is ignored |
| ThrExtract.StackReadsTheTree | tools/extract_thr.go:1196-1290 | on every well-nested header the explicit stack sees, line by line, what a recursive reading of the tree sees |
| ThrExtract.FieldIsRead | tools/extract_thr.go:1186-1290 | a line inside of conditions is read if and only if one of them names the architecture, asks for the compression where the header has any, and has the wanted PRODUCT test innermost around it or in itself |
| ThrExtract.FindValue | tools/extract_thr.go:1346-1361 | a name takes the first value on the three lines after it |
| ThrExtract.NameTakesNextValue | tools/extract_thr.go:1346-1361 | a name becomes a field exactly with the first value on the three lines after it |
| ThrExtract.RightIffRegular | tools/extract_thr.go:1270-1282 | for every well-nested header and build, every line is read with the PRODUCT state and section a preprocessor's reading gives it, and outside of sections if that does not read it, if and only if the header is regular |
| ThrExtract.SkippedIffQuiet | tools/extract_thr.go:1222-1282 | of a part that the build does not have nothing is read if and only if no condition in it selects the build |
| ThrExtract.CollectsWhatIsMeant | tools/extract_thr.go:1218-1290 | of a regular header the lines harvested are those a preprocessor's reading selects: own test, else the failed tests before, else the innermost enclosing one, and no part after one taken or whose test fails |
| ThrExtract.OneElseIsRegular | tools/extract_thr.go:1147-1163 | headers of sections with a PRODUCT test of their own, or of sections inside a lone PRODUCT test with one else part at most, are regular for every build |
| ThrExtract.SecondElifIsMisread | tools/extract_thr.go:1270-1282 | a field in a second `#elif` after a PRODUCT test is lost |
| ThrExtract.ElifSectionIsLost | tools/extract_thr.go:1270-1282 | a field in an `#elif` that is itself the section is lost |
| ThrExtract.ElseOfBothIsMisread | tools/extract_thr.go:1270-1282 | the `#else` of a condition that says more than PRODUCT is taken for the half that is not PRODUCT |
| ThrExtract.OtherHalfIsRead | tools/extract_thr.go:1205-1212 | a field in a part for other builds inside of a section is read with the section |
| ThrExtract.TakenElifIsRegular | tools/extract_thr.go:1270-1282 | a part after one that was taken is read right, whatever its test, if and only if nothing in it is selected by the negated state |
| ThrExtract.FirstPerOffsetIsExact | tools/extract_thr.go:1296-1307 | the seen map keeps exactly the first entry of every offset |
| ThrExtract.ScalarsBeatWrappers | tools/extract_thr.go:1297-1374 | offsets are distinct and complete; a named scalar beats a write-barrier entry at its offset whichever comes first |
| ThrExtract.FieldsAre | tools/extract_thr.go:1292-1372 | a field is the first scalar at its offset, or the first register listed at an offset that no scalar has |
| ThrExtract.FirstOnesKeepOrder | tools/extract_thr.go:1292-1372 | fields come in the order of their lines, scalars first |
| ThrExtract.MergeWrappers | tools/extract_thr.go:1366-1372 | the loop over array entries after the scan |
| RuntimeEntries.ThreadTable.ByName | tools/extract_thr.go:2300-2303 | a reverse map of the table, whatever the iteration order |
| RuntimeEntries.ThreadTable.Place | tools/extract_thr.go:2340-2351 | one block's loop on the table in place, with its conflicts |
| RuntimeEntries.ThreadTable.FillRuntimeEntries | tools/extract_thr.go:2282-2353 | the table and the reported conflicts are those of the two blocks at their anchors |
| RuntimeEntries.FillIsExact | tools/extract_thr.go:2282-2353 | offset by offset: the header's names are never overwritten, then runtime entries, then leaf entries, and nothing else is added |
| RuntimeEntries.SlotsAreNamedOrReported | tools/extract_thr.go:2340-2351 | every predicted slot of an anchored block carries its entry's name or is reported as a conflict |
| RuntimeEntries.ConflictsAreExact | tools/extract_thr.go:2344-2350 | exactly the slots holding another name are reported |
| RuntimeEntries.TableIsExact | tools/extract_thr.go:2282-2353 | in names and bytes: entries lie eight bytes apart from the first one's own name, the leaf block without one from behind exit_through_ffi or, on versions that declare the blocks back to back, from behind the runtime block; the header's names stay, and nothing else is named |
| RuntimeEntries.ReportsAreExact | tools/extract_thr.go:2340-2351 | reported are exactly the slots that hold another name than predicted when their block comes |
| RuntimeEntries.ContiguousBlocksAreDisjoint | tools/extract_thr.go:2323-2331 | a leaf block placed by the contiguous rule shares no slot with the runtime block |
| RuntimeEntries.AnchorsAgree | tools/extract_thr.go:2312-2315 | the anchor slot keeps its own name and is never a conflict |
| Splice.RewriteVarLiterals | tools/extract_thr.go:2446-2450 | splicing in descending order equals replacing all literals at once, in whatever order they are listed |
| Splice.SpliceStep | tools/extract_thr.go:2448-2450 | each splice extends the replaced part of the file by one literal and the text up to the next |
| Splice.ReplacedCopies | tools/extract_thr.go:2448-2450 | text outside the literals survives unchanged and in order |
| Splice.OrderIsIrrelevant | tools/extract_thr.go:2446-2450 | the result does not depend on the order the edits are listed in |
| Splice.UpToDateIsUnchanged | tools/extract_thr.go:2446-2450 | regenerating literals that are up to date leaves the file as it is |
| SymtabDiff.AsmIdentifierInPlace | internal/analysis/symtabdiff.go:357-367 | every byte that is not alphanumeric becomes an underscore, in place |
| SymtabDiff.CollapsedIsJoined | internal/analysis/symtabdiff.go:398-413 | collapsing leaves the alphanumeric runs with one underscore between them and at most one at either end |
| SymtabDiff.SqueezedIsJoined | internal/analysis/symtabdiff.go:398-414 | the squeezed and trimmed form is the name's alphanumeric runs joined by underscores |
| SymtabDiff.SameSqueezedIffSameWords | internal/analysis/symtabdiff.go:398-414 | two squeezed forms are equal if and only if the names have the same sequence of alphanumeric runs |
| SymtabDiff.Fold | internal/analysis/symtabdiff.go:398-414 | the loops of asmFold compute the fold |
| SymtabDiff.Undouble | internal/analysis/symtabdiff.go:592-609 | the scan computes the collapse at the first doubled place |
| SymtabDiff.LongestDoubleIsCollapsed | internal/analysis/symtabdiff.go:592-609 | of all adjacent repeated tails the longest is removed |
| SymtabDiff.UndoubledIsKept | internal/analysis/symtabdiff.go:592-609 | a name without one stays as it is |
| SymtabDiff.DoubledNameCollapses | internal/analysis/symtabdiff.go:592-609 | X_X becomes X if and only if X is not empty and does not end in an underscore |
| Repetitions.CopiesHalve | internal/analysis/symtabdiff.go:592-609 | n copies of a word, with or without something in front, collapse to half of them, rounded up |
| Repetitions.CopyInFront | internal/analysis/symtabdiff.go:592-609 | for every nonempty word without an underscore, copies of it in front of a name leave its collapse as it was if and only if it is one copy and the whole becomes an even number of them |
| TearOffs.KeptIffUndoubled | internal/analysis/symtabdiff.go:592-609 | a name is kept if and only if it has no doubled tail |
| TearOffs.RepeatedNameIsStable | internal/analysis/symtabdiff.go:592-609 | for n copies of a word, collapsing again changes nothing if and only if n is at most 2 |
| TearOffs.FoldIsStable | internal/analysis/symtabdiff.go:592-609 | for any name, if and only if the name without its longest doubled tail has no other |
| TearOffs.TearOffFoldsToSingle | internal/analysis/symtabdiff.go:575-591 | a top-level tear-off folds to the function's squeezed name, and like the function if and only if that has no doubled tail |
| TearOffs.OwnedTearOff | internal/analysis/symtabdiff.go:575-591 | a tear-off with an owner folds like the method, whose name has no doubled tail, if and only if nothing longer than the method is doubled |
| TearOffs.OwnedDoubledTearOff | internal/analysis/symtabdiff.go:575-591 | and for a method whose name has one, if and only if that tail with the method behind it is the longest of the doubled name |
| TearOffs.PlainTearOff | internal/analysis/symtabdiff.go:575-591 | when no other word ends with the method's last one, the tear-off folds like the method, with or without an owner |
| SymtabDiff.RenderingBody | internal/analysis/symtabdiff.go:337-353 | prefix and index come off a rendering and nothing else does |
| SymtabDiff.OwnRenderingAgrees | internal/analysis/symtabdiff.go:242-253 | every name is accepted against the oldest dialect's own rendering of it unless its identifier begins with a stub prefix |
| SymbolVerdicts.SymbolVerdict | internal/analysis/symtabdiff.go:242-387 | the verdict on any name and any symbol of the dialect, from its words, its prefix and what is left without white space and index |
| SymbolVerdicts.OtherDialect | internal/analysis/symtabdiff.go:337-341 | a symbol without the dialect's prefix is left to the others |
| SymbolVerdicts.OtherNameVerdict | internal/analysis/symtabdiff.go:242-253 | against the rendering of another name, without stub prefix and doubled tails, a name is accepted if and only if the words are the same |
| SymbolVerdicts.NormalizedIs | internal/analysis/symtabdiff.go:89-113 | of a recovered name a final dot comes off and blanks become underscores |
| SymbolVerdicts.QualifiedIs | internal/analysis/symtabdiff.go:369-387 | a constructor's owner, up to the first dot, is written in front once more |
| SymbolVerdicts.DropIndexIs | internal/analysis/symtabdiff.go:331-342 | an underscore and digits at the end come off, and nothing else does |
| OwnRendering.OwnRenderingVerdict | internal/analysis/symtabdiff.go:242-253 | for every name, acceptance against its own rendering is decided: always without a stub prefix, and exactly by the words of the name with one |
| OwnRendering.StubVerdict | internal/analysis/symtabdiff.go:337-353 | with the Stub_ prefix: if and only if all words are "Stub" and their number is even |
| OwnRendering.AllocationVerdict | internal/analysis/symtabdiff.go:337-387 | a `new` name with the AllocationStub_ prefix: if and only if the owner is that word, or that word twice and the words are an odd number of it |
| OwnRendering.StubMethod | internal/analysis/symtabdiff.go:337-353 | a method of a class called Stub is accepted if and only if its words are an odd number of "Stub" |
| OwnRendering.MethodsOfClassStub | internal/analysis/symtabdiff.go:337-353 | `Stub.run` and `Stub.run.run` are rejected against their own renderings, `Stub.Stub` is accepted |
| NameComparison.CompareNamesToSymbols | internal/analysis/symtabdiff.go:180-211 | whatever order the maps are iterated in, every address is counted once, and listed by address are exactly those whose name agrees with its symbol neither by its own spelling nor by a second one; a stripped build gives an empty comparison |
| NameComparison.CountsAddUp | internal/analysis/symtabdiff.go:180-211 | agreeing and disagreeing names add up to the compared ones, and compared and one-sided ones to each table |

## Left out

- Errors are kinds (end of data, overrun, out of range, bad value); message texts and the diagnostic strings are not modelled.
- References, offsets and counters are mathematical integers where the code uses int or int64; the widths that matter (varints, tagged values, PC offsets, text offsets) are written out.
- Alloc functions that differ only in whether lengths and canonical sets follow the count are one shape, `ClusterAlloc.Shape`.
- The class id tables and version numbers are parameters; so is the byte count of a fill kind without a reader in this project (strings, fields, types, functions, arrays, read-only data and the others).
- Read-only data extraction, type class resolution and the data image offset in `ReadFill`.
- A run-time panic is an outcome of the model (a negative table length, a cluster count below zero, a table offset of 2^63 or more); what the process does next is not.
- FromMain.RunFromMain: entry point selection, Frida hooks, statistics, flushing and garbage collection are not modelled; a panic while building is a failed build, a later one keeps what was queued before it.
- DisasmStage.RunDisasmStage: peephole states and goroutine variables are values in arrays, so two workers sharing one object cannot be expressed; instruction decoding, formatting and record contents are functions of the range and the annotations, and which writes fail is part of them; what a failing write leaves of its own line, and the call graph's file after the loop, are not modelled.
- DisasmStage.EveryInterleaving: the grain is one annotated instruction; word-level memory effects within a step are not modelled.
- FillCode.ReadFillCode: the codes read before an error, which the function returns and its only caller drops.
- FillClass.ReadFillClass: the same for classes; the list of class names is part of the class records.
- FillInstance.ReadFillInstance: the same for instances.
- Fill.Result.FillCluster: kinds other than Class, Code, Instance and ObjectPool are a number of bytes.
- Fill.Result.ReadFill: the extraction of read-only data after the last cluster.
- Fill.MemoServesIff: different bitmaps can still give the same instances, for instance of an empty cluster; that is not told apart.
- Snapshots.LoadWritten: clusters of kinds without a reader are bytes that their kind's length function recognises.
- ThrExtract.ExtractTHRFields: lines are tokens; regular expressions, line continuations and the lines of an array body are not modelled, and a condition over several lines counts as one line when a value is looked for.
- ThrExtract.RightIffRegular: conditions are conjunctions of tests; a disjunction counts as what it mentions, an architecture that is named as one that is asked for, and a condition that selects the build as one that holds.
- ThrExtract.CollectsWhatIsMeant: headers that are not well nested are read by the stack but have no tree.
- RuntimeEntries.ThreadTable.FillRuntimeEntries: fetching and caching the entry lists.
- Splice.RewriteVarLiterals: parsing the Go file and the list of missing variables; sorting stands for the library's.
- SymtabDiff.OwnRenderingAgrees: the suffix stripping of recovered names is an arbitrary function; white space is ASCII.
- The scrubbed and prose dialects of `NamesAgree` and the operator table of `addAssemblerIdentifier`.
- ELF files, snapshot extraction, reports, the command line, Ghidra and IDA scripts, network access.
