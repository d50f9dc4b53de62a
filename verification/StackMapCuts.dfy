/** Stack maps cut off in the middle: which cuts the decoder refuses and what it makes of the others. */
module StackMapCuts {
  import opened Wire
  import opened StackMaps

  // ---------- a value cut off ----------

  lemma {:induction false} LebAppend(v: nat, k: Bytes)
    ensures PutLeb(v, k) == PutLeb(v, []) + k
  {
    if v >= 128 {
      LebAppend(v / 128, k);
      assert [v % 128 + 128] + (PutLeb(v / 128, []) + k) == [v % 128 + 128] + PutLeb(v / 128, []) + k;
    }
  }

  lemma {:induction false} LebLength(v: nat, n: nat)
    requires n > 0 && v < Pow2(7 * n)
    ensures 0 < |PutLeb(v, [])| <= n
  {
    if v >= 128 {
      if n == 1 { assert Pow2(7) == 128 by { Pow2Seven(0); } }
      Pow2Seven(7 * n - 7);
      LebLength(v / 128, n - 1);
    }
  }

  lemma {:induction false} LebBytes(v: nat, i: nat)
    requires i < |PutLeb(v, [])| - 1
    ensures PutLeb(v, [])[i] >= 128
  {
    if v >= 128 && i > 0 { LebBytes(v / 128, i - 1); }
  }

  /** No more bytes than a 64-bit value has, and none of them ends it: the value is zero and nothing is left. */
  lemma {:induction false} ShortCutReadsZero(s: Bytes, r: nat, shift: nat, weight: nat)
    requires Unterminated(s) && shift + 7 * |s| <= 63
    ensures LebFrom(s, r, shift, weight) == Leb(0, [])
    decreases |s|
  {
    if s != [] { ShortCutReadsZero(s[1..], AsUint64(r + (s[0] % 128) * weight), shift + 7, 128 * weight); }
  }

  lemma CutLebReadsZero(v: nat, m: nat)
    requires v < TWO_64 && m < |PutLeb(v, [])|
    ensures ReadLeb(PutLeb(v, [])[..m]) == Leb(0, [])
  {
    hide LebFrom, PutLeb;
    Powers();
    LebLength(v, 10);
    var s := PutLeb(v, [])[..m];
    forall i | 0 <= i < m ensures s[i] >= 128 { LebBytes(v, i); }
    ShortCutReadsZero(s, 0, 0, 1);
  }

  lemma NothingReadsZero()
    ensures ReadLeb([]) == Leb(0, [])
  {
  }

  // ---------- a body cut off ----------

  function SpillSize(e: Entry): nat { |PutLeb(e.spill, [])| }
  function SavedSize(e: Entry): nat { |PutLeb(e.saved, [])| }

  /** The cuts of a body that are refused: in the bitmap, or in the second count when the first promises one. */
  predicate Refused(e: Entry, m: nat) {
    m >= SpillSize(e) + SavedSize(e) || (m >= SpillSize(e) && e.spill > 0)
  }

  lemma BodyInParts(e: Entry)
    ensures PutBody(e, []) == PutLeb(e.spill, []) + PutLeb(e.saved, []) + e.bits
  {
    LebAppend(e.spill, PutLeb(e.saved, e.bits + []));
    LebAppend(e.saved, e.bits + []);
  }

  /** A body cut off anywhere is refused, or read as an empty entry. */
  lemma BodyCut(e: Entry, m: nat)
    requires e.WellFormed() && m < |PutBody(e, [])|
    ensures ReadBody(PutBody(e, [])[..m]) == if Refused(e, m) then None else Some((Entry(0, 0, 0, []), []))
  {
    hide PutBody, ReadLeb, PutLeb, ByteCount, ReadBody, Entry.WellFormed;
    BodyInParts(e);
    var a, b := PutLeb(e.spill, []), PutLeb(e.saved, []);
    if m < |a| {
      assert (a + b + e.bits)[..m] == a[..m];
      CutInSpill(e, m);
    } else if m < |a| + |b| {
      assert (a + b + e.bits)[..m] == a + b[..m - |a|];
      CutInSaved(e, m - |a|);
    } else {
      assert (a + b + e.bits)[..m] == a + b + e.bits[..m - |a| - |b|];
      CutInBits(e, m - |a| - |b|);
    }
  }

  lemma CutInSpill(e: Entry, m: nat)
    requires e.WellFormed() && m < SpillSize(e)
    ensures ReadBody(PutLeb(e.spill, [])[..m]) == Some((Entry(0, 0, 0, []), []))
  {
    hide ReadLeb, PutLeb;
    CutLebReadsZero(e.spill, m);
    NothingReadsZero();
  }

  lemma CountsFit(e: Entry)
    requires e.WellFormed()
    ensures e.spill <= MAX_BITS && e.saved <= MAX_BITS && MAX_BITS < TWO_64
    ensures ByteCount(e.spill + 0) > 0 <==> e.spill > 0
  {
  }

  lemma CutInSaved(e: Entry, m: nat)
    requires e.WellFormed() && m < SavedSize(e)
    ensures ReadBody(PutLeb(e.spill, []) + PutLeb(e.saved, [])[..m])
         == if e.spill > 0 then None else Some((Entry(0, 0, 0, []), []))
  {
    hide ReadLeb, PutLeb, ByteCount, Entry.WellFormed;
    CountsFit(e);
    var t := PutLeb(e.saved, [])[..m];
    LebAppend(e.spill, t);
    LebRoundTrip(e.spill, t);
    CutLebReadsZero(e.saved, m);
  }

  lemma CutInBits(e: Entry, m: nat)
    requires e.WellFormed() && m < |e.bits|
    ensures ReadBody(PutLeb(e.spill, []) + PutLeb(e.saved, []) + e.bits[..m]) == None
  {
    hide ReadLeb, PutLeb, ByteCount;
    var t := e.bits[..m];
    assert PutLeb(e.spill, []) + PutLeb(e.saved, []) + t == PutLeb(e.spill, []) + (PutLeb(e.saved, []) + t);
    LebAppend(e.saved, t);
    LebAppend(e.spill, PutLeb(e.saved, []) + t);
    LebRoundTrip(e.spill, PutLeb(e.saved, t));
    LebRoundTrip(e.saved, t);
  }

  // ---------- a list cut off ----------

  function PutDelta(d: Delta): Bytes {
    PutLeb(d.delta, PutBody(d.body, []))
  }

  /** The first j bytes of an entry are refused as a whole. */
  predicate CutRefused(d: Delta, j: nat) {
    var n := |PutLeb(d.delta, [])|;
    j == 0 || (j >= n && Refused(d.body, j - n))
  }

  /** What they add otherwise: an empty entry, at its own PC if the delta is all there. */
  function Remainder(d: Delta, j: nat, pc: nat): seq<Entry> {
    if CutRefused(d, j) then []
    else if j < |PutLeb(d.delta, [])| then [Entry(AsUint32(pc), 0, 0, [])]
    else [Entry(AsUint32(pc + d.delta), 0, 0, [])]
  }

  lemma DeltaCut(d: Delta, j: nat, pc: nat, acc: seq<Entry>)
    requires d.Valid() && j < |PutDelta(d)|
    ensures StandaloneFrom(PutDelta(d)[..j], pc, acc) == acc + Remainder(d, j, pc)
  {
    hide PutLeb, PutBody, ReadLeb, ReadBody, Refused, AsUint32, Entry.WellFormed;
    var a, b := PutLeb(d.delta, []), PutBody(d.body, []);
    LebAppend(d.delta, b);
    if j == 0 {
      assert PutDelta(d)[..j] == [];
    } else if j < |a| {
      assert (a + b)[..j] == a[..j];
      CutLebReadsZero(d.delta, j);
      NothingReads();
    } else {
      var t := b[..j - |a|];
      assert (a + b)[..j] == a + t;
      LebAppend(d.delta, t);
      LebRoundTrip(d.delta, t);
      BodyCut(d.body, j - |a|);
    }
  }

  lemma NothingReads()
    ensures ReadBody([]) == Some((Entry(0, 0, 0, []), []))
  {
    NothingReadsZero();
  }

  lemma {:induction false} StandaloneAppend(ds: seq<Delta>, k: Bytes)
    ensures PutStandalone(ds, k) == PutStandalone(ds, []) + k
  {
    hide PutLeb;
    if ds != [] {
      var d, t := ds[0], PutStandalone(ds[1..], []);
      StandaloneAppend(ds[1..], k);
      DeltaAppend(d, t);
      DeltaAppend(d, t + k);
      assert PutDelta(d) + (t + k) == PutDelta(d) + t + k;
    }
  }

  lemma DeltaAppend(d: Delta, k: Bytes)
    ensures PutLeb(d.delta, PutBody(d.body, k)) == PutDelta(d) + k
  {
    hide PutLeb;
    var a, b, c := PutLeb(d.delta, []), PutLeb(d.body.spill, []), PutLeb(d.body.saved, []);
    LebAppend(d.body.saved, d.body.bits + k);
    LebAppend(d.body.spill, c + (d.body.bits + k));
    LebAppend(d.delta, PutBody(d.body, k));
    LebAppend(d.delta, PutBody(d.body, []));
    BodyInParts(d.body);
    assert b + (c + (d.body.bits + k)) == b + c + d.body.bits + k;
    assert a + (b + c + d.body.bits + k) == a + (b + c + d.body.bits) + k;
  }

  /** Which entry a cut falls in. */
  lemma {:induction false} CutEntry(ds: seq<Delta>, m: nat) returns (i: nat, j: nat)
    requires m < |PutStandalone(ds, [])|
    ensures i < |ds| && j < |PutDelta(ds[i])| && m == |PutStandalone(ds[..i], [])| + j
    ensures PutStandalone(ds, [])[..m] == PutStandalone(ds[..i], PutDelta(ds[i])[..j])
  {
    hide PutLeb, PutDelta, PutBody;
    var d, rest := ds[0], PutStandalone(ds[1..], []);
    DeltaAppend(d, rest);
    var n := |PutDelta(d)|;
    if m < n {
      i, j := 0, m;
      assert ds[..0] == [];
      assert (PutDelta(d) + rest)[..m] == PutDelta(d)[..m];
    } else {
      i, j := CutEntry(ds[1..], m - n);
      var cut := PutDelta(ds[1..][i])[..j];
      assert ds[..i + 1][1..] == ds[1..][..i] && ds[..i + 1][0] == d;
      DeltaAppend(d, PutStandalone(ds[1..][..i], cut));
      DeltaAppend(d, PutStandalone(ds[1..][..i], []));
      assert (PutDelta(d) + rest)[..m] == PutDelta(d) + rest[..m - n];
      i := i + 1;
    }
  }

  /** A written list cut off anywhere: the entries before the cut, and an empty one unless the entry cut
      into is refused. */
  lemma ListCut(ds: seq<Delta>, m: nat) returns (i: nat, j: nat)
    requires AllValid(ds) && m < |PutStandalone(ds, [])|
    ensures i < |ds| && j < |PutDelta(ds[i])| && m == |PutStandalone(ds[..i], [])| + j
    ensures StandaloneFrom(PutStandalone(ds, [])[..m], 0, [])
         == Placed(ds[..i], 0) + Remainder(ds[i], j, EndPC(ds[..i], 0))
    ensures StandaloneFrom(PutStandalone(ds, [])[..m], 0, []) == Placed(ds[..i], 0) <==> CutRefused(ds[i], j)
  {
    hide PutStandalone, PutDelta, StandaloneFrom, Placed, CutRefused, EndPC;
    i, j := CutEntry(ds, m);
    var k := PutDelta(ds[i])[..j];
    var last := StandalonePrefix(ds[..i], k, 0, []);
    assert [] + Placed(ds[..i], 0) == Placed(ds[..i], 0);
    DeltaCut(ds[i], j, last, Placed(ds[..i], 0));
    assert |Placed(ds[..i], 0) + Remainder(ds[i], j, last)| == |Placed(ds[..i], 0)| + |Remainder(ds[i], j, last)|;
  }

  lemma OneByte(v: Byte, k: Bytes)
    requires v < 128
    ensures ReadLeb([v] + k) == Leb(v, k)
  {
    LebStep(v, k, 0, 0, 1);
  }

  lemma OneStep(s: Bytes, delta: nat, rest: Bytes)
    requires s != [] && ReadLeb(s) == Leb(delta, rest) && delta < TWO_32
    ensures ReadBody(rest).None? ==> StandaloneFrom(s, 0, []) == []
    ensures ReadBody(rest).Some? ==>
      StandaloneFrom(s, 0, []) == StandaloneFrom(ReadBody(rest).value.1, delta, [ReadBody(rest).value.0.(pcOffset := delta)])
  {
    hide ReadLeb, ReadBody;
    if ReadBody(rest).Some? {
      var e := ReadBody(rest).value.0.(pcOffset := delta);
      assert [] + [e] == [e];
    }
  }

  lemma CutCounts()
    ensures ReadBody([3]) == None
  {
    hide ReadLeb;
    assert [3] == [3] + [];
    OneByte(3, []);
    NothingReadsZero();
  }

  /** An entry cut off right after its delta is accepted; one count later it is refused. */
  lemma CutAfterDelta()
    ensures StandaloneFrom([5], 0, []) == [Entry(5, 0, 0, [])] && StandaloneFrom([5, 3], 0, []) == []
  {
    hide ReadLeb, ReadBody, StandaloneFrom;
    assert [5] == [5] + [] && [5, 3] == [5] + [3];
    OneByte(5, []);
    OneByte(5, [3]);
    NothingReads();
    CutCounts();
    OneStep([5], 5, []);
    OneStep([5, 3], 5, [3]);
    StandaloneOfNothing(5, [Entry(5, 0, 0, [])]);
  }
}
