/** The byte stream of a Dart snapshot and its variable-length integers.

    `Stream` is the reader: a position over the snapshot's bytes.  Every read is specified by a
    function on the unread bytes, and every such function is the left inverse of a writer `Put...`.
    A writer takes the bytes that follow it, so writers nest instead of being concatenated. */
module Wire {

  type Byte = b: int | 0 <= b < 256
  type Bytes = seq<Byte>

  datatype Option<+T> = None | Some(value: T)

  datatype ReadError = EndOfData | Overrun | OutOfRange | BadValue

  /** The outcome of a read: the value, or the error, and the bytes not yet consumed. */
  datatype Parsed<+T> = Done(value: T, rest: Bytes) | Fail(error: ReadError, rest: Bytes) {
    predicate IsFailure() { Fail? }

    function PropagateFailure<U>(): Parsed<U>
      requires Fail?
    {
      Fail(error, rest)
    }

    function Extract(): (T, Bytes)
      requires Done?
    {
      (value, rest)
    }

    /** What the reading method itself returns. */
    function Returned(): Result<T> {
      match this
      case Done(v, _) => Ok(v)
      case Fail(e, _) => Err(e)
    }
  }

  /** A returned value or a returned error. */
  datatype Result<+T> = Ok(value: T) | Err(error: ReadError) {
    predicate IsFailure() { Err? }

    function PropagateFailure<U>(): Result<U>
      requires Err?
    {
      Err(error)
    }

    function Extract(): T
      requires Ok?
    {
      value
    }
  }

  // ---------- machine integers ----------

  const TWO_63: int := 0x8000_0000_0000_0000
  const TWO_64: int := 0x1_0000_0000_0000_0000
  const TWO_32: int := 0x1_0000_0000

  function Pow2(n: nat): (p: nat)
    ensures p >= 1
  {
    if n == 0 then 1 else 2 * Pow2(n - 1)
  }

  /** Go's conversion to int64: keep 64 bits, two's complement. */
  function Wrap64(x: int): (r: int)
    ensures -TWO_63 <= r < TWO_63
    ensures -TWO_63 <= x < TWO_63 ==> r == x
  {
    var m := x % TWO_64;
    if m < TWO_63 then m else m - TWO_64
  }

  /** Go's conversion to uint64. */
  function AsUint64(x: int): (r: int)
    ensures 0 <= r < TWO_64
    ensures 0 <= x < TWO_64 ==> r == x
  {
    x % TWO_64
  }

  function AsUint32(x: int): (r: int)
    ensures 0 <= r < TWO_32
    ensures 0 <= x < TWO_32 ==> r == x
  {
    x % TWO_32
  }

  /** Go's conversion to int32. */
  function AsInt32(x: int): (r: int)
    ensures -0x8000_0000 <= r < 0x8000_0000
    ensures -0x8000_0000 <= x < 0x8000_0000 ==> r == x
  {
    var m := x % TWO_32;
    if m < 0x8000_0000 then m else m - TWO_32
  }

  /** Bit i of a number. */
  predicate BitOf(n: nat, i: nat) {
    if i == 0 then n % 2 == 1 else BitOf(n / 2, i - 1)
  }

  lemma {:induction false} Int32ThroughUint32(x: int)
    requires -0x8000_0000 <= x < 0x8000_0000
    ensures AsInt32(AsUint32(x)) == x
  {
    if x < 0 {
      assert x % TWO_32 == x + TWO_32;
    }
  }

  lemma Uint64ThroughInt64(x: int)
    requires 0 <= x < TWO_64
    ensures AsUint64(Wrap64(x)) == x
  {
    assert Wrap64(x) == if x < TWO_63 then x else x - TWO_64;
  }

  lemma {:induction false} Pow2Add(a: nat, b: nat)
    ensures Pow2(a + b) == Pow2(a) * Pow2(b)
  {
    if a > 0 {
      Pow2Add(a - 1, b);
    }
  }

  lemma SmallPowers()
    ensures Pow2(0) == 1 && Pow2(1) == 2 && Pow2(3) == 8 && Pow2(6) == 64 && Pow2(7) == 128
  {
    assert Pow2(3) == 8 && Pow2(4) == 16;
    Pow2Add(3, 3);
    Pow2Add(3, 4);
  }

  lemma {:induction false} Pow2Seven(n: nat)
    ensures Pow2(n + 7) == 128 * Pow2(n)
  {
    hide Pow2;
    SmallPowers();
    Pow2Add(n, 7);
  }

  // ---------- reading ----------

  function ReadByte(s: Bytes): Parsed<Byte> {
    if s == [] then Fail(EndOfData, s) else Done(s[0], s[1..])
  }

  /** The shared loop of the three varints, about to read the byte at `shift`, whose data bits weigh
      `weight` = 2^shift, with `r` accumulated below them.  The bits or-ed in never overlap `r`, so
      the loop's `|` is an addition; only the final byte can leave the 64-bit range. */
  function VarintFrom(s: Bytes, r: int, shift: nat, weight: nat, endMarker: int, maxShift: nat): (p: Parsed<int>)
    ensures |p.rest| <= |s| && (s != [] ==> |p.rest| < |s|)
  {
    if s == [] then Fail(EndOfData, s)
    else if s[0] > 127 then Done(Wrap64(r + (s[0] - endMarker) * weight), s[1..])
    else if shift >= maxShift then Fail(Overrun, s[1..])
    else VarintFrom(s[1..], r + s[0] * weight, shift + 7, 128 * weight, endMarker, maxShift)
  }

  function ReadVarint(s: Bytes, endMarker: int, maxShift: nat): (p: Parsed<int>)
    ensures |p.rest| <= |s| && (s != [] ==> |p.rest| < |s|)
    ensures p.Done? ==> s != []
  {
    VarintFrom(s, 0, 0, 1, endMarker, maxShift)
  }

  function ReadUnsigned(s: Bytes): (p: Parsed<int>)
    ensures |p.rest| <= |s|
  {
    ReadVarint(s, 128, 63)
  }

  function ReadTagged64(s: Bytes): (p: Parsed<int>)
    ensures |p.rest| <= |s| && (s != [] ==> |p.rest| < |s|)
    ensures p.Done? ==> s != []
  {
    ReadVarint(s, 192, 63)
  }

  function ReadTagged32(s: Bytes): (p: Parsed<int>)
    ensures |p.rest| <= |s| && (s != [] ==> |p.rest| < |s|)
    ensures p.Done? ==> s != [] && 0 <= p.value < TWO_32
  {
    var (v, rest) :- ReadVarint(s, 192, 28);
    Done(AsUint32(v), rest)
  }

  /** A byte read as int8. */
  function Signed(b: Byte): int {
    if b < 128 then b else b - 256
  }

  /** The big-endian reference id, with `left` of its five bytes still allowed. */
  function RefIdFrom(s: Bytes, acc: int, left: nat): Parsed<int> {
    if left == 0 then Fail(Overrun, s)
    else if s == [] then Fail(EndOfData, s)
    else
      var r := Signed(s[0]) + acc * 128;
      if Signed(s[0]) < 0 then Done(r + 128, s[1..]) else RefIdFrom(s[1..], r, left - 1)
  }

  function ReadRefId(s: Bytes): Parsed<int> {
    RefIdFrom(s, 0, 5)
  }

  /** A fill-phase reference: unsigned up to 2.17, a reference id from 2.18. */
  function ReadRef(s: Bytes, refUnsigned: bool): Parsed<int> {
    if refUnsigned then ReadUnsigned(s) else ReadRefId(s)
  }

  // ---------- writing ----------

  /** Seven bits a byte, least significant first, the last byte offset by 128. */
  function PutUnsigned(v: nat, k: Bytes): Bytes {
    if v < 128 then [v + 128] + k else [v % 128] + PutUnsigned(v / 128, k)
  }

  /** The same with a signed last byte, offset by 192. */
  function PutTagged(v: int, k: Bytes): Bytes
    decreases if v < 0 then -v else v
  {
    if -64 <= v <= 63 then [v + 192] + k else [v % 128] + PutTagged(v / 128, k)
  }

  /** The seven-bit digits of h, most significant first; nothing for zero. */
  function PutDigits(h: nat, k: Bytes): Bytes {
    if h == 0 then k else PutDigits(h / 128, [h % 128] + k)
  }

  function DigitCount(h: nat): nat {
    if h == 0 then 0 else 1 + DigitCount(h / 128)
  }

  function PutRefId(v: nat, k: Bytes): Bytes {
    PutDigits(v / 128, [v % 128 + 128] + k)
  }

  function PutRef(v: nat, refUnsigned: bool, k: Bytes): Bytes {
    if refUnsigned then PutUnsigned(v, k) else PutRefId(v, k)
  }

  /** References the format can carry. */
  predicate FitsRef(v: int) {
    0 <= v < 0x8_0000_0000
  }

  // ---------- each reader inverts its writer ----------

  /** What one more data byte contributes. */
  lemma DigitStep(v: int, r: int, p: int)
    ensures r + (v % 128) * p + (v / 128) * (128 * p) == r + v * p
  {
    var q, m := v / 128, v % 128;
    assert v == 128 * q + m;
    assert (128 * q + m) * p == q * (128 * p) + m * p;
  }

  lemma LastByte(b: Byte, k: Bytes, r: int, shift: nat, weight: nat, endMarker: int, maxShift: nat)
    requires b > 127
    ensures VarintFrom([b] + k, r, shift, weight, endMarker, maxShift) == Done(Wrap64(r + (b - endMarker) * weight), k)
  {
    hide Wrap64;
    assert ([b] + k)[1..] == k;
  }

  lemma DataByte(b: Byte, k: Bytes, r: int, shift: nat, weight: nat, endMarker: int, maxShift: nat)
    requires b <= 127 && shift < maxShift
    ensures VarintFrom([b] + k, r, shift, weight, endMarker, maxShift)
         == VarintFrom(k, r + b * weight, shift + 7, 128 * weight, endMarker, maxShift)
  {
    hide Wrap64;
    assert ([b] + k)[1..] == k;
  }

  lemma {:induction false} UnsignedFrom(v: nat, k: Bytes, r: int, shift: nat, weight: nat)
    requires shift % 7 == 0 && shift <= 63 && v < Pow2(70 - shift)
    ensures VarintFrom(PutUnsigned(v, k), r, shift, weight, 128, 63) == Done(Wrap64(r + v * weight), k)
    decreases v
  {
    hide VarintFrom, Wrap64, Pow2;
    if v < 128 {
      LastByte(v + 128, k, r, shift, weight, 128, 63);
    } else {
      NextUnsignedFits(v, shift);
      DataByte(v % 128, PutUnsigned(v / 128, k), r, shift, weight, 128, 63);
      UnsignedFrom(v / 128, k, r + (v % 128) * weight, shift + 7, 128 * weight);
      DigitStep(v, r, weight);
    }
  }

  lemma NextUnsignedFits(v: nat, shift: nat)
    requires shift % 7 == 0 && shift <= 63 && 128 <= v < Pow2(70 - shift)
    ensures shift < 63 && v / 128 < Pow2(63 - shift)
  {
    hide Pow2;
    SmallPowers();
    Pow2Seven(63 - shift);
  }

  lemma {:induction false} TaggedFrom(v: int, k: Bytes, r: int, shift: nat, weight: nat, maxShift: nat)
    requires shift <= maxShift && (maxShift - shift) % 7 == 0
    requires -v <= Pow2(maxShift + 6 - shift) && v < Pow2(maxShift + 6 - shift)
    ensures VarintFrom(PutTagged(v, k), r, shift, weight, 192, maxShift) == Done(Wrap64(r + v * weight), k)
    decreases if v < 0 then -v else v
  {
    hide VarintFrom, Wrap64, Pow2;
    if -64 <= v <= 63 {
      LastByte(v + 192, k, r, shift, weight, 192, maxShift);
    } else {
      NextTaggedFits(v, maxShift - shift);
      DataByte(v % 128, PutTagged(v / 128, k), r, shift, weight, 192, maxShift);
      TaggedFrom(v / 128, k, r + (v % 128) * weight, shift + 7, 128 * weight, maxShift);
      DigitStep(v, r, weight);
    }
  }

  lemma NextTaggedFits(v: int, left: nat)
    requires left % 7 == 0 && !(-64 <= v <= 63) && -v <= Pow2(left + 6) && v < Pow2(left + 6)
    ensures left >= 7 && -(v / 128) <= Pow2(left - 1) && v / 128 < Pow2(left - 1)
  {
    hide Pow2;
    SmallPowers();
    Pow2Seven(left - 1);
  }

  lemma Powers()
    ensures Pow2(70) == 64 * TWO_64 && Pow2(69) == 32 * TWO_64 && Pow2(34) == 4 * TWO_32
  {
    hide Pow2;
    SmallPowers();
    Pow2Seven(6); Pow2Seven(13); Pow2Seven(20); Pow2Seven(27);
    Pow2Seven(34); Pow2Seven(41); Pow2Seven(48); Pow2Seven(55); Pow2Seven(62);
    Pow2Add(1, 69);
  }

  /** Every 64-bit pattern survives, whether the caller keeps it signed or not. */
  lemma UnsignedRoundTrip(v: nat, k: Bytes)
    requires v < TWO_64
    ensures ReadUnsigned(PutUnsigned(v, k)) == Done(Wrap64(v), k)
    ensures v < TWO_63 ==> ReadUnsigned(PutUnsigned(v, k)) == Done(v, k)
  {
    hide VarintFrom, Pow2;
    Powers();
    UnsignedFrom(v, k, 0, 0, 1);
  }

  lemma Tagged64RoundTrip(v: int, k: Bytes)
    requires -TWO_63 <= v < TWO_63
    ensures ReadTagged64(PutTagged(v, k)) == Done(v, k)
  {
    hide VarintFrom, Pow2;
    Powers();
    TaggedFrom(v, k, 0, 0, 1, 63);
  }

  /** The 32-bit reader serves int32 and uint32 values alike. */
  lemma Tagged32RoundTrip(v: int, k: Bytes)
    requires -0x8000_0000 <= v < TWO_32
    ensures ReadTagged32(PutTagged(v, k)) == Done(AsUint32(v), k)
  {
    hide VarintFrom, Pow2;
    Powers();
    TaggedFrom(v, k, 0, 0, 1, 28);
  }

  lemma {:induction false} DigitsFrom(h: nat, k: Bytes, left: nat)
    requires DigitCount(h) < left
    ensures RefIdFrom(PutDigits(h, k), 0, left) == RefIdFrom(k, h, left - DigitCount(h))
    decreases h
  {
    if h > 0 {
      DigitsFrom(h / 128, [h % 128] + k, left);
      assert ([h % 128] + k)[1..] == k;
    }
  }

  lemma RefIdRoundTrip(v: nat, k: Bytes)
    requires FitsRef(v)
    ensures ReadRefId(PutRefId(v, k)) == Done(v, k)
  {
    var h := v / 128;
    FourDigits(h);
    var last := [v % 128 + 128] + k;
    DigitsFrom(h, last, 5);
    assert last[1..] == k;
  }

  lemma FourDigits(h: nat)
    requires h < 0x1000_0000
    ensures DigitCount(h) <= 4
  {
    hide Pow2, DigitCount;
    SmallPowers();
    Pow2Seven(7); Pow2Seven(14); Pow2Seven(21);
    DigitBound(h, 4);
  }

  lemma {:induction false} DigitBound(h: nat, n: nat)
    requires h < Pow2(7 * n)
    ensures DigitCount(h) <= n
  {
    hide Pow2;
    SmallPowers();
    if h > 0 {
      assert n > 0;
      Pow2Seven(7 * (n - 1));
      DigitBound(h / 128, n - 1);
    }
  }

  lemma RefRoundTrip(v: nat, refUnsigned: bool, k: Bytes)
    requires FitsRef(v)
    ensures ReadRef(PutRef(v, refUnsigned, k), refUnsigned) == Done(v, k)
  {
    if refUnsigned { UnsignedRoundTrip(v, k); } else { RefIdRoundTrip(v, k); }
  }

  // ---------- lists ----------

  lemma AppendOne<T>(acc: seq<T>, x: T, rest: seq<T>)
    ensures acc + [x] + rest == acc + ([x] + rest)
  {
  }

  /** n references in a row, appended to those read before. */
  function RefsFrom(s: Bytes, n: nat, refUnsigned: bool, acc: seq<int>): Parsed<seq<int>>
    decreases n
  {
    if n == 0 then Done(acc, s)
    else
      var (v, t) :- ReadRef(s, refUnsigned);
      RefsFrom(t, n - 1, refUnsigned, acc + [v])
  }

  function ReadRefs(s: Bytes, n: nat, refUnsigned: bool): Parsed<seq<int>> {
    RefsFrom(s, n, refUnsigned, [])
  }

  function PutRefs(vs: seq<nat>, refUnsigned: bool, k: Bytes): Bytes {
    if vs == [] then k else PutRef(vs[0], refUnsigned, PutRefs(vs[1..], refUnsigned, k))
  }

  predicate FitRefs(vs: seq<int>) {
    forall i :: 0 <= i < |vs| ==> FitsRef(vs[i])
  }

  lemma {:induction false} RefsRoundTripFrom(vs: seq<nat>, refUnsigned: bool, k: Bytes, acc: seq<int>)
    requires FitRefs(vs)
    ensures RefsFrom(PutRefs(vs, refUnsigned, k), |vs|, refUnsigned, acc) == Done(acc + vs, k)
  {
    if vs == [] {
      assert acc + vs == acc;
    } else {
      RefRoundTrip(vs[0], refUnsigned, PutRefs(vs[1..], refUnsigned, k));
      RefsRoundTripFrom(vs[1..], refUnsigned, k, acc + [vs[0]]);
      assert acc + [vs[0]] + vs[1..] == acc + vs;
    }
  }

  lemma RefsRoundTrip(vs: seq<nat>, refUnsigned: bool, k: Bytes)
    requires FitRefs(vs)
    ensures ReadRefs(PutRefs(vs, refUnsigned, k), |vs|, refUnsigned) == Done(vs, k)
  {
    RefsRoundTripFrom(vs, refUnsigned, k, []);
    assert [] + vs == vs;
  }

  // ---------- the stream ----------

  class Stream {
    const data: Bytes
    var pos: nat

    ghost predicate Valid()
      reads this
    {
      pos <= |data|
    }

    /** The bytes not yet read. */
    ghost function Rest(): Bytes
      reads this
      requires Valid()
    {
      data[pos..]
    }

    /** A read returned `r` and moved the stream as `p` says. */
    ghost predicate Reads<T>(p: Parsed<T>, r: Result<T>)
      reads this
    {
      Valid() && Rest() == p.rest && r == p.Returned()
    }

    constructor (data: Bytes, offset: nat)
      ensures Valid() && this.data == data
      ensures Rest() == From(data, offset)
    {
      this.data := data;
      this.pos := if offset > |data| then |data| else offset;
    }

    method NextByte() returns (r: Result<Byte>)
      requires Valid()
      modifies this`pos
      ensures Reads(ReadByte(old(Rest())), r)
    {
      if pos >= |data| { return Err(EndOfData); }
      var b := data[pos];
      pos := pos + 1;
      r := Ok(b);
    }

    method NextVarint(endMarker: int, maxShift: nat) returns (r: Result<int>)
      requires Valid() && maxShift > 0
      modifies this`pos
      ensures Reads(ReadVarint(old(Rest()), endMarker, maxShift), r)
    {
      hide Wrap64;
      var b: Byte :- NextByte();
      if b > 127 { return Ok(Wrap64(b - endMarker)); }
      var acc: int, shift: nat, weight: nat := b, 7, 128;
      while true
        invariant Valid()
        invariant ReadVarint(old(Rest()), endMarker, maxShift)
               == VarintFrom(Rest(), acc, shift, weight, endMarker, maxShift)
        decreases |data| - pos
      {
        b :- NextByte();
        if b > 127 { return Ok(Wrap64(acc + (b - endMarker) * weight)); }
        if shift >= maxShift { return Err(Overrun); }
        acc := acc + b * weight;
        shift, weight := shift + 7, 128 * weight;
      }
    }

    method NextUnsigned() returns (r: Result<int>)
      requires Valid()
      modifies this`pos
      ensures Reads(ReadUnsigned(old(Rest())), r)
    {
      r := NextVarint(128, 63);
    }

    method NextTagged64() returns (r: Result<int>)
      requires Valid()
      modifies this`pos
      ensures Reads(ReadTagged64(old(Rest())), r)
    {
      r := NextVarint(192, 63);
    }

    method NextTagged32() returns (r: Result<int>)
      requires Valid()
      modifies this`pos
      ensures Reads(ReadTagged32(old(Rest())), r)
    {
      r := NextVarint(192, 28);
      if r.Ok? { r := Ok(AsUint32(r.value)); }
    }

    method NextRefId() returns (r: Result<int>)
      requires Valid()
      modifies this`pos
      ensures Reads(ReadRefId(old(Rest())), r)
    {
      var result := 0;
      for i := 0 to 5
        invariant Valid()
        invariant ReadRefId(old(Rest())) == RefIdFrom(Rest(), result, 5 - i)
      {
        if pos >= |data| { return Err(EndOfData); }
        var b := Signed(data[pos]);
        pos := pos + 1;
        result := b + result * 128;
        if b < 0 { return Ok(result + 128); }
      }
      r := Err(Overrun);
    }

    method NextRef(refUnsigned: bool) returns (r: Result<int>)
      requires Valid()
      modifies this`pos
      ensures Reads(ReadRef(old(Rest()), refUnsigned), r)
    {
      if refUnsigned { r := NextUnsigned(); } else { r := NextRefId(); }
    }

    /** n references in a row. */
    method NextRefs(n: nat, refUnsigned: bool) returns (r: Result<seq<int>>)
      requires Valid()
      modifies this`pos
      ensures Reads(ReadRefs(old(Rest()), n, refUnsigned), r)
    {
      var refs := [];
      for i := 0 to n
        invariant Valid()
        invariant ReadRefs(old(Rest()), n, refUnsigned) == RefsFrom(Rest(), n - i, refUnsigned, refs)
      {
        var v :- NextRef(refUnsigned);
        refs := refs + [v];
      }
      r := Ok(refs);
    }
  }

  /** The bytes from an offset on; an offset past the end is clamped to it. */
  function From(data: Bytes, offset: nat): Bytes {
    if offset > |data| then [] else data[offset..]
  }
}
