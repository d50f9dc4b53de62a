/** The dispatch table of the roots section: run lengths, a ring of 64 recent values, and two
    numbering domains for its targets.

    The decoder is specified against the history of every code value it has read; the ring is the
    method's way of keeping the last 64 of them. */
module DispatchTable {
  import opened Wire
  import opened Roots

  const RECENT_COUNT: nat := 64
  const MAX_REPEAT: nat := 63
  const INDEX_BASE: nat := 64

  datatype Kind = DispatchNull | DispatchCode | DispatchStub

  datatype Entry = Entry(index: int, kind: Kind, clusterIndex: int, stubIndex: int, codeRef: int, ownerRef: int)

  const ZERO: Entry := Entry(0, DispatchNull, 0, 0, 0, 0)

  datatype DispatchError =
    | NotFilled | Unverified | NoCodes | TooLong | BadRecent
    | Stream(error: ReadError)

  /** The table, or the entries decoded before the error, or Go's panic on a negative capacity. */
  datatype Outcome =
    | Table(entries: seq<Entry>)
    | Failed(entries: seq<Entry>, error: DispatchError)
    | Panicked

  /** How code indexes become targets: with an instructions table, by its first entry with code;
      without one, by the references of the Code objects. */
  datatype Numbering = Numbering(
    oneBased: bool,
    firstEntryWithCode: Option<nat>,
    firstCodeId: int,
    codeByRef: map<int, CodeRef>)
  {
    function AbsoluteSlot(codeIndex: int): int {
      if oneBased then codeIndex - 1 else codeIndex
    }

    function Classify(codeIndex: int): Entry {
      var slot := AbsoluteSlot(codeIndex);
      match firstEntryWithCode
      case None =>
        var ref := Wrap64(firstCodeId + slot);
        if ref in codeByRef
        then Entry(0, DispatchCode, slot, 0, codeByRef[ref].refId, codeByRef[ref].ownerRef)
        else Entry(0, DispatchCode, slot, 0, 0, 0)
      case Some(first) =>
        if slot < first then Entry(0, DispatchStub, 0, slot, 0, 0)
        else Entry(0, DispatchCode, slot - first, 0, 0, 0)
    }

    /** The code index an entry was classified from; None for a null entry. */
    function CodeIndexOf(e: Entry): Option<int> {
      var shift := if oneBased then 1 else 0;
      match e.kind
      case DispatchNull => None
      case DispatchStub => Some(e.stubIndex + shift)
      case DispatchCode =>
        Some(e.clusterIndex + shift + match firstEntryWithCode { case None => 0 case Some(first) => first })
    }
  }

  // ---------- the recent values ----------

  /** The largest ordinal below n that is congruent to j modulo 64. */
  function LatestOrdinal(n: nat, j: nat): (m: nat)
    requires j < RECENT_COUNT && j < n
    ensures m < n && m % RECENT_COUNT == j && n <= m + RECENT_COUNT
  {
    j + (n - 1 - j) / RECENT_COUNT * RECENT_COUNT
  }

  /** The latest of the values whose ordinal is congruent to j modulo 64, if there is one yet. */
  function Latest<T>(history: seq<T>, j: nat): Option<T>
    requires j < RECENT_COUNT
  {
    if j < |history| then Some(history[LatestOrdinal(|history|, j)]) else None
  }

  function Recent(history: seq<Entry>, j: nat): Entry
    requires j < RECENT_COUNT
  {
    match Latest(history, j)
    case None => ZERO
    case Some(e) => e
  }

  lemma LatestOrdinalIsUnique(n: nat, j: nat, m: nat)
    requires j < RECENT_COUNT && j < n
    requires m < n && m % RECENT_COUNT == j && n <= m + RECENT_COUNT
    ensures m == LatestOrdinal(n, j)
  {
  }

  /** A new value replaces slot |history| mod 64 and no other. */
  lemma RingUpdate<T>(history: seq<T>, v: T, j: nat)
    requires j < RECENT_COUNT
    ensures Latest(history + [v], j) == if j == |history| % RECENT_COUNT then Some(v) else Latest(history, j)
  {
    var n := |history|;
    if j == n % RECENT_COUNT {
      LatestOrdinalIsUnique(n + 1, j, n);
    } else if j < n {
      LatestOrdinalIsUnique(n + 1, j, LatestOrdinal(n, j));
    }
  }

  // ---------- decoding ----------

  /** The decoder between entries: the current value, how many more entries repeat it, and the code
      values read so far. */
  datatype State = State(value: Entry, repeats: nat, history: seq<Entry>)

  const START: State := State(ZERO, 0, [])

  /** The effect of one encoded token; None for a back-reference outside the ring. */
  function Token(n: Numbering, st: State, encoded: int): Option<State> {
    if encoded == 0 then Some(st.(value := ZERO))
    else if encoded < 0 then
      if -encoded - 1 >= RECENT_COUNT then None else Some(st.(value := Recent(st.history, -encoded - 1)))
    else if encoded <= MAX_REPEAT then Some(st.(repeats := encoded - 1))
    else
      var v := n.Classify(encoded - INDEX_BASE);
      Some(st.(value := v, history := st.history + [v]))
  }

  function DecodeFrom(n: Numbering, s: Bytes, length: int, i: nat, st: State, entries: seq<Entry>): Outcome
    decreases length - i
  {
    if i >= length then Table(entries)
    else if st.repeats > 0 then
      DecodeFrom(n, s, length, i + 1, st.(repeats := st.repeats - 1), entries + [st.value.(index := i)])
    else
      match ReadTagged64(s)
      case Fail(e, _) => Failed(entries, Stream(e))
      case Done(encoded, t) =>
        match Token(n, st, encoded)
        case None => Failed(entries, BadRecent)
        case Some(next) => DecodeFrom(n, t, length, i + 1, next, entries + [next.value.(index := i)])
  }

  /** The ring and its write position represent a history of code values. */
  ghost predicate Represents(recent: array<Entry>, recentIndex: nat, history: seq<Entry>)
    reads recent
  {
    && recent.Length == RECENT_COUNT
    && recentIndex == |history| % RECENT_COUNT
    && forall j :: 0 <= j < RECENT_COUNT ==> recent[j] == Recent(history, j)
  }

  lemma DecodeUnfolds(n: Numbering, s: Bytes, length: int, i: nat, st: State, entries: seq<Entry>)
    requires i < length
    ensures DecodeFrom(n, s, length, i, st, entries) ==
            if st.repeats > 0 then
              DecodeFrom(n, s, length, i + 1, st.(repeats := st.repeats - 1), entries + [st.value.(index := i)])
            else
              match ReadTagged64(s)
              case Fail(e, _) => Failed(entries, Stream(e))
              case Done(encoded, t) =>
                match Token(n, st, encoded)
                case None => Failed(entries, BadRecent)
                case Some(next) => DecodeFrom(n, t, length, i + 1, next, entries + [next.value.(index := i)])
  {
  }

  lemma NothingLeft(n: Numbering, s: Bytes, length: nat, st: State, entries: seq<Entry>)
    ensures DecodeFrom(n, s, length, length, st, entries) == Table(entries)
  {
  }

  method Decode(s: Stream, n: Numbering, length: nat) returns (r: Outcome)
    requires s.Valid()
    modifies s`pos
    ensures r == DecodeFrom(n, old(s.Rest()), length, 0, START, [])
  {
    hide DecodeFrom, Latest, Numbering.Classify;
    var recent := new Entry[RECENT_COUNT](_ => ZERO);
    assert forall j :: 0 <= j < RECENT_COUNT ==> Recent([], j) == ZERO by { NothingRecent(); }
    var recentIndex: nat := 0;
    var value := ZERO;
    var repeatCount: nat := 0;
    var entries := [];
    ghost var history: seq<Entry> := [];
    for i := 0 to length
      invariant s.Valid()
      invariant Represents(recent, recentIndex, history)
      invariant DecodeFrom(n, old(s.Rest()), length, 0, START, [])
             == DecodeFrom(n, s.Rest(), length, i, State(value, repeatCount, history), entries)
    {
      ghost var st := State(value, repeatCount, history);
      DecodeUnfolds(n, s.Rest(), length, i, st, entries);
      if repeatCount > 0 {
        entries := entries + [value.(index := i)];
        repeatCount := repeatCount - 1;
        continue;
      }
      var next := s.NextTagged64();
      if next.Err? { return Failed(entries, Stream(next.error)); }
      var encoded := next.value;
      if encoded == 0 {
        value := ZERO;
      } else if encoded < 0 {
        var r := -encoded - 1;
        if r >= RECENT_COUNT { return Failed(entries, BadRecent); }
        value := recent[r];
      } else if encoded <= MAX_REPEAT {
        repeatCount := encoded - 1;
      } else {
        value := n.Classify(encoded - INDEX_BASE);
        RememberIn(recent, recentIndex, history, value);
        history := history + [value];
        recentIndex := (recentIndex + 1) % RECENT_COUNT;
      }
      assert Token(n, st, encoded) == Some(State(value, repeatCount, history));
      entries := entries + [value.(index := i)];
    }
    NothingLeft(n, s.Rest(), length, State(value, repeatCount, history), entries);
    r := Table(entries);
  }

  lemma NothingRecent()
    ensures forall j :: 0 <= j < RECENT_COUNT ==> Recent([], j) == ZERO
  {
  }

  /** Writes a code value at the ring's position: slot j holds, again, the latest code value whose
      ordinal is congruent to j. */
  method RememberIn(recent: array<Entry>, recentIndex: nat, ghost history: seq<Entry>, v: Entry)
    requires Represents(recent, recentIndex, history)
    modifies recent
    ensures Represents(recent, (recentIndex + 1) % RECENT_COUNT, history + [v])
  {
    forall j | 0 <= j < RECENT_COUNT
      ensures Latest(history + [v], j) == if j == recentIndex then Some(v) else Latest(history, j)
    {
      RingUpdate(history, v, j);
    }
    recent[recentIndex] := v;
  }

  // ---------- the serializer ----------

  /** A slot of the table being written: no override, or a code index. */
  datatype Slot = Hole | Call(codeIndex: nat)

  predicate Encodable(slots: seq<Slot>) {
    forall i :: 0 <= i < |slots| && slots[i].Call? ==> slots[i].codeIndex < TWO_63 - 64
  }

  /** Slots after position i that equal slot i, without a gap. */
  function Run(slots: seq<Slot>, i: nat): (n: nat)
    requires i < |slots|
    ensures i + n < |slots|
    ensures forall j :: i <= j <= i + n ==> slots[j] == slots[i]
    decreases |slots| - i
  {
    if i + 1 < |slots| && slots[i + 1] == slots[i] then 1 + Run(slots, i + 1) else 0
  }

  /** Of the last 64 code indexes written, the one whose ordinal is j modulo 64 is c. */
  predicate IsRecent(history: seq<nat>, j: nat, c: nat) {
    exists m :: 0 <= m < |history| && |history| <= m + 64 && m % 64 == j && history[m] == c
  }

  /** The first ring slot, from j on, that holds c. */
  function FindRecent(history: seq<nat>, c: nat, j: nat): (r: Option<nat>)
    ensures r.Some? ==> r.value < 64 && IsRecent(history, r.value, c)
    decreases 64 - j
  {
    if j >= 64 then None
    else if IsRecent(history, j, c) then Some(j)
    else FindRecent(history, c, j + 1)
  }

  /** n more entries with the current value, at most 63 a token. */
  function PutRepeats(n: nat, k: Bytes): Bytes {
    if n == 0 then k
    else if n <= 63 then PutTagged(n, k)
    else PutTagged(63, PutRepeats(n - 63, k))
  }

  /** The token for a slot that differs from the one before it, given the code indexes written. */
  function TokenOf(history: seq<nat>, slot: Slot): int {
    match slot
    case Hole => 0
    case Call(c) =>
      match FindRecent(history, c, 0)
      case Some(j) => -1 - j
      case None => 64 + c
  }

  /** A code index joins the recent values only when it is written out. */
  function HistoryAfter(history: seq<nat>, slot: Slot): seq<nat> {
    if slot.Call? && FindRecent(history, slot.codeIndex, 0).None? then history + [slot.codeIndex] else history
  }

  /** Slots i.. of the table: a token for slot i, its repeats, and on after the run. */
  function PutSlots(slots: seq<Slot>, i: nat, history: seq<nat>, k: Bytes): Bytes
    requires i <= |slots|
    decreases |slots| - i
  {
    if i == |slots| then k
    else
      var n := Run(slots, i);
      PutTagged(TokenOf(history, slots[i]),
                PutRepeats(n, PutSlots(slots, i + 1 + n, HistoryAfter(history, slots[i]), k)))
  }

  /** What a slot must decode to. */
  function EntryOf(n: Numbering, slot: Slot): Entry {
    match slot
    case Hole => ZERO
    case Call(c) => n.Classify(c)
  }

  /** The first m entries of the decoded table, entry i carrying index i. */
  function Entries(n: Numbering, slots: seq<Slot>, m: nat): (es: seq<Entry>)
    requires m <= |slots|
    ensures |es| == m
  {
    seq(m, i requires 0 <= i < m => EntryOf(n, slots[i]).(index := i))
  }

  function Classified(n: Numbering, history: seq<nat>): (h: seq<Entry>)
    ensures |h| == |history|
  {
    seq(|history|, i requires 0 <= i < |history| => n.Classify(history[i]))
  }

  // ---------- the decoder inverts the serializer ----------

  lemma {:induction false} RepeatsInState(n: Numbering, slots: seq<Slot>, i: nat, m: nat, st: State, s: Bytes)
    requires i + m <= |slots| && st.repeats == m
    requires forall j :: i <= j < i + m ==> EntryOf(n, slots[j]) == st.value
    ensures DecodeFrom(n, s, |slots|, i, st, Entries(n, slots, i))
         == DecodeFrom(n, s, |slots|, i + m, st.(repeats := 0), Entries(n, slots, i + m))
    decreases m
  {
    if m > 0 {
      assert Entries(n, slots, i + 1) == Entries(n, slots, i) + [st.value.(index := i)];
      RepeatsInState(n, slots, i + 1, m - 1, st.(repeats := m - 1), s);
    }
  }

  lemma {:induction false} RepeatsRoundTrip(n: Numbering, slots: seq<Slot>, i: nat, m: nat, st: State, k: Bytes)
    requires i + m <= |slots| && st.repeats == 0
    requires forall j :: i <= j < i + m ==> EntryOf(n, slots[j]) == st.value
    ensures DecodeFrom(n, PutRepeats(m, k), |slots|, i, st, Entries(n, slots, i))
         == DecodeFrom(n, k, |slots|, i + m, st, Entries(n, slots, i + m))
    decreases m
  {
    hide DecodeFrom, ReadTagged64, PutTagged;
    if m > 0 {
      var now := if m <= MAX_REPEAT then m else MAX_REPEAT;
      var t := PutRepeats(m - now, k);
      Tagged64RoundTrip(now, t);
      DecodeUnfolds(n, PutTagged(now, t), |slots|, i, st, Entries(n, slots, i));
      assert Entries(n, slots, i + 1) == Entries(n, slots, i) + [st.value.(index := i)];
      RepeatsInState(n, slots, i + 1, now - 1, st.(repeats := now - 1), t);
      RepeatsRoundTrip(n, slots, i + now, m - now, st, k);
    }
  }

  lemma RecentOfClassified(n: Numbering, history: seq<nat>, j: nat)
    requires j < RECENT_COUNT
    ensures Latest(Classified(n, history), j)
         == match Latest(history, j) { case None => None case Some(c) => Some(n.Classify(c)) }
  {
  }

  lemma RecentIsLatest(history: seq<nat>, j: nat, c: nat)
    requires j < 64 && IsRecent(history, j, c)
    ensures Latest(history, j) == Some(c)
  {
    var m :| 0 <= m < |history| && |history| <= m + 64 && m % 64 == j && history[m] == c;
    LatestOrdinalIsUnique(|history|, j, m);
  }

  /** One token and its run bring the decoder from slot i to the next run. */
  lemma RunRoundTrip(n: Numbering, slots: seq<Slot>, i: nat, st: State, next: State, encoded: int, k: Bytes)
    requires i < |slots| && st.repeats == 0
    requires -TWO_63 <= encoded < TWO_63 && Token(n, st, encoded) == Some(next)
    requires next.value == EntryOf(n, slots[i]) && next.repeats == 0
    ensures DecodeFrom(n, PutTagged(encoded, PutRepeats(Run(slots, i), k)), |slots|, i, st, Entries(n, slots, i))
         == DecodeFrom(n, k, |slots|, i + 1 + Run(slots, i), next, Entries(n, slots, i + 1 + Run(slots, i)))
  {
    hide DecodeFrom, ReadTagged64, PutTagged, Token, PutRepeats;
    var m := Run(slots, i);
    var s := PutTagged(encoded, PutRepeats(m, k));
    Tagged64RoundTrip(encoded, PutRepeats(m, k));
    DecodeUnfolds(n, s, |slots|, i, st, Entries(n, slots, i));
    assert Entries(n, slots, i + 1) == Entries(n, slots, i) + [next.value.(index := i)];
    RepeatsRoundTrip(n, slots, i + 1, m, next, k);
  }

  /** The decoder reads a slot's token as that slot and remembers what the serializer remembers. */
  lemma TokenRoundTrip(n: Numbering, history: seq<nat>, value: Entry, slot: Slot)
    ensures Token(n, State(value, 0, Classified(n, history)), TokenOf(history, slot))
         == Some(State(EntryOf(n, slot), 0, Classified(n, HistoryAfter(history, slot))))
  {
    match slot
    case Hole =>
    case Call(c) =>
      match FindRecent(history, c, 0)
      case Some(j) =>
        RecentIsLatest(history, j, c);
        RecentOfClassified(n, history, j);
      case None => assert Classified(n, history + [c]) == Classified(n, history) + [n.Classify(c)];
  }

  lemma TokenFits(history: seq<nat>, slots: seq<Slot>, i: nat)
    requires i < |slots| && Encodable(slots)
    ensures -TWO_63 <= TokenOf(history, slots[i]) < TWO_63
  {
  }

  lemma {:induction false} SlotsRoundTrip(n: Numbering, slots: seq<Slot>, i: nat, history: seq<nat>, value: Entry, k: Bytes)
    requires i <= |slots| && Encodable(slots)
    ensures DecodeFrom(n, PutSlots(slots, i, history, k), |slots|, i, State(value, 0, Classified(n, history)), Entries(n, slots, i))
         == Table(Entries(n, slots, |slots|))
    decreases |slots| - i
  {
    hide DecodeFrom, Token, TokenOf, Classified, EntryOf, Entries, PutRepeats, PutTagged, HistoryAfter, Encodable;
    if i == |slots| {
      NothingLeft(n, k, |slots|, State(value, 0, Classified(n, history)), Entries(n, slots, i));
    } else {
      var m := Run(slots, i);
      var after := HistoryAfter(history, slots[i]);
      var next := State(EntryOf(n, slots[i]), 0, Classified(n, after));
      TokenRoundTrip(n, history, value, slots[i]);
      TokenFits(history, slots, i);
      RunRoundTrip(n, slots, i, State(value, 0, Classified(n, history)), next, TokenOf(history, slots[i]),
                   PutSlots(slots, i + 1 + m, after, k));
      SlotsRoundTrip(n, slots, i + 1 + m, after, next.value, k);
    }
  }

  /** Decoding what the serializer writes returns the table, entry i carrying index i. */
  lemma TableRoundTrip(n: Numbering, slots: seq<Slot>, k: Bytes)
    requires Encodable(slots)
    ensures DecodeFrom(n, PutSlots(slots, 0, [], k), |slots|, 0, START, []) == Table(Entries(n, slots, |slots|))
  {
    assert Entries(n, slots, 0) == [] && Classified(n, []) == [];
    SlotsRoundTrip(n, slots, 0, [], ZERO, k);
  }

  /** No two code indexes give the same entry, and a stub is a slot below the first entry with code. */
  lemma ClassifyIsInjective(n: Numbering, codeIndex: int)
    ensures n.CodeIndexOf(n.Classify(codeIndex)) == Some(codeIndex)
    ensures n.Classify(codeIndex).kind.DispatchStub? <==>
            n.firstEntryWithCode.Some? && n.AbsoluteSlot(codeIndex) < n.firstEntryWithCode.value
  {
  }

  /** With an instructions table, every stub below the first entry with code and every Code object
      is the target of exactly the code index read back from it. */
  lemma EveryTargetArises(n: Numbering, e: Entry)
    requires n.firstEntryWithCode.Some?
    requires || (e == Entry(0, DispatchStub, 0, e.stubIndex, 0, 0) && e.stubIndex < n.firstEntryWithCode.value)
             || (e == Entry(0, DispatchCode, e.clusterIndex, 0, 0, 0) && e.clusterIndex >= 0)
    ensures n.Classify(n.CodeIndexOf(e).value) == e
  {
  }

  /** The table that was written can be read off the decoded entries. */
  lemma SlotsRecovered(n: Numbering, slots: seq<Slot>, i: nat)
    requires i < |slots|
    ensures var e := Entries(n, slots, |slots|)[i];
            e.index == i && n.CodeIndexOf(e) == match slots[i] { case Hole => None case Call(c) => Some(c) }
  {
    match slots[i]
    case Hole =>
    case Call(c) => ClassifyIsInjective(n, c);
  }

  // ---------- the whole section ----------

  /** A field table: a count and that many references, dropped.  A negative count reads nothing. */
  function SkipFieldTable(s: Bytes, present: bool, refUnsigned: bool): Parsed<seq<int>> {
    if !present then Done([], s)
    else
      var (n, t) :- ReadUnsigned(s);
      ReadRefs(t, if n < 0 then 0 else n, refUnsigned)
  }

  function PutFieldTable(refs: seq<nat>, present: bool, refUnsigned: bool, k: Bytes): Bytes {
    if present then PutUnsigned(|refs|, PutRefs(refs, refUnsigned, k)) else k
  }

  lemma FieldTableRoundTrip(refs: seq<nat>, present: bool, refUnsigned: bool, k: Bytes)
    requires FitRefs(refs) && |refs| < TWO_63
    ensures SkipFieldTable(PutFieldTable(refs, present, refUnsigned, k), present, refUnsigned)
         == Done(if present then refs else [], k)
  {
    if present {
      UnsignedRoundTrip(|refs|, PutRefs(refs, refUnsigned, k));
      RefsRoundTrip(refs, refUnsigned, k);
    }
  }

  /** The references of the first m Code objects; a later object wins. */
  function CodeByRef(codes: seq<CodeRef>, m: nat): map<int, CodeRef>
    requires m <= |codes|
  {
    if m == 0 then map[] else CodeByRef(codes, m - 1)[codes[m - 1].refId := codes[m - 1]]
  }

  /** Code i is the last of the first m with its reference. */
  ghost predicate LastWithRef(codes: seq<CodeRef>, m: nat, i: int)
    requires m <= |codes|
  {
    0 <= i < m && forall j :: i < j < m ==> codes[j].refId != codes[i].refId
  }

  /** The index holds every reference and no other, and for each the last code with it. */
  lemma {:induction false} IndexHoldsTheLast(codes: seq<CodeRef>, m: nat, ref: int)
    requires m <= |codes|
    ensures ref in CodeByRef(codes, m) <==> exists i :: LastWithRef(codes, m, i) && codes[i].refId == ref
    ensures forall i :: LastWithRef(codes, m, i) && codes[i].refId == ref ==> CodeByRef(codes, m)[ref] == codes[i]
  {
    if m > 0 {
      IndexHoldsTheLast(codes, m - 1, ref);
      if codes[m - 1].refId == ref {
        assert LastWithRef(codes, m, m - 1);
      } else {
        forall i | 0 <= i < m - 1 && codes[i].refId == ref
          ensures LastWithRef(codes, m, i) <==> LastWithRef(codes, m - 1, i)
        {
        }
      }
    }
  }

  function NumberingOf(p: Profile, table: Option<nat>, firstCodeId: int, codes: seq<CodeRef>): Numbering {
    Numbering(p.codeIndexOneBased, table, firstCodeId, if table.None? then CodeByRef(codes, |codes|) else map[])
  }

  function SkipFieldTables(s: Bytes, p: Profile): Parsed<seq<int>> {
    var (_, t) :- SkipFieldTable(s, p.hasInitialFieldTable, p.refUnsigned);
    SkipFieldTable(t, p.hasSharedFieldTable, p.refUnsigned)
  }

  /** The table itself: its length, the first code's reference, and the tokens. */
  function ParseTable(s: Bytes, dataLength: nat, codes: seq<CodeRef>, p: Profile, table: Option<nat>): Outcome {
    match ReadUnsigned(s)
    case Fail(e, _) => Failed([], Stream(e))
    case Done(length, t) =>
      if length == 0 then Table([])
      else if length > Wrap64(dataLength * 8) then Failed([], TooLong)
      else
        match ReadUnsigned(t)
        case Fail(e, _) => Failed([], Stream(e))
        case Done(firstCodeId, u) =>
          if length < 0 then Panicked
          else DecodeFrom(NumberingOf(p, table, firstCodeId, codes), u, length, 0, START, [])
  }

  /** The section after the object store's fields. */
  function ParseTail(s: Bytes, dataLength: nat, codes: seq<CodeRef>, p: Profile, table: Option<nat>): Outcome {
    match SkipFieldTables(s, p)
    case Fail(e, _) => Failed([], Stream(e))
    case Done(_, t) => ParseTable(t, dataLength, codes, p, table)
  }

  /** What `ParseDispatchTable` returns, and what it leaves in the object store references. */
  function ParseSpec(data: Bytes, fillEnd: int, codes: seq<CodeRef>, p: Profile, table: Option<nat>,
                     refs: Option<seq<int>>): (Outcome, Option<seq<int>>)
  {
    if fillEnd <= 0 then (Failed([], NotFilled), refs)
    else if p.objectStoreFieldCount <= 0 then (Failed([], Unverified), refs)
    else if table.None? && codes == [] then (Failed([], NoCodes), refs)
    else
      match ReadPrefix(From(data, fillEnd), p)
      case Fail(e, _) => (Failed([], Stream(e)), refs)
      case Done(fields, s) =>
        (ParseTail(s, |data|, codes, p, table), if refs.None? then Some(fields) else refs)
  }

  method SkipFieldTableFrom(s: Stream, present: bool, refUnsigned: bool) returns (r: Result<seq<int>>)
    requires s.Valid()
    modifies s`pos
    ensures s.Reads(SkipFieldTable(old(s.Rest()), present, refUnsigned), r)
  {
    if !present { return Ok([]); }
    var n :- s.NextUnsigned();
    r := s.NextRefs(if n < 0 then 0 else n, refUnsigned);
  }

  method IndexCodes(codes: seq<CodeRef>) returns (byRef: map<int, CodeRef>)
    ensures byRef == CodeByRef(codes, |codes|)
  {
    byRef := map[];
    for i := 0 to |codes|
      invariant byRef == CodeByRef(codes, i)
    {
      byRef := byRef[codes[i].refId := codes[i]];
    }
  }

  method SkipFieldTablesFrom(s: Stream, p: Profile) returns (r: Result<seq<int>>)
    requires s.Valid()
    modifies s`pos
    ensures s.Reads(SkipFieldTables(old(s.Rest()), p), r)
  {
    var _ :- SkipFieldTableFrom(s, p.hasInitialFieldTable, p.refUnsigned);
    r := SkipFieldTableFrom(s, p.hasSharedFieldTable, p.refUnsigned);
  }

  method ParseTableFrom(s: Stream, dataLength: nat, codes: seq<CodeRef>, p: Profile, table: Option<nat>) returns (r: Outcome)
    requires s.Valid()
    modifies s`pos
    ensures r == ParseTable(old(s.Rest()), dataLength, codes, p, table)
  {
    var length := s.NextUnsigned();
    if length.Err? { return Failed([], Stream(length.error)); }
    if length.value == 0 { return Table([]); }
    if length.value > Wrap64(dataLength * 8) { return Failed([], TooLong); }
    var firstCodeId := s.NextUnsigned();
    if firstCodeId.Err? { return Failed([], Stream(firstCodeId.error)); }
    var byRef := map[];
    if table.None? { byRef := IndexCodes(codes); }
    if length.value < 0 { return Panicked; }
    r := Decode(s, Numbering(p.codeIndexOneBased, table, firstCodeId.value, byRef), length.value);
  }

  method ParseDispatchTable(data: Bytes, result: Snapshot, p: Profile, table: Option<nat>) returns (r: Outcome)
    modifies result`objectStoreRefs
    ensures (r, result.objectStoreRefs)
         == ParseSpec(data, result.fillEnd, result.codes, p, table, old(result.objectStoreRefs))
  {
    if result.fillEnd <= 0 { return Failed([], NotFilled); }
    if p.objectStoreFieldCount <= 0 { return Failed([], Unverified); }
    if table.None? && result.codes == [] { return Failed([], NoCodes); }
    var s := new Stream(data, result.fillEnd);
    var prefix := ReadPrefixFrom(s, p);
    if prefix.Err? { return Failed([], Stream(prefix.error)); }
    if result.objectStoreRefs.None? { result.objectStoreRefs := Some(prefix.value); }

    var fieldTables := SkipFieldTablesFrom(s, p);
    if fieldTables.Err? { return Failed([], Stream(fieldTables.error)); }
    r := ParseTableFrom(s, |data|, result.codes, p, table);
  }

  /** The contents of a roots section. */
  datatype RootsSection = RootsSection(
    prefix: seq<nat>, fields: seq<nat>, initialFields: seq<nat>, sharedFields: seq<nat>,
    firstCodeId: nat, slots: seq<Slot>)

  predicate Writable(p: Profile, c: RootsSection) {
    && PrefixFits(p, c.prefix, c.fields) && |c.fields| > 0
    && FitRefs(c.initialFields) && |c.initialFields| < TWO_63
    && FitRefs(c.sharedFields) && |c.sharedFields| < TWO_63
    && c.firstCodeId < TWO_63 && |c.slots| < TWO_63 && Encodable(c.slots)
  }

  /** A section with an empty table stops after its length. */
  function PutTable(c: RootsSection, k: Bytes): Bytes {
    PutUnsigned(|c.slots|, PutUnsigned(c.firstCodeId, PutSlots(c.slots, 0, [], k)))
  }

  function PutRoots(p: Profile, c: RootsSection, k: Bytes): Bytes {
    PutPrefix(p, c.prefix, c.fields,
      PutFieldTable(c.initialFields, p.hasInitialFieldTable, p.refUnsigned,
        PutFieldTable(c.sharedFields, p.hasSharedFieldTable, p.refUnsigned, PutTable(c, k))))
  }

  /** A snapshot holding a written roots section parses to its table and its object store exactly
      when the table has at most eight slots per byte of snapshot; a longer table is refused. */
  lemma RootsRoundTrip(data: Bytes, fillEnd: nat, codes: seq<CodeRef>, p: Profile, table: Option<nat>,
                       c: RootsSection, k: Bytes)
    requires 0 < fillEnd <= |data| && data[fillEnd..] == PutRoots(p, c, k)
    requires |data| * 8 < TWO_63
    requires Writable(p, c) && (table.Some? || codes != [])
    ensures ParseSpec(data, fillEnd, codes, p, table, None)
         == (if |c.slots| <= |data| * 8
             then Table(Entries(NumberingOf(p, table, c.firstCodeId, codes), c.slots, |c.slots|))
             else Failed([], TooLong),
             Some(c.fields))
  {
    var t := PutTable(c, k);
    var shared := PutFieldTable(c.sharedFields, p.hasSharedFieldTable, p.refUnsigned, t);
    var initial := PutFieldTable(c.initialFields, p.hasInitialFieldTable, p.refUnsigned, shared);
    PrefixRoundTrip(p, c.prefix, c.fields, initial);
    FieldTableRoundTrip(c.initialFields, p.hasInitialFieldTable, p.refUnsigned, shared);
    FieldTableRoundTrip(c.sharedFields, p.hasSharedFieldTable, p.refUnsigned, t);
    var slots := PutSlots(c.slots, 0, [], k);
    UnsignedRoundTrip(|c.slots|, PutUnsigned(c.firstCodeId, slots));
    UnsignedRoundTrip(c.firstCodeId, slots);
    TableRoundTrip(NumberingOf(p, table, c.firstCodeId, codes), c.slots, k);
  }

  // ---------- refusals ----------

  /** The parser's own refusals: no fill, an unverified version, no codes to refer to, in this order; nothing is
      read then and the object store stays as it was. */
  lemma RefusedBeforeReading(data: Bytes, fillEnd: int, codes: seq<CodeRef>, p: Profile, table: Option<nat>, refs: Option<seq<int>>)
    ensures var (r, after) := ParseSpec(data, fillEnd, codes, p, table, refs);
            && (fillEnd <= 0 ==> r == Failed([], NotFilled) && after == refs)
            && (fillEnd > 0 && p.objectStoreFieldCount <= 0 ==> r == Failed([], Unverified) && after == refs)
            && (fillEnd > 0 && p.objectStoreFieldCount > 0 && table == None && codes == [] ==>
                  r == Failed([], NoCodes) && after == refs)
            && (r.Failed? && r.error in {NotFilled, Unverified, NoCodes} ==>
                  fillEnd <= 0 || p.objectStoreFieldCount <= 0 || (table == None && codes == []))
  {
    hide ReadPrefix, SkipFieldTables;
    if fillEnd > 0 && p.objectStoreFieldCount > 0 && (table.Some? || codes != []) {
      match ReadPrefix(From(data, fillEnd), p)
      case Fail(_, _) =>
      case Done(_, s) => TailErrors(s, |data|, codes, p, table);
    }
  }

  lemma TailErrors(s: Bytes, dataLength: nat, codes: seq<CodeRef>, p: Profile, table: Option<nat>)
    ensures var r := ParseTail(s, dataLength, codes, p, table); r.Failed? ==> r.error !in {NotFilled, Unverified, NoCodes}
  {
    hide SkipFieldTables, ReadUnsigned, DecodeFrom;
    match SkipFieldTables(s, p)
    case Fail(_, _) =>
    case Done(_, t) =>
      match ReadUnsigned(t)
      case Fail(_, _) =>
      case Done(length, u) =>
        match ReadUnsigned(u)
        case Fail(_, _) =>
        case Done(first, v) => DecodeErrors(NumberingOf(p, table, first, codes), v, length, 0, START, []);
  }

  lemma {:induction false} DecodeErrors(n: Numbering, s: Bytes, length: int, i: nat, st: State, entries: seq<Entry>)
    ensures var r := DecodeFrom(n, s, length, i, st, entries); r.Failed? ==> r.error == BadRecent || r.error.Stream?
    decreases length - i
  {
    hide Token, ReadTagged64;
    if i < length {
      if st.repeats > 0 {
        DecodeErrors(n, s, length, i + 1, st.(repeats := st.repeats - 1), entries + [st.value.(index := i)]);
      } else {
        match ReadTagged64(s)
        case Fail(_, _) =>
        case Done(encoded, t) =>
          match Token(n, st, encoded)
          case None =>
          case Some(next) => DecodeErrors(n, t, length, i + 1, next, entries + [next.value.(index := i)]);
      }
    }
  }

  // ---------- what the entries say ----------

  /** Entry i says what slot i says.  A hole is a null entry.  A code index, less one when they count from
      one, is an absolute slot: below the first entry with code it is a stub, from there on the code's place
      in the cluster; without an instructions table it is always code, and the reference it adds up to with
      the first code's, in 64 bits, names the last Code object that has it, if any. */
  ghost predicate Says(e: Entry, i: nat, slot: Slot, oneBased: bool, table: Option<nat>, firstCodeId: nat, codes: seq<CodeRef>) {
    match slot
    case Hole => e == Entry(i, DispatchNull, 0, 0, 0, 0)
    case Call(c) =>
      var absolute := if oneBased then c - 1 else c;
      match table
      case Some(first) =>
        e == if absolute < first then Entry(i, DispatchStub, 0, absolute, 0, 0)
             else Entry(i, DispatchCode, absolute - first, 0, 0, 0)
      case None =>
        var sum := firstCodeId + absolute;
        var ref := if sum < 0x8000_0000_0000_0000 then sum else sum - 0x1_0000_0000_0000_0000;
        && e == Entry(i, DispatchCode, absolute, 0, e.codeRef, e.ownerRef)
        && (forall k :: 0 <= k < |codes| && codes[k].refId == ref && (forall l :: k < l < |codes| ==> codes[l].refId != ref) ==>
              e.codeRef == codes[k].refId && e.ownerRef == codes[k].ownerRef)
        && ((forall k :: 0 <= k < |codes| ==> codes[k].refId != ref) ==> e.codeRef == 0 && e.ownerRef == 0)
  }

  lemma EntrySays(p: Profile, table: Option<nat>, firstCodeId: nat, codes: seq<CodeRef>, slots: seq<Slot>, i: nat)
    requires i < |slots| && Encodable(slots) && firstCodeId < TWO_63
    ensures Says(Entries(NumberingOf(p, table, firstCodeId, codes), slots, |slots|)[i],
                 i, slots[i], p.codeIndexOneBased, table, firstCodeId, codes)
  {
    if slots[i].Call? && table.None? {
      var absolute := if p.codeIndexOneBased then slots[i].codeIndex - 1 else slots[i].codeIndex;
      IndexHoldsTheLast(codes, |codes|, Wrap64(firstCodeId + absolute));
    }
  }

  /** The table a written roots section parses to, entry by entry. */
  lemma RootsSay(data: Bytes, fillEnd: nat, codes: seq<CodeRef>, p: Profile, table: Option<nat>, c: RootsSection, k: Bytes)
    requires 0 < fillEnd <= |data| && data[fillEnd..] == PutRoots(p, c, k)
    requires |c.slots| <= |data| * 8 < TWO_63
    requires Writable(p, c) && (table.Some? || codes != [])
    ensures var r := ParseSpec(data, fillEnd, codes, p, table, None).0;
            && r.Table? && |r.entries| == |c.slots|
            && forall i :: 0 <= i < |c.slots| ==>
                 Says(r.entries[i], i, c.slots[i], p.codeIndexOneBased, table, c.firstCodeId, codes)
  {
    hide ParseSpec, PutRoots, Says, NumberingOf, Entries, Encodable;
    RootsRoundTrip(data, fillEnd, codes, p, table, c, k);
    forall i | 0 <= i < |c.slots|
      ensures Says(Entries(NumberingOf(p, table, c.firstCodeId, codes), c.slots, |c.slots|)[i],
                   i, c.slots[i], p.codeIndexOneBased, table, c.firstCodeId, codes)
    {
      EntrySays(p, table, c.firstCodeId, codes, c.slots, i);
    }
  }

  /** A repeat token stands for 63 slots, so a table can be longer than eight slots per byte. */
  lemma {:induction false} NullTableIsShort(m: nat)
    ensures |PutRepeats(63 * m, [])| == m
  {
    if m > 0 {
      assert 63 * m == 63 + 63 * (m - 1);
      NullTableIsShort(m - 1);
    }
  }

  /** A table of 4033 null slots takes 65 bytes; a snapshot holding it and little else is written
      correctly and refused as too long. */
  lemma LongRunRefused()
    ensures exists data: Bytes, p: Profile, c: RootsSection ::
              && |data| * 8 < TWO_63
              && data == [0] + PutRoots(p, c, []) && Writable(p, c)
              && ParseSpec(data, 1, [], p, Some(0), None).0 == Failed([], TooLong)
  {
    hide Run, PutSlots, PutTable, Entries;
    var p := Profile(true, 0, 1, false, false, true);
    var c := RootsSection([], [0], [], [], 0, seq(1 + 63 * 64, _ => Hole));
    var data: Bytes := [0] + PutRoots(p, c, []);
    LongTable(c);
    assert PutRefs([0], true, PutTable(c, [])) == [128] + PutTable(c, []) by {
      assert [0][1..] == [] && PutRefs([], true, PutTable(c, [])) == PutTable(c, []);
    }
    assert |data| == 70;
    assert data[1..] == PutRoots(p, c, []);
    RootsRoundTrip(data, 1, [], p, Some(0), c, []);
  }

  lemma LongTable(c: RootsSection)
    requires c.firstCodeId == 0 && c.slots == seq(1 + 63 * 64, _ => Hole)
    ensures |PutTable(c, [])| == 68
  {
    var slots, n: nat := c.slots, 1 + 63 * 64;
    assert Run(slots, 0) == 63 * 64 by { RunOfHoles(slots, 0); }
    assert PutSlots(slots, 0, [], []) == PutTagged(0, PutRepeats(63 * 64, [])) by {
      assert PutSlots(slots, n, [], []) == [];
    }
    NullTableIsShort(64);
    assert |PutSlots(slots, 0, [], [])| == 65;
    var table := PutUnsigned(0, PutSlots(slots, 0, [], []));
    assert table == [128] + PutSlots(slots, 0, [], []);
    assert PutUnsigned(n, table) == [n % 128] + PutUnsigned(n / 128, table);
  }

  lemma {:induction false} RunOfHoles(slots: seq<Slot>, i: nat)
    requires i < |slots| && forall j :: 0 <= j < |slots| ==> slots[j] == Hole
    ensures Run(slots, i) == |slots| - 1 - i
    decreases |slots| - i
  {
    if i + 1 < |slots| { RunOfHoles(slots, i + 1); }
  }

  // ---------- the two walks over the prefix ----------

  /** The object store of a written roots section comes, once; a fill that has not run and an unverified version
      leave it alone. */
  lemma ObjectStoreComes(data: Bytes, fillEnd: int, p: Profile, refs: Option<seq<int>>, c: RootsSection, k: Bytes)
    requires 0 < fillEnd <= |data| ==> data[fillEnd..] == PutRoots(p, c, k)
    requires fillEnd <= |data| && Writable(p, c)
    ensures ObjectStoreWalk(data, fillEnd, p, refs)
         == (if refs.Some? then refs else if fillEnd <= 0 then None else Some(c.fields), None)
  {
    hide ReadPrefix, PutPrefix;
    PrefixRoundTrip(p, c.prefix, c.fields,
      PutFieldTable(c.initialFields, p.hasInitialFieldTable, p.refUnsigned,
        PutFieldTable(c.sharedFields, p.hasSharedFieldTable, p.refUnsigned, PutTable(c, k))));
  }

  /** And an unverified version, whatever there is. */
  lemma UnverifiedIsLeftAlone(data: Bytes, fillEnd: int, p: Profile, refs: Option<seq<int>>)
    requires p.objectStoreFieldCount <= 0
    ensures ObjectStoreWalk(data, fillEnd, p, refs) == (refs, None)
  {
  }

  /** Whichever of the two walks runs first, on any input, the object store references end up the
      same and the dispatch table does too. */
  lemma WalksCommute(data: Bytes, fillEnd: int, codes: seq<CodeRef>, p: Profile, table: Option<nat>, refs: Option<seq<int>>)
    ensures var (early, _) := ObjectStoreWalk(data, fillEnd, p, refs);
            var (entries, after) := ParseSpec(data, fillEnd, codes, p, table, early);
            var (entries', late) := ParseSpec(data, fillEnd, codes, p, table, refs);
            var (after', _) := ObjectStoreWalk(data, fillEnd, p, late);
            entries == entries' && after == after'
  {
  }
}
