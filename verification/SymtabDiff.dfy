/** Comparing recovered names with an ELF symbol table in its oldest dialect, assembler identifiers in
    which every separator has become an underscore.  A char stands for a byte. */
module SymtabDiff {
  import opened Wire

  predicate Alnum(c: char) {
    'a' <= c <= 'z' || 'A' <= c <= 'Z' || '0' <= c <= '9'
  }

  // ---------- identifiers ----------

  /** Every byte that is not alphanumeric becomes an underscore. */
  function AsmIdentifier(s: string): (r: string)
    ensures |r| == |s|
    ensures forall i :: 0 <= i < |s| ==>
      r[i] == if 'a' <= s[i] <= 'z' || 'A' <= s[i] <= 'Z' || '0' <= s[i] <= '9' then s[i] else '_'
  {
    seq(|s|, i requires 0 <= i < |s| => if Alnum(s[i]) then s[i] else '_')
  }

  /** Runs of underscores made one; wasUnderscore tells whether one came just before. */
  function Collapsed(s: string, wasUnderscore: bool): string {
    if s == "" then ""
    else if s[0] == '_' then (if wasUnderscore then "" else "_") + Collapsed(s[1..], true)
    else [s[0]] + Collapsed(s[1..], false)
  }

  function TrimLeft(s: string): string {
    if s != "" && s[0] == '_' then TrimLeft(s[1..]) else s
  }

  function TrimRight(s: string): string {
    if s != "" && s[|s| - 1] == '_' then TrimRight(s[..|s| - 1]) else s
  }

  function Squeezed(s: string): string {
    TrimRight(TrimLeft(Collapsed(AsmIdentifier(s), false)))
  }

  // ---------- words ----------

  /** The maximal alphanumeric runs, in order. */
  function Words(s: string): (r: seq<string>)
    ensures s != "" && Alnum(s[0]) ==> r != []
  {
    if s == "" then []
    else if !Alnum(s[0]) then Words(s[1..])
    else if |s| > 1 && Alnum(s[1]) then
      var w := Words(s[1..]);
      [[s[0]] + w[0]] + w[1..]
    else [[s[0]]] + Words(s[1..])
  }

  function Joined(ws: seq<string>): string {
    if ws == [] then ""
    else if |ws| == 1 then ws[0]
    else ws[0] + "_" + Joined(ws[1..])
  }

  ghost predicate IsWord(w: string) {
    w != "" && forall i :: 0 <= i < |w| ==> Alnum(w[i])
  }

  lemma {:induction false} WordsAreWords(s: string)
    ensures forall w :: w in Words(s) ==> IsWord(w)
    ensures Words(s) == [] ==> forall i :: 0 <= i < |s| ==> !Alnum(s[i])
  {
    if s != "" {
      WordsAreWords(s[1..]);
      if Alnum(s[0]) && |s| > 1 && Alnum(s[1]) {
        var w := Words(s[1..]);
        assert w[0] in w;
        assert IsWord([s[0]] + w[0]);
      }
    }
  }

  /** A word in front of an underscore, or at the end. */
  lemma {:induction false} WordInFront(w: string, rest: string)
    requires IsWord(w) && (rest != "" ==> rest[0] == '_')
    ensures Words(w + rest) == [w] + Words(rest)
    decreases |w|
  {
    var s := w + rest;
    assert s[1..] == w[1..] + rest;
    if |w| > 1 {
      assert IsWord(w[1..]) by {
        forall i | 0 <= i < |w| - 1 ensures Alnum(w[1..][i]) { assert w[1..][i] == w[i + 1]; }
      }
      WordInFront(w[1..], rest);
      assert s[1] == w[1];
      assert [s[0]] + w[1..] == w;
    } else {
      assert w == [s[0]] && w[1..] + rest == rest;
    }
  }

  lemma {:induction false} WordsOfJoined(ws: seq<string>)
    requires forall w :: w in ws ==> IsWord(w)
    ensures Words(Joined(ws)) == ws
  {
    if |ws| == 1 {
      WordInFront(ws[0], "");
      assert ws[0] + "" == ws[0];
    } else if |ws| > 1 {
      WordsOfJoined(ws[1..]);
      WordInFront(ws[0], "_" + Joined(ws[1..]));
      assert ws[0] + ("_" + Joined(ws[1..])) == Joined(ws);
      assert ("_" + Joined(ws[1..]))[1..] == Joined(ws[1..]);
    }
  }

  /** The end of a joined list is alphanumeric, like its start. */
  lemma {:induction false} JoinedEnds(ws: seq<string>)
    requires ws != [] && forall w :: w in ws ==> IsWord(w)
    ensures var j := Joined(ws); j != "" && Alnum(j[0]) && Alnum(j[|j| - 1])
  {
    assert ws[0] in ws;
    if |ws| > 1 { JoinedEnds(ws[1..]); }
  }

  lemma JoinedUnfolds(w: string, ws: seq<string>)
    ensures Joined([w] + ws) == if ws == [] then w else w + "_" + Joined(ws)
  {
    assert ([w] + ws)[1..] == ws;
  }

  lemma JoinedPrefix(c: char, ws: seq<string>)
    requires ws != []
    ensures Joined([[c] + ws[0]] + ws[1..]) == [c] + Joined(ws)
    ensures Joined([[c]] + ws) == [c] + "_" + Joined(ws)
  {
    hide Joined;
    assert [ws[0]] + ws[1..] == ws;
    JoinedUnfolds([c], ws);
    JoinedUnfolds(ws[0], ws[1..]);
    JoinedUnfolds([c] + ws[0], ws[1..]);
    InFrontOfJoined([c], ws[0], Joined(ws[1..]));
  }

  lemma InFrontOfJoined(c: string, w: string, j: string)
    ensures (c + w) + "_" + j == c + (w + "_" + j)
  {
  }

  function Lead(s: string, wasUnderscore: bool): string {
    if !wasUnderscore && s != "" && !Alnum(s[0]) then "_" else ""
  }

  function Trail(s: string): string {
    if s != "" && !Alnum(s[|s| - 1]) then "_" else ""
  }

  /** Collapsing leaves the words, one underscore between them, and at most one at either end. */
  lemma {:induction false} CollapsedIsJoined(s: string, wasUnderscore: bool)
    ensures var c := Collapsed(AsmIdentifier(s), wasUnderscore);
            if Words(s) == [] then c == Lead(s, wasUnderscore)
            else c == Lead(s, wasUnderscore) + Joined(Words(s)) + Trail(s)
    decreases |s|
  {
    hide Words, Joined, Collapsed, AsmIdentifier;
    NoWords();
    if s == "" {
      NothingCollapsed(wasUnderscore);
    } else {
      var rest, now := s[1..], !Alnum(s[0]);
      var ws, lead := Words(rest), Lead(rest, now);
      WordsAreWords(rest);
      assert rest != "" ==> Trail(s) == Trail(rest);
      CollapsedIsJoined(rest, now);
      CollapsedStep(s, wasUnderscore, Collapsed(AsmIdentifier(rest), now));
      if now { WordsSkip(s); } else { JoinedStep(s); }
      if ws != [] {
        Reassociate([s[0]], lead, Joined(ws), Trail(s));
        Reassociate(Lead(s, wasUnderscore), "", Joined(ws), Trail(s));
      }
    }
  }

  lemma NothingCollapsed(wasUnderscore: bool)
    ensures Collapsed(AsmIdentifier(""), wasUnderscore) == ""
  {
  }

  lemma Reassociate(a: string, b: string, c: string, d: string)
    ensures a + (b + c + d) == a + (b + c) + d
    ensures b == "" ==> b + c == c
  {
  }

  lemma NoWords()
    ensures Words("") == []
  {
  }

  lemma WordsSkip(s: string)
    requires s != "" && !Alnum(s[0])
    ensures Words(s) == Words(s[1..])
  {
  }

  /** The first byte in front of what the rest collapses to. */
  lemma CollapsedStep(s: string, wasUnderscore: bool, rest: string)
    requires s != "" && rest == Collapsed(AsmIdentifier(s[1..]), !Alnum(s[0]))
    ensures Collapsed(AsmIdentifier(s), wasUnderscore)
         == if Alnum(s[0]) then [s[0]] + rest else Lead(s, wasUnderscore) + rest
  {
    assert AsmIdentifier(s)[1..] == AsmIdentifier(s[1..]);
  }

  /** The step of an alphanumeric byte. */
  lemma JoinedStep(s: string)
    requires s != "" && Alnum(s[0])
    ensures var rest := s[1..];
            Joined(Words(s)) == [s[0]] + if Words(rest) == [] then "" else Lead(rest, false) + Joined(Words(rest))
  {
    var rest := s[1..];
    if Words(rest) != [] { JoinedPrefix(s[0], Words(rest)); }
  }

  lemma TrimLeftOnce(lead: string, t: string)
    requires lead in ["", "_"] && t != "" && t[0] != '_'
    ensures TrimLeft(lead + t) == t
  {
    if lead == "_" {
      assert (lead + t)[1..] == t;
    } else {
      assert lead + t == t;
    }
  }

  lemma TrimRightOnce(t: string, trail: string)
    requires trail in ["", "_"] && t != "" && t[|t| - 1] != '_'
    ensures TrimRight(t + trail) == t
  {
    if trail == "_" {
      assert (t + trail)[..|t|] == t;
    } else {
      assert t + trail == t;
    }
  }

  lemma TrimOnce(lead: string, j: string, trail: string)
    requires lead in ["", "_"] && trail in ["", "_"]
    requires j != "" && Alnum(j[0]) && Alnum(j[|j| - 1])
    ensures TrimRight(TrimLeft(lead + j + trail)) == j
  {
    hide TrimLeft, TrimRight;
    TrimLeftOnce(lead, j + trail);
    assert lead + j + trail == lead + (j + trail);
    TrimRightOnce(j, trail);
  }

  /** What is left of a name is its words joined by single underscores. */
  lemma SqueezedIsJoined(s: string)
    ensures Squeezed(s) == Joined(Words(s))
  {
    hide Words, Collapsed, TrimLeft, TrimRight;
    CollapsedIsJoined(s, false);
    WordsAreWords(s);
    if Words(s) == [] {
      TrimNothing(Lead(s, false));
    } else {
      JoinedEnds(Words(s));
      TrimOnce(Lead(s, false), Joined(Words(s)), Trail(s));
    }
  }

  lemma TrimNothing(s: string)
    requires s in ["", "_"]
    ensures TrimRight(TrimLeft(s)) == ""
  {
  }

  /** Two names are squeezed to the same form if and only if they have the same words. */
  lemma SameSqueezedIffSameWords(a: string, b: string)
    ensures Squeezed(a) == Squeezed(b) <==> Words(a) == Words(b)
  {
    hide Words, Squeezed;
    SqueezedIsJoined(a);
    SqueezedIsJoined(b);
    WordsAreWords(a);
    WordsAreWords(b);
    WordsOfJoined(Words(a));
    WordsOfJoined(Words(b));
  }

  /** Destroying the separators first changes nothing. */
  lemma SqueezedIdentifier(s: string)
    ensures AsmIdentifier(AsmIdentifier(s)) == AsmIdentifier(s)
    ensures Squeezed(AsmIdentifier(s)) == Squeezed(s)
  {
    assert AsmIdentifier(AsmIdentifier(s)) == AsmIdentifier(s);
  }

  // ---------- doubled tails ----------

  /** s ends with the same segment twice, with the underscore at i in between, and the segment does not end
      with an underscore. */
  predicate DoubledAt(s: string, i: int) {
    && 1 <= i < |s| - 1 && s[i] == '_' && s[i - 1] != '_'
    && i - |s[i + 1..]| >= 0
    && s[i - |s[i + 1..]|..i] == s[i + 1..]
  }

  /** The first such place from i on, |s| if none. */
  function FirstDouble(s: string, i: nat): (r: nat)
    requires i <= |s|
    ensures i <= r <= |s| && (r < |s| ==> DoubledAt(s, r))
    ensures forall j :: i <= j < r ==> !DoubledAt(s, j)
    decreases |s| - i
  {
    if i == |s| || DoubledAt(s, i) then i else FirstDouble(s, i + 1)
  }

  function CollapseSelfDouble(s: string): string {
    s[..FirstDouble(s, 0)]
  }

  /** s is something, the tail, an underscore and the tail again. */
  ghost predicate IsDoubledTail(s: string, tail: string) {
    && tail != "" && tail[|tail| - 1] != '_' && 2 * |tail| + 1 <= |s|
    && s == s[..|s| - 2 * |tail| - 1] + tail + "_" + tail
  }

  lemma TailIsDouble(s: string, tail: string)
    requires IsDoubledTail(s, tail)
    ensures DoubledAt(s, |s| - |tail| - 1)
  {
    var i := |s| - |tail| - 1;
    assert s[i + 1..] == tail;
    assert s[i - |tail|..i] == tail;
    assert s[i - 1] == tail[|tail| - 1];
  }

  lemma DoubleIsTail(s: string, i: int)
    requires DoubledAt(s, i)
    ensures IsDoubledTail(s, s[i + 1..]) && s == s[..i] + "_" + s[i + 1..]
  {
    var tail := s[i + 1..];
    assert s[..i] == s[..i - |tail|] + tail;
  }

  /** A name without a doubled tail stays as it is. */
  lemma UndoubledIsKept(s: string)
    requires forall tail :: !IsDoubledTail(s, tail)
    ensures CollapseSelfDouble(s) == s
  {
    hide IsDoubledTail, DoubledAt;
    var i := FirstDouble(s, 0);
    if i < |s| { DoubleIsTail(s, i); }
  }

  /** Of a name with doubled tails, the longest goes, with the underscore in front of it. */
  lemma LongestDoubleIsCollapsed(s: string, tail: string)
    requires IsDoubledTail(s, tail)
    ensures var r := CollapseSelfDouble(s);
            && |r| < |s|
            && s == r + "_" + s[|r| + 1..] && IsDoubledTail(s, s[|r| + 1..])
            && |tail| <= |s[|r| + 1..]|
  {
    hide IsDoubledTail, DoubledAt;
    var i := FirstDouble(s, 0);
    TailIsDouble(s, tail);
    TailFits(s, tail);
    DoubleIsTail(s, i);
  }

  lemma TailFits(s: string, tail: string)
    requires IsDoubledTail(s, tail)
    ensures 0 <= |s| - |tail| - 1
  {
  }

  /** A name written twice is written once, exactly when it is not empty and does not end with an
      underscore. */
  lemma DoubledNameCollapses(x: string)
    ensures CollapseSelfDouble(x + "_" + x) == x <==> x != "" && x[|x| - 1] != '_'
  {
    var s, n := x + "_" + x, |x|;
    assert s[n + 1..] == x && s[..n] == x;
    var i := FirstDouble(s, 0);
    if x != "" && x[n - 1] != '_' {
      assert s[n - |s[n + 1..]|..n] == s[n + 1..];
      assert DoubledAt(s, n);
      assert i == n;
    }
  }

  function AsmFold(s: string): string {
    CollapseSelfDouble(Squeezed(s))
  }

  /** Names with the same words fold alike. */
  lemma SameWordsFoldAlike(a: string, b: string)
    requires Words(a) == Words(b)
    ensures AsmFold(a) == AsmFold(b)
  {
    hide CollapseSelfDouble, Squeezed;
    SameSqueezedIffSameWords(a, b);
  }

  lemma {:induction false} JoinedAppend(a: seq<string>, b: seq<string>)
    requires a != [] && b != []
    ensures Joined(a + b) == Joined(a) + "_" + Joined(b)
  {
    if |a| == 1 {
      assert (a + b)[1..] == b;
    } else {
      JoinedAppend(a[1..], b);
      assert (a + b)[1..] == a[1..] + b;
      assert a[0] + "_" + (Joined(a[1..]) + "_" + Joined(b)) == Joined(a) + "_" + Joined(b);
    }
  }

  // ---------- the oldest dialect ----------

  predicate HasPrefix(s: string, prefix: string) {
    prefix <= s
  }

  predicate Digit(c: char) { '0' <= c <= '9' }

  predicate Space(c: char) { c in [' ', '\t', '\n', '\r', '\U{0b}', '\U{0c}'] }

  function TrimSpaceLeft(s: string): string {
    if s != "" && Space(s[0]) then TrimSpaceLeft(s[1..]) else s
  }

  function TrimSpaceRight(s: string): string {
    if s != "" && Space(s[|s| - 1]) then TrimSpaceRight(s[..|s| - 1]) else s
  }

  /** Without its last run of digits. */
  function DropDigits(s: string): (r: string)
    ensures r <= s
  {
    if s != "" && Digit(s[|s| - 1]) then DropDigits(s[..|s| - 1]) else s
  }

  /** Without an underscore and digits at the end, if it has them. */
  function DropIndex(s: string): string {
    var r := DropDigits(s);
    if r != s && r != "" && r[|r| - 1] == '_' then r[..|r| - 1] else s
  }

  const PRECOMPILED := "Precompiled_"
  const ALLOCATION_STUB := "AllocationStub_"
  const STUB := "Stub_"
  const NEW := "new_"

  datatype Body = Body(text: string, allocationStub: bool)

  function AssemblerBody(sym: string): Option<Body> {
    var s := TrimSpaceRight(TrimSpaceLeft(sym));
    if !HasPrefix(s, PRECOMPILED) then None
    else
      var t := DropIndex(s[|PRECOMPILED|..]);
      if HasPrefix(t, ALLOCATION_STUB) then Some(Body(NEW + t[|ALLOCATION_STUB|..], true))
      else if HasPrefix(t, STUB) then Some(Body(t[|STUB|..], false))
      else Some(Body(t, false))
  }

  /** The name without its suffix (an opaque function here), a final dot, and with underscores for spaces. */
  function NormalizeRecovered(dropSuffix: string -> string, name: string): string {
    var n := dropSuffix(name);
    var m := if n != "" && n[|n| - 1] == '.' then n[..|n| - 1] else n;
    seq(|m|, i requires 0 <= i < |m| => if m[i] == ' ' then '_' else m[i])
  }

  /** The part before the first dot. */
  function BeforeDot(s: string): string {
    if s == "" || s[0] == '.' then "" else [s[0]] + BeforeDot(s[1..])
  }

  function QualifiedCString(n: string): string {
    if HasPrefix(n, NEW) then BeforeDot(n[|NEW|..]) + "." + n[|NEW|..] else n
  }

  /** The verdict of the first dialect; None hands the symbol on to the other two. */
  function NamesAgree(dropSuffix: string -> string, ours: string, sym: string): Option<bool> {
    match AssemblerBody(sym)
    case None => None
    case Some(body) =>
      var mine := NormalizeRecovered(dropSuffix, ours);
      var qualified := if body.allocationStub then mine else QualifiedCString(mine);
      Some(AsmFold(qualified) == AsmFold(body.text))
  }

  /** How the dialect itself writes a qualified name. */
  function Rendering(qualified: string, index: string): string {
    PRECOMPILED + AsmIdentifier(qualified) + "_" + index
  }

  predicate IsIndex(index: string) {
    index != "" && forall i :: 0 <= i < |index| ==> Digit(index[i])
  }

  lemma {:induction false} DropDigitsAppend(s: string, index: string)
    requires s != "" && !Digit(s[|s| - 1]) && forall i :: 0 <= i < |index| ==> Digit(index[i])
    ensures DropDigits(s + index) == s
  {
    var t := s + index;
    if index == "" {
      assert t == s;
    } else {
      assert t[..|t| - 1] == s + index[..|index| - 1];
      DropDigitsAppend(s, index[..|index| - 1]);
    }
  }

  /** The wrapper comes off a rendering, and nothing else does. */
  lemma RenderingBody(qualified: string, index: string)
    requires IsIndex(index)
    ensures var s, id := Rendering(qualified, index), AsmIdentifier(qualified);
            && TrimSpaceRight(TrimSpaceLeft(s)) == s && HasPrefix(s, PRECOMPILED)
            && DropIndex(s[|PRECOMPILED|..]) == id
  {
    hide TrimSpaceLeft, TrimSpaceRight, DropDigits;
    var s, id := Rendering(qualified, index), AsmIdentifier(qualified);
    assert s[0] == 'P' && s[|s| - 1] == index[|index| - 1];
    NoSpaceAround(s);
    assert s[|PRECOMPILED|..] == (id + "_") + index;
    DropDigitsAppend(id + "_", index);
    assert (id + "_")[..|id|] == id;
  }

  lemma NoSpaceAround(s: string)
    requires s != "" && s[0] == 'P' && Digit(s[|s| - 1])
    ensures TrimSpaceRight(TrimSpaceLeft(s)) == s
  {
  }

  /** The oldest dialect's own rendering of a name is accepted unless the identifier itself begins like a
      stub. */
  lemma OwnRenderingAgrees(dropSuffix: string -> string, ours: string, index: string)
    requires IsIndex(index)
    requires var id := AsmIdentifier(QualifiedCString(NormalizeRecovered(dropSuffix, ours)));
             !HasPrefix(id, STUB) && !HasPrefix(id, ALLOCATION_STUB)
    ensures NamesAgree(dropSuffix, ours, Rendering(QualifiedCString(NormalizeRecovered(dropSuffix, ours)), index))
         == Some(true)
  {
    hide AsmFold, Rendering, NormalizeRecovered, QualifiedCString, DropIndex, TrimSpaceLeft, TrimSpaceRight;
    var q := QualifiedCString(NormalizeRecovered(dropSuffix, ours));
    RenderingBody(q, index);
    FoldIdentifier(q);
  }

  lemma FoldIdentifier(s: string)
    ensures AsmFold(AsmIdentifier(s)) == AsmFold(s)
  {
    hide CollapseSelfDouble, Squeezed;
    SqueezedIdentifier(s);
  }

  lemma StubWord(id: string)
    requires HasPrefix(id, STUB)
    ensures Words(id) == ["Stub"] + Words(id[|STUB|..])
  {
    var after := id[|"Stub"|..];
    assert id == "Stub" + after && after[0] == '_' && after[1..] == id[|STUB|..];
    WordInFront("Stub", after);
  }

  // ---------- the loops ----------

  method AsmIdentifierInPlace(b: array<char>)
    modifies b
    ensures b[..] == AsmIdentifier(old(b[..]))
  {
    for i := 0 to b.Length
      invariant forall j :: 0 <= j < i ==> b[j] == if Alnum(old(b[j])) then old(b[j]) else '_'
      invariant forall j :: i <= j < b.Length ==> b[j] == old(b[j])
    {
      if !Alnum(b[i]) { b[i] := '_'; }
    }
  }

  method CollapseRuns(id: string) returns (out: string)
    ensures out == Collapsed(id, false)
  {
    hide Collapsed;
    out := "";
    var prevUnderscore := false;
    assert id[0..] == id;
    for i := 0 to |id|
      invariant Collapsed(id, false) == out + Collapsed(id[i..], prevUnderscore)
    {
      CollapsedUnfolds(id, i, prevUnderscore);
      if id[i] == '_' {
        if !prevUnderscore { out := out + "_"; }
        prevUnderscore := true;
        continue;
      }
      prevUnderscore := false;
      out := out + [id[i]];
    }
    assert id[|id|..] == "";
    CollapsedEnds(prevUnderscore);
  }

  method Fold(s: string) returns (r: string)
    ensures r == AsmFold(s)
  {
    hide AsmIdentifier, Collapsed, TrimLeft, TrimRight, CollapseSelfDouble;
    var b := new char[|s|](i requires 0 <= i < |s| => s[i]);
    assert b[..] == s;
    AsmIdentifierInPlace(b);
    var out := CollapseRuns(b[..]);
    r := Undouble(TrimRight(TrimLeft(out)));
  }

  lemma CollapsedUnfolds(s: string, i: nat, was: bool)
    requires i < |s|
    ensures Collapsed(s[i..], was) ==
      if s[i] == '_' then (if was then "" else "_") + Collapsed(s[i + 1..], true)
      else [s[i]] + Collapsed(s[i + 1..], false)
  {
    assert s[i..][1..] == s[i + 1..];
  }

  lemma CollapsedEnds(was: bool)
    ensures Collapsed("", was) == ""
  {
  }

  method Undouble(s: string) returns (r: string)
    ensures r == CollapseSelfDouble(s)
  {
    hide DoubledAt;
    var i := 1;
    NotDoubledAtEnds(s);
    while i < |s| - 1
      invariant 1 <= i && (i <= |s| || |s| == 0)
      invariant forall j :: 0 <= j < i ==> !DoubledAt(s, j)
    {
      if IsDouble(s, i) {
        DoubledMeans(s, i);
        assert FirstDouble(s, 0) == i;
        return s[..i];
      }
      DoubledMeans(s, i);
      i := i + 1;
    }
    r := s;
    NoLaterDouble(s, i);
  }

  /** The loop's three tests. */
  predicate IsDouble(s: string, i: int)
    requires 1 <= i < |s| - 1
  {
    if s[i] != '_' then false
    else
      var tail := s[i + 1..];
      if i - |tail| < 0 || s[i - 1] == '_' then false else s[i - |tail|..i] == tail
  }

  lemma DoubledMeans(s: string, i: int)
    requires 1 <= i < |s| - 1
    ensures IsDouble(s, i) <==> DoubledAt(s, i)
  {
  }

  lemma NotDoubledAtEnds(s: string)
    ensures !DoubledAt(s, 0) && forall j :: j >= |s| - 1 ==> !DoubledAt(s, j)
  {
  }

  lemma NoLaterDouble(s: string, i: int)
    requires i >= |s| - 1 && forall j :: 0 <= j < i ==> !DoubledAt(s, j)
    ensures CollapseSelfDouble(s) == s
  {
    NotDoubledAtEnds(s);
  }
}
