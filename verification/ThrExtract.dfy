/** Reading the Thread offsets of one build out of runtime_offsets_extracted.h: a preprocessor stack
    selects the lines, and the offsets on them are merged. */
module ThrExtract {
  import opened Wire

  /** What a condition says: its own PRODUCT test (1, -1 if negated, 0 if none), whether that test is all
      of it, and what else it mentions. */
  datatype Cond = Cond(product: int, alone: bool, namesArch: bool, compressed: bool, notCompressed: bool) {
    predicate SaysNothingElse() { !namesArch && !compressed && !notCompressed }

    /** No test that the build decides. */
    predicate Neutral() { product == 0 && SaysNothingElse() }

    /** A PRODUCT test and nothing else. */
    predicate Guard() { alone && product != 0 && SaysNothingElse() }
  }

  /** A line that is no directive: a scalar field, a field whose value is on a later line, such a value, the
      write-barrier array (None is a register without a wrapper), or something else. */
  datatype Line =
    | Scalar(name: string, offset: int)
    | Named(name: string)
    | Value(offset: int)
    | WrapperArray(offsets: seq<Option<int>>)
    | Other

  /** An #else has no test, an #elif has one. */
  datatype Token = If(cond: Cond) | Else(test: Option<Cond>) | Endif | Text(line: Line)

  /** The build asked for; `headerHasCompressed` if the header mentions compressed pointers at all. */
  datatype Build = Build(product: bool, compressed: bool, headerHasCompressed: bool) {
    function Wanted(): int { if product then 1 else -1 }

    predicate CompressionMatches(c: Cond) {
      headerHasCompressed ==> if compressed then c.compressed && !c.notCompressed else c.notCompressed
    }

    /** enclosing is the PRODUCT state around the condition, for when it has no test of its own. */
    predicate Selects(c: Cond, enclosing: int) {
      && c.namesArch && CompressionMatches(c)
      && (if c.product != 0 then c.product else enclosing) == Wanted()
    }

    /** The build is known not to meet the condition. */
    predicate Fails(c: Cond) {
      || c.product == -Wanted()
      || (headerHasCompressed && if compressed then c.notCompressed else c.compressed && !c.notCompressed)
    }

    /** And known to meet it. */
    predicate Holds(c: Cond, enclosing: int) {
      !Fails(c) && (Selects(c, enclosing) || (c.alone && c.product == Wanted()))
    }
  }

  // ---------- values on later lines ----------

  /** The first value among the tokens from i up to n. */
  function FirstValue(tokens: seq<Token>, i: nat, n: nat): Option<int>
    requires i <= n <= |tokens|
    decreases n - i
  {
    if i == n then None
    else if tokens[i].Text? && tokens[i].line.Value? then Some(tokens[i].line.offset)
    else FirstValue(tokens, i + 1, n)
  }

  const LOOK_AHEAD := 3

  function LookAheadEnd(tokens: seq<Token>, i: nat): (n: nat)
    requires i < |tokens|
    ensures i + 1 <= n <= |tokens|
  {
    if i + 1 + LOOK_AHEAD <= |tokens| then i + 1 + LOOK_AHEAD else |tokens|
  }

  /** A name takes the first value on the three lines after it, whatever else is on them. */
  function Resolved(tokens: seq<Token>, i: nat): Token
    requires i < |tokens|
  {
    if tokens[i].Text? && tokens[i].line.Named? then
      match FirstValue(tokens, i + 1, LookAheadEnd(tokens, i))
      case Some(offset) => Text(Scalar(tokens[i].line.name, offset))
      case None => Text(Other)
    else tokens[i]
  }

  function ResolvedAll(tokens: seq<Token>): seq<Token> {
    seq(|tokens|, i requires 0 <= i < |tokens| => Resolved(tokens, i))
  }

  ghost predicate IsValue(tokens: seq<Token>, j: int, offset: int) {
    0 <= j < |tokens| && tokens[j] == Text(Value(offset))
  }

  /** Of the lines from i on, line j is the first with a value. */
  ghost predicate FirstValueAt(tokens: seq<Token>, i: nat, j: int, offset: int) {
    i <= j && IsValue(tokens, j, offset) && forall l, other :: i <= l < j ==> !IsValue(tokens, l, other)
  }

  /** The first value on the three lines after line i. */
  ghost predicate NextValue(tokens: seq<Token>, i: nat, j: int, offset: int) {
    j <= i + 3 && FirstValueAt(tokens, i + 1, j, offset)
  }

  lemma {:induction false} FirstValueIs(tokens: seq<Token>, i: nat, n: nat)
    requires i <= n <= |tokens|
    ensures FirstValue(tokens, i, n).None? ==> forall l, other :: i <= l < n ==> !IsValue(tokens, l, other)
    ensures FirstValue(tokens, i, n).Some? ==> exists j :: j < n && FirstValueAt(tokens, i, j, FirstValue(tokens, i, n).value)
    decreases n - i
  {
    if i < n {
      if tokens[i].Text? && tokens[i].line.Value? {
        var offset := tokens[i].line.offset;
        assert FirstValue(tokens, i, n) == Some(offset) && tokens[i] == Text(Value(offset));
        assert FirstValueAt(tokens, i, i, offset);
      } else {
        FirstValueIs(tokens, i + 1, n);
        if FirstValue(tokens, i + 1, n).Some? {
          var offset := FirstValue(tokens, i + 1, n).value;
          var j :| j < n && FirstValueAt(tokens, i + 1, j, offset);
          assert FirstValueAt(tokens, i, j, offset);
        }
      }
    }
  }

  /** A name becomes a field exactly with the first value on the three lines after it, and nothing without
      one. */
  lemma NameTakesNextValue(tokens: seq<Token>, i: nat, name: string, offset: int)
    requires i < |tokens| && tokens[i] == Text(Named(name))
    ensures Resolved(tokens, i) == Text(Scalar(name, offset)) <==> exists j :: NextValue(tokens, i, j, offset)
    ensures (forall j, v :: !NextValue(tokens, i, j, v)) ==> Resolved(tokens, i) == Text(Other)
  {
    hide FirstValue;
    var n := LookAheadEnd(tokens, i);
    FirstValueIs(tokens, i + 1, n);
    match FirstValue(tokens, i + 1, n)
    case None =>
    case Some(v) =>
      var j :| j < n && FirstValueAt(tokens, i + 1, j, v);
      assert NextValue(tokens, i, j, v);
      if k :| NextValue(tokens, i, k, offset) { OneNextValue(tokens, i, j, v, k, offset); }
  }

  lemma OneNextValue(tokens: seq<Token>, i: nat, j: int, v: int, k: int, w: int)
    requires NextValue(tokens, i, j, v) && NextValue(tokens, i, k, w)
    ensures j == k && v == w
  {
  }

  // ---------- the stack ----------

  datatype Frame = Frame(product: int, isSection: bool)

  /** The innermost PRODUCT state that is not 0. */
  function Enclosing(stack: seq<Frame>): int {
    if stack == [] then 0
    else
      var top := stack[|stack| - 1];
      if top.product != 0 then top.product else Enclosing(stack[..|stack| - 1])
  }

  predicate InSection(stack: seq<Frame>) {
    exists i :: 0 <= i < |stack| && stack[i].isSection
  }

  /** An #else and an #elif are treated alike: the test is not looked at. */
  function Moved(b: Build, stack: seq<Frame>, t: Token): seq<Frame> {
    match t
    case If(c) => stack + [Frame(c.product, b.Selects(c, Enclosing(stack)))]
    case Else(_) =>
      if stack == [] then stack
      else stack[|stack| - 1 := Frame(-stack[|stack| - 1].product, false)]
    case Endif => if stack == [] then stack else stack[..|stack| - 1]
    case Text(_) => stack
  }

  /** The PRODUCT state in force after a line, whether a section is read there, and the line; or a line that
      no preprocessor reads for the build. */
  datatype Mark = Mark(product: int, inside: bool, line: Option<Line>) | Unread(line: Option<Line>) {
    predicate Harvested() { Mark? && inside && line.Some? }
  }

  function MarkOf(b: Build, stack: seq<Frame>, t: Token): Mark {
    var stack' := Moved(b, stack, t);
    Mark(Enclosing(stack'), InSection(stack'), if t.Text? then Some(t.line) else None)
  }

  function Walked(b: Build, tokens: seq<Token>, stack: seq<Frame>): seq<Mark>
    decreases |tokens|
  {
    if tokens == [] then []
    else [MarkOf(b, stack, tokens[0])] + Walked(b, tokens[1..], Moved(b, stack, tokens[0]))
  }

  /** The lines read. */
  function Kept(marks: seq<Mark>): seq<Line> {
    if marks == [] then []
    else (if marks[0].Harvested() then [marks[0].line.value] else []) + Kept(marks[1..])
  }

  // ---------- which sections are read ----------

  function Opened(cs: seq<Cond>): seq<Token> {
    seq(|cs|, i requires 0 <= i < |cs| => If(cs[i]))
  }

  function Opening(b: Build, cs: seq<Cond>): seq<Frame> {
    if cs == [] then []
    else
      var n := |cs| - 1;
      Moved(b, Opening(b, cs[..n]), If(cs[n]))
  }

  /** Condition i asks for the build: it names the architecture, it asks for the compression wanted where the
      header has any, and the innermost PRODUCT test from it outwards is the one wanted. */
  ghost predicate AsksFor(b: Build, cs: seq<Cond>, i: int) {
    && 0 <= i < |cs| && cs[i].namesArch
    && (b.headerHasCompressed && b.compressed ==> cs[i].compressed && !cs[i].notCompressed)
    && (b.headerHasCompressed && !b.compressed ==> cs[i].notCompressed)
    && exists j :: 0 <= j <= i && cs[j].product == (if b.product then 1 else -1) && SilentBetween(cs, j, i)
  }

  ghost predicate SilentBetween(cs: seq<Cond>, j: int, i: int) {
    0 <= j <= i < |cs| && forall l :: j < l <= i ==> cs[l].product == 0
  }

  /** The innermost PRODUCT test. */
  lemma {:induction false} EnclosingIs(b: Build, cs: seq<Cond>)
    ensures |Opening(b, cs)| == |cs|
    ensures Enclosing(Opening(b, cs)) == 0 ==> forall l :: 0 <= l < |cs| ==> cs[l].product == 0
    ensures Enclosing(Opening(b, cs)) != 0 ==>
      exists j :: 0 <= j < |cs| && cs[j].product == Enclosing(Opening(b, cs)) && SilentBetween(cs, j, |cs| - 1)
  {
    hide Build.Selects;
    if cs != [] {
      var n := |cs| - 1;
      EnclosingIs(b, cs[..n]);
      var before, all := Opening(b, cs[..n]), Opening(b, cs);
      assert all[..|all| - 1] == before;
      if cs[n].product != 0 {
        assert SilentBetween(cs, n, n);
      } else if Enclosing(before) != 0 {
        var j :| 0 <= j < n && cs[..n][j].product == Enclosing(before) && SilentBetween(cs[..n], j, n - 1);
        assert forall l :: j < l < n ==> cs[l] == cs[..n][l];
        assert cs[j] == cs[..n][j] && SilentBetween(cs, j, n);
      } else {
        assert forall l :: 0 <= l < n ==> cs[l] == cs[..n][l];
      }
    }
  }

  lemma OneTest(cs: seq<Cond>, i: int, j: int, k: int)
    requires SilentBetween(cs, j, i) && SilentBetween(cs, k, i) && cs[j].product != 0 && cs[k].product != 0
    ensures j == k
  {
  }

  lemma SelectsAsked(b: Build, cs: seq<Cond>)
    requires cs != []
    ensures b.Selects(cs[|cs| - 1], Enclosing(Opening(b, cs[..|cs| - 1]))) <==> AsksFor(b, cs, |cs| - 1)
  {
    var n := |cs| - 1;
    var c, e := cs[n], Enclosing(Opening(b, cs[..n]));
    EnclosingIs(b, cs);
    hide Enclosing, Opening;
    LastEnclosing(b, cs);
    var inner := Enclosing(Opening(b, cs));
    if j :| 0 <= j <= n && cs[j].product == b.Wanted() && SilentBetween(cs, j, n) {
      if inner != 0 {
        var k :| 0 <= k < |cs| && cs[k].product == inner && SilentBetween(cs, k, n);
        OneTest(cs, n, j, k);
      }
    }
  }

  lemma LastEnclosing(b: Build, cs: seq<Cond>)
    requires cs != []
    ensures Enclosing(Opening(b, cs)) == if cs[|cs| - 1].product != 0 then cs[|cs| - 1].product
                                         else Enclosing(Opening(b, cs[..|cs| - 1]))
  {
    hide Build.Selects;
    var all := Opening(b, cs);
    assert all[..|all| - 1] == Opening(b, cs[..|cs| - 1]);
  }

  /** Inside of conditions, one in the other, a line is read if and only if one of them asks for the build. */
  lemma {:induction false} ReadIfAskedFor(b: Build, cs: seq<Cond>)
    ensures InSection(Opening(b, cs)) <==> exists i :: AsksFor(b, cs, i)
  {
    hide Build.Selects, Enclosing;
    if cs != [] {
      var n := |cs| - 1;
      var before, all := Opening(b, cs[..n]), Opening(b, cs);
      ReadIfAskedFor(b, cs[..n]);
      SelectsAsked(b, cs);
      forall i | 0 <= i < n ensures AsksFor(b, cs, i) <==> AsksFor(b, cs[..n], i) { AskedInPrefix(b, cs, i); }
      assert forall i :: 0 <= i < |before| ==> all[i] == before[i];
      assert all[|before|] == Frame(cs[n].product, b.Selects(cs[n], Enclosing(before)));
    }
  }

  lemma AskedInPrefix(b: Build, cs: seq<Cond>, i: int)
    requires 0 <= i < |cs| - 1
    ensures AsksFor(b, cs, i) <==> AsksFor(b, cs[..|cs| - 1], i)
  {
    var before := cs[..|cs| - 1];
    assert forall l :: 0 <= l < |before| ==> before[l] == cs[l];
    forall j | 0 <= j <= i ensures SilentBetween(cs, j, i) <==> SilentBetween(before, j, i) {
    }
  }

  /** What the stack is after the conditions is what the walk has seen. */
  lemma {:induction false} WalkedThrough(b: Build, cs: seq<Cond>, k: seq<Token>)
    ensures Kept(Walked(b, Opened(cs) + k, [])) == Kept(Walked(b, k, Opening(b, cs)))
  {
    hide MarkOf, Enclosing, InSection, Build.Selects;
    if cs == [] {
      assert Opened(cs) + k == k;
    } else {
      var n := |cs| - 1;
      var t := [If(cs[n])] + k;
      assert Opened(cs) + k == Opened(cs[..n]) + t;
      WalkedThrough(b, cs[..n], t);
      WalkedCons(b, If(cs[n]), k, Opening(b, cs[..n]));
      DirectiveIsNotKept(b, Opening(b, cs[..n]), If(cs[n]), Walked(b, k, Opening(b, cs)));
    }
  }

  lemma DirectiveIsNotKept(b: Build, stack: seq<Frame>, t: Token, marks: seq<Mark>)
    requires !t.Text?
    ensures Kept([MarkOf(b, stack, t)] + marks) == Kept(marks)
  {
    assert ([MarkOf(b, stack, t)] + marks)[1..] == marks;
  }

  /** A field behind conditions, one in the other, is taken if and only if one of them asks for the build. */
  lemma FieldIsRead(b: Build, cs: seq<Cond>, line: Line)
    ensures Kept(Walked(b, Opened(cs) + [Text(line)], [])) == if exists i :: AsksFor(b, cs, i) then [line] else []
  {
    hide Enclosing, InSection, AsksFor, Moved, Opening;
    WalkedThrough(b, cs, [Text(line)]);
    ReadIfAskedFor(b, cs);
    WalkedLine(b, line, Opening(b, cs));
  }

  lemma WalkedLine(b: Build, line: Line, stack: seq<Frame>)
    ensures Kept(Walked(b, [Text(line)], stack)) == if InSection(stack) then [line] else []
  {
    hide Enclosing, InSection;
    assert [Text(line)][1..] == [] && Walked(b, [], stack) == [];
  }

  // ---------- the header as a tree ----------

  /** A well-nested header. */
  datatype Items =
    | Nil
    | Plain(line: Line, rest: Items)
    | Group(cond: Cond, body: Items, elses: Elses, rest: Items)

  datatype Elses = NoElse | Branch(test: Option<Cond>, body: Items, more: Elses)

  function Tokens(items: Items, k: seq<Token>): seq<Token>
    decreases items
  {
    match items
    case Nil => k
    case Plain(line, rest) => [Text(line)] + Tokens(rest, k)
    case Group(c, body, elses, rest) => [If(c)] + Tokens(body, ElseTokens(elses, Tokens(rest, k)))
  }

  function ElseTokens(elses: Elses, k: seq<Token>): seq<Token>
    decreases elses
  {
    match elses
    case NoElse => [Endif] + k
    case Branch(test, body, more) => [Else(test)] + Tokens(body, ElseTokens(more, k))
  }

  function Inner(product: int, enclosing: int): int {
    if product != 0 then product else enclosing
  }

  /** What is known of PRODUCT when a condition has failed too: only a test that is the whole condition says
      anything. */
  function Failing(known: int, c: Cond): int {
    if c.product != 0 && c.alone then -c.product else known
  }

  function AllFailing(known: int, test: Option<Cond>): int {
    match test
    case Some(c) => Failing(known, c)
    case None => known
  }

  /** What an else part says of PRODUCT: its own test, else what is known from the failed ones. */
  function OwnState(test: Option<Cond>, known: int): int {
    if test.Some? && test.value.product != 0 then test.value.product else known
  }

  predicate Opens(b: Build, test: Option<Cond>, enclosing: int) {
    test.Some? && b.Selects(test.value, enclosing)
  }

  /** No preprocessor reads an else part when an earlier part of the chain was taken or its own test fails. */
  predicate Dead(b: Build, taken: bool, test: Option<Cond>) {
    taken || (test.Some? && b.Fails(test.value))
  }

  predicate Taken(b: Build, taken: bool, test: Option<Cond>, enclosing: int) {
    taken || (test.Some? && b.Holds(test.value, enclosing))
  }

  /** How a header is read.  The code reads every part, negates the state of the part before an else part and
      never opens a section there; what is meant is that the part's own test and the failed tests before it
      decide, and that parts the build does not have are not read. */
  datatype Reading = AsCoded | AsMeant {
    function State(current: int, test: Option<Cond>, known: int): int {
      if AsCoded? then -current else OwnState(test, known)
    }

    predicate Section(b: Build, test: Option<Cond>, enclosing: int) {
      AsMeant? && Opens(b, test, enclosing)
    }
  }

  /** The marks of a recursive reading, in front of k.  A condition is judged by its own PRODUCT test, else
      by the innermost enclosing one. */
  function Read(b: Build, m: Reading, items: Items, enclosing: int, inside: bool, k: seq<Mark>): seq<Mark>
    decreases items, 0
  {
    match items
    case Nil => k
    case Plain(line, rest) => [Mark(enclosing, inside, Some(line))] + Read(b, m, rest, enclosing, inside, k)
    case Group(c, body, elses, rest) =>
      var after := Read(b, m, rest, enclosing, inside, k);
      Part(b, m, b.Fails(c), body, Inner(c.product, enclosing), inside || b.Selects(c, enclosing),
           ReadElses(b, m, elses, c.product, Failing(0, c), b.Holds(c, enclosing), enclosing, inside, after))
  }

  /** One part of a chain, with the mark of the directive that begins it. */
  function Part(b: Build, m: Reading, dead: bool, body: Items, enclosing: int, inside: bool, k: seq<Mark>): seq<Mark>
    decreases body, 1
  {
    if m.AsMeant? && dead then [Unread(None)] + Skipped(body, k)
    else [Mark(enclosing, inside, None)] + Read(b, m, body, enclosing, inside, k)
  }

  /** current is the state of the part before, known what the failed tests say, taken whether a part before
      was. */
  function ReadElses(
    b: Build, m: Reading, elses: Elses, current: int, known: int, taken: bool, enclosing: int, inside: bool,
    k: seq<Mark>): seq<Mark>
    decreases elses, 0
  {
    match elses
    case NoElse => [Mark(enclosing, inside, None)] + k
    case Branch(test, body, more) =>
      var state, around := m.State(current, test, known), Inner(known, enclosing);
      Part(b, m, Dead(b, taken, test), body, Inner(state, enclosing), inside || m.Section(b, test, around),
           ReadElses(b, m, more, state, AllFailing(known, test), Taken(b, taken, test, around), enclosing, inside, k))
  }

  function Skipped(items: Items, k: seq<Mark>): seq<Mark>
    decreases items
  {
    match items
    case Nil => k
    case Plain(line, rest) => [Unread(Some(line))] + Skipped(rest, k)
    case Group(_, body, elses, rest) => [Unread(None)] + Skipped(body, SkippedElses(elses, Skipped(rest, k)))
  }

  function SkippedElses(elses: Elses, k: seq<Mark>): seq<Mark>
    decreases elses
  {
    match elses
    case NoElse => [Unread(None)] + k
    case Branch(_, body, more) => [Unread(None)] + Skipped(body, SkippedElses(more, k))
  }

  // ---------- the stack reads the tree ----------

  lemma Pushed(stack: seq<Frame>, f: Frame)
    ensures Enclosing(stack + [f]) == Inner(f.product, Enclosing(stack))
    ensures InSection(stack + [f]) <==> InSection(stack) || f.isSection
  {
    var s := stack + [f];
    assert s[..|s| - 1] == stack && s[|stack|] == f;
    assert forall i :: 0 <= i < |stack| ==> s[i] == stack[i];
  }

  lemma WalkedCons(b: Build, t: Token, k: seq<Token>, stack: seq<Frame>)
    ensures Walked(b, [t] + k, stack) == [MarkOf(b, stack, t)] + Walked(b, k, Moved(b, stack, t))
  {
    hide MarkOf, Moved;
    assert ([t] + k)[1..] == k;
  }

  lemma FlipTop(b: Build, stack: seq<Frame>, f: Frame, test: Option<Cond>)
    ensures Moved(b, stack + [f], Else(test)) == stack + [Frame(-f.product, false)]
    ensures Moved(b, stack + [f], Endif) == stack
  {
  }

  /** On every well-nested header the explicit stack makes the marks of the recursive reading. */
  lemma {:induction false} StackReadsTheTree(b: Build, items: Items, k: seq<Token>, stack: seq<Frame>)
    ensures Walked(b, Tokens(items, k), stack)
         == Read(b, AsCoded, items, Enclosing(stack), InSection(stack), Walked(b, k, stack))
    decreases items
  {
    hide InSection, Enclosing, Walked, Build.Selects, Build.Fails, Build.Holds, Failing;
    match items
    case Nil =>
    case Plain(line, rest) =>
      WalkedCons(b, Text(line), Tokens(rest, k), stack);
      StackReadsTheTree(b, rest, k, stack);
    case Group(c, body, elses, rest) =>
      var f := Frame(c.product, b.Selects(c, Enclosing(stack)));
      var after := Tokens(rest, k);
      WalkedCons(b, If(c), Tokens(body, ElseTokens(elses, after)), stack);
      Pushed(stack, f);
      StackReadsTheTree(b, body, ElseTokens(elses, after), stack + [f]);
      StackReadsTheElses(b, elses, after, stack, Failing(0, c), b.Holds(c, Enclosing(stack)), f);
      StackReadsTheTree(b, rest, k, stack);
  }

  lemma {:induction false} StackReadsTheElses(
    b: Build, elses: Elses, k: seq<Token>, stack: seq<Frame>, known: int, taken: bool, top: Frame)
    ensures Walked(b, ElseTokens(elses, k), stack + [top])
         == ReadElses(b, AsCoded, elses, top.product, known, taken, Enclosing(stack), InSection(stack), Walked(b, k, stack))
    decreases elses
  {
    hide InSection, Enclosing, Walked, Moved, AllFailing, Taken, Dead;
    match elses
    case NoElse =>
      FlipTop(b, stack, top, None);
      WalkedCons(b, Endif, k, stack + [top]);
    case Branch(test, body, more) =>
      var top' := Frame(-top.product, false);
      FlipTop(b, stack, top, test);
      WalkedCons(b, Else(test), Tokens(body, ElseTokens(more, k)), stack + [top]);
      Pushed(stack, top');
      StackReadsTheTree(b, body, ElseTokens(more, k), stack + [top']);
      var taken' := Taken(b, taken, test, Inner(known, Enclosing(stack)));
      StackReadsTheElses(b, more, k, stack, AllFailing(known, test), taken', top');
  }

  // ---------- where the code's reading is the meant one ----------

  /** A part that says something of PRODUCT comes after one that says the opposite, or after one that says
      nothing where the enclosing state says the same already; a part that says nothing comes after one
      that says nothing, or after one that says the opposite of the enclosing state. */
  predicate FlipIsRight(current: int, own: int, enclosing: int) {
    if own != 0 then current == -own || (current == 0 && enclosing == own)
    else current == 0 || current == -enclosing
  }

  /** Every part that is read is the negation of the part before, no #elif opens a section of the build that
      is not open anyway, and nothing is selected in a part that the build does not have. */
  predicate Regular(b: Build, items: Items, enclosing: int, inside: bool)
    decreases items
  {
    match items
    case Nil => true
    case Plain(_, rest) => Regular(b, rest, enclosing, inside)
    case Group(c, body, elses, rest) =>
      var inner, now := Inner(c.product, enclosing), inside || b.Selects(c, enclosing);
      && (if b.Fails(c) then !now && Quiet(b, body, inner) else Regular(b, body, inner, now))
      && RegularElses(b, elses, c.product, Failing(0, c), b.Holds(c, enclosing), enclosing, inside)
      && Regular(b, rest, enclosing, inside)
  }

  predicate RegularElses(
    b: Build, elses: Elses, current: int, known: int, taken: bool, enclosing: int, inside: bool)
    decreases elses
  {
    match elses
    case NoElse => true
    case Branch(test, body, more) =>
      var inner, around := Inner(-current, enclosing), Inner(known, enclosing);
      && (if Dead(b, taken, test) then !inside && Quiet(b, body, inner)
          else
            && FlipIsRight(current, OwnState(test, known), enclosing)
            && (inside || !Opens(b, test, around))
            && Regular(b, body, inner, inside))
      && RegularElses(b, more, -current, AllFailing(known, test), Taken(b, taken, test, around), enclosing, inside)
  }

  /** No condition selects the build, else parts being the negation of the part before. */
  predicate Quiet(b: Build, items: Items, enclosing: int)
    decreases items
  {
    match items
    case Nil => true
    case Plain(_, rest) => Quiet(b, rest, enclosing)
    case Group(c, body, elses, rest) =>
      && !b.Selects(c, enclosing)
      && Quiet(b, body, Inner(c.product, enclosing))
      && QuietElses(b, elses, c.product, enclosing)
      && Quiet(b, rest, enclosing)
  }

  predicate QuietElses(b: Build, elses: Elses, current: int, enclosing: int)
    decreases elses
  {
    match elses
    case NoElse => true
    case Branch(_, body, more) =>
      Quiet(b, body, Inner(-current, enclosing)) && QuietElses(b, more, -current, enclosing)
  }

  /** A line is read alike: with the state and the section that are meant, and if it should not be read at
      all, then outside of sections. */
  predicate Alike(coded: Mark, meant: Mark) {
    if meant.Unread? then coded.Mark? && !coded.inside && coded.line == meant.line else coded == meant
  }

  ghost predicate AllAlike(coded: seq<Mark>, meant: seq<Mark>) {
    |coded| == |meant| && forall i :: 0 <= i < |coded| ==> Alike(coded[i], meant[i])
  }

  lemma AlikeCons(x: Mark, xs: seq<Mark>, y: Mark, ys: seq<Mark>)
    ensures AllAlike([x] + xs, [y] + ys) <==> Alike(x, y) && AllAlike(xs, ys)
  {
    hide Alike;
    var a, c := [x] + xs, [y] + ys;
    assert a[0] == x && c[0] == y && a[1..] == xs && c[1..] == ys;
    if AllAlike(a, c) {
      forall i | 0 <= i < |xs| ensures Alike(xs[i], ys[i]) { assert Alike(a[i + 1], c[i + 1]); }
    }
  }

  /** The code sees, after every line, the state and the section that are meant if and only if the header is
      regular. */
  lemma {:induction false} RightIffRegular(
    b: Build, items: Items, enclosing: int, inside: bool, k: seq<Mark>, l: seq<Mark>)
    ensures AllAlike(Read(b, AsCoded, items, enclosing, inside, k), Read(b, AsMeant, items, enclosing, inside, l))
       <==> Regular(b, items, enclosing, inside) && AllAlike(k, l)
    decreases items, 0
  {
    hide Build.Selects, Build.Fails, Build.Holds, Failing, AllAlike, Part, ReadElses;
    match items
    case Nil =>
    case Plain(line, rest) =>
      RightIffRegular(b, rest, enclosing, inside, k, l);
      var x := Mark(enclosing, inside, Some(line));
      AlikeCons(x, Read(b, AsCoded, rest, enclosing, inside, k), x, Read(b, AsMeant, rest, enclosing, inside, l));
    case Group(c, body, elses, rest) =>
      var k1 := Read(b, AsCoded, rest, enclosing, inside, k);
      var l1 := Read(b, AsMeant, rest, enclosing, inside, l);
      var known, taken := Failing(0, c), b.Holds(c, enclosing);
      var k2 := ReadElses(b, AsCoded, elses, c.product, known, taken, enclosing, inside, k1);
      var l2 := ReadElses(b, AsMeant, elses, c.product, known, taken, enclosing, inside, l1);
      var inner, now := Inner(c.product, enclosing), inside || b.Selects(c, enclosing);
      RightIffRegular(b, rest, enclosing, inside, k, l);
      RightElses(b, elses, c.product, c.product, known, taken, enclosing, inside, k1, l1);
      RightPart(b, b.Fails(c), body, inner, now, inner, now, k2, l2);
  }

  /** One part, with the code's state and section before the ones meant. */
  lemma {:induction false} RightPart(
    b: Build, dead: bool, body: Items, coded: int, inside: bool, meant: int, now: bool, k: seq<Mark>, l: seq<Mark>)
    ensures AllAlike(Part(b, AsCoded, dead, body, coded, inside, k), Part(b, AsMeant, dead, body, meant, now, l))
       <==> (if dead then !inside && Quiet(b, body, coded)
             else coded == meant && inside == now && Regular(b, body, coded, inside)) && AllAlike(k, l)
    decreases body, 1
  {
    hide AllAlike, Read, Skipped, Quiet, Regular;
    var x := Mark(coded, inside, None);
    if dead {
      AlikeCons(x, Read(b, AsCoded, body, coded, inside, k), Unread(None), Skipped(body, l));
      if !inside { SkippedIffQuiet(b, body, coded, k, l); }
    } else {
      AlikeCons(x, Read(b, AsCoded, body, coded, inside, k),
                Mark(meant, now, None), Read(b, AsMeant, body, meant, now, l));
      RightIffRegular(b, body, coded, inside, k, l);
    }
  }

  /** current is the state of the part before as the code has it, meant as it is meant. */
  lemma {:induction false} RightElses(
    b: Build, elses: Elses, current: int, meant: int, known: int, taken: bool, enclosing: int, inside: bool,
    k: seq<Mark>, l: seq<Mark>)
    ensures AllAlike(ReadElses(b, AsCoded, elses, current, known, taken, enclosing, inside, k),
                     ReadElses(b, AsMeant, elses, meant, known, taken, enclosing, inside, l))
       <==> RegularElses(b, elses, current, known, taken, enclosing, inside) && AllAlike(k, l)
    decreases elses, 0
  {
    hide AllFailing, Opens, AllAlike, Dead, Taken, Part, Quiet, Regular;
    match elses
    case NoElse => AlikeCons(Mark(enclosing, inside, None), k, Mark(enclosing, inside, None), l);
    case Branch(test, body, more) =>
      var own, after, around := OwnState(test, known), AllFailing(known, test), Inner(known, enclosing);
      var taken' := Taken(b, taken, test, around);
      var k1 := ReadElses(b, AsCoded, more, -current, after, taken', enclosing, inside, k);
      var l1 := ReadElses(b, AsMeant, more, own, after, taken', enclosing, inside, l);
      FlipMeans(current, own, enclosing);
      RightElses(b, more, -current, own, after, taken', enclosing, inside, k, l);
      RightPart(b, Dead(b, taken, test), body, Inner(-current, enclosing), inside,
                Inner(own, enclosing), inside || Opens(b, test, around), k1, l1);
  }

  /** Of a part that should not be read the code reads nothing if and only if it is quiet. */
  lemma {:induction false} SkippedIffQuiet(b: Build, items: Items, enclosing: int, k: seq<Mark>, l: seq<Mark>)
    ensures AllAlike(Read(b, AsCoded, items, enclosing, false, k), Skipped(items, l))
       <==> Quiet(b, items, enclosing) && AllAlike(k, l)
    decreases items
  {
    hide Build.Selects, Build.Fails, Build.Holds, Failing, AllAlike, ReadElses, SkippedElses;
    match items
    case Nil =>
    case Plain(line, rest) =>
      SkippedIffQuiet(b, rest, enclosing, k, l);
      AlikeCons(Mark(enclosing, false, Some(line)), Read(b, AsCoded, rest, enclosing, false, k),
                Unread(Some(line)), Skipped(rest, l));
    case Group(c, body, elses, rest) =>
      var inner, now := Inner(c.product, enclosing), b.Selects(c, enclosing);
      var known, taken := Failing(0, c), b.Holds(c, enclosing);
      var k1, l1 := Read(b, AsCoded, rest, enclosing, false, k), Skipped(rest, l);
      var k2 := ReadElses(b, AsCoded, elses, c.product, known, taken, enclosing, false, k1);
      var l2 := SkippedElses(elses, l1);
      AlikeCons(Mark(inner, now, None), Read(b, AsCoded, body, inner, now, k2), Unread(None), Skipped(body, l2));
      if !now {
        SkippedIffQuiet(b, rest, enclosing, k, l);
        SkippedElsesIffQuiet(b, elses, c.product, known, taken, enclosing, k1, l1);
        SkippedIffQuiet(b, body, inner, k2, l2);
      }
  }

  lemma {:induction false} SkippedElsesIffQuiet(
    b: Build, elses: Elses, current: int, known: int, taken: bool, enclosing: int, k: seq<Mark>, l: seq<Mark>)
    ensures AllAlike(ReadElses(b, AsCoded, elses, current, known, taken, enclosing, false, k), SkippedElses(elses, l))
       <==> QuietElses(b, elses, current, enclosing) && AllAlike(k, l)
    decreases elses
  {
    hide AllFailing, Opens, AllAlike, Dead, Taken, Read, Skipped, Quiet;
    match elses
    case NoElse => AlikeCons(Mark(enclosing, false, None), k, Unread(None), l);
    case Branch(test, body, more) =>
      var inner, after := Inner(-current, enclosing), AllFailing(known, test);
      var taken' := Taken(b, taken, test, Inner(known, enclosing));
      var k1 := ReadElses(b, AsCoded, more, -current, after, taken', enclosing, false, k);
      var l1 := SkippedElses(more, l);
      AlikeCons(Mark(inner, false, None), Read(b, AsCoded, body, inner, false, k1), Unread(None), Skipped(body, l1));
      SkippedElsesIffQuiet(b, more, -current, after, taken', enclosing, k, l);
      SkippedIffQuiet(b, body, inner, k1, l1);
  }

  lemma FlipMeans(current: int, own: int, enclosing: int)
    ensures FlipIsRight(current, own, enclosing) <==> Inner(-current, enclosing) == Inner(own, enclosing)
  {
  }

  /** Of a regular header the lines collected are the lines meant. */
  lemma CollectsWhatIsMeant(b: Build, items: Items)
    requires Regular(b, items, 0, false)
    ensures Kept(Walked(b, Tokens(items, []), [])) == Kept(Read(b, AsMeant, items, 0, false, []))
  {
    hide Kept, Read, Tokens, Regular, AllAlike;
    StackReadsTheTree(b, items, [], []);
    EmptyStack(b);
    NothingAlike();
    RightIffRegular(b, items, 0, false, [], []);
    AlikeKept(Read(b, AsCoded, items, 0, false, []), Read(b, AsMeant, items, 0, false, []));
  }

  lemma NothingAlike()
    ensures AllAlike([], [])
  {
  }

  lemma {:induction false} AlikeKept(coded: seq<Mark>, meant: seq<Mark>)
    requires AllAlike(coded, meant)
    ensures Kept(coded) == Kept(meant)
  {
    if coded != [] {
      assert Alike(coded[0], meant[0]);
      forall i | 0 <= i < |coded| - 1 ensures Alike(coded[1..][i], meant[1..][i]) {
        assert Alike(coded[i + 1], meant[i + 1]);
      }
      AlikeKept(coded[1..], meant[1..]);
    }
  }

  lemma EmptyStack(b: Build)
    ensures Enclosing([]) == 0 && !InSection([]) && Walked(b, [], []) == []
  {
  }

  /** No condition that the build decides. */
  predicate Silent(items: Items)
    decreases items
  {
    match items
    case Nil => true
    case Plain(_, rest) => Silent(rest)
    case Group(c, body, elses, rest) => c.Neutral() && Silent(body) && SilentElses(elses) && Silent(rest)
  }

  predicate SilentElses(elses: Elses)
    decreases elses
  {
    match elses
    case NoElse => true
    case Branch(test, body, more) => NeutralTest(test) && Silent(body) && SilentElses(more)
  }

  predicate NeutralTest(test: Option<Cond>) {
    test.Some? ==> test.value.Neutral()
  }

  /** Sections that leave PRODUCT to what is around them. */
  predicate Sections(items: Items)
    decreases items
  {
    match items
    case Nil => true
    case Plain(_, rest) => Sections(rest)
    case Group(c, body, elses, rest) =>
      && c.product == 0
      && (if c.Neutral() then Sections(body) && SectionsInside(elses) else Silent(body) && SilentElses(elses))
      && Sections(rest)
  }

  predicate SectionsInside(elses: Elses)
    decreases elses
  {
    match elses
    case NoElse => true
    case Branch(test, body, more) => NeutralTest(test) && Sections(body) && SectionsInside(more)
  }

  /** The two layouts of the SDK's own headers: sections with a PRODUCT test of their own and no else part, or
      a PRODUCT test alone around sections without one, with one else part at most.  What else is tested says
      nothing of the build. */
  predicate OneElse(items: Items)
    decreases items
  {
    match items
    case Nil => true
    case Plain(_, rest) => OneElse(rest)
    case Group(c, body, elses, rest) =>
      && (if c.Neutral() then OneElse(body) && OneElseInside(elses)
          else if c.product == 0 then Silent(body) && SilentElses(elses)
          else if c.Guard() then Sections(body) && (elses.NoElse? || LastElse(elses))
          else Silent(body) && elses.NoElse?)
      && OneElse(rest)
  }

  predicate LastElse(elses: Elses)
    requires elses.Branch?
  {
    NeutralTest(elses.test) && Sections(elses.body) && elses.more.NoElse?
  }

  predicate OneElseInside(elses: Elses)
    decreases elses
  {
    match elses
    case NoElse => true
    case Branch(test, body, more) => NeutralTest(test) && OneElse(body) && OneElseInside(more)
  }

  lemma NeutralSaysNothing(b: Build, c: Cond, enclosing: int)
    requires c.Neutral()
    ensures !b.Selects(c, enclosing) && !b.Fails(c) && !b.Holds(c, enclosing)
  {
  }

  lemma NeutralTestSaysNothing(b: Build, test: Option<Cond>, taken: bool, enclosing: int)
    requires NeutralTest(test)
    ensures !Opens(b, test, enclosing) && OwnState(test, 0) == AllFailing(0, test) == 0
    ensures Dead(b, taken, test) == Taken(b, taken, test, enclosing) == taken
  {
    if test.Some? { NeutralSaysNothing(b, test.value, enclosing); }
  }

  lemma FailingIsNotSelected(b: Build, c: Cond, enclosing: int)
    requires b.Fails(c)
    ensures !b.Selects(c, enclosing) && !b.Holds(c, enclosing)
  {
  }

  lemma {:induction false} SilentIsQuiet(b: Build, items: Items, enclosing: int)
    requires Silent(items)
    ensures Quiet(b, items, enclosing)
    decreases items
  {
    hide Build.Selects, Build.Fails, Build.Holds;
    match items
    case Nil =>
    case Plain(_, rest) => SilentIsQuiet(b, rest, enclosing);
    case Group(c, body, elses, rest) =>
      NeutralSaysNothing(b, c, enclosing);
      SilentIsQuiet(b, body, enclosing);
      SilentElsesAreQuiet(b, elses, enclosing);
      SilentIsQuiet(b, rest, enclosing);
  }

  lemma {:induction false} SilentElsesAreQuiet(b: Build, elses: Elses, enclosing: int)
    requires SilentElses(elses)
    ensures QuietElses(b, elses, 0, enclosing)
    decreases elses
  {
    match elses
    case NoElse =>
    case Branch(_, body, more) =>
      SilentIsQuiet(b, body, enclosing);
      SilentElsesAreQuiet(b, more, enclosing);
  }

  lemma {:induction false} SilentIsRegular(b: Build, items: Items, enclosing: int, inside: bool)
    requires Silent(items)
    ensures Regular(b, items, enclosing, inside)
    decreases items
  {
    hide Build.Selects, Build.Fails, Build.Holds;
    match items
    case Nil =>
    case Plain(_, rest) => SilentIsRegular(b, rest, enclosing, inside);
    case Group(c, body, elses, rest) =>
      NeutralSaysNothing(b, c, enclosing);
      SilentIsRegular(b, body, enclosing, inside);
      SilentElsesAreRegular(b, elses, false, enclosing, inside);
      SilentIsRegular(b, rest, enclosing, inside);
  }

  lemma {:induction false} SilentElsesAreRegular(b: Build, elses: Elses, taken: bool, enclosing: int, inside: bool)
    requires SilentElses(elses) && !(taken && inside)
    ensures RegularElses(b, elses, 0, 0, taken, enclosing, inside)
    decreases elses
  {
    hide Opens, OwnState, AllFailing, Dead, Taken, NeutralTest;
    match elses
    case NoElse =>
    case Branch(test, body, more) =>
      NeutralTestSaysNothing(b, test, taken, enclosing);
      if taken { SilentIsQuiet(b, body, enclosing); } else { SilentIsRegular(b, body, enclosing, inside); }
      SilentElsesAreRegular(b, more, taken, enclosing, inside);
  }

  /** In the wrong half no section is selected. */
  lemma {:induction false} SectionsAreQuiet(b: Build, items: Items, enclosing: int)
    requires Sections(items) && enclosing != b.Wanted()
    ensures Quiet(b, items, enclosing)
    decreases items
  {
    match items
    case Nil =>
    case Plain(_, rest) => SectionsAreQuiet(b, rest, enclosing);
    case Group(c, body, elses, rest) =>
      if c.Neutral() {
        SectionsAreQuiet(b, body, enclosing);
        SectionElsesAreQuiet(b, elses, enclosing);
      } else {
        SilentIsQuiet(b, body, enclosing);
        SilentElsesAreQuiet(b, elses, enclosing);
      }
      SectionsAreQuiet(b, rest, enclosing);
  }

  lemma {:induction false} SectionElsesAreQuiet(b: Build, elses: Elses, enclosing: int)
    requires SectionsInside(elses) && enclosing != b.Wanted()
    ensures QuietElses(b, elses, 0, enclosing)
    decreases elses
  {
    match elses
    case NoElse =>
    case Branch(_, body, more) =>
      SectionsAreQuiet(b, body, enclosing);
      SectionElsesAreQuiet(b, more, enclosing);
  }

  /** A condition without a PRODUCT test around nothing that the build decides. */
  lemma SectionIsRegular(b: Build, c: Cond, body: Items, elses: Elses, enclosing: int)
    requires c.product == 0 && Silent(body) && SilentElses(elses)
    ensures Regular(b, Group(c, body, elses, Nil), enclosing, false)
  {
    hide Build.Selects, Build.Fails, Build.Holds;
    if b.Fails(c) { FailingIsNotSelected(b, c, enclosing); }
    SilentIsQuiet(b, body, enclosing);
    SilentIsRegular(b, body, enclosing, b.Selects(c, enclosing));
    SilentElsesAreRegular(b, elses, b.Holds(c, enclosing), enclosing, false);
  }

  lemma {:induction false} SectionsAreRegular(b: Build, items: Items, enclosing: int)
    requires Sections(items)
    ensures Regular(b, items, enclosing, false)
    decreases items
  {
    hide Build.Selects, Build.Fails, Build.Holds;
    match items
    case Nil =>
    case Plain(_, rest) => SectionsAreRegular(b, rest, enclosing);
    case Group(c, body, elses, rest) =>
      SectionsAreRegular(b, rest, enclosing);
      if c.Neutral() {
        NeutralSaysNothing(b, c, enclosing);
        SectionsAreRegular(b, body, enclosing);
        SectionElsesAreRegular(b, elses, enclosing);
      } else {
        SectionIsRegular(b, c, body, elses, enclosing);
      }
  }

  lemma {:induction false} SectionElsesAreRegular(b: Build, elses: Elses, enclosing: int)
    requires SectionsInside(elses)
    ensures RegularElses(b, elses, 0, 0, false, enclosing, false)
    decreases elses
  {
    hide Opens, OwnState, AllFailing, Dead, Taken, NeutralTest;
    match elses
    case NoElse =>
    case Branch(test, body, more) =>
      NeutralTestSaysNothing(b, test, false, enclosing);
      SectionsAreRegular(b, body, enclosing);
      SectionElsesAreRegular(b, more, enclosing);
  }

  /** A PRODUCT test alone, around sections. */
  lemma GuardIsRegular(b: Build, c: Cond, body: Items, elses: Elses, enclosing: int)
    requires c.Guard() && Sections(body) && (elses.NoElse? || LastElse(elses))
    ensures Regular(b, Group(c, body, elses, Nil), enclosing, false)
  {
    hide Sections, Regular, Quiet;
    SectionsAreRegular(b, body, c.product);
    if b.Fails(c) { SectionsAreQuiet(b, body, c.product); }
    GuardElseIsRegular(b, c, elses, enclosing);
    GuardUnfolds(b, c, body, elses, enclosing);
  }

  lemma GuardElseIsRegular(b: Build, c: Cond, elses: Elses, enclosing: int)
    requires c.Guard() && (elses.NoElse? || LastElse(elses))
    ensures RegularElses(b, elses, c.product, Failing(0, c), b.Holds(c, enclosing), enclosing, false)
  {
    hide Sections, Regular, Quiet, Dead, Taken, Opens;
    if elses.Branch? {
      SectionsAreRegular(b, elses.body, -c.product);
      if b.Holds(c, enclosing) { SectionsAreQuiet(b, elses.body, -c.product); }
      NeutralTestSaysNothing(b, elses.test, b.Holds(c, enclosing), Inner(-c.product, enclosing));
    }
  }

  lemma GuardUnfolds(b: Build, c: Cond, body: Items, elses: Elses, enclosing: int)
    requires c.Guard()
    ensures Regular(b, Group(c, body, elses, Nil), enclosing, false) <==>
      && (if b.Fails(c) then Quiet(b, body, c.product) else Regular(b, body, c.product, false))
      && RegularElses(b, elses, c.product, Failing(0, c), b.Holds(c, enclosing), enclosing, false)
  {
    hide Failing, Build.Holds;
  }

  lemma RegularCons(b: Build, c: Cond, body: Items, elses: Elses, rest: Items, enclosing: int)
    requires Regular(b, Group(c, body, elses, Nil), enclosing, false) && Regular(b, rest, enclosing, false)
    ensures Regular(b, Group(c, body, elses, rest), enclosing, false)
  {
    hide Build.Selects, Build.Fails, Build.Holds;
  }

  /** A section with a PRODUCT test of its own. */
  lemma OwnTestIsRegular(b: Build, c: Cond, body: Items, enclosing: int)
    requires Silent(body)
    ensures Regular(b, Group(c, body, NoElse, Nil), enclosing, false)
  {
    hide Build.Selects, Build.Fails, Build.Holds;
    var inner := Inner(c.product, enclosing);
    if b.Fails(c) { FailingIsNotSelected(b, c, enclosing); }
    SilentIsQuiet(b, body, inner);
    SilentIsRegular(b, body, inner, b.Selects(c, enclosing));
  }

  /** Headers in these layouts are regular for every build, in every place outside of sections. */
  lemma {:induction false} OneElseIsRegular(b: Build, items: Items, enclosing: int)
    requires OneElse(items)
    ensures Regular(b, items, enclosing, false)
    decreases items
  {
    hide Build.Selects, Build.Fails, Build.Holds, Regular, Cond.Guard, Cond.Neutral, LastElse;
    match items
    case Nil => EndIsRegular(b, enclosing);
    case Plain(line, rest) => OneElseIsRegular(b, rest, enclosing); PlainIsRegular(b, line, rest, enclosing);
    case Group(c, body, elses, rest) =>
      OneElseIsRegular(b, rest, enclosing);
      if c.Neutral() {
        OneElseIsRegular(b, body, enclosing);
        RegularInside(b, elses, enclosing);
        NeutralIsRegular(b, c, body, elses, enclosing);
      } else if c.product == 0 {
        SectionIsRegular(b, c, body, elses, enclosing);
      } else if c.Guard() {
        GuardIsRegular(b, c, body, elses, enclosing);
      } else {
        OwnTestIsRegular(b, c, body, enclosing);
      }
      RegularCons(b, c, body, elses, rest, enclosing);
  }

  lemma EndIsRegular(b: Build, enclosing: int)
    ensures Regular(b, Nil, enclosing, false)
  {
  }

  lemma PlainIsRegular(b: Build, line: Line, rest: Items, enclosing: int)
    requires Regular(b, rest, enclosing, false)
    ensures Regular(b, Plain(line, rest), enclosing, false)
  {
  }

  lemma NeutralIsRegular(b: Build, c: Cond, body: Items, elses: Elses, enclosing: int)
    requires c.Neutral() && Regular(b, body, enclosing, false) && RegularElses(b, elses, 0, 0, false, enclosing, false)
    ensures Regular(b, Group(c, body, elses, Nil), enclosing, false)
  {
    hide Build.Selects, Build.Fails, Build.Holds;
    NeutralSaysNothing(b, c, enclosing);
  }

  lemma {:induction false} RegularInside(b: Build, elses: Elses, enclosing: int)
    requires OneElseInside(elses)
    ensures RegularElses(b, elses, 0, 0, false, enclosing, false)
    decreases elses
  {
    hide Opens, OwnState, AllFailing, Dead, Taken, NeutralTest;
    match elses
    case NoElse =>
    case Branch(test, body, more) =>
      NeutralTestSaysNothing(b, test, false, enclosing);
      OneElseIsRegular(b, body, enclosing);
      RegularInside(b, more, enclosing);
  }

  // ---------- headers that are misread ----------

  const ARCH := Cond(0, false, true, false, false)
  const OTHER_ARCH := Cond(0, false, false, false, false)
  const FIELD := Scalar("stack_limit", 0x38)

  /** A section of the architecture with one field. */
  const SECTION := Group(ARCH, Plain(FIELD, Nil), NoElse, Nil)

  /** #if !defined(PRODUCT), #elif, #elif with a section inside. */
  const TWO_ELSES :=
    Group(Cond(-1, true, false, false, false), Nil,
          Branch(Some(OTHER_ARCH), Nil, Branch(Some(OTHER_ARCH), SECTION, NoElse)), Nil)

  /** #if of another architecture, #elif defined(PRODUCT) and the architecture, a field. */
  const ELIF_SECTION :=
    Group(OTHER_ARCH, Nil, Branch(Some(Cond(1, false, true, false, false)), Plain(FIELD, Nil), NoElse), Nil)

  /** #if defined(PRODUCT) and another architecture, #else with a section inside. */
  const ELSE_OF_BOTH :=
    Group(Cond(1, false, false, false, false), Nil, Branch(None, SECTION, NoElse), Nil)

  /** A section of a PRODUCT build, and in it a part for the others. */
  const OTHER_HALF_INSIDE :=
    Group(Cond(1, false, true, false, false),
          Group(Cond(-1, true, false, false, false), Plain(FIELD, Nil), NoElse, Nil), NoElse, Nil)

  const PRODUCT_BUILD := Build(true, false, false)
  const DEBUG_BUILD := Build(false, false, false)

  lemma {:induction false} SectionMarks(b: Build, m: Reading, enclosing: int, inside: bool, k: seq<Mark>)
    ensures var now := inside || b.Selects(ARCH, enclosing);
            Read(b, m, SECTION, enclosing, inside, k) ==
            [Mark(enclosing, now, None)] + ([Mark(enclosing, now, Some(FIELD))] + ([Mark(enclosing, inside, None)] + k))
  {
    hide Build.Selects;
    assert !b.Fails(ARCH);
    assert Read(b, m, Nil, enclosing, inside, k) == k;
  }

  lemma KeptCons(x: Mark, marks: seq<Mark>)
    ensures Kept([x] + marks) == (if x.Harvested() then [x.line.value] else []) + Kept(marks)
  {
    assert ([x] + marks)[1..] == marks;
  }

  lemma {:induction false} SectionKept(b: Build, m: Reading, enclosing: int, k: seq<Mark>)
    ensures Kept(Read(b, m, SECTION, enclosing, false, k)) == (if b.Selects(ARCH, enclosing) then [FIELD] else []) + Kept(k)
  {
    hide Build.Selects, Read, Kept;
    var now := b.Selects(ARCH, enclosing);
    SectionMarks(b, m, enclosing, false, k);
    var k1 := [Mark(enclosing, false, None)] + k;
    KeptCons(Mark(enclosing, false, None), k);
    KeptCons(Mark(enclosing, now, Some(FIELD)), k1);
    KeptCons(Mark(enclosing, now, None), [Mark(enclosing, now, Some(FIELD))] + k1);
  }

  /** What an else part before the end keeps. */
  lemma {:induction false} LastElseKept(
    b: Build, m: Reading, test: Option<Cond>, body: Items, current: int, known: int, enclosing: int)
    requires !Dead(b, false, test)
    ensures var state := m.State(current, test, known);
            var now := m.Section(b, test, Inner(known, enclosing));
            Kept(ReadElses(b, m, Branch(test, body, NoElse), current, known, false, enclosing, false, []))
            == Kept(Read(b, m, body, Inner(state, enclosing), now, [Mark(enclosing, false, None)]))
  {
    hide Kept, Read, Build.Selects, Opens, Dead, Taken;
    var state, around := m.State(current, test, known), Inner(known, enclosing);
    var inner, now := Inner(state, enclosing), m.Section(b, test, around);
    var end := ReadElses(b, m, NoElse, state, AllFailing(known, test), Taken(b, false, test, around), enclosing, false, []);
    assert end == [Mark(enclosing, false, None)];
    KeptCons(Mark(inner, now, None), Read(b, m, body, inner, now, end));
  }

  /** What a group keeps whose #if selects nothing and has nothing in it. */
  lemma {:induction false} EmptyIfKept(b: Build, m: Reading, c: Cond, elses: Elses, enclosing: int)
    requires !b.Selects(c, enclosing) && !b.Holds(c, enclosing)
    ensures Kept(Read(b, m, Group(c, Nil, elses, Nil), enclosing, false, []))
         == Kept(ReadElses(b, m, elses, c.product, Failing(0, c), false, enclosing, false, []))
  {
    hide Kept, ReadElses, Build.Selects, Build.Holds;
    var after := ReadElses(b, m, elses, c.product, Failing(0, c), false, enclosing, false, []);
    KeptCons(Unread(None), after);
    assert Skipped(Nil, after) == after;
    var inner := Inner(c.product, enclosing);
    assert Read(b, m, Nil, enclosing, false, []) == [] && Read(b, m, Nil, inner, false, after) == after;
    KeptCons(Mark(inner, false, None), after);
  }

  /** An #elif that is itself the section of a PRODUCT build: its fields are lost. */
  lemma ElifSectionIsLost()
    ensures Kept(Read(PRODUCT_BUILD, AsCoded, ELIF_SECTION, 0, false, [])) == []
    ensures Kept(Read(PRODUCT_BUILD, AsMeant, ELIF_SECTION, 0, false, [])) == [FIELD]
  {
    hide Read, ReadElses, Kept;
    var test := Some(Cond(1, false, true, false, false));
    forall m: Reading
      ensures Kept(Read(PRODUCT_BUILD, m, ELIF_SECTION, 0, false, [])) == if m.AsMeant? then [FIELD] else []
    {
      EmptyIfKept(PRODUCT_BUILD, m, OTHER_ARCH, ELIF_SECTION.elses, 0);
      LastElseKept(PRODUCT_BUILD, m, test, Plain(FIELD, Nil), 0, 0, 0);
      OneField(PRODUCT_BUILD, m, if m.AsMeant? then 1 else 0, m.AsMeant?, [Mark(0, false, None)]);
      EndKept();
    }
  }

  lemma EndKept()
    ensures Kept([Mark(0, false, None)]) == []
  {
  }

  lemma {:induction false} OneField(b: Build, m: Reading, enclosing: int, inside: bool, k: seq<Mark>)
    ensures Kept(Read(b, m, Plain(FIELD, Nil), enclosing, inside, k)) == (if inside then [FIELD] else []) + Kept(k)
  {
    hide Kept;
    assert Read(b, m, Nil, enclosing, inside, k) == k;
    KeptCons(Mark(enclosing, inside, Some(FIELD)), k);
  }

  /** The #else of a condition that says more than PRODUCT is no half of PRODUCT: another build is given
      fields that are not meant for it. */
  lemma ElseOfBothIsMisread()
    ensures Kept(Read(DEBUG_BUILD, AsCoded, ELSE_OF_BOTH, 0, false, [])) == [FIELD]
    ensures Kept(Read(DEBUG_BUILD, AsMeant, ELSE_OF_BOTH, 0, false, [])) == []
  {
    hide Read, ReadElses, Kept;
    forall m: Reading
      ensures Kept(Read(DEBUG_BUILD, m, ELSE_OF_BOTH, 0, false, [])) == if m.AsMeant? then [] else [FIELD]
    {
      EmptyIfKept(DEBUG_BUILD, m, ELSE_OF_BOTH.cond, ELSE_OF_BOTH.elses, 0);
      LastElseKept(DEBUG_BUILD, m, None, SECTION, 1, 0, 0);
      SectionKept(DEBUG_BUILD, m, if m.AsMeant? then 0 else -1, [Mark(0, false, None)]);
      EndKept();
    }
  }

  /** The second #elif after a PRODUCT test is taken for the half that is not PRODUCT: a PRODUCT build loses
      the fields in it. */
  lemma SecondElifIsMisread()
    ensures Kept(Read(PRODUCT_BUILD, AsCoded, TWO_ELSES, 0, false, [])) == []
    ensures Kept(Read(PRODUCT_BUILD, AsMeant, TWO_ELSES, 0, false, [])) == [FIELD]
  {
    hide Read, ReadElses, Kept;
    var test := Some(OTHER_ARCH);
    forall m: Reading
      ensures Kept(Read(PRODUCT_BUILD, m, TWO_ELSES, 0, false, [])) == if m.AsMeant? then [FIELD] else []
    {
      EmptyIfKept(PRODUCT_BUILD, m, TWO_ELSES.cond, TWO_ELSES.elses, 0);
      EmptyElseKept(PRODUCT_BUILD, m, test, Branch(test, SECTION, NoElse), -1, 1, 0);
      LastElseKept(PRODUCT_BUILD, m, test, SECTION, 1, 1, 0);
      SectionKept(PRODUCT_BUILD, m, if m.AsMeant? then 1 else -1, [Mark(0, false, None)]);
      EndKept();
    }
  }

  lemma {:induction false} EmptyElseKept(
    b: Build, m: Reading, test: Option<Cond>, more: Elses, current: int, known: int, enclosing: int)
    requires !m.Section(b, test, Inner(known, enclosing)) && !Dead(b, false, test)
    requires !Taken(b, false, test, Inner(known, enclosing))
    ensures Kept(ReadElses(b, m, Branch(test, Nil, more), current, known, false, enclosing, false, []))
         == Kept(ReadElses(b, m, more, m.State(current, test, known), AllFailing(known, test), false, enclosing, false, []))
  {
    hide Kept, Build.Selects, Opens, Dead, Taken;
    var state := m.State(current, test, known);
    var after := ReadElses(b, m, more, state, AllFailing(known, test), false, enclosing, false, []);
    assert Read(b, m, Nil, Inner(state, enclosing), false, after) == after;
    KeptCons(Mark(Inner(state, enclosing), false, None), after);
  }

  /** A part for the other half inside of a section is read with it. */
  lemma OtherHalfIsRead()
    ensures Kept(Read(PRODUCT_BUILD, AsCoded, OTHER_HALF_INSIDE, 0, false, [])) == [FIELD]
    ensures Kept(Read(PRODUCT_BUILD, AsMeant, OTHER_HALF_INSIDE, 0, false, [])) == []
  {
    hide Kept, Read;
    var end := [Mark(0, false, None)];
    assert end + [] == end;
    EndKept();
    OnlyGroup(PRODUCT_BUILD, AsCoded, OTHER_HALF_INSIDE.cond, OTHER_HALF_INSIDE.body, 0, false, []);
    OnlyGroup(PRODUCT_BUILD, AsMeant, OTHER_HALF_INSIDE.cond, OTHER_HALF_INSIDE.body, 0, false, []);
    KeptCons(Mark(1, true, None), Read(PRODUCT_BUILD, AsCoded, OTHER_HALF_INSIDE.body, 1, true, end));
    KeptCons(Mark(1, true, None), Read(PRODUCT_BUILD, AsMeant, OTHER_HALF_INSIDE.body, 1, true, end));
    OtherHalf(end);
  }

  lemma OtherHalf(k: seq<Mark>)
    ensures Kept(Read(PRODUCT_BUILD, AsCoded, OTHER_HALF_INSIDE.body, 1, true, k)) == [FIELD] + Kept(k)
    ensures Kept(Read(PRODUCT_BUILD, AsMeant, OTHER_HALF_INSIDE.body, 1, true, k)) == Kept(k)
  {
    hide Kept, Read;
    var c, end := Cond(-1, true, false, false, false), [Mark(1, true, None)] + k;
    KeptCons(Mark(1, true, None), k);
    OnlyGroup(PRODUCT_BUILD, AsCoded, c, Plain(FIELD, Nil), 1, true, k);
    KeptCons(Mark(-1, true, None), Read(PRODUCT_BUILD, AsCoded, Plain(FIELD, Nil), -1, true, end));
    OneField(PRODUCT_BUILD, AsCoded, -1, true, end);
    DroppedGroup(PRODUCT_BUILD, c, Plain(FIELD, Nil), 1, true, k);
    assert Skipped(Plain(FIELD, Nil), end) == [Unread(Some(FIELD))] + end;
    KeptCons(Unread(None), Skipped(Plain(FIELD, Nil), end));
    KeptCons(Unread(Some(FIELD)), end);
  }

  lemma {:induction false} OnlyGroup(
    b: Build, m: Reading, c: Cond, body: Items, enclosing: int, inside: bool, k: seq<Mark>)
    requires m.AsMeant? ==> !b.Fails(c)
    ensures var inner, now := Inner(c.product, enclosing), inside || b.Selects(c, enclosing);
            Read(b, m, Group(c, body, NoElse, Nil), enclosing, inside, k)
            == [Mark(inner, now, None)] + Read(b, m, body, inner, now, [Mark(enclosing, inside, None)] + k)
  {
    hide Build.Selects, Build.Fails, Build.Holds;
    assert Read(b, m, Nil, enclosing, inside, k) == k;
  }

  lemma {:induction false} DroppedGroup(b: Build, c: Cond, body: Items, enclosing: int, inside: bool, k: seq<Mark>)
    requires b.Fails(c)
    ensures Read(b, AsMeant, Group(c, body, NoElse, Nil), enclosing, inside, k)
         == [Unread(None)] + Skipped(body, [Mark(enclosing, inside, None)] + k)
  {
    hide Build.Selects, Build.Fails, Build.Holds;
    assert Read(b, AsMeant, Nil, enclosing, inside, k) == k;
  }

  /** An else part after one that was taken is not read: whatever its test, it is enough that nothing in it is
      selected by the negated state, as in an #elif that repeats the #if. */
  lemma TakenElifIsRegular(
    b: Build, c: Cond, body: Items, test: Option<Cond>, other: Items, enclosing: int)
    requires b.Holds(c, enclosing)
    ensures Regular(b, Group(c, body, Branch(test, other, NoElse), Nil), enclosing, false)
       <==> Regular(b, body, Inner(c.product, enclosing), b.Selects(c, enclosing))
            && Quiet(b, other, Inner(-c.product, enclosing))
  {
    hide Build.Selects, Failing, Quiet;
    TakenElse(b, test, other, c.product, Failing(0, c), enclosing);
    assert Regular(b, Nil, enclosing, false);
  }

  lemma TakenElse(b: Build, test: Option<Cond>, other: Items, current: int, known: int, enclosing: int)
    ensures RegularElses(b, Branch(test, other, NoElse), current, known, true, enclosing, false)
       <==> Quiet(b, other, Inner(-current, enclosing))
  {
    hide Regular, Quiet;
  }

  // ---------- merging the offsets ----------

  datatype Name = Exported(text: string) | WrapperOf(register: nat)

  datatype Entry = Entry(offset: int, name: Name)

  function Scalars(lines: seq<Line>): seq<Entry> {
    if lines == [] then []
    else
      var last := lines[|lines| - 1];
      Scalars(lines[..|lines| - 1]) + if last.Scalar? then [Entry(last.offset, Exported(last.name))] else []
  }

  /** The registers of an array that have a wrapper. */
  function ArrayEntries(offsets: seq<Option<int>>): seq<Entry> {
    if offsets == [] then []
    else
      var reg := |offsets| - 1;
      ArrayEntries(offsets[..reg]) + if offsets[reg].Some? then [Entry(offsets[reg].value, WrapperOf(reg))] else []
  }

  function Wrappers(lines: seq<Line>): seq<Entry> {
    if lines == [] then []
    else
      var last := lines[|lines| - 1];
      Wrappers(lines[..|lines| - 1]) + if last.WrapperArray? then ArrayEntries(last.offsets) else []
  }

  function Offsets(entries: seq<Entry>): set<int> {
    set i | 0 <= i < |entries| :: entries[i].offset
  }

  /** Of the entries with the same offset, the first. */
  function FirstPerOffset(entries: seq<Entry>): seq<Entry> {
    if entries == [] then []
    else
      var before, last := entries[..|entries| - 1], entries[|entries| - 1];
      FirstPerOffset(before) + if last.offset in Offsets(before) then [] else [last]
  }

  /** The fields of a build. */
  function Fields(lines: seq<Line>): seq<Entry> {
    FirstPerOffset(Scalars(lines) + Wrappers(lines))
  }

  /** e is in the list and no entry before it has its offset. */
  ghost predicate IsFirst(entries: seq<Entry>, e: Entry) {
    exists i :: FirstAt(entries, e, i)
  }

  ghost predicate FirstAt(entries: seq<Entry>, e: Entry, i: int) {
    0 <= i < |entries| && entries[i] == e && e.offset !in Offsets(entries[..i])
  }

  lemma IsFirstAppend(a: seq<Entry>, b: seq<Entry>, e: Entry)
    ensures Offsets(a + b) == Offsets(a) + Offsets(b)
    ensures IsFirst(a + b, e) <==> IsFirst(a, e) || (IsFirst(b, e) && e.offset !in Offsets(a))
  {
    hide Offsets;
    OffsetsAppend(a, b);
    if i :| FirstAt(a, e, i) {
      assert (a + b)[..i] == a[..i];
      assert FirstAt(a + b, e, i);
    }
    if i :| FirstAt(b, e, i) && e.offset !in Offsets(a) {
      assert (a + b)[..|a| + i] == a + b[..i];
      OffsetsAppend(a, b[..i]);
      assert FirstAt(a + b, e, |a| + i);
    }
    if i :| FirstAt(a + b, e, i) {
      if i < |a| {
        assert (a + b)[..i] == a[..i];
        assert FirstAt(a, e, i);
      } else {
        assert (a + b)[..i] == a + b[..i - |a|];
        OffsetsAppend(a, b[..i - |a|]);
        assert FirstAt(b, e, i - |a|);
      }
    }
  }

  lemma OffsetsAppend(a: seq<Entry>, b: seq<Entry>)
    ensures Offsets(a + b) == Offsets(a) + Offsets(b)
  {
    forall i | 0 <= i < |a| + |b| ensures (a + b)[i].offset in Offsets(a) + Offsets(b) {
      if i < |a| { assert (a + b)[i] == a[i]; } else { assert (a + b)[i] == b[i - |a|]; }
    }
    forall i | 0 <= i < |a| ensures a[i].offset in Offsets(a + b) { assert (a + b)[i] == a[i]; }
    forall i | 0 <= i < |b| ensures b[i].offset in Offsets(a + b) { assert (a + b)[|a| + i] == b[i]; }
  }

  lemma IsFirstAlone(last: Entry, e: Entry)
    ensures IsFirst([last], e) <==> e == last
    ensures Offsets([last]) == {last.offset}
  {
    assert [last][..0] == [];
    if e == last { assert FirstAt([last], e, 0); }
    assert [last][0] == last;
  }

  /** Exactly the entries that are first with their offset, so no offset twice. */
  lemma {:induction false} FirstPerOffsetIsExact(entries: seq<Entry>)
    ensures var r := FirstPerOffset(entries);
            && (forall e :: e in r <==> IsFirst(entries, e))
            && Distinct(r)
            && Offsets(r) == Offsets(entries)
  {
    hide Offsets, IsFirst;
    if entries == [] {
      NoEntries();
    } else {
      var before, last := entries[..|entries| - 1], entries[|entries| - 1];
      assert entries == before + [last];
      FirstPerOffsetIsExact(before);
      forall e ensures e in FirstPerOffset(entries) <==> IsFirst(entries, e) {
        IsFirstAppend(before, [last], e);
        IsFirstAlone(last, e);
      }
      OffsetsAppend(before, [last]);
      IsFirstAlone(last, last);
      if last.offset in Offsets(before) {
        assert Offsets(before) + {last.offset} == Offsets(before);
        assert FirstPerOffset(before) + [] == FirstPerOffset(before);
      } else {
        DistinctAppend(FirstPerOffset(before), last);
        OffsetsAppend(FirstPerOffset(before), [last]);
      }
    }
  }

  lemma NoEntries()
    ensures Offsets([]) == {} && forall e :: !IsFirst([], e)
  {
  }

  ghost predicate Distinct(r: seq<Entry>) {
    forall i, j :: 0 <= i < j < |r| ==> r[i].offset != r[j].offset
  }

  lemma DistinctAppend(r: seq<Entry>, last: Entry)
    requires Distinct(r) && last.offset !in Offsets(r)
    ensures Distinct(r + [last])
  {
  }

  /** Offsets are distinct and cover the scalars and the array entries; an offset some scalar names
      carries the first such name, wherever in the header an array lists it too. */
  lemma ScalarsBeatWrappers(lines: seq<Line>)
    ensures var r, s, w := Fields(lines), Scalars(lines), Wrappers(lines);
            && Distinct(r)
            && Offsets(r) == Offsets(s) + Offsets(w)
            && (forall e :: e in r <==> IsFirst(s, e) || (IsFirst(w, e) && e.offset !in Offsets(s)))
  {
    hide Scalars, Wrappers, FirstPerOffset, IsFirst, Offsets, Distinct;
    var s, w := Scalars(lines), Wrappers(lines);
    FirstPerOffsetIsExact(s + w);
    OffsetsAppend(s, w);
    forall e ensures e in Fields(lines) <==> IsFirst(s, e) || (IsFirst(w, e) && e.offset !in Offsets(s)) {
      IsFirstAppend(s, w, e);
    }
  }

  // ---------- the fields, from the lines ----------

  /** Line i is the first scalar at its offset. */
  ghost predicate FirstScalar(lines: seq<Line>, i: int, offset: int, name: string) {
    && 0 <= i < |lines| && lines[i] == Scalar(name, offset)
    && forall j :: 0 <= j < i && lines[j].Scalar? ==> lines[j].offset != offset
  }

  ghost predicate HasScalar(lines: seq<Line>, offset: int) {
    exists i :: 0 <= i < |lines| && lines[i].Scalar? && lines[i].offset == offset
  }

  ghost predicate Listed(lines: seq<Line>, i: int, reg: int, offset: int) {
    0 <= i < |lines| && lines[i].WrapperArray? && 0 <= reg < |lines[i].offsets| && lines[i].offsets[reg] == Some(offset)
  }

  /** Register reg of line i is the first in an array at its offset. */
  ghost predicate FirstListed(lines: seq<Line>, i: int, reg: int, offset: int) {
    && Listed(lines, i, reg, offset)
    && (forall r :: 0 <= r < reg ==> !Listed(lines, i, r, offset))
    && forall j, r :: 0 <= j < i ==> !Listed(lines, j, r, offset)
  }

  lemma {:induction false} ScalarsAre(lines: seq<Line>, e: Entry)
    ensures e.offset in Offsets(Scalars(lines)) <==> HasScalar(lines, e.offset)
    ensures IsFirst(Scalars(lines), e) <==> e.name.Exported? && exists i :: FirstScalar(lines, i, e.offset, e.name.text)
  {
    hide Offsets, IsFirst;
    NoEntries();
    if lines != [] {
      var n := |lines| - 1;
      var before, last := lines[..n], lines[n];
      ScalarsAre(before, e);
      forall i, name | 0 <= i < n ensures FirstScalar(before, i, e.offset, name) <==> FirstScalar(lines, i, e.offset, name) {
        assert forall j :: 0 <= j < n ==> before[j] == lines[j];
      }
      if last.Scalar? {
        var entry := Entry(last.offset, Exported(last.name));
        IsFirstAppend(Scalars(before), [entry], e);
        IsFirstAlone(entry, e);
        if e.name.Exported? { LastScalar(lines, e.offset, e.name.text); }
        assert lines == before + [last];
        MoreScalars(before, last, e.offset);
      } else {
        assert lines == before + [last];
        MoreScalars(before, last, e.offset);
        assert Scalars(before) + [] == Scalars(before);
      }
    }
  }

  lemma MoreScalars(before: seq<Line>, last: Line, offset: int)
    ensures HasScalar(before + [last], offset) <==> HasScalar(before, offset) || (last.Scalar? && last.offset == offset)
  {
    var lines := before + [last];
    assert forall j :: 0 <= j < |before| ==> lines[j] == before[j];
    assert lines[|before|] == last;
  }

  lemma LastScalar(lines: seq<Line>, offset: int, name: string)
    requires lines != []
    ensures FirstScalar(lines, |lines| - 1, offset, name) <==>
      lines[|lines| - 1] == Scalar(name, offset) && !HasScalar(lines[..|lines| - 1], offset)
  {
    var before := lines[..|lines| - 1];
    assert forall j :: 0 <= j < |lines| - 1 ==> before[j] == lines[j];
  }

  lemma {:induction false} ArrayIs(offsets: seq<Option<int>>, e: Entry)
    ensures e.offset in Offsets(ArrayEntries(offsets)) <==> exists r :: 0 <= r < |offsets| && offsets[r] == Some(e.offset)
    ensures IsFirst(ArrayEntries(offsets), e) <==>
      && e.name.WrapperOf? && e.name.register < |offsets| && offsets[e.name.register] == Some(e.offset)
      && forall r :: 0 <= r < e.name.register ==> offsets[r] != Some(e.offset)
  {
    hide Offsets, IsFirst;
    NoEntries();
    if offsets != [] {
      var reg := |offsets| - 1;
      var before := offsets[..reg];
      ArrayIs(before, e);
      assert forall r :: 0 <= r < reg ==> before[r] == offsets[r];
      if offsets[reg].Some? {
        var entry := Entry(offsets[reg].value, WrapperOf(reg));
        IsFirstAppend(ArrayEntries(before), [entry], e);
        IsFirstAlone(entry, e);
      } else {
        assert ArrayEntries(before) + [] == ArrayEntries(before);
      }
    }
  }

  lemma {:induction false} WrappersAre(lines: seq<Line>, e: Entry)
    ensures e.offset in Offsets(Wrappers(lines)) <==> exists i, r :: Listed(lines, i, r, e.offset)
    ensures IsFirst(Wrappers(lines), e) <==> e.name.WrapperOf? && exists i :: FirstListed(lines, i, e.name.register, e.offset)
  {
    hide Offsets, IsFirst, ArrayEntries;
    NoEntries();
    if lines != [] {
      var n := |lines| - 1;
      var before, last := lines[..n], lines[n];
      WrappersAre(before, e);
      forall i, r | 0 <= i < n ensures Listed(before, i, r, e.offset) <==> Listed(lines, i, r, e.offset) {
        assert before[i] == lines[i];
      }
      forall i, r | 0 <= i < n ensures FirstListed(before, i, r, e.offset) <==> FirstListed(lines, i, r, e.offset) {
      }
      if last.WrapperArray? {
        IsFirstAppend(Wrappers(before), ArrayEntries(last.offsets), e);
        ArrayIs(last.offsets, e);
        LastListed(lines, e);
      } else {
        assert Wrappers(before) + [] == Wrappers(before);
      }
    }
  }

  lemma LastListed(lines: seq<Line>, e: Entry)
    requires lines != [] && lines[|lines| - 1].WrapperArray?
    ensures var n := |lines| - 1;
            && ((exists r :: Listed(lines, n, r, e.offset)) <==>
                exists r :: 0 <= r < |lines[n].offsets| && lines[n].offsets[r] == Some(e.offset))
            && (e.name.WrapperOf? ==>
                  (FirstListed(lines, n, e.name.register, e.offset) <==>
                     && e.name.register < |lines[n].offsets| && lines[n].offsets[e.name.register] == Some(e.offset)
                     && (forall r :: 0 <= r < e.name.register ==> lines[n].offsets[r] != Some(e.offset))
                     && forall j, r :: 0 <= j < n ==> !Listed(lines, j, r, e.offset)))
  {
    var n := |lines| - 1;
    forall r ensures Listed(lines, n, r, e.offset) <==> 0 <= r < |lines[n].offsets| && lines[n].offsets[r] == Some(e.offset) {
    }
  }

  /** The fields of the lines read: a scalar's name is the one of the first scalar at its offset; an array's
      register has an offset that no scalar and no earlier register has. */
  lemma FieldsAre(lines: seq<Line>, e: Entry)
    ensures e in Fields(lines) <==>
      match e.name
      case Exported(text) => exists i :: FirstScalar(lines, i, e.offset, text)
      case WrapperOf(reg) =>
        && !HasScalar(lines, e.offset)
        && exists i :: FirstListed(lines, i, reg, e.offset)
  {
    hide Fields, Scalars, Wrappers, IsFirst, Offsets, Distinct, FirstScalar, FirstListed;
    ScalarsBeatWrappers(lines);
    ScalarsAre(lines, e);
    WrappersAre(lines, e);
  }

  /** And they come in the order of their lines, scalars first. */
  lemma {:induction false} FirstOnesKeepOrder(entries: seq<Entry>, x: int, y: int)
    requires 0 <= x < y < |FirstPerOffset(entries)|
    ensures exists i, j :: 0 <= i < j < |entries|
              && FirstAt(entries, FirstPerOffset(entries)[x], i) && FirstAt(entries, FirstPerOffset(entries)[y], j)
  {
    hide Offsets;
    var n := |entries| - 1;
    var before, last := entries[..n], entries[n];
    var r := FirstPerOffset(before);
    assert FirstPerOffset(entries)[x] == r[x];
    if y < |r| {
      assert FirstPerOffset(entries)[y] == r[y];
      FirstOnesKeepOrder(before, x, y);
      var i, j :| 0 <= i < j < n && FirstAt(before, r[x], i) && FirstAt(before, r[y], j);
      assert before[..i] == entries[..i] && before[..j] == entries[..j];
      assert FirstAt(entries, r[x], i) && FirstAt(entries, r[y], j);
    } else {
      FirstPerOffsetIsExact(before);
      assert FirstPerOffset(entries)[y] == last && r[x] in r;
      var i :| FirstAt(before, r[x], i);
      assert before[..i] == entries[..i];
      assert FirstAt(entries, r[x], i) && FirstAt(entries, last, n);
    }
  }

  // ---------- the walk ----------

  /** A directive moves the stack in place. */
  method Move(b: Build, stack: seq<Frame>, t: Token) returns (r: seq<Frame>)
    ensures r == Moved(b, stack, t)
  {
    hide Enclosing, Build.Selects;
    r := stack;
    match t {
      case If(c) =>
        var section := b.Selects(c, Enclosing(stack));
        r := r + [Frame(c.product, section)];
      case Else(_) =>
        if r != [] { r := r[|r| - 1 := Frame(-r[|r| - 1].product, false)]; }
      case Endif =>
        if r != [] { r := r[..|r| - 1]; }
      case Text(_) =>
    }
  }

  /** Looks for a name's value on the lines after it. */
  method FindValue(tokens: seq<Token>, i: nat) returns (value: Option<int>)
    requires i < |tokens|
    ensures value == FirstValue(tokens, i + 1, LookAheadEnd(tokens, i))
  {
    var j := i + 1;
    while j < |tokens| && j <= i + LOOK_AHEAD
      invariant i + 1 <= j <= LookAheadEnd(tokens, i)
      invariant FirstValue(tokens, i + 1, LookAheadEnd(tokens, i)) == FirstValue(tokens, j, LookAheadEnd(tokens, i))
    {
      if tokens[j].Text? && tokens[j].line.Value? { return Some(tokens[j].line.offset); }
      j := j + 1;
    }
    value := None;
  }

  /** The whole extraction, a loop over the lines and a second one over the array entries. */
  method ExtractTHRFields(b: Build, tokens: seq<Token>) returns (results: seq<Entry>)
    ensures results == Fields(Kept(Walked(b, ResolvedAll(tokens), [])))
  {
    hide Scalars, Wrappers, FirstPerOffset, Offsets, Walked, Kept, Enclosing, Moved, InSection, ArrayEntries, FirstValue;
    hide ResolvedAll;
    var stack: seq<Frame> := [];
    var seen: set<int> := {};
    var wb: seq<Entry> := [];
    results := [];
    ghost var lines: seq<Line> := [];
    ghost var all := ResolvedAll(tokens);
    ResolvedAt(tokens);
    assert all[0..] == all;
    NoLines(b, stack);
    for i := 0 to |tokens|
      invariant Kept(Walked(b, all, [])) == lines + Kept(Walked(b, all[i..], stack))
      invariant results == FirstPerOffset(Scalars(lines)) && seen == Offsets(Scalars(lines))
      invariant wb == Wrappers(lines)
    {
      WalkedUnfolds(b, all, i, stack);
      ResolvedMoves(b, tokens, i, stack);
      if tokens[i].Text? && InSection(stack) {
        OneMoreLine(lines, all[i].line);
        lines := lines + [all[i].line];
        match tokens[i].line {
          case Scalar(name, offset) =>
            if offset !in seen {
              seen := seen + {offset};
              results := results + [Entry(offset, Exported(name))];
            }
          case WrapperArray(offsets) =>
            var entries := ReadArray(offsets);
            wb := wb + entries;
          case Named(name) =>
            var value := FindValue(tokens, i);
            if value.Some? && value.value !in seen {
              seen := seen + {value.value};
              results := results + [Entry(value.value, Exported(name))];
            }
          case _ =>
        }
      }
      stack := Move(b, stack, tokens[i]);
    }
    assert all[|tokens|..] == [];
    NoLines(b, stack);
    assert lines + [] == lines;
    results := MergeWrappers(results, seen, wb, Scalars(lines));
  }

  lemma ResolvedAt(tokens: seq<Token>)
    ensures |ResolvedAll(tokens)| == |tokens|
    ensures forall i :: 0 <= i < |tokens| ==> ResolvedAll(tokens)[i] == Resolved(tokens, i)
  {
  }

  lemma ResolvedMoves(b: Build, tokens: seq<Token>, i: nat, stack: seq<Frame>)
    requires i < |tokens|
    ensures Moved(b, stack, Resolved(tokens, i)) == Moved(b, stack, tokens[i])
  {
  }

  lemma NoLines(b: Build, stack: seq<Frame>)
    ensures Scalars([]) == [] && Wrappers([]) == [] && FirstPerOffset([]) == [] && Offsets([]) == {}
    ensures Kept(Walked(b, [], stack)) == []
  {
  }

  /** Array entries last, so that a scalar at the same offset wins. */
  method MergeWrappers(scalars: seq<Entry>, known: set<int>, wb: seq<Entry>, ghost read: seq<Entry>)
    returns (results: seq<Entry>)
    requires scalars == FirstPerOffset(read) && known == Offsets(read)
    ensures results == FirstPerOffset(read + wb)
  {
    hide FirstPerOffset, Offsets;
    results := scalars;
    var seen := known;
    assert read + wb[..0] == read;
    for i := 0 to |wb|
      invariant results == FirstPerOffset(read + wb[..i]) && seen == Offsets(read + wb[..i])
    {
      assert read + wb[..i + 1] == read + wb[..i] + [wb[i]];
      OneMoreEntry(read + wb[..i], wb[i]);
      if wb[i].offset !in seen {
        seen := seen + {wb[i].offset};
        results := results + [wb[i]];
      }
    }
    assert wb[..|wb|] == wb;
  }

  method ReadArray(offsets: seq<Option<int>>) returns (entries: seq<Entry>)
    ensures entries == ArrayEntries(offsets)
  {
    entries := [];
    for reg := 0 to |offsets|
      invariant entries == ArrayEntries(offsets[..reg])
    {
      assert offsets[..reg + 1][..reg] == offsets[..reg];
      if offsets[reg].Some? { entries := entries + [Entry(offsets[reg].value, WrapperOf(reg))]; }
    }
    assert offsets[..|offsets|] == offsets;
  }

  lemma WalkedUnfolds(b: Build, tokens: seq<Token>, i: nat, stack: seq<Frame>)
    requires i < |tokens|
    ensures var kept := if tokens[i].Text? && InSection(stack) then [tokens[i].line] else [];
            Kept(Walked(b, tokens[i..], stack)) == kept + Kept(Walked(b, tokens[i + 1..], Moved(b, stack, tokens[i])))
  {
    hide Moved, Enclosing;
    if tokens[i].Text? { TextStays(b, stack, tokens[i]); }
    assert tokens[i..][0] == tokens[i] && tokens[i..][1..] == tokens[i + 1..];
    var rest := Walked(b, tokens[i + 1..], Moved(b, stack, tokens[i]));
    assert ([MarkOf(b, stack, tokens[i])] + rest)[1..] == rest;
  }

  lemma TextStays(b: Build, stack: seq<Frame>, t: Token)
    requires t.Text?
    ensures Moved(b, stack, t) == stack
  {
  }

  lemma OneMoreEntry(entries: seq<Entry>, e: Entry)
    ensures FirstPerOffset(entries + [e]) == FirstPerOffset(entries) + if e.offset in Offsets(entries) then [] else [e]
    ensures Offsets(entries + [e]) == Offsets(entries) + {e.offset}
  {
    var all := entries + [e];
    assert all[..|entries|] == entries;
    assert forall i :: 0 <= i < |entries| ==> all[i] == entries[i];
    assert all[|entries|] == e;
  }

  lemma OneMoreLine(lines: seq<Line>, line: Line)
    ensures Wrappers(lines + [line]) == Wrappers(lines) + if line.WrapperArray? then ArrayEntries(line.offsets) else []
    ensures var s, s' := Scalars(lines), Scalars(lines + [line]);
            if line.Scalar? then
              && Offsets(s') == Offsets(s) + {line.offset}
              && FirstPerOffset(s') == FirstPerOffset(s)
                 + if line.offset in Offsets(s) then [] else [Entry(line.offset, Exported(line.name))]
            else s' == s
  {
    hide FirstPerOffset, Offsets;
    assert (lines + [line])[..|lines|] == lines;
    if line.Scalar? { OneMoreEntry(Scalars(lines), Entry(line.offset, Exported(line.name))); }
  }
}
