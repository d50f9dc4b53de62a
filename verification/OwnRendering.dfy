/** Exactly which names are accepted against the oldest dialect's own rendering of them. */
module OwnRendering {
  import opened Wire
  import opened Modular
  import opened SymtabDiff
  import opened Repetitions

  const A := "AllocationStub"

  /** The verdict, from the normalised name.  A stub prefix is taken for the dialect's own: what is left of
      a name of copies of "Stub" folds like the whole when their number is even, and an allocation is
      compared without the owner being written twice. */
  ghost predicate Accepted(n: string) {
    var q := QualifiedCString(n);
    if HasPrefix(AsmIdentifier(q), ALLOCATION_STUB) then HasPrefix(n, NEW) && AllocationAccepted(n[|NEW|..])
    else if HasPrefix(AsmIdentifier(q), STUB) then AllAre(Words(q), "Stub") && |Words(q)| % 2 == 0
    else true
  }

  ghost predicate AllocationAccepted(x: string) {
    var owner := Words(BeforeDot(x));
    |owner| == 1 || (|owner| == 2 && AllAre(Words(x), A) && |Words(x)| % 2 == 1)
  }

  // ---------- words of a name in parts ----------

  lemma {:induction false} WordsSplit(a: string, b: string)
    requires b != "" ==> !Alnum(b[0])
    ensures Words(a + b) == Words(a) + Words(b)
    decreases |a|
  {
    if a == "" {
      assert a + b == b;
      assert [] + Words(b) == Words(b);
    } else {
      assert (a + b)[1..] == a[1..] + b;
      WordsSplit(a[1..], b);
      SplitStep(a, b);
    }
  }

  lemma SplitStep(a: string, b: string)
    requires a != "" && (b != "" ==> !Alnum(b[0]))
    requires Words((a + b)[1..]) == Words(a[1..]) + Words(b)
    ensures Words(a + b) == Words(a) + Words(b)
  {
    hide Words;
    var s, ws, vs := a + b, Words(a[1..]), Words(b);
    assert s[0] == a[0] && (|a| > 1 ==> s[1] == a[1]) && (|a| == 1 && b != "" ==> s[1] == b[0]);
    WordsUnfold(a);
    WordsUnfold(s);
    if Alnum(a[0]) {
      if |a| > 1 && Alnum(a[1]) {
        FirstOfBoth([a[0]], ws, vs);
      } else {
        assert [[a[0]]] + (ws + vs) == [[a[0]]] + ws + vs;
      }
    }
  }

  lemma FirstOfBoth(c: string, ws: seq<string>, vs: seq<string>)
    requires ws != []
    ensures [c + (ws + vs)[0]] + (ws + vs)[1..] == [c + ws[0]] + ws[1..] + vs
  {
    assert (ws + vs)[1..] == ws[1..] + vs;
  }

  lemma WordsUnfold(s: string)
    requires s != ""
    ensures |s| > 1 && Alnum(s[1]) ==> Words(s[1..]) != []
    ensures Words(s) ==
      if !Alnum(s[0]) then Words(s[1..])
      else if |s| > 1 && Alnum(s[1]) then [[s[0]] + Words(s[1..])[0]] + Words(s[1..])[1..]
      else [[s[0]]] + Words(s[1..])
  {
  }

  lemma SameWordsAsIdentifier(s: string)
    ensures Words(AsmIdentifier(s)) == Words(s)
  {
    hide Words, Squeezed, AsmIdentifier;
    SqueezedIdentifier(s);
    SameSqueezedIffSameWords(AsmIdentifier(s), s);
  }

  lemma FoldOfWords(s: string)
    ensures AsmFold(s) == CollapseSelfDouble(Joined(Words(s)))
  {
    hide Words, Squeezed, CollapseSelfDouble;
    SqueezedIsJoined(s);
  }

  /** A word, an underscore, and the rest. */
  lemma WordThen(w: string, rest: string)
    requires IsWord(w)
    ensures Words(w + "_" + rest) == [w] + Words(rest)
  {
    hide IsWord, Words;
    WordInFront(w, "_" + rest);
    assert w + ("_" + rest) == w + "_" + rest;
    assert ("_" + rest)[1..] == rest;
    WordsSkip("_" + rest);
  }

  // ---------- the Stub_ prefix ----------

  lemma StubVerdict(q: string)
    requires HasPrefix(AsmIdentifier(q), STUB)
    ensures AsmFold(q) == AsmFold(AsmIdentifier(q)[|STUB|..])
       <==> AllAre(Words(q), "Stub") && |Words(q)| % 2 == 0
  {
    hide Words, CollapseSelfDouble, AsmFold, AsmIdentifier, Copies, AllAre;
    var id := AsmIdentifier(q);
    var rs := Words(id[|STUB|..]);
    SameWordsAsIdentifier(q);
    StubWord(id);
    FoldOfWords(q);
    FoldOfWords(id[|STUB|..]);
    WordsAreWords(id);
    WordsAreWords(id[|STUB|..]);
    StubIsWord();
    if rs == [] {
      OneStub();
    } else {
      OneMoreCopy("Stub", rs);
    }
  }

  lemma OneStub()
    ensures CollapseSelfDouble(Joined(["Stub"])) != CollapseSelfDouble(Joined([]))
  {
  }

  lemma StubIsWord()
    ensures IsWord("Stub")
  {
  }

  // ---------- the AllocationStub_ prefix ----------

  lemma AllocationFront()
    ensures MayPrecede(NEW, A) && IsWord(A) && IsWord("new")
  {
  }

  lemma {:induction false} BeforeDotSplit(x: string)
    ensures var o := BeforeDot(x);
            && o <= x && (forall i :: 0 <= i < |o| ==> o[i] != '.')
            && (|o| < |x| ==> x[|o|] == '.')
  {
    if x != "" && x[0] != '.' { BeforeDotSplit(x[1..]); }
  }

  /** The owner's words, the first of which is AllocationStub, and what the dialect's prefix leaves. */
  lemma OwnerWords(x: string) returns (ys: seq<string>)
    requires var q := BeforeDot(x) + "." + x; HasPrefix(AsmIdentifier(q), ALLOCATION_STUB)
    ensures var q := BeforeDot(x) + "." + x;
            && Words(BeforeDot(x)) == [A] + ys
            && Words(AsmIdentifier(q)[|ALLOCATION_STUB|..]) == ys + Words(x)
            && forall y :: y in ys ==> IsWord(y)
    ensures [A] + ys <= Words(x) && forall w :: w in Words(x) ==> IsWord(w)
  {
    hide Words, IsWord;
    var o := BeforeDot(x);
    var q := o + "." + x;
    var id, ido := AsmIdentifier(q), AsmIdentifier(o);
    OwnerIsLong(x);
    var r := ido[|A|..];
    assert ido == A + r;
    AllocationFront();
    WordInFront(A, r);
    SameWordsAsIdentifier(o);
    ys := Words(r);
    WordsAreWords(r);
    WordsAreWords(x);
    assert q == o + ("." + x);
    WordsSplit(o, "." + x);
    assert ("." + x)[1..] == x;
    WordsSkip("." + x);
    SameWordsAsIdentifier(q);
    var rest := id[|ALLOCATION_STUB|..];
    assert id == A + "_" + rest;
    WordThen(A, rest);
    assert [A] + ys + Words(x) == [A] + (ys + Words(x));
    assert ([A] + Words(rest))[1..] == Words(rest) && ([A] + (ys + Words(x)))[1..] == ys + Words(x);
    OwnerInFront(x);
  }

  lemma OwnerInFront(x: string)
    ensures Words(BeforeDot(x)) <= Words(x)
  {
    hide Words;
    var o := BeforeDot(x);
    BeforeDotSplit(x);
    assert x == o + x[|o|..];
    WordsSplit(o, x[|o|..]);
  }

  lemma OwnerIsLong(x: string)
    requires HasPrefix(AsmIdentifier(BeforeDot(x) + "." + x), ALLOCATION_STUB)
    ensures var ido := AsmIdentifier(BeforeDot(x)); A <= ido && (|A| < |ido| ==> ido[|A|] == '_')
  {
    var o := BeforeDot(x);
    var id := AsmIdentifier(o + "." + x);
    var ido := AsmIdentifier(o);
    assert id[|o|] == '_';
    assert forall i :: 0 <= i < |A| ==> ALLOCATION_STUB[i] != '_';
    assert |o| >= |A|;
    forall i | 0 <= i < |o| ensures ido[i] == id[i] { assert (o + "." + x)[i] == o[i]; }
    forall i | 0 <= i < |A| ensures ido[i] == A[i] { assert id[i] == ALLOCATION_STUB[i]; }
  }

  lemma NotInWord(w: string, j: nat)
    requires IsWord(w) && j < |w|
    ensures At(w, j) == w[j] && At(w, |w|) == '_'
  {
    SmallMod(j, |w| + 1);
    SmallMod(|w|, |w| + 1);
  }

  /** As far as the rest of the owner reaches, it repeats the first word. */
  lemma OwnerIsPeriodic(h: string, w: string, y: string, rest: string, i: nat, j: nat)
    requires IsWord(w) && y <= rest && j <= |y|
    requires var u := w + "_" + rest;
             && |h| + |y| < i <= |h| + |u|
             && (h + u)[..i] == (h + (y + "_" + u))[..i]
    ensures (y + "_" + (w + "_" + rest))[j] == At(w, j)
  {
    var m, u := |w| + 1, w + "_" + rest;
    var v := y + "_" + u;
    var a, b := (h + u)[..i], (h + v)[..i];
    forall x | 0 <= x <= |y| ensures v[x] == u[x] {
      assert a[|h| + x] == b[|h| + x];
    }
    forall x | 0 <= x < 1 * m && x < |y| + 1 ensures v[x] == At(w, x) {
      NotInWord(w, if x < |w| then x else 0);
    }
    forall x | 1 * m <= x < |y| + 1 ensures v[x] == v[x - 1 * m] {
      assert u[x] == rest[x - m] == y[x - m];
    }
    Propagate(v, w, 1, |y| + 1, j);
  }

  /** Folding alike forces the rest of the owner to be copies of the first word. */
  lemma OwnerIsCopies(h: string, w: string, y: string, rest: string) returns (k: nat)
    requires IsWord(w) && |h| <= |w| && y <= rest && y != ""
    requires CollapseSelfDouble(h + (w + "_" + rest)) == CollapseSelfDouble(h + (y + "_" + (w + "_" + rest)))
    ensures Copies(y, w, k)
  {
    var u := w + "_" + rest;
    var v := y + "_" + u;
    var i := FarEnough(h, w, y, rest);
    forall j | 0 <= j <= |y| ensures v[j] == At(w, j) { OwnerIsPeriodic(h, w, y, rest, i, j); }
    assert v[|y|] == '_';
    k := Boundary(w, |y|);
    forall j | 0 <= j < |y| ensures y[j] == At(w, j) { assert v[j] == y[j]; }
  }

  lemma FarEnough(h: string, w: string, y: string, rest: string) returns (i: nat)
    requires |h| <= |w| && y <= rest
    requires CollapseSelfDouble(h + (w + "_" + rest)) == CollapseSelfDouble(h + (y + "_" + (w + "_" + rest)))
    ensures var u := w + "_" + rest;
            && |h| + |y| < i <= |h| + |u|
            && (h + u)[..i] == (h + (y + "_" + u))[..i]
  {
    var u := w + "_" + rest;
    var s, t := h + (y + "_" + u), h + u;
    i := FirstDouble(s, 0);
    var j := FirstDouble(t, 0);
    assert |s[..i]| == |t[..j]|;
    assert DoubledAt(s, i);
    assert i >= |s[i + 1..]|;
  }

  lemma AllocationVerdict(n: string)
    requires HasPrefix(n, NEW) && HasPrefix(AsmIdentifier(QualifiedCString(n)), ALLOCATION_STUB)
    ensures AsmFold(n) == AsmFold(NEW + AsmIdentifier(QualifiedCString(n))[|ALLOCATION_STUB|..])
       <==> AllocationAccepted(n[|NEW|..])
  {
    hide Words, IsWord, AsmFold, AsmIdentifier, AllAre;
    var x := n[|NEW|..];
    assert n == NEW + x && "new" + "_" == NEW;
    var rest := AsmIdentifier(QualifiedCString(n))[|ALLOCATION_STUB|..];
    var ys := OwnerWords(x);
    AllocationFront();
    WordThen("new", x);
    WordThen("new", rest);
    FoldOfWords(n);
    FoldOfWords(NEW + rest);
    if ys == [] {
      assert [] + Words(x) == Words(x);
      SameWordsFoldAlike(n, NEW + rest);
    } else {
      AllocationFolds(ys, Words(x));
    }
  }

  /** The owner's other words written once more. */
  lemma AllocationFolds(ys: seq<string>, xs: seq<string>)
    requires ys != [] && [A] + ys <= xs && forall w :: w in xs ==> IsWord(w)
    ensures CollapseSelfDouble(Joined(["new"] + xs)) == CollapseSelfDouble(Joined(["new"] + (ys + xs)))
       <==> |ys| == 1 && AllAre(xs, A) && |xs| % 2 == 1
  {
    hide IsWord, CollapseSelfDouble, Joined, AllAre, MayPrecede, Front, EvenCopies, Copies;
    AllocationFront();
    AreWords(ys, xs);
    var y, u := Joined(ys), Joined(xs);
    var h := NEW;
    NewInFront(xs);
    NewInFront(ys + xs);
    JoinedAppend(ys, xs);
    var rest := RestOf(ys, xs);
    if CollapseSelfDouble(h + u) == CollapseSelfDouble(h + (y + "_" + u)) {
      JoinedEnds(ys);
      var k := OwnerIsCopies(h, A, y, rest);
      CopiesAreWords(ys, A, k);
    }
    if AllAre(ys, A) {
      CopiesInFront(h, A, ys, xs);
    }
    if |ys| == 1 && AllAre(xs, A) { PartIsAll(ys, xs); }
  }

  lemma AreWords(ys: seq<string>, xs: seq<string>)
    requires [A] + ys <= xs && forall w :: w in xs ==> IsWord(w)
    ensures forall w :: w in ys ==> IsWord(w)
  {
    hide IsWord;
    forall w | w in ys ensures w in xs {
      var i :| 0 <= i < |ys| && ys[i] == w;
      assert ([A] + ys)[i + 1] == xs[i + 1] == w;
    }
  }

  lemma PartIsAll(ys: seq<string>, xs: seq<string>)
    requires [A] + ys <= xs && AllAre(xs, A)
    ensures AllAre(ys, A)
  {
    forall w | w in ys ensures w == A {
      var i :| 0 <= i < |ys| && ys[i] == w;
      assert ([A] + ys)[i + 1] == xs[i + 1] == w;
      assert xs[i + 1] in xs;
    }
  }

  lemma NewInFront(xs: seq<string>)
    requires xs != []
    ensures Joined(["new"] + xs) == NEW + Joined(xs)
  {
    hide Joined;
    JoinedUnfolds("new", xs);
    assert "new" + "_" == NEW;
  }

  /** The name after its first word. */
  lemma RestOf(ys: seq<string>, xs: seq<string>) returns (rest: string)
    requires ys != [] && [A] + ys <= xs
    ensures Joined(xs) == A + "_" + rest && Joined(ys) <= rest
  {
    hide Joined;
    var tail := xs[1..];
    assert xs == [A] + tail && ys <= tail;
    JoinedUnfolds(A, tail);
    rest := Joined(tail);
    if |tail| > |ys| {
      assert tail == ys + tail[|ys|..];
      JoinedAppend(ys, tail[|ys|..]);
    } else {
      assert tail == ys;
    }
  }

  lemma CopiesInFront(h: string, w: string, ys: seq<string>, xs: seq<string>)
    requires MayPrecede(h, w) && IsWord(w) && ys != [] && xs != [] && AllAre(ys, w)
    requires forall x :: x in xs ==> IsWord(x)
    ensures CollapseSelfDouble(h + Joined(xs)) == CollapseSelfDouble(h + (Joined(ys) + "_" + Joined(xs)))
       <==> |ys| == 1 && AllAre(xs, w) && |xs| % 2 == 1
  {
    hide CollapseSelfDouble, Joined, AllAre, EvenCopies, IsWord, MayPrecede;
    FrontOfJoined(h, w, ys, xs);
    BothWords(ys, xs, w);
    EvenWords(ys + xs, w);
  }

  lemma FrontOfJoined(h: string, w: string, ys: seq<string>, xs: seq<string>)
    requires MayPrecede(h, w) && IsWord(w) && ys != [] && xs != [] && AllAre(ys, w)
    requires forall x :: x in xs ==> IsWord(x)
    ensures CollapseSelfDouble(h + Joined(xs)) == CollapseSelfDouble(h + (Joined(ys) + "_" + Joined(xs)))
       <==> |ys| == 1 && EvenCopies(Joined(ys + xs), w)
  {
    hide CollapseSelfDouble, Joined, AllAre, EvenCopies, IsWord, MayPrecede, Front;
    WordIsSolid(w);
    JoinedEnds(xs);
    FrontOfWords(ys, w);
    JoinedAppend(ys, xs);
    CopyInFront(h, w, |ys|, Joined(ys) + "_", Joined(xs));
  }

  lemma BothWords(ys: seq<string>, xs: seq<string>, w: string)
    requires IsWord(w) && AllAre(ys, w) && forall x :: x in xs ==> IsWord(x)
    ensures forall x :: x in ys + xs ==> IsWord(x)
    ensures AllAre(ys + xs, w) <==> AllAre(xs, w)
  {
    hide IsWord;
    if AllAre(ys + xs, w) {
      forall x | x in xs ensures x == w { assert x in ys + xs; }
    }
  }

  lemma FrontOfWords(ys: seq<string>, w: string)
    requires Solid(w) && ys != [] && AllAre(ys, w)
    ensures Front(Joined(ys) + "_", w, |ys|)
  {
    hide Joined, At;
    JoinedCopies(ys, w);
    ClosedCopies(Joined(ys), w, |ys|);
  }

  lemma ClosedCopies(s: string, w: string, n: nat)
    requires Solid(w) && Copies(s, w, n)
    ensures Front(s + "_", w, n)
  {
    hide At;
    SmallMod(0, |w| + 1);
    ModShift(0, n, |w| + 1);
    Underscore(w, |s|);
  }

  // ---------- the verdict ----------

  /** A name is accepted against its own rendering in the oldest dialect if and only if `Accepted` says so. */
  lemma OwnRenderingVerdict(dropSuffix: string -> string, ours: string, index: string)
    requires IsIndex(index)
    ensures var n := NormalizeRecovered(dropSuffix, ours);
            NamesAgree(dropSuffix, ours, Rendering(QualifiedCString(n), index)) == Some(Accepted(n))
  {
    hide AsmFold, Rendering, NormalizeRecovered, DropIndex, TrimSpaceLeft, TrimSpaceRight, AllocationAccepted, Words, AllAre;
    hide AsmIdentifier, QualifiedCString;
    var n := NormalizeRecovered(dropSuffix, ours);
    var q := QualifiedCString(n);
    var id := AsmIdentifier(q);
    RenderingBody(q, index);
    if HasPrefix(id, ALLOCATION_STUB) {
      if HasPrefix(n, NEW) {
        AllocationVerdict(n);
      } else {
        NotQualified(n);
        NotNew(n);
      }
    } else if HasPrefix(id, STUB) {
      StubVerdict(q);
    } else {
      FoldIdentifier(q);
    }
  }

  lemma NotQualified(n: string)
    requires !HasPrefix(n, NEW)
    ensures QualifiedCString(n) == n
  {
  }

  lemma FoldStarts(w: string, rest: string)
    requires IsWord(w) && (rest != "" ==> rest[0] == '_')
    ensures AsmFold(w + rest) != "" && AsmFold(w + rest)[0] == w[0]
  {
    hide Words, Squeezed;
    var s := w + rest;
    WordInFront(w, rest);
    SqueezedIsJoined(s);
    JoinedUnfolds(w, Words(rest));
  }

  /** The fold of an allocation begins with "new". */
  lemma NotNew(n: string)
    requires !HasPrefix(n, NEW) && HasPrefix(AsmIdentifier(n), ALLOCATION_STUB)
    ensures AsmFold(n) != AsmFold(NEW + AsmIdentifier(n)[|ALLOCATION_STUB|..])
  {
    hide AsmFold, IsWord;
    var id := AsmIdentifier(n);
    AllocationFront();
    assert id == A + id[|A|..] && id[|A|] == '_';
    FoldStarts(A, id[|A|..]);
    FoldIdentifier(n);
    FoldStarts("new", "_" + id[|ALLOCATION_STUB|..]);
    assert NEW + id[|ALLOCATION_STUB|..] == "new" + ("_" + id[|ALLOCATION_STUB|..]);
  }

  /** A method of a class called Stub. */
  lemma StubMethod(dropSuffix: string -> string, m: string, index: string)
    requires IsIndex(index) && dropSuffix("Stub." + m) == "Stub." + m
    requires m != "" && m[|m| - 1] != '.' && forall i :: 0 <= i < |m| ==> m[i] != ' '
    ensures NamesAgree(dropSuffix, "Stub." + m, Rendering("Stub." + m, index))
         == Some(AllAre(["Stub"] + Words(m), "Stub") && (1 + |Words(m)|) % 2 == 0)
  {
    hide NamesAgree, Rendering, Words, AllAre, IsWord, AsmIdentifier;
    var n := "Stub." + m;
    assert NormalizeRecovered(dropSuffix, n) == n;
    assert n[0] == 'S' && !HasPrefix(n, NEW);
    NotQualified(n);
    StubIsWord();
    OneWord("Stub");
    assert n == "Stub" + ("." + m) && ("." + m)[1..] == m;
    WordsSplit("Stub", "." + m);
    WordsSkip("." + m);
    assert Words(n) == ["Stub"] + Words(m);
    StubPrefix(m);
    OwnRenderingVerdict(dropSuffix, n, index);
  }

  lemma StubPrefix(m: string)
    ensures HasPrefix(AsmIdentifier("Stub." + m), STUB) && !HasPrefix(AsmIdentifier("Stub." + m), ALLOCATION_STUB)
  {
    var n, id := "Stub." + m, AsmIdentifier("Stub." + m);
    assert id[0] == n[0] == 'S' && id[1] == n[1] && id[2] == n[2] && id[3] == n[3] && id[4] == '_';
  }

  /** Such a method is rejected although its qualified name has no stub prefix; Stub.Stub is accepted, and
      Stub.run.run is rejected although its form ends in a doubled tail. */
  lemma MethodsOfClassStub(dropSuffix: string -> string, index: string)
    requires IsIndex(index) && forall n :: dropSuffix(n) == n
    ensures !HasPrefix("Stub.run", STUB)
    ensures NamesAgree(dropSuffix, "Stub." + "run", Rendering("Stub." + "run", index)) == Some(false)
    ensures NamesAgree(dropSuffix, "Stub." + "Stub", Rendering("Stub." + "Stub", index)) == Some(true)
    ensures NamesAgree(dropSuffix, "Stub." + "run.run", Rendering("Stub." + "run.run", index)) == Some(false)
  {
    hide NamesAgree, Rendering, Words;
    assert "Stub.run"[4] == '.' && STUB[4] == '_';
    OneWord("run");
    OneWord("Stub");
    WordsSplit("run", ".run");
    assert "run" + ".run" == "run.run" && ".run"[1..] == "run";
    WordsSkip(".run");
    NotAll(["Stub"] + Words("run"));
    NotAll(["Stub"] + Words("run.run"));
    StubMethod(dropSuffix, "run", index);
    StubMethod(dropSuffix, "Stub", index);
    StubMethod(dropSuffix, "run.run", index);
  }

  lemma NotAll(ws: seq<string>)
    requires |ws| > 1 && ws[1] == "run"
    ensures !AllAre(ws, "Stub")
  {
    assert ws[1] in ws && "run"[0] != "Stub"[0];
  }

  lemma OneWord(w: string)
    requires IsWord(w)
    ensures Words(w) == [w]
  {
    WordInFront(w, "");
    assert w + "" == w;
  }
}
