/** When a second fold changes nothing, and when a tear-off, whose method is written twice, folds like the
    method itself. */
module TearOffs {
  import opened Modular
  import opened SymtabDiff
  import opened Repetitions

  ghost predicate Undoubled(s: string) {
    forall tail :: !IsDoubledTail(s, tail)
  }

  /** Only a name with a doubled tail is changed. */
  lemma KeptIffUndoubled(s: string)
    ensures CollapseSelfDouble(s) == s <==> Undoubled(s)
  {
    hide IsDoubledTail, CollapseSelfDouble;
    if Undoubled(s) {
      UndoubledIsKept(s);
    } else {
      var tail :| IsDoubledTail(s, tail);
      LongestDoubleIsCollapsed(s, tail);
    }
  }

  // ---------- one word over and over ----------

  lemma HalfOfCopies(w: string, n: nat, s: string)
    requires IsWord(w) && Copies(s, w, n) && n > 0
    ensures Copies(CollapseSelfDouble(s), w, Half(n)) && Half(n) > 0
  {
    assert MayPrecede("", w) && "" + s == s;
    CopiesHalve("", w, n, s);
  }

  /** n copies of a word fold to half of them, so a second fold changes nothing if and only if there were
      at most two; a_a_a_a is the first that folds twice to something else again. */
  lemma RepeatedNameIsStable(w: string, n: nat, s: string)
    requires IsWord(w) && Copies(s, w, n) && n > 0
    ensures Copies(CollapseSelfDouble(s), w, Half(n))
    ensures CollapseSelfDouble(CollapseSelfDouble(s)) == CollapseSelfDouble(s) <==> n <= 2
  {
    hide Copies, CollapseSelfDouble;
    var r := CollapseSelfDouble(s);
    HalfOfCopies(w, n, s);
    HalfOfCopies(w, Half(n), r);
    if CollapseSelfDouble(r) == r {
      SameCount(r, w, Half(n), Half(Half(n)));
    } else if n <= 2 {
      SameCopies(r, CollapseSelfDouble(r), w, Half(n));
    }
  }

  lemma SameCount(s: string, w: string, a: nat, b: nat)
    requires Copies(s, w, a) && Copies(s, w, b)
    ensures a == b
  {
    OnlyFactor(a, b, |w| + 1);
  }

  ghost predicate IsLongestDoubled(s: string, t: string) {
    IsDoubledTail(s, t) && forall tail :: IsDoubledTail(s, tail) ==> |tail| <= |t|
  }

  /** A name is folded by taking its longest doubled tail off, with the underscore in front of it. */
  lemma FoldDropsLongest(s: string, t: string)
    requires IsLongestDoubled(s, t)
    ensures 0 <= |s| - |t| - 1 && CollapseSelfDouble(s) == s[..|s| - |t| - 1]
  {
    hide IsDoubledTail, CollapseSelfDouble;
    LongestDoubleIsCollapsed(s, t);
    TailFits(s, t);
    var r := CollapseSelfDouble(s);
    assert |s| == |r| + 1 + |s[|r| + 1..]|;
    assert r == s[..|r|];
  }

  /** For any name: the fold is stable if and only if the name without its longest doubled tail, if it has
      one, has no other. */
  lemma FoldIsStable(s: string)
    ensures CollapseSelfDouble(CollapseSelfDouble(s)) == CollapseSelfDouble(s)
       <==> forall t :: IsLongestDoubled(s, t) ==> Undoubled(s[..|s| - |t| - 1])
  {
    hide CollapseSelfDouble, IsDoubledTail;
    var r := CollapseSelfDouble(s);
    KeptIffUndoubled(s);
    KeptIffUndoubled(r);
    forall t | IsLongestDoubled(s, t) ensures 0 <= |s| - |t| - 1 && r == s[..|s| - |t| - 1] { FoldDropsLongest(s, t); }
    if !Undoubled(s) { var t := SomeLongest(s); }
  }

  lemma SomeLongest(s: string) returns (t: string)
    requires !Undoubled(s)
    ensures IsLongestDoubled(s, t)
  {
    hide CollapseSelfDouble, IsDoubledTail;
    var tail :| IsDoubledTail(s, tail);
    LongestDoubleIsCollapsed(s, tail);
    t := s[|CollapseSelfDouble(s)| + 1..];
    forall x | IsDoubledTail(s, x) ensures |x| <= |t| { LongestDoubleIsCollapsed(s, x); }
  }

  // ---------- tear-offs ----------

  /** s with its end u written once more. */
  ghost predicate Doubles(d: string, s: string, u: string) {
    && u != "" && u[|u| - 1] != '_' && |u| <= |s| && s[|s| - |u|..] == u
    && d == s + "_" + u
  }

  lemma DoubledAtEnd(d: string, s: string, u: string)
    requires Doubles(d, s, u)
    ensures DoubledAt(d, |s|) && d[..|s|] == s
  {
    assert d[|s| + 1..] == u;
    assert d[|s| - |u|..|s|] == s[|s| - |u|..];
    assert d[|s| - 1] == u[|u| - 1];
  }

  /** Both folds are beginnings of the single name, so they are the same when they are as long. */
  lemma FoldsAreBeginnings(d: string, s: string, u: string)
    requires Doubles(d, s, u)
    ensures FirstDouble(d, 0) <= |s|
    ensures CollapseSelfDouble(d) == CollapseSelfDouble(s) <==> FirstDouble(d, 0) == FirstDouble(s, 0)
  {
    hide DoubledAt;
    DoubledAtEnd(d, s, u);
    var i, j := FirstDouble(d, 0), FirstDouble(s, 0);
    assert d[..i] == s[..i];
    assert |d[..i]| == i && |s[..j]| == j;
  }

  /** Of a name without a doubled tail: the doubled name folds like it if and only if no longer tail is
      doubled by the doubling. */
  lemma UndoubledTearOff(d: string, s: string, u: string)
    requires Doubles(d, s, u) && Undoubled(s)
    ensures CollapseSelfDouble(d) == CollapseSelfDouble(s)
       <==> forall tail :: IsDoubledTail(d, tail) ==> |tail| <= |u|
  {
    hide DoubledAt, IsDoubledTail, Doubles;
    FoldsAreBeginnings(d, s, u);
    KeptIffUndoubled(s);
    Lengths(d, s, u);
    var i := FirstDouble(d, 0);
    assert |CollapseSelfDouble(s)| == FirstDouble(s, 0) == |s|;
    DoubleIsTail(d, i);
    assert |d[i + 1..]| == |d| - i - 1;
    if i == |s| {
      forall tail | IsDoubledTail(d, tail) ensures |tail| <= |u| {
        TailFits(d, tail);
        TailIsDouble(d, tail);
      }
    }
  }

  lemma Lengths(d: string, s: string, u: string)
    requires Doubles(d, s, u)
    ensures |d| == |s| + 1 + |u| && FirstDouble(d, 0) < |d|
  {
    FoldsAreBeginnings(d, s, u);
  }

  /** Of a name whose longest doubled tail is t: if and only if t and the end is the longest of the doubled
      name. */
  lemma DoubledTearOff(d: string, s: string, u: string, t: string)
    requires Doubles(d, s, u) && IsLongestDoubled(s, t)
    ensures CollapseSelfDouble(d) == CollapseSelfDouble(s)
       <==> IsDoubledTail(d, t + "_" + u) && forall tail :: IsDoubledTail(d, tail) ==> |tail| <= |t| + 1 + |u|
  {
    hide DoubledAt, IsDoubledTail, Doubles;
    FoldsAreBeginnings(d, s, u);
    Lengths(d, s, u);
    TailFits(s, t);
    TailIsDouble(s, t);
    var i, j := FirstDouble(d, 0), FirstDouble(s, 0);
    DoubleIsTail(s, j);
    DoubleIsTail(d, i);
    assert |s[j + 1..]| == |s| - j - 1 && j == |s| - |t| - 1;
    EndsAlike(s, t, j);
    TailOfBoth(d, s, u, j);
    if i == j {
      forall tail | IsDoubledTail(d, tail) ensures |tail| <= |t| + 1 + |u| {
        TailFits(d, tail);
        TailIsDouble(d, tail);
      }
    }
    if IsDoubledTail(d, t + "_" + u) && forall tail :: IsDoubledTail(d, tail) ==> |tail| <= |t| + 1 + |u| {
      TailFits(d, t + "_" + u);
      TailIsDouble(d, t + "_" + u);
      assert |d[i + 1..]| <= |t| + 1 + |u|;
    }
  }

  lemma EndsAlike(s: string, t: string, j: nat)
    requires IsDoubledTail(s, t) && j == |s| - |t| - 1 && j >= 0
    ensures s[j + 1..] == t
  {
  }

  lemma TailOfBoth(d: string, s: string, u: string, j: nat)
    requires Doubles(d, s, u) && j < |s|
    ensures d[j + 1..] == s[j + 1..] + "_" + u
  {
  }

  // ---------- names ----------

  /** In words: the owner's, the method's, and the method's again. */
  lemma DoublesInWords(os: seq<string>, ms: seq<string>)
    requires ms != [] && forall w :: w in os + ms ==> IsWord(w)
    ensures Doubles(Joined(os + ms + ms), Joined(os + ms), Joined(ms))
  {
    hide Joined, IsWord;
    assert forall w :: w in ms ==> w in os + ms;
    JoinedEnds(ms);
    JoinedAppend(os + ms, ms);
    if os == [] {
      assert os + ms == ms;
    } else {
      JoinedAppend(os, ms);
    }
  }

  /** A top-level tear-off folds like the function if and only if the function's own name has no doubled
      tail. */
  lemma TearOffFoldsToSingle(doubled: string, single: string)
    requires Words(single) != [] && Words(doubled) == Words(single) + Words(single)
    ensures AsmFold(doubled) == Squeezed(single)
    ensures AsmFold(doubled) == AsmFold(single) <==> Undoubled(Squeezed(single))
  {
    hide CollapseSelfDouble, Squeezed, Words, Undoubled, IsWord, Joined;
    var ws := Words(single);
    SqueezedIsJoined(doubled);
    SqueezedIsJoined(single);
    JoinedAppend(ws, ws);
    WordsAreWords(single);
    JoinedEnds(ws);
    DoubledNameCollapses(Joined(ws));
    KeptIffUndoubled(Squeezed(single));
  }

  /** A tear-off with an owner, for a name without a doubled tail: it folds like the method if and only if
      nothing longer than the method is doubled. */
  lemma OwnedTearOff(doubled: string, single: string, os: seq<string>, ms: seq<string>)
    requires Words(single) == os + ms && Words(doubled) == os + ms + ms && ms != [] && Undoubled(Squeezed(single))
    ensures AsmFold(doubled) == AsmFold(single)
       <==> forall tail :: IsDoubledTail(Squeezed(doubled), tail) ==> |tail| <= |Joined(ms)|
  {
    hide CollapseSelfDouble, Squeezed, Words, Undoubled, IsWord, Joined, IsDoubledTail, Doubles;
    SqueezedIsJoined(doubled);
    SqueezedIsJoined(single);
    WordsAreWords(single);
    DoublesInWords(os, ms);
    UndoubledTearOff(Joined(os + ms + ms), Joined(os + ms), Joined(ms));
  }

  /** And for a name with one. */
  lemma OwnedDoubledTearOff(doubled: string, single: string, os: seq<string>, ms: seq<string>, t: string)
    requires Words(single) == os + ms && Words(doubled) == os + ms + ms && ms != []
    requires IsLongestDoubled(Squeezed(single), t)
    ensures AsmFold(doubled) == AsmFold(single)
       <==> && IsDoubledTail(Squeezed(doubled), t + "_" + Joined(ms))
            && forall tail :: IsDoubledTail(Squeezed(doubled), tail) ==> |tail| <= |t| + 1 + |Joined(ms)|
  {
    hide CollapseSelfDouble, Squeezed, Words, IsWord, Joined, IsDoubledTail, Doubles;
    SqueezedIsJoined(doubled);
    SqueezedIsJoined(single);
    WordsAreWords(single);
    DoublesInWords(os, ms);
    DoubledTearOff(Joined(os + ms + ms), Joined(os + ms), Joined(ms), t);
  }

  // ---------- a last word of its own ----------

  predicate EndsWith(s: string, t: string) {
    |t| <= |s| && s[|s| - |t|..] == t
  }

  /** No word before the last ends with the last. */
  ghost predicate LastIsNew(ws: seq<string>)
    requires ws != []
  {
    forall k :: 0 <= k < |ws| - 1 ==> !EndsWith(ws[k], ws[|ws| - 1])
  }

  lemma UnderscoreBehindWord(w: string, t: string, i: nat)
    requires IsWord(w) && i < |w + "_" + t| && (w + "_" + t)[i] == '_'
    ensures i >= |w|
    ensures var j := w + "_" + t;
            if i == |w| then j[..i] == w && j[i + 1..] == t
            else
              var x := i - |w| - 1;
              t[x] == '_' && j[..i] == w + "_" + t[..x] && j[i + 1..] == t[x + 1..]
  {
    var j := w + "_" + t;
    assert forall x :: 0 <= x < |w| ==> j[x] == w[x];
    if i > |w| { assert j[i] == t[i - |w| - 1]; }
  }

  /** An underscore of a joined list stands between two words. */
  lemma {:induction false} UnderscoreIsBetween(ws: seq<string>, i: nat) returns (k: nat)
    requires ws != [] && (forall w :: w in ws ==> IsWord(w)) && i < |Joined(ws)| && Joined(ws)[i] == '_'
    ensures 0 < k < |ws| && Joined(ws[..k]) == Joined(ws)[..i] && Joined(ws[k..]) == Joined(ws)[i + 1..]
  {
    hide Joined, IsWord;
    var w, rest := ws[0], ws[1..];
    assert w in ws && ws == [w] + rest && forall x :: x in rest ==> x in ws;
    JoinedUnfolds(w, rest);
    NoUnderscore(w);
    assert rest != [];
    UnderscoreBehindWord(w, Joined(rest), i);
    if i == |w| {
      k := 1;
      assert ws[..1] == [w] + [] && ws[1..] == rest;
      JoinedUnfolds(w, []);
    } else {
      var l := UnderscoreIsBetween(rest, i - |w| - 1);
      k := l + 1;
      assert ws[..k] == [w] + rest[..l] && ws[k..] == rest[l..];
      JoinedUnfolds(w, rest[..l]);
    }
  }

  lemma NoUnderscore(w: string)
    requires IsWord(w)
    ensures forall i :: 0 <= i < |w| ==> w[i] != '_'
  {
  }

  lemma {:induction false} JoinedEndsWithLast(ws: seq<string>)
    requires ws != []
    ensures EndsWith(Joined(ws), ws[|ws| - 1])
  {
    if |ws| > 1 { JoinedEndsWithLast(ws[1..]); }
  }

  lemma EndBehindUnderscore(p: string, last: string, m: string)
    requires IsWord(m) && EndsWith(p + "_" + last, m)
    ensures EndsWith(last, m)
  {
    var j := p + "_" + last;
    forall y | |j| - |m| <= y < |j| ensures j[y] != '_' {
      assert j[|j| - |m|..][y - (|j| - |m|)] == j[y];
    }
    assert j[|p|] == '_';
    assert j[|j| - |m|..] == last[|last| - |m|..];
  }

  /** A word at the end of a joined list is at the end of the last word. */
  lemma WordAtEnd(ws: seq<string>, m: string)
    requires ws != [] && IsWord(m) && EndsWith(Joined(ws), m)
    ensures EndsWith(ws[|ws| - 1], m)
  {
    hide IsWord, EndsWith, Joined;
    var n := |ws| - 1;
    if n == 0 {
      JoinedOne(ws);
    } else {
      JoinedLast(ws);
      EndBehindUnderscore(Joined(ws[..n]), ws[n], m);
    }
  }

  lemma JoinedOne(ws: seq<string>)
    requires |ws| == 1
    ensures Joined(ws) == ws[0]
  {
  }

  lemma JoinedLast(ws: seq<string>)
    requires |ws| > 1
    ensures Joined(ws) == Joined(ws[..|ws| - 1]) + "_" + ws[|ws| - 1]
  {
    hide Joined;
    var n := |ws| - 1;
    assert ws == ws[..n] + [ws[n]];
    JoinedAppend(ws[..n], [ws[n]]);
    JoinedOne([ws[n]]);
  }

  /** A doubled place comes after a word that ends with the last one. */
  lemma DoubledAfterWord(ws: seq<string>, i: nat) returns (k: nat)
    requires ws != [] && (forall w :: w in ws ==> IsWord(w)) && DoubledAt(Joined(ws), i)
    ensures 0 < k < |ws| && EndsWith(ws[k - 1], ws[|ws| - 1]) && i == |Joined(ws[..k])|
  {
    hide Joined, IsWord;
    k := UnderscoreIsBetween(ws, i);
    var j := Joined(ws);
    var tail, m := j[i + 1..], ws[|ws| - 1];
    assert m in ws && ws[k - 1] in ws;
    assert ws[k..][|ws[k..]| - 1] == m;
    JoinedEndsWithLast(ws[k..]);
    EndsThrough(j[..i], tail, m);
    assert ws[..k][k - 1] == ws[k - 1];
    WordAtEnd(ws[..k], m);
  }

  lemma EndsThrough(s: string, t: string, m: string)
    requires |s| >= |t| && s[|s| - |t|..] == t && EndsWith(t, m)
    ensures EndsWith(s, m)
  {
    assert s[|s| - |m|..] == s[|s| - |t|..][|t| - |m|..];
  }

  /** When the method's last word is no other word's end, the tear-off folds like the method, with or
      without an owner. */
  lemma PlainTearOff(doubled: string, single: string, os: seq<string>, ms: seq<string>)
    requires Words(single) == os + ms && Words(doubled) == os + ms + ms && ms != [] && LastIsNew(os + ms)
    ensures AsmFold(doubled) == AsmFold(single) == Squeezed(single)
  {
    hide CollapseSelfDouble, Squeezed, Words, IsWord, Joined, DoubledAt, Doubles, LastIsNew;
    SqueezedIsJoined(doubled);
    SqueezedIsJoined(single);
    WordsAreWords(single);
    var ws, d, s := os + ms, Joined(os + ms + ms), Joined(os + ms);
    DoublesInWords(os, ms);
    FoldsAreBeginnings(d, s, Joined(ms));
    NothingDoubled(ws);
    OnlyTheEndDoubled(os, ms);
    FirstDoubleIs(s, |s|);
    DoubledAtEnd(d, s, Joined(ms));
    Lengths(d, s, Joined(ms));
    FirstDoubleIs(d, |s|);
    assert s[..|s|] == s;
  }

  lemma NothingDoubled(ws: seq<string>)
    requires ws != [] && (forall w :: w in ws ==> IsWord(w)) && LastIsNew(ws)
    ensures forall i :: 0 <= i < |Joined(ws)| ==> !DoubledAt(Joined(ws), i)
  {
    hide Joined, DoubledAt, EndsWith, IsWord;
    forall i | 0 <= i < |Joined(ws)| ensures !DoubledAt(Joined(ws), i) {
      if DoubledAt(Joined(ws), i) { var k := DoubledAfterWord(ws, i); }
    }
  }

  lemma OnlyTheEndDoubled(os: seq<string>, ms: seq<string>)
    requires ms != [] && (forall w :: w in os + ms ==> IsWord(w)) && LastIsNew(os + ms)
    ensures forall i :: 0 <= i < |Joined(os + ms)| ==> !DoubledAt(Joined(os + ms + ms), i)
  {
    hide Joined, DoubledAt, EndsWith, IsWord;
    var ws := os + ms;
    var vs := ws + ms;
    assert forall w :: w in vs ==> w in ws;
    assert vs[|vs| - 1] == ws[|ws| - 1] == ms[|ms| - 1];
    forall i | 0 <= i < |Joined(ws)| ensures !DoubledAt(Joined(vs), i) {
      if DoubledAt(Joined(vs), i) {
        var k := DoubledAfterWord(vs, i);
        AfterTheFirst(os, ms, k);
      }
    }
  }

  lemma AfterTheFirst(os: seq<string>, ms: seq<string>, k: nat)
    requires ms != [] && LastIsNew(os + ms) && 0 < k < |os + ms + ms|
    requires EndsWith((os + ms + ms)[k - 1], ms[|ms| - 1])
    ensures (os + ms + ms)[..k] == os + ms
  {
    hide EndsWith;
    var ws, vs := os + ms, os + ms + ms;
    forall x | 0 <= x < |ws| - 1 ensures !EndsWith(vs[x], ms[|ms| - 1]) {
      assert vs[x] == ws[x];
    }
    forall x | |ws| <= x < |vs| - 1 ensures !EndsWith(vs[x], ms[|ms| - 1]) {
      assert vs[x] == ms[x - |ws|] == ws[x - |ms|];
    }
  }
}
