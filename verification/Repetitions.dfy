/** Names that are one word over and over, and when the fold of a name is changed by a copy in front. */
module Repetitions {
  import opened Modular
  import opened SymtabDiff

  /** The byte at position j of w_w_w_... */
  function At(w: string, j: nat): char {
    if j % (|w| + 1) == |w| then '_' else w[j % (|w| + 1)]
  }

  /** Not empty, and no underscore in it. */
  ghost predicate Solid(w: string) {
    w != "" && forall j :: 0 <= j < |w| ==> w[j] != '_'
  }

  /** s is n copies of w with underscores between them. */
  ghost predicate Copies(s: string, w: string, n: nat) {
    |s| + 1 == n * (|w| + 1) && forall j :: 0 <= j < |s| ==> s[j] == At(w, j)
  }

  /** What may stand in front of the copies: it is shorter and does not have w's first letter. */
  ghost predicate MayPrecede(h: string, w: string) {
    Solid(w) && |h| <= |w| && forall j :: 0 <= j < |h| ==> h[j] != w[0]
  }

  function Half(n: nat): nat { (n + 1) / 2 }

  lemma Underscore(w: string, j: nat)
    requires Solid(w)
    ensures At(w, j) == '_' <==> (j + 1) % (|w| + 1) == 0
    ensures j % (|w| + 1) == 0 ==> At(w, j) == w[0]
  {
    var m := |w| + 1;
    var q, r := j / m, j % m;
    if r == |w| {
      assert j + 1 == (q + 1) * m + 0;
      DivMod(j + 1, m, q + 1, 0);
    } else {
      DivMod(j + 1, m, q, r + 1);
    }
  }

  /** An underscore of the copies comes after a whole number of them. */
  lemma Boundary(w: string, j: nat) returns (c: nat)
    requires Solid(w) && At(w, j) == '_'
    ensures c > 0 && j + 1 == c * (|w| + 1)
  {
    Underscore(w, j);
    SmallMod(0, |w| + 1);
    c := Apart(j + 1, 0, |w| + 1);
    assert c != 0;
  }

  lemma FirstDoubleIs(s: string, i: nat)
    requires i <= |s| && (i < |s| ==> DoubledAt(s, i)) && forall j :: 0 <= j < i ==> !DoubledAt(s, j)
    ensures FirstDouble(s, 0) == i && CollapseSelfDouble(s) == s[..i]
  {
    hide DoubledAt;
  }

  /** After c of n copies, at least half of them, the rest is a doubled tail. */
  lemma DoubledAfter(h: string, w: string, n: nat, s: string, c: nat)
    requires Solid(w) && Copies(s, w, n) && 0 < c < n && n <= 2 * c
    ensures |h| + c * (|w| + 1) - 1 < |h| + |s| && DoubledAt(h + s, |h| + c * (|w| + 1) - 1)
  {
    hide At, DoubledAt, Copies, Solid;
    HalvesFit(w, n, s, c);
    EndOfCopies(w, n, s, c);
    HalvesMatch(w, n, s, c);
    DoubledWhere(h, s, c * (|w| + 1), (n - c) * (|w| + 1));
  }

  lemma HalvesFit(w: string, n: nat, s: string, c: nat)
    requires Solid(w) && Copies(s, w, n) && 0 < c < n && n <= 2 * c
    ensures var p, q := c * (|w| + 1), (n - c) * (|w| + 1);
            2 <= |w| + 1 <= q <= p && |s| + 1 == p + q
  {
    Ordered(1, n - c, |w| + 1);
    Ordered(n - c, c, |w| + 1);
    Distribute(n, c, |w| + 1);
  }

  lemma EndOfCopies(w: string, n: nat, s: string, c: nat)
    requires Solid(w) && Copies(s, w, n) && 0 < c < n && n <= 2 * c
    ensures 2 <= c * (|w| + 1) <= |s| && s[c * (|w| + 1) - 1] == '_' && s[c * (|w| + 1) - 2] != '_'
  {
    var m := |w| + 1;
    HalvesFit(w, n, s, c);
    Distribute(c, 1, m);
    ModShift(|w|, c - 1, m);
    SmallMod(|w|, m);
    ModShift(|w| - 1, c - 1, m);
    SmallMod(|w| - 1, m);
  }

  lemma DoubledWhere(h: string, s: string, p: nat, q: nat)
    requires 2 <= q <= p && |s| + 1 == p + q
    requires s[p - 1] == '_' && s[p - 2] != '_' && s[p - q..p - 1] == s[p..]
    ensures DoubledAt(h + s, |h| + p - 1)
  {
    var t, i := h + s, |h| + p - 1;
    assert t[i + 1..] == s[p..];
    assert t[i - (q - 1)..i] == s[p - q..p - 1];
  }

  /** The rest after c copies is the end of those copies. */
  lemma HalvesMatch(w: string, n: nat, s: string, c: nat)
    requires Solid(w) && Copies(s, w, n) && 0 < c < n && n <= 2 * c
    ensures 2 <= (n - c) * (|w| + 1) <= c * (|w| + 1) <= |s|
    ensures s[c * (|w| + 1) - (n - c) * (|w| + 1)..c * (|w| + 1) - 1] == s[c * (|w| + 1)..]
  {
    hide At;
    var m := |w| + 1;
    HalvesFit(w, n, s, c);
    Distribute(c, n - c, m);
    var d := c - (n - c);
    var before, after := s[d * m..c * m - 1], s[c * m..];
    forall x | 0 <= x < |after| ensures before[x] == after[x] {
      assert after[x] == s[x + c * m] && before[x] == s[x + d * m];
      SameLetter(w, x, c, d);
    }
  }

  lemma SameLetter(w: string, x: nat, c: nat, d: nat)
    ensures 0 <= c * (|w| + 1) && 0 <= d * (|w| + 1)
    ensures At(w, x + c * (|w| + 1)) == At(w, x + d * (|w| + 1)) == At(w, x)
  {
    ModShift(x, c, |w| + 1);
    ModShift(x, d, |w| + 1);
  }

  /** And nothing earlier is one. */
  lemma DoubledOnlyAfterHalf(h: string, w: string, n: nat, s: string, i: nat) returns (c: nat)
    requires MayPrecede(h, w) && Copies(s, w, n) && n > 0 && DoubledAt(h + s, i)
    ensures 0 < c < n && n <= 2 * c && i == |h| + c * (|w| + 1) - 1
  {
    var m := |w| + 1;
    var t := h + s;
    Ordered(1, n, m);
    assert i >= |h|;
    c := Boundary(w, i - |h|);
    Ordered(c + 1, n, m);
    Ordered(n, c, m);
    Distribute(n, c, m);
    var len := |t[i + 1..]|;
    assert len == (n - c) * m - 1;
    ModShift(0, c, m);
    SmallMod(0, m);
    Underscore(w, c * m);
    assert t[i + 1] == s[c * m] == w[0];
    assert t[i - len] == t[i - len..i][0] == t[i + 1..][0];
    assert i - len >= |h|;
    Ordered(n - c, c, m);
  }

  /** n copies fold to half of them, rounded up. */
  lemma CopiesHalve(h: string, w: string, n: nat, s: string)
    requires MayPrecede(h, w) && Copies(s, w, n) && n > 0
    ensures 0 < |h| + Half(n) * (|w| + 1) - 1 <= |h| + |s|
    ensures CollapseSelfDouble(h + s) == (h + s)[..|h| + Half(n) * (|w| + 1) - 1]
  {
    hide DoubledAt;
    var m := |w| + 1;
    var i := |h| + Half(n) * m - 1;
    Ordered(1, Half(n), m);
    Ordered(Half(n), n, m);
    if n > 1 { DoubledAfter(h, w, n, s, Half(n)); }
    forall j | 0 <= j < i ensures !DoubledAt(h + s, j) {
      if DoubledAt(h + s, j) {
        var c := DoubledOnlyAfterHalf(h, w, n, s, j);
        Ordered(Half(n), c, m);
      }
    }
    FirstDoubleIs(h + s, i);
  }

  // ---------- a copy in front ----------

  /** k copies of w, each with its underscore. */
  ghost predicate Front(y: string, w: string, k: nat) {
    |y| == k * (|w| + 1) && forall j :: 0 <= j < |y| ==> y[j] == At(w, j)
  }

  lemma {:induction false} Propagate(s: string, w: string, k: nat, m: nat, j: nat)
    requires j < m <= |s| && k > 0
    requires forall x :: 0 <= x < k * (|w| + 1) && x < m ==> s[x] == At(w, x)
    requires forall x :: k * (|w| + 1) <= x < m ==> s[x] == s[x - k * (|w| + 1)]
    ensures s[j] == At(w, j)
    decreases j
  {
    var p := k * (|w| + 1);
    Ordered(1, k, |w| + 1);
    if j >= p {
      Propagate(s, w, k, m, j - p);
      ModShift(j - p, k, |w| + 1);
    }
  }

  lemma UnderscoreIn(w: string, a: nat) returns (x: nat)
    requires w != "" && a % (|w| + 1) != 0
    ensures a <= x < a + |w| && At(w, x) == '_'
  {
    var m := |w| + 1;
    x := a + (|w| - a % m);
    DivMod(x, m, a / m, |w|);
  }

  /** A whole word begins only where a copy begins. */
  lemma WordBegins(w: string, a: nat)
    requires w != "" && forall x :: a <= x < a + |w| ==> At(w, x) != '_'
    ensures a % (|w| + 1) == 0
  {
    hide At;
    if a % (|w| + 1) != 0 { var x := UnderscoreIn(w, a); }
  }

  /** As far as the two folds agree, and a front further, there are copies. */
  lemma PeriodicSoFar(h: string, w: string, k: nat, y: string, u: string, i: nat, x: nat)
    requires Solid(w) && k > 0 && Front(y, w, k) && |h| <= i <= |h| + |u|
    requires (h + u)[..i] == (h + (y + u))[..i]
    requires x < i - |h| + |y|
    ensures (y + u)[x] == At(w, x)
  {
    var v := y + u;
    var a, b := (h + u)[..i], (h + v)[..i];
    forall z | |y| <= z < i - |h| + |y| ensures v[z] == v[z - |y|] {
      assert a[|h| + z - |y|] == b[|h| + z - |y|];
    }
    Propagate(v, w, k, i - |h| + |y|, x);
  }

  /** What DoubledAt says about the part behind h. */
  lemma DoubledBehind(h: string, w: string, v: string, i: nat) returns (len: nat)
    requires MayPrecede(h, w) && |h| <= i && DoubledAt(h + v, i)
    requires i - |h| + 1 < |v| ==> v[i - |h| + 1] == w[0]
    ensures len > 0 && |v| == i - |h| + 1 + len && i - |h| >= len && v[i - |h|] == '_'
    ensures v[i - |h| - len..i - |h|] == v[i - |h| + 1..]
    ensures v[i - |h| + 1] == w[0] && v[i - |h| - len] == w[0]
  {
    var s := h + v;
    len := |s[i + 1..]|;
    var before, after := s[i - len..i], s[i + 1..];
    assert after == v[i - |h| + 1..];
    assert before[0] == s[i - len] && after[0] == v[i - |h| + 1] == w[0];
    assert i - len >= |h|;
    assert before == v[i - |h| - len..i - |h|];
  }

  /** A doubled place with copies before it and one copy after it. */
  lemma DoubledCopies(h: string, w: string, v: string, i: nat) returns (n: nat)
    requires MayPrecede(h, w) && |h| <= i && DoubledAt(h + v, i) && i - |h| + 1 + |w| <= |v|
    requires forall x :: 0 <= x < i - |h| + 1 + |w| ==> v[x] == At(w, x)
    ensures Copies(v, w, n)
  {
    hide DoubledAt, At;
    var m, p := |w| + 1, i - |h|;
    var c := FirstAfter(h, w, v, i);
    var len := DoubledBehind(h, w, v, i);
    SegmentBegins(w, v, p, len, c);
    SmallMod(0, m);
    var b := Apart(p - len, 0, m);
    Distribute(c, b, m);
    Ordered(b + 1, c, m);
    n := c + (c - b);
    Distribute(n, c, m);
    CopiesToTheEnd(w, v, c, b, n);
  }

  /** The first of the two segments begins with a whole copy, like the second. */
  lemma SegmentBegins(w: string, v: string, p: nat, len: nat, c: nat)
    requires Solid(w) && p + 1 == c * (|w| + 1) && |w| <= len <= p && |v| == p + 1 + len
    requires forall x :: 0 <= x < p + 1 + |w| ==> v[x] == At(w, x)
    requires v[p - len..p] == v[p + 1..]
    ensures (p - len) % (|w| + 1) == 0
  {
    hide At;
    var a, before, after := p - len, v[p - len..p], v[p + 1..];
    forall x | a <= x < a + |w| ensures At(w, x) != '_' {
      var d := x - a;
      assert v[x] == before[d] == after[d] == v[p + 1 + d];
      LetterOf(w, d, c);
    }
    WordBegins(w, a);
  }

  lemma LetterOf(w: string, d: nat, c: nat)
    requires Solid(w) && d < |w|
    ensures 0 <= c * (|w| + 1) && At(w, c * (|w| + 1) + d) == w[d]
  {
    SmallMod(d, |w| + 1);
    ModShift(d, c, |w| + 1);
  }

  /** The copies before a doubled place are whole, and a new one begins behind it. */
  lemma FirstAfter(h: string, w: string, v: string, i: nat) returns (c: nat)
    requires MayPrecede(h, w) && |h| <= i && DoubledAt(h + v, i)
    requires forall x :: 0 <= x < i - |h| + 2 ==> x < |v| && v[x] == At(w, x)
    ensures c > 0 && i - |h| + 1 == c * (|w| + 1) < |v| && v[i - |h| + 1] == w[0]
  {
    var m := |w| + 1;
    assert (h + v)[i] == v[i - |h|] == '_';
    c := Boundary(w, i - |h|);
    ModShift(0, c, m);
    SmallMod(0, m);
    Underscore(w, c * m);
  }

  /** The part before c copies' end, from b on, is repeated behind it. */
  lemma CopiesToTheEnd(w: string, v: string, c: nat, b: nat, n: nat)
    requires Solid(w) && b < c && n == c + (c - b) && |v| + 1 == n * (|w| + 1) && c * (|w| + 1) <= |v|
    requires forall x :: 0 <= x < c * (|w| + 1) ==> v[x] == At(w, x)
    requires 0 <= b * (|w| + 1) && v[b * (|w| + 1)..c * (|w| + 1) - 1] == v[c * (|w| + 1)..]
    ensures Copies(v, w, n)
  {
    var m := |w| + 1;
    var before, after := v[b * m..c * m - 1], v[c * m..];
    forall x | 0 <= x < |v| ensures v[x] == At(w, x) {
      if x >= c * m {
        var d := x - c * m;
        assert after[d] == before[d];
        ModShift(d, b, m);
        ModShift(d, c, m);
      }
    }
  }

  /** If the fold is the same with and without the copies in front, everything is copies. */
  lemma SameFoldIsCopies(h: string, w: string, k: nat, y: string, u: string) returns (n: nat)
    requires MayPrecede(h, w) && k > 0 && Front(y, w, k) && u != ""
    requires CollapseSelfDouble(h + u) == CollapseSelfDouble(h + (y + u))
    ensures Copies(y + u, w, n)
  {
    hide At;
    var v := y + u;
    var i := FoldPlace(h, w, k, y, u);
    Ordered(1, k, |w| + 1);
    forall x | 0 <= x < i - |h| + 1 + |w| ensures v[x] == At(w, x) { PeriodicSoFar(h, w, k, y, u, i, x); }
    n := DoubledCopies(h, w, v, i);
  }

  /** Where the longer name is cut. */
  lemma FoldPlace(h: string, w: string, k: nat, y: string, u: string) returns (i: nat)
    requires MayPrecede(h, w) && k > 0 && Front(y, w, k) && u != ""
    requires CollapseSelfDouble(h + u) == CollapseSelfDouble(h + (y + u))
    ensures |h| <= i <= |h| + |u| && DoubledAt(h + (y + u), i)
    ensures (h + u)[..i] == (h + (y + u))[..i]
  {
    i := FirstDouble(h + (y + u), 0);
    Ordered(1, k, |w| + 1);
    var j := FirstDouble(h + u, 0);
    assert |(h + u)[..j]| == |(h + (y + u))[..i]|;
  }

  ghost predicate EvenCopies(s: string, w: string) {
    exists n :: n % 2 == 0 && Copies(s, w, n)
  }

  /** Copies in front leave the fold as it was if and only if it is one copy and it makes an even number
      of them, with nothing else behind. */
  lemma CopyInFront(h: string, w: string, k: nat, y: string, u: string)
    requires MayPrecede(h, w) && k > 0 && Front(y, w, k) && u != ""
    ensures CollapseSelfDouble(h + u) == CollapseSelfDouble(h + (y + u))
       <==> k == 1 && EvenCopies(y + u, w)
  {
    hide CollapseSelfDouble, MayPrecede, Front, Copies;
    if CollapseSelfDouble(h + u) == CollapseSelfDouble(h + (y + u)) {
      var n := SameFoldIsCopies(h, w, k, y, u);
      FoldAmongCopies(h, w, k, y, u, n);
    }
    if k == 1 && EvenCopies(y + u, w) {
      var n: nat :| n % 2 == 0 && Copies(y + u, w, n);
      FoldAmongCopies(h, w, k, y, u, n);
    }
  }

  /** Of copies, half of them are left with the front and without it. */
  lemma FoldAmongCopies(h: string, w: string, k: nat, y: string, u: string, n: nat)
    requires MayPrecede(h, w) && k > 0 && Front(y, w, k) && u != "" && Copies(y + u, w, n)
    ensures CollapseSelfDouble(h + u) == CollapseSelfDouble(h + (y + u)) <==> k == 1 && n % 2 == 0
  {
    hide CollapseSelfDouble, MayPrecede, Front, Copies;
    SolidBehind(h, w);
    var l := WithoutFront(w, k, y, u, n);
    CopiesHalve(h, w, n, y + u);
    CopiesHalve(h, w, l, u);
    SamePrefix(h, w, l, u, n, y + u);
    assert Half(n) == Half(l) <==> k == 1 && n % 2 == 0;
  }

  lemma SolidBehind(h: string, w: string)
    requires MayPrecede(h, w)
    ensures Solid(w)
  {
  }

  /** Beginnings that are copies are the same when they have the same number of them. */
  lemma SamePrefix(h: string, w: string, l: nat, u: string, n: nat, v: string)
    requires Solid(w) && Copies(u, w, l) && Copies(v, w, n)
    requires 0 < |h| + Half(l) * (|w| + 1) - 1 <= |h| + |u| && 0 < |h| + Half(n) * (|w| + 1) - 1 <= |h| + |v|
    ensures (h + u)[..|h| + Half(l) * (|w| + 1) - 1] == (h + v)[..|h| + Half(n) * (|w| + 1) - 1] <==> Half(l) == Half(n)
  {
    hide At;
    var i, j := |h| + Half(l) * (|w| + 1) - 1, |h| + Half(n) * (|w| + 1) - 1;
    assert |(h + u)[..i]| == i && |(h + v)[..j]| == j;
    if i == j { OnlyFactor(Half(n), Half(l), |w| + 1); }
  }

  lemma WithoutFront(w: string, k: nat, y: string, u: string, n: nat) returns (l: nat)
    requires Solid(w) && Front(y, w, k) && u != "" && Copies(y + u, w, n)
    ensures 0 < l && n == l + k && Copies(u, w, l)
  {
    var m := |w| + 1;
    Ordered(n, k, m);
    l := n - k;
    Distribute(n, k, m);
    forall j | 0 <= j < |u| ensures u[j] == At(w, j) {
      assert (y + u)[|y| + j] == u[j];
      ModShift(j, k, m);
    }
  }

  // ---------- in words ----------

  ghost predicate AllAre(ws: seq<string>, w: string) {
    forall x :: x in ws ==> x == w
  }

  lemma WordIsSolid(w: string)
    requires IsWord(w)
    ensures Solid(w)
  {
  }

  lemma CopiesCons(rest: string, w: string, n: nat)
    requires Solid(w) && Copies(rest, w, n)
    ensures Copies(w + "_" + rest, w, n + 1)
  {
    var m, s := |w| + 1, w + "_" + rest;
    Distribute(n + 1, 1, m);
    forall j | 0 <= j < |s| ensures s[j] == At(w, j) {
      if j >= m {
        assert s[j] == rest[j - m];
        ModAdd(j - m, m);
      } else {
        SmallMod(j, m);
      }
    }
  }

  lemma OneCopy(w: string)
    requires Solid(w)
    ensures Copies(w, w, 1)
  {
    forall j | 0 <= j < |w| ensures w[j] == At(w, j) { SmallMod(j, |w| + 1); }
  }

  lemma {:induction false} JoinedCopies(ws: seq<string>, w: string)
    requires ws != [] && Solid(w) && AllAre(ws, w)
    ensures Copies(Joined(ws), w, |ws|)
  {
    hide Copies, Solid;
    assert ws[0] in ws && forall x :: x in ws[1..] ==> x in ws;
    if |ws| == 1 {
      OneCopy(w);
    } else {
      JoinedCopies(ws[1..], w);
      CopiesCons(Joined(ws[1..]), w, |ws| - 1);
    }
  }

  lemma SameCopies(s: string, t: string, w: string, n: nat)
    requires Copies(s, w, n) && Copies(t, w, n)
    ensures s == t
  {
  }

  lemma SomeCopies(s: string, w: string, n: nat)
    requires Copies(s, w, n)
    ensures n > 0
  {
  }

  lemma Repeated(w: string, n: nat) returns (ws: seq<string>)
    requires IsWord(w)
    ensures |ws| == n && AllAre(ws, w) && forall x :: x in ws ==> IsWord(x)
  {
    hide IsWord;
    ws := seq(n, _ => w);
  }

  /** Only copies join to copies. */
  lemma CopiesAreWords(ws: seq<string>, w: string, n: nat)
    requires IsWord(w) && forall x :: x in ws ==> IsWord(x)
    requires ws != [] && Copies(Joined(ws), w, n)
    ensures AllAre(ws, w) && |ws| == n
  {
    hide Copies, IsWord, AllAre, Joined;
    WordIsSolid(w);
    SomeCopies(Joined(ws), w, n);
    var copies := Repeated(w, n);
    JoinedCopies(copies, w);
    SameCopies(Joined(ws), Joined(copies), w, n);
    WordsOfJoined(ws);
    WordsOfJoined(copies);
  }

  lemma EvenWords(ws: seq<string>, w: string)
    requires IsWord(w) && ws != [] && forall x :: x in ws ==> IsWord(x)
    ensures EvenCopies(Joined(ws), w) <==> AllAre(ws, w) && |ws| % 2 == 0
  {
    hide Copies, IsWord, AllAre;
    WordIsSolid(w);
    if EvenCopies(Joined(ws), w) {
      var n: nat :| n % 2 == 0 && Copies(Joined(ws), w, n);
      CopiesAreWords(ws, w, n);
    }
    if AllAre(ws, w) { JoinedCopies(ws, w); }
  }

  lemma OneFront(w: string)
    requires Solid(w)
    ensures MayPrecede("", w) && Front(w + "_", w, 1)
  {
    forall j | 0 <= j < |w| + 1 ensures (w + "_")[j] == At(w, j) { SmallMod(j, |w| + 1); }
  }

  /** One word more in front of a name leaves its fold as it was if and only if the words are all the same
      and their number becomes even. */
  lemma OneMoreCopy(w: string, rs: seq<string>)
    requires IsWord(w) && rs != [] && forall x :: x in rs ==> IsWord(x)
    ensures CollapseSelfDouble(Joined([w] + rs)) == CollapseSelfDouble(Joined(rs))
       <==> AllAre([w] + rs, w) && (1 + |rs|) % 2 == 0
  {
    hide CollapseSelfDouble, AllAre, IsWord, EvenCopies, Front, MayPrecede, Solid, Joined;
    WordIsSolid(w);
    var u, y, v := Joined(rs), w + "_", Joined([w] + rs);
    JoinedUnfolds(w, rs);
    assert v == y + u;
    OneFront(w);
    JoinedEnds(rs);
    EvenWords([w] + rs, w);
    NoPrefixCopy(w, y, u);
  }

  lemma NoPrefixCopy(w: string, y: string, u: string)
    requires MayPrecede("", w) && Front(y, w, 1) && u != ""
    ensures CollapseSelfDouble(y + u) == CollapseSelfDouble(u) <==> EvenCopies(y + u, w)
  {
    hide CollapseSelfDouble, EvenCopies, Front, MayPrecede;
    assert "" + u == u && "" + (y + u) == y + u;
    CopyInFront("", w, 1, y, u);
  }
}
