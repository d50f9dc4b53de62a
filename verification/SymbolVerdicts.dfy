/** The oldest dialect's verdict on a name and any of its symbols, and what each part of a name or symbol
    contributes to it. */
module SymbolVerdicts {
  import opened Wire
  import opened SymtabDiff
  import opened OwnRendering
  import opened TearOffs

  // ---------- the symbol ----------

  ghost predicate AllSpace(s: string) {
    forall i :: 0 <= i < |s| ==> s[i] == ' ' || s[i] == '\t' || s[i] == '\n' || s[i] == '\r' || s[i] == '\U{0b}' || s[i] == '\U{0c}'
  }

  /** No white space at either end. */
  ghost predicate Trimmed(s: string) {
    s != "" ==> !AllSpace([s[0]]) && !AllSpace([s[|s| - 1]])
  }

  lemma SpaceIs(c: char)
    ensures Space(c) <==> AllSpace([c])
  {
    if Space(c) { assert [c][0] == c; }
    if AllSpace([c]) { assert [c][0] == c; }
  }

  lemma {:induction false} LeadingSpace(a: string, s: string)
    requires AllSpace(a) && (s != "" ==> !Space(s[0]))
    ensures TrimSpaceLeft(a + s) == s
  {
    if a == "" {
      assert a + s == s;
    } else {
      assert (a + s)[1..] == a[1..] + s;
      SpaceIs(a[0]);
      assert AllSpace([a[0]]);
      LeadingSpace(a[1..], s);
    }
  }

  lemma {:induction false} TrailingSpace(s: string, z: string)
    requires AllSpace(z) && (s != "" ==> !Space(s[|s| - 1]))
    ensures TrimSpaceRight(s + z) == s
  {
    if z == "" {
      assert s + z == s;
    } else {
      var n := |z| - 1;
      assert (s + z)[..|s| + n] == s + z[..n];
      SpaceIs(z[n]);
      assert AllSpace([z[n]]);
      TrailingSpace(s, z[..n]);
    }
  }

  /** White space around a symbol comes off, and no more. */
  lemma SpaceComesOff(a: string, s: string, z: string)
    requires AllSpace(a) && AllSpace(z) && Trimmed(s) && s != ""
    ensures TrimSpaceRight(TrimSpaceLeft(a + s + z)) == s
  {
    SpaceIs(s[0]);
    SpaceIs(s[|s| - 1]);
    assert a + s + z == a + (s + z);
    LeadingSpace(a, s + z);
    TrailingSpace(s, z);
  }

  /** s is r, an underscore, and at least one digit. */
  ghost predicate Indexed(s: string, r: string, index: string) {
    s == r + "_" + index && index != "" && forall i :: 0 <= i < |index| ==> '0' <= index[i] <= '9'
  }

  /** An underscore and digits at the end come off; a name without them stays as it is. */
  lemma DropIndexIs(s: string)
    ensures forall r, index :: Indexed(s, r, index) ==> DropIndex(s) == r
    ensures (forall r, index :: !Indexed(s, r, index)) ==> DropIndex(s) == s
  {
    forall r, index | Indexed(s, r, index) ensures DropIndex(s) == r {
      DropDigitsAppend(r + "_", index);
      assert (r + "_")[..|r|] == r;
    }
    DigitsDropped(s);
    var d := DropDigits(s);
    if d != s && d != "" && d[|d| - 1] == '_' {
      assert s == d[..|d| - 1] + "_" + s[|d|..];
      assert Indexed(s, d[..|d| - 1], s[|d|..]);
    }
  }

  lemma {:induction false} DigitsDropped(s: string)
    ensures var d := DropDigits(s); d <= s && forall i :: |d| <= i < |s| ==> Digit(s[i])
  {
    if s != "" && Digit(s[|s| - 1]) { DigitsDropped(s[..|s| - 1]); }
  }

  // ---------- the name ----------

  /** Of a recovered name a final dot comes off, and every blank becomes an underscore. */
  lemma NormalizedIs(dropSuffix: string -> string, ours: string, i: nat)
    ensures var s, n := dropSuffix(ours), NormalizeRecovered(dropSuffix, ours);
            && |n| == (if s != "" && s[|s| - 1] == '.' then |s| - 1 else |s|)
            && (i < |n| ==> n[i] == if s[i] == ' ' then '_' else s[i])
  {
  }

  /** A constructor's owner, which ends at the first dot, is written in front of it once more; other names stay
      as they are. */
  lemma QualifiedIs(o: string, rest: string)
    requires (forall i :: 0 <= i < |o| ==> o[i] != '.') && (rest != "" ==> rest[0] == '.')
    ensures QualifiedCString("new_" + o + rest) == o + "." + o + rest
  {
    var n, x := "new_" + o + rest, o + rest;
    assert n[|NEW|..] == x && NEW <= n;
    OwnerIs(o, rest);
    assert o + "." + (o + rest) == o + "." + o + rest;
  }

  lemma {:induction false} OwnerIs(o: string, rest: string)
    requires (forall i :: 0 <= i < |o| ==> o[i] != '.') && (rest != "" ==> rest[0] == '.')
    ensures BeforeDot(o + rest) == o
  {
    if o == "" {
      assert o + rest == rest;
    } else {
      assert (o + rest)[1..] == o[1..] + rest;
      OwnerIs(o[1..], rest);
    }
  }

  lemma NotAConstructor(n: string)
    requires !("new_" <= n)
    ensures QualifiedCString(n) == n
  {
  }

  // ---------- the verdict ----------

  /** What a symbol's rest is compared with: an allocation with the name as it is, everything else with the
      qualified name; a plain stub's prefix does not count. */
  ghost predicate Matches(n: string, id: string) {
    if "AllocationStub_" <= id then AsmFold(n) == AsmFold("new_" + id[15..])
    else if "Stub_" <= id then AsmFold(QualifiedCString(n)) == AsmFold(id[5..])
    else AsmFold(QualifiedCString(n)) == AsmFold(id)
  }

  /** The verdict on a symbol with this dialect's prefix, from what is left of it without its index. */
  lemma SymbolVerdict(dropSuffix: string -> string, ours: string, a: string, t: string, id: string, z: string)
    requires AllSpace(a) && AllSpace(z) && Trimmed("Precompiled_" + t)
    requires (exists index :: Indexed(t, id, index)) || (t == id && forall r, index :: !Indexed(t, r, index))
    ensures NamesAgree(dropSuffix, ours, a + ("Precompiled_" + t) + z)
         == Some(Matches(NormalizeRecovered(dropSuffix, ours), id))
  {
    hide AsmFold, NormalizeRecovered, QualifiedCString, DropIndex, TrimSpaceLeft, TrimSpaceRight, Trimmed, AllSpace, Indexed;
    var s := "Precompiled_" + t;
    SpaceComesOff(a, s, z);
    assert s[|PRECOMPILED|..] == t;
    DropIndexIs(t);
    assert DropIndex(t) == id;
  }

  /** A symbol without it is left to the other dialects. */
  lemma OtherDialect(dropSuffix: string -> string, ours: string, a: string, s: string, z: string)
    requires AllSpace(a) && AllSpace(z) && Trimmed(s) && s != "" && !("Precompiled_" <= s)
    ensures NamesAgree(dropSuffix, ours, a + s + z) == None
  {
    hide NormalizeRecovered, QualifiedCString, DropIndex, TrimSpaceLeft, TrimSpaceRight, Trimmed, AllSpace;
    SpaceComesOff(a, s, z);
  }

  /** Against the rendering of another name without a stub prefix, where neither ends with a doubled tail: the
      name is accepted if and only if the two have the same words. */
  lemma OtherNameVerdict(dropSuffix: string -> string, ours: string, other: string, index: string)
    requires IsIndex(index)
    requires !("Stub_" <= AsmIdentifier(other)) && !("AllocationStub_" <= AsmIdentifier(other))
    requires Undoubled(Squeezed(QualifiedCString(NormalizeRecovered(dropSuffix, ours)))) && Undoubled(Squeezed(other))
    ensures NamesAgree(dropSuffix, ours, Rendering(other, index))
         == Some(Words(QualifiedCString(NormalizeRecovered(dropSuffix, ours))) == Words(other))
  {
    hide CollapseSelfDouble, Squeezed, NormalizeRecovered, QualifiedCString, DropIndex, TrimSpaceLeft, TrimSpaceRight;
    hide Undoubled, Words, Rendering, AsmIdentifier;
    var q := QualifiedCString(NormalizeRecovered(dropSuffix, ours));
    RenderingBody(other, index);
    FoldIdentifier(other);
    KeptIffUndoubled(Squeezed(q));
    KeptIffUndoubled(Squeezed(other));
    SameSqueezedIffSameWords(q, other);
  }
}
