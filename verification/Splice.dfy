/** Rewriting variable literals in a source file: the new texts are spliced in from the last to the
    first, so that no offset moves before it is used. */
module Splice {

  /** Bytes start up to end become text. */
  datatype Edit = Edit(start: nat, end: nat, text: string)

  /** Literals are not empty, lie in the file and do not overlap. */
  ghost predicate Disjoint(src: string, edits: seq<Edit>) {
    && (forall i :: 0 <= i < |edits| ==> edits[i].start < edits[i].end <= |src|)
    && (forall i, j :: 0 <= i < |edits| && 0 <= j < |edits| && i != j ==>
          edits[i].end <= edits[j].start || edits[j].end <= edits[i].start)
  }

  ghost predicate Descending(edits: seq<Edit>) {
    forall i, j :: 0 <= i < j < |edits| ==> edits[i].start > edits[j].start
  }

  /** The file from a position on with all literals replaced at once, whatever the order they are listed in. */
  ghost function Replaced(src: string, edits: seq<Edit>, at: nat): string
    requires Disjoint(src, edits) && at <= |src|
    decreases |src| - at
  {
    if at == |src| then ""
    else if i :| 0 <= i < |edits| && edits[i].start == at then edits[i].text + Replaced(src, edits, edits[i].end)
    else [src[at]] + Replaced(src, edits, at + 1)
  }

  lemma ReplacedAtEdit(src: string, edits: seq<Edit>, i: nat)
    requires Disjoint(src, edits) && i < |edits|
    ensures Replaced(src, edits, edits[i].start) == edits[i].text + Replaced(src, edits, edits[i].end)
  {
  }

  lemma ReplacedOutside(src: string, edits: seq<Edit>, at: nat)
    requires Disjoint(src, edits) && at < |src| && forall i :: 0 <= i < |edits| ==> edits[i].start != at
    ensures Replaced(src, edits, at) == [src[at]] + Replaced(src, edits, at + 1)
  {
  }

  /** Where no literal starts, the file is copied. */
  lemma {:induction false} ReplacedCopies(src: string, edits: seq<Edit>, from: nat, to: nat)
    requires Disjoint(src, edits) && from <= to <= |src|
    requires forall i :: 0 <= i < |edits| ==> !(from <= edits[i].start < to)
    ensures Replaced(src, edits, from) == src[from..to] + Replaced(src, edits, to)
    decreases |src| - from
  {
    hide Replaced;
    if from == to {
      assert src[from..to] == "";
    } else {
      ReplacedOutside(src, edits, from);
      ReplacedCopies(src, edits, from + 1, to);
      assert src[from..to] == [src[from]] + src[from + 1..to];
    }
  }

  lemma ReplacedEnd(src: string, edits: seq<Edit>)
    requires Disjoint(src, edits)
    ensures Replaced(src, edits, |src|) == ""
  {
  }

  lemma EditInside(src: string, edits: seq<Edit>, i: nat)
    requires Disjoint(src, edits) && i < |edits|
    ensures edits[i].start < edits[i].end <= |src|
  {
  }

  /** Listing the literals in another order changes nothing. */
  lemma {:induction false} OrderIsIrrelevant(src: string, a: seq<Edit>, b: seq<Edit>, at: nat)
    requires Disjoint(src, a) && Disjoint(src, b) && multiset(a) == multiset(b) && at <= |src|
    ensures Replaced(src, a, at) == Replaced(src, b, at)
    decreases |src| - at
  {
    hide Replaced, Disjoint;
    if at == |src| {
      ReplacedEnd(src, a);
      ReplacedEnd(src, b);
    } else {
      if i :| 0 <= i < |a| && a[i].start == at {
        assert a[i] in multiset(b);
        var j :| 0 <= j < |b| && b[j] == a[i];
        ReplacedAtEdit(src, a, i);
        ReplacedAtEdit(src, b, j);
        EditInside(src, a, i);
        OrderIsIrrelevant(src, a, b, a[i].end);
      } else {
        forall j | 0 <= j < |b| ensures b[j].start != at { assert b[j] in multiset(a); }
        ReplacedOutside(src, a, at);
        ReplacedOutside(src, b, at);
        OrderIsIrrelevant(src, a, b, at + 1);
      }
    }
  }

  lemma SameDisjoint(src: string, a: seq<Edit>, b: seq<Edit>)
    requires Disjoint(src, a) && Descending(b) && multiset(a) == multiset(b)
    ensures Disjoint(src, b)
  {
    forall i | 0 <= i < |b| ensures b[i] in a { assert b[i] in multiset(a); }
    forall i, j | 0 <= i < |b| && 0 <= j < |b| && i != j ensures b[i].end <= b[j].start || b[j].end <= b[i].start {
      var x :| 0 <= x < |a| && a[x] == b[i];
      var y :| 0 <= y < |a| && a[y] == b[j];
    }
  }

  // ---------- sorting, as the library does ----------

  function Insert(e: Edit, sorted: seq<Edit>): (r: seq<Edit>)
    ensures multiset(r) == multiset(sorted) + multiset{e}
  {
    if sorted == [] || e.start > sorted[0].start then
      [e] + sorted
    else
      assert sorted == [sorted[0]] + sorted[1..];
      [sorted[0]] + Insert(e, sorted[1..])
  }

  lemma {:induction false} InsertDescending(e: Edit, sorted: seq<Edit>)
    requires Descending(sorted) && forall i :: 0 <= i < |sorted| ==> sorted[i].start != e.start
    ensures Descending(Insert(e, sorted))
  {
    if sorted == [] {
    } else if e.start > sorted[0].start {
      assert forall i :: 1 <= i < |sorted| ==> sorted[0].start > sorted[i].start;
    } else {
      InsertDescending(e, sorted[1..]);
      var rest := Insert(e, sorted[1..]);
      forall i | 0 <= i < |rest| ensures rest[i].start < sorted[0].start {
        assert rest[i] in multiset(rest);
        assert rest[i] == e || rest[i] in sorted[1..];
      }
    }
  }

  method SortDescending(edits: seq<Edit>) returns (sorted: seq<Edit>)
    requires forall i, j :: 0 <= i < j < |edits| ==> edits[i].start != edits[j].start
    ensures Descending(sorted) && multiset(sorted) == multiset(edits)
  {
    sorted := [];
    for i := 0 to |edits|
      invariant Descending(sorted) && multiset(sorted) == multiset(edits[..i])
    {
      forall k | 0 <= k < |sorted| ensures sorted[k].start != edits[i].start {
        assert sorted[k] in multiset(edits[..i]);
      }
      InsertDescending(edits[i], sorted);
      assert edits[..i + 1] == edits[..i] + [edits[i]];
      sorted := Insert(edits[i], sorted);
    }
    assert edits[..|edits|] == edits;
  }

  // ---------- splicing ----------

  /** Where the splices made so far begin. */
  function Frontier(src: string, sorted: seq<Edit>, k: nat): nat
    requires k <= |sorted|
  {
    if k == 0 then |src| else sorted[k - 1].start
  }

  /** One more splice: before the frontier the file is still the old one, from it on it is the new one. */
  lemma SpliceStep(src: string, sorted: seq<Edit>, k: nat)
    requires Disjoint(src, sorted) && Descending(sorted) && k < |sorted|
    ensures var e, p := sorted[k], Frontier(src, sorted, k);
            && e.end <= p <= |src|
            && Replaced(src, sorted, e.start) == e.text + src[e.end..p] + Replaced(src, sorted, p)
  {
    var e, p := sorted[k], Frontier(src, sorted, k);
    assert e.end <= p;
    forall i | 0 <= i < |sorted| ensures !(e.end <= sorted[i].start < p) {
      assert k > 0 && i < k ==> sorted[i].start >= p;
    }
    hide Replaced;
    ReplacedAtEdit(src, sorted, k);
    ReplacedCopies(src, sorted, e.end, p);
    assert e.text + (src[e.end..p] + Replaced(src, sorted, p)) == e.text + src[e.end..p] + Replaced(src, sorted, p);
  }

  /** The literals are replaced one after the other, and the result is as if all had been replaced at
      once: everything between them survives, in order. */
  method RewriteVarLiterals(src: string, edits: seq<Edit>) returns (out: string)
    requires Disjoint(src, edits)
    ensures out == Replaced(src, edits, 0)
  {
    hide Replaced;
    var sorted := SortDescending(edits);
    SameDisjoint(src, edits, sorted);
    OrderIsIrrelevant(src, edits, sorted, 0);
    out := src;
    ghost var p := |src|;
    ReplacedEnd(src, sorted);
    assert src == src[..p] + "";
    for k := 0 to |sorted|
      invariant p == Frontier(src, sorted, k) <= |src|
      invariant out == src[..p] + Replaced(src, sorted, p)
    {
      var e := sorted[k];
      SpliceStep(src, sorted, k);
      assert out[..e.start] == src[..e.start];
      assert out[e.end..] == src[e.end..p] + Replaced(src, sorted, p);
      assert e.text + (src[e.end..p] + Replaced(src, sorted, p)) == Replaced(src, sorted, e.start);
      out := out[..e.start] + e.text + out[e.end..];
      p := e.start;
      assert out == src[..p] + Replaced(src, sorted, p);
    }
    forall i | 0 <= i < |sorted| ensures !(0 <= sorted[i].start < p) {
    }
    ReplacedCopies(src, sorted, 0, p);
    assert src[0..p] == src[..p];
  }

  /** Regenerating literals that are already up to date leaves the file as it is. */
  lemma {:induction false} UpToDateIsUnchanged(src: string, edits: seq<Edit>, at: nat)
    requires Disjoint(src, edits) && at <= |src|
    requires forall i :: 0 <= i < |edits| ==> edits[i].text == src[edits[i].start..edits[i].end]
    ensures Replaced(src, edits, at) == src[at..]
    decreases |src| - at
  {
    hide Replaced, Disjoint;
    if at == |src| {
      ReplacedEnd(src, edits);
    } else if i :| 0 <= i < |edits| && edits[i].start == at {
      EditInside(src, edits, i);
      ReplacedAtEdit(src, edits, i);
      UpToDateIsUnchanged(src, edits, edits[i].end);
    } else {
      ReplacedOutside(src, edits, at);
      UpToDateIsUnchanged(src, edits, at + 1);
    }
  }
}
