/** Checking every recovered name against a symbol table; the maps are iterated in any order. */
module NameComparison {

  datatype Disagreement = Disagreement(va: int, ours: string, elf: string)

  datatype Comparison = Comparison(
    compared: nat, agree: nat, onlyOurs: nat, onlySymbols: nat, disagreements: seq<Disagreement>)

  /** The recovered names, second spellings of some of them, and the symbols, by address. */
  datatype Tables = Tables(
    agree: (string, string) -> bool, recovered: map<int, string>, alt: map<int, string>, symbols: map<int, string>)
  {
    /** A name agrees by its own spelling or by a second one that is not empty. */
    predicate Agrees(va: int)
      requires va in recovered && va in symbols
    {
      || agree(recovered[va], symbols[va])
      || (va in alt && alt[va] != "" && agree(alt[va], symbols[va]))
    }

    function Both(): set<int> { recovered.Keys * symbols.Keys }

    function OnlyOurs(): set<int> { recovered.Keys - symbols.Keys }

    function Disagreeing(): set<int> {
      set va | va in Both() && !Agrees(va)
    }

    /** The entry of an address. */
    function Report(va: int): Disagreement
      requires va in Both()
    {
      Disagreement(va, recovered[va], symbols[va])
    }

    /** ds has one entry for each address of vas, and no other. */
    ghost predicate Lists(ds: seq<Disagreement>, vas: set<int>) {
      && |ds| == |vas| && vas <= Both()
      && (forall va :: va in vas ==> Report(va) in ds)
      && (forall d :: d in ds ==> d.va in vas && d == Report(d.va))
    }

    /** What the comparison has to be: nothing at all for a stripped build, else every address is counted
        once, and listed by address are exactly those whose name has a symbol and agrees with it neither by
        its own spelling nor by a second one. */
    ghost predicate IsComparison(c: Comparison) {
      if symbols == map[] then c == Comparison(0, 0, 0, 0, [])
      else
        && c.compared == |recovered.Keys * symbols.Keys|
        && c.agree + |c.disagreements| == c.compared
        && c.onlyOurs == |recovered.Keys - symbols.Keys|
        && c.onlySymbols == |symbols.Keys - recovered.Keys|
        && (forall d :: d in c.disagreements <==>
              && d.va in recovered && d.ours == recovered[d.va]
              && d.va in symbols && d.elf == symbols[d.va]
              && !agree(recovered[d.va], symbols[d.va])
              && (d.va in alt && alt[d.va] != "" ==> !agree(alt[d.va], symbols[d.va])))
        && Ascending(c.disagreements)
    }
  }

  ghost predicate Ascending(ds: seq<Disagreement>) {
    forall i, j :: 0 <= i < j < |ds| ==> ds[i].va < ds[j].va
  }

  /** The counters add up. */
  lemma CountsAddUp(t: Tables, c: Comparison)
    requires t.IsComparison(c) && t.symbols != map[]
    ensures c.compared == c.agree + |c.disagreements|
    ensures c.compared + c.onlyOurs == |t.recovered|
    ensures c.compared + c.onlySymbols == |t.symbols|
  {
    Split(t.recovered.Keys, t.symbols.Keys);
    Split(t.symbols.Keys, t.recovered.Keys);
    assert t.symbols.Keys * t.recovered.Keys == t.Both();
    assert |t.recovered.Keys| == |t.recovered| && |t.symbols.Keys| == |t.symbols|;
  }

  lemma Split(a: set<int>, b: set<int>)
    ensures |a * b| + |a - b| == |a|
  {
    assert a == a * b + (a - b);
  }

  // ---------- sorting, as the library does ----------

  function Insert(d: Disagreement, ds: seq<Disagreement>): (r: seq<Disagreement>)
    ensures |r| == |ds| + 1 && forall e :: e in r <==> e == d || e in ds
  {
    if ds == [] || d.va < ds[0].va then [d] + ds
    else
      assert ds == [ds[0]] + ds[1..];
      [ds[0]] + Insert(d, ds[1..])
  }

  lemma {:induction false} InsertAscending(d: Disagreement, ds: seq<Disagreement>)
    requires Ascending(ds) && forall e :: e in ds ==> e.va != d.va
    ensures Ascending(Insert(d, ds))
  {
    if ds == [] {
    } else if d.va < ds[0].va {
      assert forall i :: 1 <= i < |ds| ==> ds[0].va < ds[i].va;
    } else {
      InsertAscending(d, ds[1..]);
      var rest := Insert(d, ds[1..]);
      forall i | 0 <= i < |rest| ensures ds[0].va < rest[i].va {
        assert rest[i] in rest;
        assert ds[0] in ds;
      }
    }
  }

  method SortByAddress(t: Tables, ds: seq<Disagreement>, ghost vas: set<int>) returns (r: seq<Disagreement>)
    requires t.Lists(ds, vas)
    ensures t.Lists(r, vas) && Ascending(r)
  {
    r := [];
    DistinctAddresses(t, ds, vas);
    for i := 0 to |ds|
      invariant |r| == i && Ascending(r) && forall e :: e in r <==> e in ds[..i]
    {
      forall e | e in r ensures e.va != ds[i].va {
        var j :| 0 <= j < i && ds[j] == e;
      }
      InsertAscending(ds[i], r);
      assert ds[..i + 1] == ds[..i] + [ds[i]];
      r := Insert(ds[i], r);
    }
    assert ds[..|ds|] == ds;
  }

  /** As many entries as addresses: no address twice. */
  lemma DistinctAddresses(t: Tables, ds: seq<Disagreement>, vas: set<int>)
    requires t.Lists(ds, vas)
    ensures forall i, j :: 0 <= i < j < |ds| ==> ds[i].va != ds[j].va
  {
    forall i, j | 0 <= i < j < |ds| ensures ds[i].va != ds[j].va {
      if ds[i].va == ds[j].va {
        var fewer := ds[..j] + ds[j + 1..];
        assert ds[i] == t.Report(ds[i].va) && ds[j] == ds[i] && fewer[i] == ds[i];
        forall va | va in vas ensures HasAddress(fewer, va) {
          var k :| 0 <= k < |ds| && ds[k] == t.Report(va);
          if k == j {
            assert fewer[i].va == va;
          } else {
            assert fewer[if k < j then k else k - 1].va == va;
          }
        }
        NoMoreAddresses(fewer, vas);
      }
    }
  }

  ghost predicate HasAddress(ds: seq<Disagreement>, va: int) {
    exists k :: 0 <= k < |ds| && ds[k].va == va
  }

  lemma {:induction false} NoMoreAddresses(ds: seq<Disagreement>, vas: set<int>)
    requires forall va :: va in vas ==> HasAddress(ds, va)
    ensures |vas| <= |ds|
  {
    if ds == [] {
      assert forall va :: va in vas ==> HasAddress([], va);
      NoElements(vas);
    } else {
      var fewer, last := ds[..|ds| - 1], ds[|ds| - 1].va;
      forall va | va in vas - {last} ensures HasAddress(fewer, va) {
        var k :| 0 <= k < |ds| && ds[k].va == va;
        assert fewer[k].va == va;
      }
      NoMoreAddresses(fewer, vas - {last});
    }
  }

  // ---------- the loops ----------

  /** The first loop with the addresses in left still to come. */
  ghost predicate SoFar(t: Tables, c: Comparison, left: set<int>) {
    && left <= t.recovered.Keys
    && c.compared == |t.Both() - left| && c.agree + |c.disagreements| == c.compared
    && c.onlyOurs == |t.OnlyOurs() - left|
    && c.onlySymbols == 0
    && t.Lists(c.disagreements, t.Disagreeing() - left)
  }

  function Counted(t: Tables, c: Comparison, va: int): Comparison
    requires va in t.recovered
  {
    if va !in t.symbols then c.(onlyOurs := c.onlyOurs + 1)
    else if t.Agrees(va) then c.(compared := c.compared + 1, agree := c.agree + 1)
    else c.(compared := c.compared + 1, disagreements := c.disagreements + [t.Report(va)])
  }

  lemma SoFarStep(t: Tables, c: Comparison, left: set<int>, va: int)
    requires SoFar(t, c, left) && va in left
    ensures SoFar(t, Counted(t, c, va), left - {va})
  {
    hide Tables.Lists, Tables.Agrees, Tables.Report, Tables.Both, Tables.Disagreeing, Tables.OnlyOurs;
    Membership(t, va);
    OneMore(t.Both(), left, va);
    OneMore(t.OnlyOurs(), left, va);
    OneMore(t.Disagreeing(), left, va);
    if va in t.Disagreeing() {
      NotInDifference(t.Disagreeing(), left, va);
      OneMoreListed(t, c.disagreements, t.Disagreeing() - left, va);
    }
  }

  lemma NotInDifference(s: set<int>, left: set<int>, va: int)
    requires va in left
    ensures va !in s - left
  {
  }

  lemma Membership(t: Tables, va: int)
    requires va in t.recovered
    ensures va in t.Both() <==> va in t.symbols
    ensures va in t.OnlyOurs() <==> va !in t.symbols
    ensures va in t.Disagreeing() <==> va in t.symbols && !t.Agrees(va)
  {
  }

  /** One address more is done with. */
  lemma OneMore(s: set<int>, left: set<int>, va: int)
    requires va in left
    ensures s - (left - {va}) == if va in s then s - left + {va} else s - left
    ensures |s - (left - {va})| == |s - left| + if va in s then 1 else 0
  {
    if va in s {
      assert s - (left - {va}) == s - left + {va};
    } else {
      assert s - (left - {va}) == s - left;
    }
  }

  lemma OneMoreListed(t: Tables, ds: seq<Disagreement>, vas: set<int>, va: int)
    requires t.Lists(ds, vas) && va !in vas && va in t.Both()
    ensures t.Lists(ds + [t.Report(va)], vas + {va})
  {
  }

  lemma SoFarStart(t: Tables)
    ensures SoFar(t, Comparison(0, 0, 0, 0, []), t.recovered.Keys)
  {
    assert t.Both() - t.recovered.Keys == {} && t.Disagreeing() - t.recovered.Keys == {};
    assert t.OnlyOurs() - t.recovered.Keys == {};
  }

  method CompareNamesToSymbols(t: Tables) returns (c: Comparison)
    ensures t.IsComparison(c)
  {
    hide SoFar, Tables.Lists;
    c := Comparison(0, 0, 0, 0, []);
    if t.symbols == map[] { return; }
    var left := t.recovered.Keys;
    SoFarStart(t);
    while exists va :: va in left
      invariant left <= t.recovered.Keys && SoFar(t, c, left)
      decreases left
    {
      var va :| va in left;
      SoFarStep(t, c, left, va);
      left := left - {va};
      if va !in t.symbols {
        c := c.(onlyOurs := c.onlyOurs + 1);
        continue;
      }
      c := c.(compared := c.compared + 1);
      if t.agree(t.recovered[va], t.symbols[va]) {
        c := c.(agree := c.agree + 1);
        continue;
      }
      if va in t.alt && t.alt[va] != "" && t.agree(t.alt[va], t.symbols[va]) {
        c := c.(agree := c.agree + 1);
        continue;
      }
      c := c.(disagreements := c.disagreements + [Disagreement(va, t.recovered[va], t.symbols[va])]);
    }
    SoFarEnd(t, c, left);
    var onlySymbols := CountOnlySymbols(t);
    var sorted := SortByAddress(t, c.disagreements, t.Disagreeing());
    c := c.(onlySymbols := onlySymbols, disagreements := sorted);
    ListedSize(t, sorted, t.Disagreeing());
    ListedExactly(t, sorted);
  }

  lemma ListedExactly(t: Tables, ds: seq<Disagreement>)
    requires t.Lists(ds, t.Disagreeing())
    ensures forall d :: d in ds <==>
              && d.va in t.recovered && d.ours == t.recovered[d.va]
              && d.va in t.symbols && d.elf == t.symbols[d.va]
              && !t.agree(t.recovered[d.va], t.symbols[d.va])
              && (d.va in t.alt && t.alt[d.va] != "" ==> !t.agree(t.alt[d.va], t.symbols[d.va]))
  {
    forall d ensures d in ds <==> d.va in t.Disagreeing() && d == t.Report(d.va) {
      if d.va in t.Disagreeing() { assert t.Report(d.va) in ds; }
    }
  }

  lemma SoFarEnd(t: Tables, c: Comparison, left: set<int>)
    requires SoFar(t, c, left) && forall va: int :: va !in left
    ensures c.compared == |t.Both()| && c.agree == |t.Both()| - |t.Disagreeing()|
    ensures c.onlyOurs == |t.OnlyOurs()|
    ensures t.Lists(c.disagreements, t.Disagreeing())
  {
    hide Tables.Both, Tables.Disagreeing, Tables.OnlyOurs;
    AllDone(t.Both(), left);
    AllDone(t.Disagreeing(), left);
    AllDone(t.OnlyOurs(), left);
  }

  lemma ListedSize(t: Tables, ds: seq<Disagreement>, vas: set<int>)
    requires t.Lists(ds, vas)
    ensures |ds| == |vas|
  {
  }

  lemma NoElements(s: set<int>)
    requires forall va: int :: va !in s
    ensures s == {}
  {
    assert forall x: int | x in s :: x in {};
    assert s <= {};
  }

  lemma NoneDone(s: set<int>, all: set<int>)
    requires s <= all
    ensures |s - all| == 0
  {
    assert s - all == {};
  }

  lemma AllDone(s: set<int>, left: set<int>)
    requires forall va: int :: va !in left
    ensures s - left == s
  {
    NoElements(left);
  }

  /** The second loop. */
  method CountOnlySymbols(t: Tables) returns (n: nat)
    ensures n == |t.symbols.Keys - t.recovered.Keys|
  {
    n := 0;
    var left := t.symbols.Keys;
    ghost var outside := t.symbols.Keys - t.recovered.Keys;
    NoneDone(outside, left);
    while exists va :: va in left
      invariant left <= t.symbols.Keys && n == |outside - left|
      decreases left
    {
      var va :| va in left;
      OneMore(outside, left, va);
      if va !in t.recovered { n := n + 1; }
      left := left - {va};
    }
    AllDone(outside, left);
  }
}
