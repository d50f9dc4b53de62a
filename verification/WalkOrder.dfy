/** The order of the walk from main: first in, first out.  It is stated on the program alone, without the
    walk's steps. */
module WalkOrder {
  import opened FromMain

  // ---------- first occurrences ----------

  /** Every element once, where it comes first. */
  function FirstOnes(s: seq<int>): seq<int> {
    if s == [] then []
    else
      var n := |s| - 1;
      if s[n] in s[..n] then FirstOnes(s[..n]) else FirstOnes(s[..n]) + [s[n]]
  }

  lemma {:induction false} FirstOnesLast(s: seq<int>, x: int)
    ensures FirstOnes(s + [x]) == if x in s then FirstOnes(s) else FirstOnes(s) + [x]
  {
    assert (s + [x])[..|s|] == s;
  }

  lemma {:induction false} SameElements(s: seq<int>, x: int)
    ensures x in FirstOnes(s) <==> x in s
  {
    if s != [] {
      var n := |s| - 1;
      assert s == s[..n] + [s[n]];
      SameElements(s[..n], x);
      if s[n] in s[..n] { SameElements(s[..n], s[n]); }
    }
  }

  ghost predicate NoRepeats(s: seq<int>) {
    forall i, j :: 0 <= i < j < |s| ==> s[i] != s[j]
  }

  lemma {:induction false} NothingToDrop(s: seq<int>)
    requires NoRepeats(s)
    ensures FirstOnes(s) == s
  {
    if s != [] {
      var n := |s| - 1;
      assert s == s[..n] + [s[n]];
      NothingToDrop(s[..n]);
    }
  }

  /** What comes behind only adds. */
  lemma {:induction false} FirstOnesGrow(a: seq<int>, b: seq<int>)
    ensures FirstOnes(a) <= FirstOnes(a + b)
  {
    if b == [] {
      assert a + b == a;
    } else {
      var n := |b| - 1;
      assert a + b == a + b[..n] + [b[n]];
      FirstOnesGrow(a, b[..n]);
      FirstOnesLast(a + b[..n], b[n]);
    }
  }

  /** Only the first occurrences in front matter for what comes behind. */
  lemma {:induction false} OnlyFirstOnesMatter(a: seq<int>, b: seq<int>)
    ensures FirstOnes(a + b) == FirstOnes(FirstOnes(a) + b)
  {
    if b == [] {
      assert a + b == a && FirstOnes(a) + b == FirstOnes(a);
      FirstOnesTwice(a);
    } else {
      var n := |b| - 1;
      OnlyFirstOnesMatter(a, b[..n]);
      assert a + b == a + b[..n] + [b[n]] && FirstOnes(a) + b == FirstOnes(a) + b[..n] + [b[n]];
      FirstOnesLast(a + b[..n], b[n]);
      FirstOnesLast(FirstOnes(a) + b[..n], b[n]);
      SameElements(a, b[n]);
    }
  }

  lemma {:induction false} FirstOnesTwice(a: seq<int>)
    ensures FirstOnes(FirstOnes(a)) == FirstOnes(a)
  {
    if a != [] {
      var n := |a| - 1;
      assert a == a[..n] + [a[n]];
      FirstOnesTwice(a[..n]);
      FirstOnesLast(FirstOnes(a[..n]), a[n]);
      SameElements(a[..n], a[n]);
    }
  }

  lemma SameInFront(a: seq<int>, b: seq<int>, c: seq<int>)
    requires FirstOnes(a) == FirstOnes(b)
    ensures FirstOnes(a + c) == FirstOnes(b + c)
  {
    OnlyFirstOnesMatter(a, c);
    OnlyFirstOnesMatter(b, c);
  }

  /** An element seen before can be left out. */
  lemma SeenBefore(a: seq<int>, x: int, b: seq<int>)
    requires x in a
    ensures FirstOnes(a + [x] + b) == FirstOnes(a + b)
  {
    FirstOnesLast(a, x);
    SameInFront(a + [x], a, b);
  }

  /** And so can the visited ones. */
  lemma {:induction false} VisitedDropOut(a: seq<int>, b: seq<int>, visited: set<int>)
    requires forall x :: x in visited ==> x in a
    ensures FirstOnes(a + Unvisited(b, visited)) == FirstOnes(a + b)
    decreases |b|
  {
    if b == [] {
      assert Unvisited(b, visited) == b;
    } else {
      var x, rest := b[0], b[1..];
      assert a + b == a + [x] + rest;
      if x in visited {
        assert Unvisited(b, visited) == Unvisited(rest, visited);
        SeenBefore(a, x, rest);
        VisitedDropOut(a, rest, visited);
      } else {
        assert a + Unvisited(b, visited) == a + [x] + Unvisited(rest, visited);
        VisitedDropOut(a + [x], rest, visited);
      }
    }
  }

  lemma {:induction false} UnvisitedAppend(a: seq<int>, b: seq<int>, visited: set<int>)
    ensures Unvisited(a + b, visited) == Unvisited(a, visited) + Unvisited(b, visited)
    decreases |a|
  {
    if a == [] {
      assert a + b == b;
    } else {
      assert (a + b)[1..] == a[1..] + b;
      UnvisitedAppend(a[1..], b, visited);
    }
  }

  // ---------- the order, from the program ----------

  /** The function is in range, not framework code, and its decompilation succeeds. */
  predicate Emits(g: Program, va: int) {
    va in g.ranges && !g.isFrameworkUrl(g.codeUrl(g.ranges[va])) && g.build(va).Built?
  }

  /** One of the functions loads the class from the pool. */
  ghost predicate Touched(g: Program, vs: seq<int>, c: int) {
    c >= 0 && exists i :: 0 <= i < |vs| && Emits(g, vs[i]) && c in g.build(vs[i]).classRefs
  }

  /** The methods of the classes among cs, from the n-th on, that are app code, that none of the functions in vs
      touched, and that come for the first time. */
  ghost function NewMethods(g: Program, vs: seq<int>, cs: seq<int>, n: nat): seq<int>
    requires n <= |cs|
    decreases |cs| - n
  {
    if n == |cs| then []
    else
      var c := cs[n];
      (if c >= 0 && !g.isFrameworkUrl(g.classUrl(c)) && !Touched(g, vs, c) && c !in cs[..n] && c in g.methodsOf
       then g.methodsOf[c] else [])
      + NewMethods(g, vs, cs, n + 1)
  }

  /** Where the n-th function leads: its call targets, then the methods of the classes it is the first to
      touch. */
  ghost function Leads(g: Program, vs: seq<int>, n: nat): seq<int>
    requires n < |vs|
  {
    if Emits(g, vs[n]) then g.build(vs[n]).targets + NewMethods(g, vs[..n], g.build(vs[n]).classRefs, 0) else []
  }

  /** main, and where the first n functions lead, one after the other. */
  ghost function Offered(g: Program, vs: seq<int>, n: nat): seq<int>
    requires n <= |vs|
  {
    if n == 0 then [g.main] else Offered(g, vs, n - 1) + Leads(g, vs, n - 1)
  }

  /** Each function is the next that the ones before it offer. */
  ghost predicate Begins(g: Program, vs: seq<int>) {
    forall n :: 0 <= n < |vs| ==> NextIs(FirstOnes(Offered(g, vs, n)), n, vs[n])
  }

  ghost predicate NextIs(offered: seq<int>, n: nat, va: int) {
    n < |offered| && offered[n] == va
  }

  /** And nothing else is offered. */
  ghost predicate IsVisitOrder(g: Program, vs: seq<int>) {
    Begins(g, vs) && FirstOnes(Offered(g, vs, |vs|)) == vs
  }

  lemma {:induction false} OfferedByPrefix(g: Program, vs: seq<int>, us: seq<int>, n: nat)
    requires n <= |vs| && n <= |us| && vs[..n] == us[..n]
    ensures Offered(g, vs, n) == Offered(g, us, n)
  {
    if n > 0 {
      assert vs[..n][..n - 1] == vs[..n - 1] && us[..n][..n - 1] == us[..n - 1];
      assert vs[n - 1] == vs[..n][n - 1] == us[..n][n - 1] == us[n - 1];
      OfferedByPrefix(g, vs, us, n - 1);
    }
  }

  /** The order is determined: what begins it is a beginning of it. */
  lemma {:induction false} BeginningOfOrder(g: Program, vs: seq<int>, us: seq<int>, n: nat)
    requires Begins(g, vs) && IsVisitOrder(g, us) && n <= |vs|
    ensures n <= |us| && vs[..n] == us[..n]
  {
    hide Offered, FirstOnes;
    if n > 0 {
      var m := n - 1;
      BeginningOfOrder(g, vs, us, m);
      OfferedByPrefix(g, vs, us, m);
      assert NextIs(FirstOnes(Offered(g, vs, m)), m, vs[m]);
      assert NextIs(FirstOnes(Offered(g, us, m)), m, us[m]);
      assert vs[..n] == vs[..m] + [vs[m]] && us[..n] == us[..m] + [us[m]];
    }
  }

  lemma OrderIsUnique(g: Program, vs: seq<int>, us: seq<int>)
    requires IsVisitOrder(g, vs) && IsVisitOrder(g, us)
    ensures vs == us
  {
    BeginningOfOrder(g, vs, us, |vs|);
    BeginningOfOrder(g, us, vs, |us|);
    assert vs[..|vs|] == vs && us[..|us|] == us;
  }

  // ---------- the walk keeps to it ----------

  function Count(vs: seq<int>, p: int -> bool): nat {
    if vs == [] then 0 else Count(vs[..|vs| - 1], p) + if p(vs[|vs| - 1]) then 1 else 0
  }

  /** The functions that are emitted, in order. */
  function Emitted(g: Program, vs: seq<int>): seq<int> {
    if vs == [] then []
    else
      var n := |vs| - 1;
      Emitted(g, vs[..n]) + if Emits(g, vs[n]) then [vs[n]] else []
  }

  predicate IsFrameworkCode(g: Program, va: int) {
    va in g.ranges && g.isFrameworkUrl(g.codeUrl(g.ranges[va]))
  }

  predicate IsOwnCode(g: Program, va: int) {
    va in g.ranges && !g.isFrameworkUrl(g.codeUrl(g.ranges[va]))
  }

  predicate IsUnnamed(g: Program, va: int) { IsOwnCode(g, va) && g.codeUrl(g.ranges[va]) == "" }

  predicate IsSkipped(g: Program, va: int) { IsOwnCode(g, va) && (g.build(va).Failed? || g.build(va).panicked) }

  function AppClasses(g: Program, touched: set<int>): set<int> {
    set c | c in touched && !g.isFrameworkUrl(g.classUrl(c))
  }

  /** The counters, from the functions visited and the classes touched. */
  ghost predicate Counted(g: Program, w: Walk, vs: seq<int>) {
    && w.frameworkSkipped == Count(vs, va => IsFrameworkCode(g, va))
    && w.unknownLibrary == Count(vs, va => IsUnnamed(g, va))
    && w.skipped == Count(vs, va => IsSkipped(g, va))
    && w.classTouched == |AppClasses(g, w.touched)|
  }

  /** vs are the functions visited so far, in order. */
  ghost predicate Trail(g: Program, w: Walk, vs: seq<int>) {
    && Begins(g, vs) && NoRepeats(vs)
    && (forall va :: va in vs <==> va in w.visited)
    && FirstOnes(vs + w.queue) == FirstOnes(Offered(g, vs, |vs|))
    && (forall c :: c in w.touched <==> Touched(g, vs, c))
    && w.emitted == Emitted(g, vs)
    && Counted(g, w, vs)
  }

  /** What the pool loads of one class queue. */
  ghost function MethodsIfNew(g: Program, vs: seq<int>, cs: seq<int>, n: nat): seq<int>
    requires n < |cs|
  {
    var c := cs[n];
    if c >= 0 && !g.isFrameworkUrl(g.classUrl(c)) && !Touched(g, vs, c) && c !in cs[..n] && c in g.methodsOf
    then g.methodsOf[c] else []
  }

  lemma NewMethodsUnfold(g: Program, vs: seq<int>, cs: seq<int>, n: nat)
    requires n < |cs|
    ensures NewMethods(g, vs, cs, n) == MethodsIfNew(g, vs, cs, n) + NewMethods(g, vs, cs, n + 1)
  {
    hide Touched;
  }

  lemma TouchQueues(g: Program, w: Walk, vs: seq<int>, cs: seq<int>, n: nat)
    requires n < |cs| && forall c :: c in w.touched <==> Touched(g, vs, c) || (c >= 0 && c in cs[..n])
    ensures var w' := Touch(g, w, cs[n]);
            && w'.queue == w.queue + Unvisited(MethodsIfNew(g, vs, cs, n), w.visited) && w'.visited == w.visited
            && forall c :: c in w'.touched <==> Touched(g, vs, c) || (c >= 0 && c in cs[..n + 1])
  {
    hide Touched;
    assert cs[..n + 1] == cs[..n] + [cs[n]];
    assert Unvisited([], w.visited) == [] && w.queue + [] == w.queue;
  }

  lemma TouchAllUnfolds(g: Program, w: Walk, cs: seq<int>, n: nat)
    requires n < |cs|
    ensures TouchAll(g, w, cs[n..]) == TouchAll(g, Touch(g, w, cs[n]), cs[n + 1..])
  {
    hide Touch;
    assert cs[n..][0] == cs[n] && cs[n..][1..] == cs[n + 1..];
  }

  /** Touching classes queues the methods of the new ones. */
  lemma {:induction false} TouchAllQueuesNew(g: Program, w: Walk, vs: seq<int>, cs: seq<int>, n: nat)
    requires n <= |cs| && forall c :: c in w.touched <==> Touched(g, vs, c) || (c >= 0 && c in cs[..n])
    ensures TouchAll(g, w, cs[n..]).queue == w.queue + Unvisited(NewMethods(g, vs, cs, n), w.visited)
    decreases |cs| - n
  {
    hide Touched, Touch, TouchAll, NewMethods, MethodsIfNew, Unvisited;
    if n < |cs| {
      var more, rest := MethodsIfNew(g, vs, cs, n), NewMethods(g, vs, cs, n + 1);
      TouchQueues(g, w, vs, cs, n);
      TouchAllUnfolds(g, w, cs, n);
      NewMethodsUnfold(g, vs, cs, n);
      TouchAllQueuesNew(g, Touch(g, w, cs[n]), vs, cs, n + 1);
      UnvisitedAppend(more, rest, w.visited);
      assert w.queue + Unvisited(more, w.visited) + Unvisited(rest, w.visited)
          == w.queue + (Unvisited(more, w.visited) + Unvisited(rest, w.visited));
    } else {
      NoneLeft(g, w, vs, cs);
    }
  }

  lemma NoneLeft(g: Program, w: Walk, vs: seq<int>, cs: seq<int>)
    ensures TouchAll(g, w, cs[|cs|..]).queue == w.queue + Unvisited(NewMethods(g, vs, cs, |cs|), w.visited)
  {
  }

  /** A function that is visited first queues what it leads to. */
  lemma StepQueues(g: Program, w: Walk, vs: seq<int>)
    requires w.queue != [] && w.queue[0] !in w.visited && forall c :: c in w.touched <==> Touched(g, vs, c)
    ensures var va := w.queue[0];
            var us := vs + [va];
            && Step(g, w).queue == w.queue[1..] + Unvisited(Leads(g, us, |vs|), w.visited + {va})
            && forall c :: c in Step(g, w).touched <==> Touched(g, us, c)
  {
    hide TouchAll, NewMethods, Unvisited, Touched;
    var va := w.queue[0];
    var us := vs + [va];
    assert us[..|vs|] == vs;
    TouchedByOneMore(g, vs, va);
    NoneUnvisited(w.visited + {va});
    if Emits(g, va) {
      var b := g.build(va);
      var w2 := BeforeExpand(g, w).(emitted := w.emitted + [va]);
      var w3 := Push(w2, b.targets);
      assert b.classRefs[0..] == b.classRefs;
      TouchAllQueuesNew(g, w3, vs, b.classRefs, 0);
      TouchAllMarks(g, w3, b.classRefs);
      UnvisitedAppend(b.targets, NewMethods(g, vs, b.classRefs, 0), w2.visited);
      assert w.queue[1..] + Unvisited(b.targets, w2.visited) + Unvisited(NewMethods(g, vs, b.classRefs, 0), w2.visited)
          == w.queue[1..] + (Unvisited(b.targets, w2.visited) + Unvisited(NewMethods(g, vs, b.classRefs, 0), w2.visited));
    }
  }

  lemma NoneUnvisited(visited: set<int>)
    ensures Unvisited([], visited) == []
  {
  }

  lemma TouchedByOneMore(g: Program, vs: seq<int>, va: int)
    ensures forall c :: Touched(g, vs + [va], c) <==> Touched(g, vs, c) || (c >= 0 && Emits(g, va) && c in g.build(va).classRefs)
  {
    var us := vs + [va];
    forall c ensures Touched(g, us, c) <==> Touched(g, vs, c) || (c >= 0 && Emits(g, va) && c in g.build(va).classRefs) {
      assert us[|vs|] == va;
      if Touched(g, vs, c) {
        var i :| 0 <= i < |vs| && Emits(g, vs[i]) && c in g.build(vs[i]).classRefs;
        assert us[i] == vs[i];
      }
    }
  }

  /** An address visited before is passed over. */
  lemma RepeatKeepsTrail(g: Program, w: Walk, vs: seq<int>)
    requires w.queue != [] && Trail(g, w, vs) && w.queue[0] in w.visited
    ensures Trail(g, Step(g, w), vs)
  {
    hide Begins, NoRepeats, FirstOnes, Offered, Touched, Emitted, Step, Counted;
    StepMoves(g, w);
    var va := w.queue[0];
    assert w.queue == [va] + w.queue[1..];
    assert vs + w.queue == vs + [va] + w.queue[1..];
    SeenBefore(vs, va, w.queue[1..]);
    SameCounters(g, w, Step(g, w), vs);
  }

  lemma SameCounters(g: Program, w: Walk, w': Walk, vs: seq<int>)
    requires Counted(g, w, vs) && w' == w.(queue := w'.queue)
    ensures Counted(g, w', vs)
  {
  }

  /** The next address is the next in the order. */
  lemma OneMoreBegins(g: Program, w: Walk, vs: seq<int>)
    requires w.queue != [] && Trail(g, w, vs) && w.queue[0] !in w.visited
    ensures var us := vs + [w.queue[0]]; Begins(g, us) && NoRepeats(us) && Offered(g, us, |vs|) == Offered(g, vs, |vs|)
  {
    hide FirstOnes, Offered, Touched, Emitted, Counted;
    var va, rest := w.queue[0], w.queue[1..];
    var us := vs + [va];
    assert us[..|vs|] == vs[..|vs|];
    OfferedByPrefix(g, us, vs, |vs|);
    assert NoRepeats(us);
    NothingToDrop(us);
    FirstOnesGrow(us, rest);
    assert vs + w.queue == us + rest;
    forall n | 0 <= n < |us| ensures NextIs(FirstOnes(Offered(g, us, n)), n, us[n]) {
      if n < |vs| {
        assert us[..n] == vs[..n];
        OfferedByPrefix(g, us, vs, n);
        assert NextIs(FirstOnes(Offered(g, vs, n)), n, vs[n]);
      }
    }
  }

  lemma VisitKeepsTrail(g: Program, w: Walk, vs: seq<int>)
    requires w.queue != [] && Trail(g, w, vs) && w.queue[0] !in w.visited
    ensures Trail(g, Step(g, w), vs + [w.queue[0]])
  {
    hide Begins, NoRepeats, FirstOnes, Touched, Emitted, Step, Unvisited, Leads, Counted;
    var va, rest := w.queue[0], w.queue[1..];
    var us := vs + [va];
    var leads, visited := Leads(g, us, |vs|), w.visited + {va};
    OneMoreBegins(g, w, vs);
    StepQueues(g, w, vs);
    StepMoves(g, w);
    OneMoreEmitted(g, w, vs);
    OneMoreCounted(g, w, vs);
    assert us + (rest + Unvisited(leads, visited)) == us + rest + Unvisited(leads, visited);
    VisitedDropOut(us + rest, leads, visited);
    assert vs + w.queue == us + rest;
    SameInFront(us + rest, Offered(g, vs, |vs|), leads);
  }

  lemma OneMoreEmitted(g: Program, w: Walk, vs: seq<int>)
    requires w.queue != [] && w.queue[0] !in w.visited && w.emitted == Emitted(g, vs)
    ensures Step(g, w).emitted == Emitted(g, vs + [w.queue[0]])
  {
    hide Step;
    StepMoves(g, w);
    assert (vs + [w.queue[0]])[..|vs|] == vs;
    assert w.emitted + [] == w.emitted;
  }

  lemma CountOne(vs: seq<int>, va: int, p: int -> bool)
    ensures Count(vs + [va], p) == Count(vs, p) + if p(va) then 1 else 0
  {
    assert (vs + [va])[..|vs|] == vs;
  }

  /** Every class touched for the first time is counted if it is app code. */
  lemma {:induction false} TouchAllCounts(g: Program, w: Walk, cs: seq<int>)
    requires w.classTouched == |AppClasses(g, w.touched)|
    ensures TouchAll(g, w, cs).classTouched == |AppClasses(g, TouchAll(g, w, cs).touched)|
    decreases |cs|
  {
    hide AppClasses, Unvisited;
    if cs != [] {
      if cs[0] >= 0 && cs[0] !in w.touched { OneMoreClass(g, w.touched, cs[0]); }
      TouchAllCounts(g, Touch(g, w, cs[0]), cs[1..]);
    }
  }

  lemma OneMoreClass(g: Program, touched: set<int>, c: int)
    requires c !in touched
    ensures |AppClasses(g, touched + {c})| == |AppClasses(g, touched)| + if g.isFrameworkUrl(g.classUrl(c)) then 0 else 1
  {
    if g.isFrameworkUrl(g.classUrl(c)) {
      assert AppClasses(g, touched + {c}) == AppClasses(g, touched);
    } else {
      assert AppClasses(g, touched + {c}) == AppClasses(g, touched) + {c};
    }
  }

  lemma OneMoreCounted(g: Program, w: Walk, vs: seq<int>)
    requires w.queue != [] && w.queue[0] !in w.visited && Counted(g, w, vs)
    ensures Counted(g, Step(g, w), vs + [w.queue[0]])
  {
    hide TouchAll, AppClasses, Unvisited, Count;
    var va := w.queue[0];
    CountOne(vs, va, va => IsFrameworkCode(g, va));
    CountOne(vs, va, va => IsUnnamed(g, va));
    CountOne(vs, va, va => IsSkipped(g, va));
    if Emits(g, va) {
      var b := g.build(va);
      var w3 := Push(BeforeExpand(g, w).(emitted := w.emitted + [va]), b.targets);
      TouchAllMarks(g, w3, b.classRefs);
      TouchAllCounts(g, w3, b.classRefs);
    }
  }

  lemma {:induction false} RunKeepsTrail(g: Program, max: int, w: Walk, vs: seq<int>) returns (us: seq<int>)
    requires InUniverse(g, w) && Trail(g, w, vs)
    ensures Trail(g, RunFrom(g, max, w), us)
    decreases |g.Universe() - w.visited|, |w.queue|
  {
    hide Step, Trail, InUniverse, RunFrom, Program.Universe;
    if w.queue != [] && !Capped(max, w) {
      RunTurn(g, max, w);
      if w.queue[0] in w.visited {
        RepeatKeepsTrail(g, w, vs);
        us := RunKeepsTrail(g, max, Step(g, w), vs);
      } else {
        VisitKeepsTrail(g, w, vs);
        us := RunKeepsTrail(g, max, Step(g, w), vs + [w.queue[0]]);
      }
    } else {
      RunStops(g, max, w);
      us := vs;
    }
  }

  lemma StartTrail(g: Program)
    ensures Trail(g, Start(g), [])
  {
    assert [] + [g.main] == [g.main];
    assert AppClasses(g, {}) == {};
  }

  /** Whatever the cap, the functions visited are the first ones of the order, those that expand are emitted
      in it, and each counter is the number of functions or classes it is for; if the queue has emptied they
      are the whole order. */
  lemma FirstInFirstOut(g: Program, max: int) returns (vs: seq<int>)
    ensures var w := Run(g, max);
            && Begins(g, vs) && NoRepeats(vs) && (forall va :: va in vs <==> va in w.visited)
            && (forall c :: c in w.touched <==> Touched(g, vs, c))
            && w.emitted == Emitted(g, vs) && Counted(g, w, vs)
            && (w.queue == [] ==> IsVisitOrder(g, vs))
  {
    hide RunFrom, Begins, FirstOnes, Offered, Emitted, Touched, Counted;
    StartInUniverse(g);
    StartTrail(g);
    vs := RunKeepsTrail(g, max, Start(g), []);
    if Run(g, max).queue == [] {
      assert vs + [] == vs;
      NothingToDrop(vs);
    }
  }

  /** A cap keeps exactly the first functions of the order that are emitted. */
  lemma CapKeepsTheFirst(g: Program, max: int, vs: seq<int>)
    requires IsVisitOrder(g, vs)
    ensures Run(g, 0).emitted == Emitted(g, vs)
    ensures Run(g, max).emitted == if 0 < max < |Emitted(g, vs)| then Emitted(g, vs)[..max] else Emitted(g, vs)
  {
    hide Begins, FirstOnes, Offered, Emitted, Touched, Counted, RunFrom;
    var us := FirstInFirstOut(g, 0);
    UncappedRunFinishes(g);
    OrderIsUnique(g, us, vs);
    CappedRunIsPrefix(g, max);
    RunEnds(g, max);
    if Run(g, max).queue == [] {
      var ts := FirstInFirstOut(g, max);
      OrderIsUnique(g, ts, vs);
    }
  }
}
